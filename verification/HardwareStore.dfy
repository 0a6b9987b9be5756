/**
 Hardware reports: SaveHardwareReport splits one report over five tables, and the loaders put it
 together again.
 */
module HardwareStore {
  import opened Integers
  import opened Options
  import opened Sequences
  import Codec = ArrayCodec

  // ---- The 64-bit columns -----------------------------------------------------------

  /** Go's int64(x) of a uint64. */
  function ToI64(x: u64): (y: i64)
    ensures y == x || y == x - TWO_64
  {
    if x < TWO_63 then x else x - TWO_64
  }

  /** Go's uint64(x) of an int64. */
  function ToU64(x: i64): (y: u64)
    ensures y == x || y == x + TWO_64
  {
    if x >= 0 then x else x + TWO_64
  }

  lemma CastsRoundTrip(x: u64)
    ensures ToU64(ToI64(x)) == x
  {
  }

  // ---- The report ------------------------------------------------------------------

  datatype Cpu = Cpu(model: string, cores: int, threads: int, arch: string)
  datatype Memory = Memory(total: u64, available: u64, used: u64)
  datatype Disk = Disk(device: string, mountPoint: string, fsType: string, total: u64, used: u64, free: u64)
  datatype Net = Net(name: string, mac: string, ips: seq<string>, loopback: bool)
  datatype Bios = Bios(vendor: string, version: string, releaseDate: string)
  datatype Board = Board(manufacturer: string, product: string, serial: string)

  datatype Info = Info(
    cpu: Option<Cpu>, memory: Option<Memory>, disks: seq<Disk>, nets: seq<Net>, bios: Option<Bios>, board: Option<Board>)

  /** The getters of an absent message return zero values. */
  function CpuOf(info: Info): Cpu {
    if info.cpu.Some? then info.cpu.value else Cpu("", 0, 0, "")
  }

  function MemoryOf(info: Info): Memory {
    if info.memory.Some? then info.memory.value else Memory(0, 0, 0)
  }

  // ---- The tables ------------------------------------------------------------------

  type ReportId = nat

  datatype ReportRow = ReportRow(id: ReportId, device: string, session: string, createdAt: int,
                                 cpu: Cpu, memTotal: i64, memAvail: i64, memUsed: i64)
  datatype DiskRow = DiskRow(id: ReportId, device: string, mountPoint: string, fsType: string, total: i64, used: i64, free: i64)
  datatype NetRow = NetRow(id: ReportId, name: string, mac: string, ips: string, loopback: bool)
  datatype BiosRow = BiosRow(id: ReportId, bios: Bios)
  datatype BoardRow = BoardRow(id: ReportId, board: Board)

  datatype Tables = Tables(
    reports: seq<ReportRow>, disks: seq<DiskRow>, nets: seq<NetRow>, bios: seq<BiosRow>, boards: seq<BoardRow>)

  const EMPTY := Tables([], [], [], [], [])

  /** One call of SaveHardwareReport with a hardware payload. */
  datatype Save = Save(id: ReportId, device: string, session: string, now: int, info: Info)

  function MainRow(save: Save): ReportRow {
    var memory := MemoryOf(save.info);
    ReportRow(save.id, save.device, save.session, save.now,
              CpuOf(save.info), ToI64(memory.total), ToI64(memory.available), ToI64(memory.used))
  }

  function ToDiskRow(id: ReportId, d: Disk): DiskRow {
    DiskRow(id, d.device, d.mountPoint, d.fsType, ToI64(d.total), ToI64(d.used), ToI64(d.free))
  }

  function ToNetRow(id: ReportId, n: Net): NetRow {
    NetRow(id, n.name, n.mac, Codec.Marshal(n.ips), n.loopback)
  }

  function DiskRows(id: ReportId, disks: seq<Disk>): seq<DiskRow> {
    if disks == [] then [] else [ToDiskRow(id, disks[0])] + DiskRows(id, disks[1..])
  }

  function NetRows(id: ReportId, nets: seq<Net>): seq<NetRow> {
    if nets == [] then [] else [ToNetRow(id, nets[0])] + NetRows(id, nets[1..])
  }

  predicate HasReport(t: Tables, id: ReportId) {
    exists i :: 0 <= i < |t.reports| && t.reports[i].id == id
  }

  /** INSERT OR IGNORE: a report id that is already stored changes nothing. */
  function Saved(t: Tables, save: Save): Tables {
    if HasReport(t, save.id) then t
    else Tables(
      t.reports + [MainRow(save)],
      t.disks + DiskRows(save.id, save.info.disks),
      t.nets + NetRows(save.id, save.info.nets),
      if save.info.bios.Some? then t.bios + [BiosRow(save.id, save.info.bios.value)] else t.bios,
      if save.info.board.Some? then t.boards + [BoardRow(save.id, save.info.board.value)] else t.boards)
  }

  // ---- Loading ----------------------------------------------------------------------

  function FromDiskRow(r: DiskRow): Disk {
    Disk(r.device, r.mountPoint, r.fsType, ToU64(r.total), ToU64(r.used), ToU64(r.free))
  }

  /** Every stored array was printed by marshalJSONArray, so none is one byte long. */
  function FromNetRow(r: NetRow): Net {
    Net(r.name, r.mac, if |r.ips| != 1 then Codec.Parse(r.ips) else [], r.loopback)
  }

  function DisksOf(rows: seq<DiskRow>, id: ReportId): seq<Disk> {
    if rows == [] then []
    else (if rows[0].id == id then [FromDiskRow(rows[0])] else []) + DisksOf(rows[1..], id)
  }

  function NetsOf(rows: seq<NetRow>, id: ReportId): seq<Net> {
    if rows == [] then []
    else (if rows[0].id == id then [FromNetRow(rows[0])] else []) + NetsOf(rows[1..], id)
  }

  function BiosOf(rows: seq<BiosRow>, id: ReportId): Option<Bios> {
    if rows == [] then None else if rows[0].id == id then Some(rows[0].bios) else BiosOf(rows[1..], id)
  }

  function BoardOf(rows: seq<BoardRow>, id: ReportId): Option<Board> {
    if rows == [] then None else if rows[0].id == id then Some(rows[0].board) else BoardOf(rows[1..], id)
  }

  function ReportOf(rows: seq<ReportRow>, id: ReportId): Option<ReportRow> {
    if rows == [] then None else if rows[0].id == id then Some(rows[0]) else ReportOf(rows[1..], id)
  }

  /** The report a main row and its sub-rows describe. */
  function Assemble(t: Tables, row: ReportRow): Info {
    Info(Some(row.cpu), Some(Memory(ToU64(row.memTotal), ToU64(row.memAvail), ToU64(row.memUsed))),
         DisksOf(t.disks, row.id), NetsOf(t.nets, row.id), BiosOf(t.bios, row.id), BoardOf(t.boards, row.id))
  }

  function Load(t: Tables, id: ReportId): Option<Info> {
    var row := ReportOf(t.reports, id);
    if row.Some? then Some(Assemble(t, row.value)) else None
  }

  /** ORDER BY created_at DESC LIMIT 1 of a device's reports; the first stored wins a tie. */
  function Latest(rows: seq<ReportRow>, device: string): Option<ReportRow> {
    if rows == [] then None
    else
      var n := |rows| - 1;
      var best := Latest(rows[..n], device);
      if rows[n].device == device && (best.None? || best.value.createdAt < rows[n].createdAt) then Some(rows[n]) else best
  }

  // ---- The store --------------------------------------------------------------------

  /** Report ids are unique, and every sub-row belongs to a stored report. */
  ghost predicate Integrity(t: Tables) {
    && (forall i, j :: 0 <= i < j < |t.reports| ==> t.reports[i].id != t.reports[j].id)
    && (forall i :: 0 <= i < |t.disks| ==> HasReport(t, t.disks[i].id))
    && (forall i :: 0 <= i < |t.nets| ==> HasReport(t, t.nets[i].id))
    && (forall i :: 0 <= i < |t.bios| ==> HasReport(t, t.bios[i].id))
    && (forall i :: 0 <= i < |t.boards| ==> HasReport(t, t.boards[i].id))
  }

  /** A new report's rows, column by column: sizes are the same number modulo 2^64, and address lists are printed. */
  ghost predicate HoldsReport(t: Tables, t': Tables, save: Save) {
    && HoldsMain(t.reports, t'.reports, save)
    && HoldsDisks(t.disks, t'.disks, save.id, save.info.disks)
    && HoldsNets(t.nets, t'.nets, save.id, save.info.nets)
    && t'.bios == t.bios + (if save.info.bios.Some? then [BiosRow(save.id, save.info.bios.value)] else [])
    && t'.boards == t.boards + (if save.info.board.Some? then [BoardRow(save.id, save.info.board.value)] else [])
  }

  ghost predicate HoldsMain(before: seq<ReportRow>, after: seq<ReportRow>, save: Save) {
    && |after| == |before| + 1 && before <= after
    && var row, info := after[|before|], save.info;
       && row.id == save.id && row.device == save.device && row.session == save.session && row.createdAt == save.now
       && row.cpu == (if info.cpu.Some? then info.cpu.value else Cpu("", 0, 0, ""))
       && ToU64(row.memTotal) == (if info.memory.Some? then info.memory.value.total else 0)
       && ToU64(row.memAvail) == (if info.memory.Some? then info.memory.value.available else 0)
       && ToU64(row.memUsed) == (if info.memory.Some? then info.memory.value.used else 0)
  }

  ghost predicate HoldsDisks(before: seq<DiskRow>, after: seq<DiskRow>, id: ReportId, disks: seq<Disk>) {
    && |after| == |before| + |disks| && before <= after
    && forall i :: 0 <= i < |disks| ==>
         var row, d := after[|before| + i], disks[i];
         && row.id == id && row.device == d.device && row.mountPoint == d.mountPoint && row.fsType == d.fsType
         && ToU64(row.total) == d.total && ToU64(row.used) == d.used && ToU64(row.free) == d.free
  }

  ghost predicate HoldsNets(before: seq<NetRow>, after: seq<NetRow>, id: ReportId, nets: seq<Net>) {
    && |after| == |before| + |nets| && before <= after
    && forall i :: 0 <= i < |nets| ==>
         var row, n := after[|before| + i], nets[i];
         && row.id == id && row.name == n.name && row.mac == n.mac && row.loopback == n.loopback
         && row.ips == Codec.Marshal(n.ips)
  }

  method ReadNet(row: NetRow) returns (net: Net)
    ensures net == FromNetRow(row)
  {
    var ips := [];
    if |row.ips| != 1 {
      ips := Codec.ParseJSONStringArray(row.ips);
    }
    net := Net(row.name, row.mac, ips, row.loopback);
  }

  class Store {
    var reports: seq<ReportRow>
    var disks: seq<DiskRow>
    var nets: seq<NetRow>
    var bios: seq<BiosRow>
    var boards: seq<BoardRow>

    function Content(): Tables
      reads this
    {
      Tables(reports, disks, nets, bios, boards)
    }

    constructor ()
      ensures Content() == EMPTY && Integrity(Content())
    {
      reports, disks, nets, bios, boards := [], [], [], [], [];
    }

    method InsertDisks(id: ReportId, items: seq<Disk>)
      modifies this`disks
      ensures disks == old(disks) + DiskRows(id, items)
    {
      for i := 0 to |items|
        invariant disks + DiskRows(id, items[i..]) == old(disks) + DiskRows(id, items)
      {
        ghost var was, rest := disks, DiskRows(id, items[i + 1..]);
        assert items[i..][1..] == items[i + 1..];
        disks := disks + [ToDiskRow(id, items[i])];
        Assoc(was, [ToDiskRow(id, items[i])], rest);
      }
    }

    method InsertNets(id: ReportId, items: seq<Net>)
      modifies this`nets
      ensures nets == old(nets) + NetRows(id, items)
    {
      for i := 0 to |items|
        invariant nets + NetRows(id, items[i..]) == old(nets) + NetRows(id, items)
      {
        ghost var was, rest := nets, NetRows(id, items[i + 1..]);
        assert items[i..][1..] == items[i + 1..];
        var ips := Codec.MarshalJSONArray(items[i].ips);
        var row := NetRow(id, items[i].name, items[i].mac, ips, items[i].loopback);
        nets := nets + [row];
        Assoc(was, [row], rest);
      }
    }

    /** One transaction. An absent payload is an error and changes nothing. */
    method SaveHardwareReport(id: ReportId, device: string, session: string, now: int, payload: Option<Info>) returns (ok: bool)
      requires Integrity(Content())
      modifies this
      ensures Integrity(Content())
      ensures ok <==> payload.Some?
      ensures Content() == if ok then Saved(old(Content()), Save(id, device, session, now, payload.value)) else old(Content())
      ensures ok && HasReport(old(Content()), id) ==> Content() == old(Content())
      ensures ok && !HasReport(old(Content()), id) ==>
        HoldsReport(old(Content()), Content(), Save(id, device, session, now, payload.value))
    {
      if payload.None? {
        return false;
      }
      var info := payload.value;
      ghost var save := Save(id, device, session, now, info);
      SavedKeepsIntegrity(Content(), save);
      SavedHolds(Content(), save);
      if HasReport(Content(), id) {
        return true;  // a replayed message
      }
      reports := reports + [MainRow(Save(id, device, session, now, info))];
      InsertDisks(id, info.disks);
      InsertNets(id, info.nets);
      if info.bios.Some? {
        if exists i :: 0 <= i < |bios| && bios[i].id == id {
          assert false;  // a UNIQUE conflict would roll back, but the report is new
        }
        bios := bios + [BiosRow(id, info.bios.value)];
      }
      if info.board.Some? {
        if exists i :: 0 <= i < |boards| && boards[i].id == id {
          assert false;  // likewise
        }
        boards := boards + [BoardRow(id, info.board.value)];
      }
      return true;
    }

    method LoadDisks(id: ReportId) returns (loaded: seq<Disk>)
      ensures loaded == DisksOf(disks, id)
    {
      loaded := [];
      for i := 0 to |disks|
        invariant loaded + DisksOf(disks[i..], id) == DisksOf(disks, id)
      {
        assert disks[i..][1..] == disks[i + 1..];
        if disks[i].id == id {
          loaded := loaded + [FromDiskRow(disks[i])];
        }
      }
    }

    method LoadNets(id: ReportId) returns (loaded: seq<Net>)
      ensures loaded == NetsOf(nets, id)
    {
      loaded := [];
      for i := 0 to |nets|
        invariant loaded + NetsOf(nets[i..], id) == NetsOf(nets, id)
      {
        assert nets[i..][1..] == nets[i + 1..];
        if nets[i].id == id {
          var net := ReadNet(nets[i]);
          Assoc(loaded, [net], NetsOf(nets[i + 1..], id));
          loaded := loaded + [net];
        }
      }
    }

    method GetLatestHardware(device: string) returns (info: Option<Info>)
      ensures var row := Latest(reports, device);
              info == if row.Some? then Some(Assemble(Content(), row.value)) else None
    {
      var best: Option<ReportRow> := None;
      for i := 0 to |reports|
        invariant best == Latest(reports[..i], device)
      {
        assert reports[..i + 1][..i] == reports[..i];
        if reports[i].device == device && (best.None? || best.value.createdAt < reports[i].createdAt) {
          best := Some(reports[i]);
        }
      }
      assert reports[..|reports|] == reports;
      if best.None? {
        return None;
      }
      var row := best.value;
      var loadedDisks := LoadDisks(row.id);
      var loadedNets := LoadNets(row.id);
      info := Some(Info(Some(row.cpu), Some(Memory(ToU64(row.memTotal), ToU64(row.memAvail), ToU64(row.memUsed))),
                        loadedDisks, loadedNets, BiosOf(bios, row.id), BoardOf(boards, row.id)));
    }
  }

  lemma {:induction false} DiskRowsId(id: ReportId, disks: seq<Disk>)
    ensures forall i :: 0 <= i < |DiskRows(id, disks)| ==> DiskRows(id, disks)[i].id == id
  {
    if disks != [] {
      DiskRowsId(id, disks[1..]);
    }
  }

  lemma {:induction false} NetRowsId(id: ReportId, nets: seq<Net>)
    ensures forall i :: 0 <= i < |NetRows(id, nets)| ==> NetRows(id, nets)[i].id == id
  {
    if nets != [] {
      NetRowsId(id, nets[1..]);
    }
  }

  lemma {:induction false} DiskRowsAt(id: ReportId, disks: seq<Disk>)
    ensures |DiskRows(id, disks)| == |disks|
    ensures forall i :: 0 <= i < |disks| ==> DiskRows(id, disks)[i] == ToDiskRow(id, disks[i])
  {
    if disks != [] {
      DiskRowsAt(id, disks[1..]);
    }
  }

  lemma {:induction false} NetRowsAt(id: ReportId, nets: seq<Net>)
    ensures |NetRows(id, nets)| == |nets|
    ensures forall i :: 0 <= i < |nets| ==> NetRows(id, nets)[i] == ToNetRow(id, nets[i])
  {
    if nets != [] {
      NetRowsAt(id, nets[1..]);
    }
  }

  lemma DiskRowsHold(before: seq<DiskRow>, id: ReportId, disks: seq<Disk>)
    ensures HoldsDisks(before, before + DiskRows(id, disks), id, disks)
  {
    DiskRowsAt(id, disks);
    forall i | 0 <= i < |disks| ensures ToU64(ToI64(disks[i].total)) == disks[i].total {
      CastsRoundTrip(disks[i].total);
    }
  }

  lemma NetRowsHold(before: seq<NetRow>, id: ReportId, nets: seq<Net>)
    ensures HoldsNets(before, before + NetRows(id, nets), id, nets)
  {
    NetRowsAt(id, nets);
  }

  lemma SavedHolds(t: Tables, save: Save)
    ensures if HasReport(t, save.id) then Saved(t, save) == t else HoldsReport(t, Saved(t, save), save)
  {
    if !HasReport(t, save.id) {
      DiskRowsHold(t.disks, save.id, save.info.disks);
      NetRowsHold(t.nets, save.id, save.info.nets);
      CastsRoundTrip(MemoryOf(save.info).total);
      CastsRoundTrip(MemoryOf(save.info).available);
      CastsRoundTrip(MemoryOf(save.info).used);
    }
  }

  lemma SavedReports(t: Tables, save: Save, id: ReportId)
    ensures HasReport(Saved(t, save), id) <==> HasReport(t, id) || id == save.id
  {
    var t' := Saved(t, save);
    if t' != t {
      assert t'.reports[|t.reports|].id == save.id;
      if i :| 0 <= i < |t.reports| && t.reports[i].id == id {
        assert t'.reports[i].id == id;
      }
    }
  }

  lemma SavedKeepsIntegrity(t: Tables, save: Save)
    requires Integrity(t)
    ensures Integrity(Saved(t, save))
  {
    forall id ensures HasReport(Saved(t, save), id) <==> HasReport(t, id) || id == save.id {
      SavedReports(t, save, id);
    }
    DiskRowsId(save.id, save.info.disks);
    NetRowsId(save.id, save.info.nets);
  }
}
