/** What the hardware tables hold after any sequence of saves, repeated report ids included. */
module HardwareHistory {
  import opened Options
  import opened Sequences
  import opened HardwareStore
  import Codec = ArrayCodec

  /** The tables after these saves, starting from an empty database. */
  function Replay(saves: seq<Save>): Tables {
    if saves == [] then EMPTY else Saved(Replay(saves[..|saves| - 1]), saves[|saves| - 1])
  }

  /** The first save under a report id. */
  function First(saves: seq<Save>, id: ReportId): Option<Save> {
    if saves == [] then None else if saves[0].id == id then Some(saves[0]) else First(saves[1..], id)
  }

  /** The report the store owes its reader: absent CPU and memory read as zero records. */
  function Filled(info: Info): Info {
    info.(cpu := Some(if info.cpu.Some? then info.cpu.value else Cpu("", 0, 0, "")),
          memory := Some(if info.memory.Some? then info.memory.value else Memory(0, 0, 0)))
  }

  /** What the address lists become on their way through the codec. */
  function Recoded(nets: seq<Net>): seq<Net> {
    if nets == [] then [] else [nets[0].(ips := FromNetRow(ToNetRow(0, nets[0])).ips)] + Recoded(nets[1..])
  }

  predicate AsciiAddresses(nets: seq<Net>) {
    nets == [] || (Codec.AllAscii(nets[0].ips) && AsciiAddresses(nets[1..]))
  }

  /** No address ends in a backslash. */
  predicate CleanAddresses(nets: seq<Net>) {
    nets == [] || (Codec.BackslashEnds(nets[0].ips) == 0 && CleanAddresses(nets[1..]))
  }

  // ---- The sub-tables ------------------------------------------------------------

  lemma {:induction false} DisksAppend(xs: seq<DiskRow>, ys: seq<DiskRow>, id: ReportId)
    ensures DisksOf(xs + ys, id) == DisksOf(xs, id) + DisksOf(ys, id)
  {
    if xs == [] {
      assert xs + ys == ys;
    } else {
      assert (xs + ys)[1..] == xs[1..] + ys;
      DisksAppend(xs[1..], ys, id);
      Assoc(if xs[0].id == id then [FromDiskRow(xs[0])] else [], DisksOf(xs[1..], id), DisksOf(ys, id));
    }
  }

  lemma {:induction false} NetsAppend(xs: seq<NetRow>, ys: seq<NetRow>, id: ReportId)
    ensures NetsOf(xs + ys, id) == NetsOf(xs, id) + NetsOf(ys, id)
  {
    if xs == [] {
      assert xs + ys == ys;
    } else {
      assert (xs + ys)[1..] == xs[1..] + ys;
      NetsAppend(xs[1..], ys, id);
      Assoc(if xs[0].id == id then [FromNetRow(xs[0])] else [], NetsOf(xs[1..], id), NetsOf(ys, id));
    }
  }

  lemma {:induction false} DisksReadBack(id: ReportId, disks: seq<Disk>, other: ReportId)
    ensures DisksOf(DiskRows(id, disks), other) == if other == id then disks else []
  {
    if disks != [] {
      DisksReadBack(id, disks[1..], other);
      var d := disks[0];
      CastsRoundTrip(d.total);
      CastsRoundTrip(d.used);
      CastsRoundTrip(d.free);
      assert DiskRows(id, disks)[1..] == DiskRows(id, disks[1..]);
      assert disks == [d] + disks[1..];
    }
  }

  lemma {:induction false} NetsReadBack(id: ReportId, nets: seq<Net>, other: ReportId)
    ensures NetsOf(NetRows(id, nets), other) == if other == id then Recoded(nets) else []
  {
    if nets != [] {
      NetsReadBack(id, nets[1..], other);
      assert NetRows(id, nets)[1..] == NetRows(id, nets[1..]);
    }
  }

  lemma {:induction false} BiosAppend(xs: seq<BiosRow>, y: BiosRow, id: ReportId)
    ensures BiosOf(xs + [y], id)
            == if BiosOf(xs, id).Some? then BiosOf(xs, id) else if y.id == id then Some(y.bios) else None
  {
    if xs == [] {
      assert (xs + [y])[1..] == [];
    } else {
      assert (xs + [y])[1..] == xs[1..] + [y];
      BiosAppend(xs[1..], y, id);
    }
  }

  lemma {:induction false} BoardAppend(xs: seq<BoardRow>, y: BoardRow, id: ReportId)
    ensures BoardOf(xs + [y], id)
            == if BoardOf(xs, id).Some? then BoardOf(xs, id) else if y.id == id then Some(y.board) else None
  {
    if xs == [] {
      assert (xs + [y])[1..] == [];
    } else {
      assert (xs + [y])[1..] == xs[1..] + [y];
      BoardAppend(xs[1..], y, id);
    }
  }

  lemma {:induction false} ReportAppend(xs: seq<ReportRow>, y: ReportRow, id: ReportId)
    ensures ReportOf(xs + [y], id)
            == if ReportOf(xs, id).Some? then ReportOf(xs, id) else if y.id == id then Some(y) else None
  {
    if xs == [] {
      assert (xs + [y])[1..] == [];
    } else {
      assert (xs + [y])[1..] == xs[1..] + [y];
      ReportAppend(xs[1..], y, id);
    }
  }

  lemma {:induction false} ReportFound(rows: seq<ReportRow>, id: ReportId)
    ensures ReportOf(rows, id).Some? <==> exists i :: 0 <= i < |rows| && rows[i].id == id
    ensures ReportOf(rows, id).Some? ==> ReportOf(rows, id).value.id == id && ReportOf(rows, id).value in rows
  {
    if rows != [] {
      ReportFound(rows[1..], id);
      if i :| 0 <= i < |rows| && rows[i].id == id && i > 0 {
        assert rows[1..][i - 1].id == id;
      }
      assert forall i :: 0 <= i < |rows| - 1 ==> rows[1..][i] == rows[i + 1];
    }
  }

  /** A report that is not stored has no sub-rows. */
  lemma {:induction false} NoStrayRows(t: Tables, id: ReportId)
    requires forall i :: 0 <= i < |t.disks| ==> t.disks[i].id != id
    requires forall i :: 0 <= i < |t.nets| ==> t.nets[i].id != id
    requires forall i :: 0 <= i < |t.bios| ==> t.bios[i].id != id
    requires forall i :: 0 <= i < |t.boards| ==> t.boards[i].id != id
    ensures DisksOf(t.disks, id) == [] && NetsOf(t.nets, id) == []
    ensures BiosOf(t.bios, id) == None && BoardOf(t.boards, id) == None
    decreases |t.disks| + |t.nets| + |t.bios| + |t.boards|
  {
    if t.disks != [] {
      NoStrayRows(t.(disks := t.disks[1..]), id);
    } else if t.nets != [] {
      NoStrayRows(t.(nets := t.nets[1..]), id);
    } else if t.bios != [] {
      NoStrayRows(t.(bios := t.bios[1..]), id);
    } else if t.boards != [] {
      NoStrayRows(t.(boards := t.boards[1..]), id);
    }
  }

  // ---- One save --------------------------------------------------------------------

  /** What the tables give back for a payload. */
  function Rebuilt(info: Info): Info {
    Filled(info).(nets := Recoded(info.nets))
  }

  /** A save under a new id can be read back. */
  lemma NewSaveLoads(t: Tables, save: Save)
    requires Integrity(t) && !HasReport(t, save.id)
    ensures Load(Saved(t, save), save.id) == Some(Rebuilt(save.info))
  {
    SubRowsAfterSave(t, save, save.id);
    ReportAppend(t.reports, MainRow(save), save.id);
    ReportFound(t.reports, save.id);
    NoStrayRows(t, save.id);
    MainRowReadsBack(save);
    assert [] + save.info.disks == save.info.disks;
    assert [] + Recoded(save.info.nets) == Recoded(save.info.nets);
  }

  /** A save leaves every other report as it was. */
  lemma OtherSaveLoads(t: Tables, save: Save, id: ReportId)
    requires id != save.id
    ensures Load(Saved(t, save), id) == Load(t, id)
  {
    if !HasReport(t, save.id) {
      SubRowsAfterSave(t, save, id);
      ReportAppend(t.reports, MainRow(save), id);
      ReportFound(t.reports, id);
    }
  }

  lemma MainRowReadsBack(save: Save)
    ensures var row := MainRow(save);
            row.cpu == CpuOf(save.info)
            && Memory(ToU64(row.memTotal), ToU64(row.memAvail), ToU64(row.memUsed)) == MemoryOf(save.info)
  {
    var memory := MemoryOf(save.info);
    CastsRoundTrip(memory.total);
    CastsRoundTrip(memory.available);
    CastsRoundTrip(memory.used);
  }

  lemma {:induction false} SubRowsAfterSave(t: Tables, save: Save, id: ReportId)
    requires !HasReport(t, save.id)
    ensures var t' := Saved(t, save);
            var mine := id == save.id;
            && DisksOf(t'.disks, id) == (if mine then DisksOf(t.disks, id) + save.info.disks else DisksOf(t.disks, id))
            && NetsOf(t'.nets, id) == (if mine then NetsOf(t.nets, id) + Recoded(save.info.nets) else NetsOf(t.nets, id))
            && BiosOf(t'.bios, id) == (if BiosOf(t.bios, id).None? && mine then save.info.bios else BiosOf(t.bios, id))
            && BoardOf(t'.boards, id) == (if BoardOf(t.boards, id).None? && mine then save.info.board else BoardOf(t.boards, id))
  {
    DisksAppend(t.disks, DiskRows(save.id, save.info.disks), id);
    NetsAppend(t.nets, NetRows(save.id, save.info.nets), id);
    DisksReadBack(save.id, save.info.disks, id);
    NetsReadBack(save.id, save.info.nets, id);
    if save.info.bios.Some? {
      BiosAppend(t.bios, BiosRow(save.id, save.info.bios.value), id);
    }
    if save.info.board.Some? {
      BoardAppend(t.boards, BoardRow(save.id, save.info.board.value), id);
    }
  }

  // ---- Any sequence of saves -------------------------------------------------------

  lemma {:induction false} ReplayIntegrity(saves: seq<Save>)
    ensures Integrity(Replay(saves))
  {
    if saves != [] {
      ReplayIntegrity(saves[..|saves| - 1]);
      SavedKeepsIntegrity(Replay(saves[..|saves| - 1]), saves[|saves| - 1]);
    }
  }

  lemma {:induction false} FirstAppend(saves: seq<Save>, save: Save, id: ReportId)
    ensures First(saves + [save], id)
            == if First(saves, id).Some? then First(saves, id) else if save.id == id then Some(save) else None
  {
    if saves == [] {
      assert (saves + [save])[1..] == [];
    } else {
      assert (saves + [save])[1..] == saves[1..] + [save];
      FirstAppend(saves[1..], save, id);
    }
  }

  /** The main table holds the row of the first save of each id, and nothing else. */
  lemma {:induction false} MainTable(saves: seq<Save>, id: ReportId)
    ensures ReportOf(Replay(saves).reports, id)
            == if First(saves, id).Some? then Some(MainRow(First(saves, id).value)) else None
  {
    if saves != [] {
      var init, save := saves[..|saves| - 1], saves[|saves| - 1];
      assert saves == init + [save];
      MainTable(init, id);
      FirstAppend(init, save, id);
      ReportFound(Replay(init).reports, save.id);
      ReportAppend(Replay(init).reports, MainRow(save), id);
    }
  }

  /** After any saves, loading a report id gives the first payload saved under it. */
  lemma {:induction false} LoadGivesFirst(saves: seq<Save>, id: ReportId)
    ensures Load(Replay(saves), id)
            == if First(saves, id).Some? then Some(Rebuilt(First(saves, id).value.info)) else None
  {
    if saves != [] {
      var init, save := saves[..|saves| - 1], saves[|saves| - 1];
      assert saves == init + [save];
      LoadGivesFirst(init, id);
      ReplayIntegrity(init);
      if id != save.id {
        OtherSaveLoads(Replay(init), save, id);
      } else if !HasReport(Replay(init), id) {
        NewSaveLoads(Replay(init), save);
      }
      FirstAppend(init, save, id);
      ReportFound(Replay(init).reports, save.id);
      MainTable(init, save.id);
    }
  }

  lemma HeadsAndTails(x: Net, xs: seq<Net>, y: Net, ys: seq<Net>)
    ensures [x] + xs == [y] + ys <==> x == y && xs == ys
  {
    if [x] + xs == [y] + ys {
      assert ([x] + xs)[0] == x && ([x] + xs)[1..] == xs;
      assert ([y] + ys)[0] == y && ([y] + ys)[1..] == ys;
    }
  }

  /** One network's addresses survive the codec exactly when none ends in a backslash. */
  lemma NetExact(net: Net)
    requires Codec.AllAscii(net.ips)
    ensures net.(ips := FromNetRow(ToNetRow(0, net)).ips) == net <==> Codec.BackslashEnds(net.ips) == 0
  {
    Codec.ArrayCodecExact(net.ips);
  }

  lemma {:induction false} RecodedExact(nets: seq<Net>)
    requires AsciiAddresses(nets)
    ensures Recoded(nets) == nets <==> CleanAddresses(nets)
  {
    if nets != [] {
      var net := nets[0];
      NetExact(net);
      RecodedExact(nets[1..]);
      HeadsAndTails(net.(ips := FromNetRow(ToNetRow(0, net)).ips), Recoded(nets[1..]), net, nets[1..]);
      assert nets == [net] + nets[1..];
    }
  }

  /**
   The first payload saved under an id comes back whole, absent CPU and memory as zero records and
   every 64-bit size intact, exactly when no network address in it ends in a backslash.
   */
  lemma {:induction false} RoundTripExact(saves: seq<Save>, id: ReportId)
    requires First(saves, id).Some? && AsciiAddresses(First(saves, id).value.info.nets)
    ensures var info := First(saves, id).value.info;
            var loaded := Load(Replay(saves), id);
            && (loaded == Some(Filled(info)) <==> CleanAddresses(info.nets))
            && (info.cpu.Some? && info.memory.Some? ==> (loaded == Some(info) <==> CleanAddresses(info.nets)))
  {
    LoadGivesFirst(saves, id);
    RecodedExact(First(saves, id).value.info.nets);
    var info := First(saves, id).value.info;
    assert info.cpu.Some? && info.memory.Some? ==> Filled(info) == info;
  }

  /** Part by part, whatever the addresses: what a load gives back of the first payload saved under an id. */
  lemma {:induction false} PartsComeBack(saves: seq<Save>, id: ReportId)
    requires First(saves, id).Some?
    ensures Load(Replay(saves), id).Some?
    ensures var info, loaded := First(saves, id).value.info, Load(Replay(saves), id).value;
            && (if info.cpu.Some? then loaded.cpu == info.cpu else loaded.cpu == Some(Cpu("", 0, 0, "")))
            && loaded.memory.Some?
            && loaded.memory.value.total == (if info.memory.Some? then info.memory.value.total else 0)
            && loaded.memory.value.available == (if info.memory.Some? then info.memory.value.available else 0)
            && loaded.memory.value.used == (if info.memory.Some? then info.memory.value.used else 0)
            && loaded.disks == info.disks && loaded.bios == info.bios && loaded.board == info.board
            && |loaded.nets| == |info.nets|
            && forall i :: 0 <= i < |info.nets| ==> SameCard(info.nets[i], loaded.nets[i])
  {
    LoadGivesFirst(saves, id);
    RecodedAt(First(saves, id).value.info.nets);
  }

  lemma {:induction false} RecodedAt(nets: seq<Net>)
    ensures |Recoded(nets)| == |nets|
    ensures forall i :: 0 <= i < |nets| ==> SameCard(nets[i], Recoded(nets)[i])
  {
    if nets != [] {
      RecodedAt(nets[1..]);
      forall i | 0 < i < |nets| ensures SameCard(nets[i], Recoded(nets)[i]) {
        assert SameCard(nets[1..][i - 1], Recoded(nets[1..])[i - 1]);
      }
    }
  }

  /** The same interface, but perhaps for its addresses. */
  predicate SameCard(a: Net, b: Net) {
    a.name == b.name && a.mac == b.mac && a.loopback == b.loopback
  }

  /** The saves that were the first under their id. */
  function Firsts(saves: seq<Save>): seq<Save> {
    if saves == [] then []
    else
      var init, save := saves[..|saves| - 1], saves[|saves| - 1];
      if First(init, save.id).Some? then Firsts(init) else Firsts(init) + [save]
  }

  /** Replayed messages change no table: the replays can be struck from the history. */
  lemma {:induction false} ReplaysAreIgnored(saves: seq<Save>)
    ensures Replay(Firsts(saves)) == Replay(saves)
  {
    if saves != [] {
      var init, save := saves[..|saves| - 1], saves[|saves| - 1];
      ReplaysAreIgnored(init);
      MainTable(init, save.id);
      ReportFound(Replay(init).reports, save.id);
      if First(init, save.id).None? {
        assert (Firsts(init) + [save])[..|Firsts(init)|] == Firsts(init);
      }
    }
  }

  lemma {:induction false} LatestIsMaximal(rows: seq<ReportRow>, device: string)
    ensures var best := Latest(rows, device);
            && (best.Some? ==> best.value in rows && best.value.device == device)
            && (forall i :: 0 <= i < |rows| && rows[i].device == device ==> best.Some? && rows[i].createdAt <= best.value.createdAt)
  {
    if rows != [] {
      var n := |rows| - 1;
      LatestIsMaximal(rows[..n], device);
      assert forall i :: 0 <= i < n ==> rows[..n][i] == rows[i];
    }
  }

  lemma {:induction false} RowsAreFirsts(saves: seq<Save>, row: ReportRow)
    requires row in Replay(saves).reports
    ensures First(saves, row.id).Some? && MainRow(First(saves, row.id).value) == row
  {
    var init, save := saves[..|saves| - 1], saves[|saves| - 1];
    assert saves == init + [save];
    FirstAppend(init, save, row.id);
    if row in Replay(init).reports {
      RowsAreFirsts(init, row);
    } else {
      MainTable(init, save.id);
      ReportFound(Replay(init).reports, save.id);
    }
  }

  /**
   GetLatestHardware gives a device the payload of a first save of that device, and none of the
   device's first saves is newer; it gives nothing exactly when the device has no first save.
   */
  lemma {:induction false} LatestHardwareIsNewest(saves: seq<Save>, device: string)
    ensures var t := Replay(saves);
            var row := Latest(t.reports, device);
            && (row.None? ==> forall id :: First(saves, id).Some? ==> First(saves, id).value.device != device)
            && (row.Some? ==>
                  && First(saves, row.value.id).Some?
                  && First(saves, row.value.id).value.device == device
                  && Assemble(t, row.value) == Rebuilt(First(saves, row.value.id).value.info)
                  && forall id :: First(saves, id).Some? && First(saves, id).value.device == device ==>
                       First(saves, id).value.now <= First(saves, row.value.id).value.now)
  {
    var t := Replay(saves);
    var row := Latest(t.reports, device);
    LatestIsMaximal(t.reports, device);
    if row.Some? {
      RowsAreFirsts(saves, row.value);
      LoadGivesFirst(saves, row.value.id);
      MainTable(saves, row.value.id);
    }
    forall id | First(saves, id).Some? && First(saves, id).value.device == device
      ensures row.Some? && First(saves, id).value.now <= row.value.createdAt
    {
      MainTable(saves, id);
      ReportFound(t.reports, id);
    }
  }
}
