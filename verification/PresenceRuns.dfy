/** Whole runs of registration, presence, kicks and the blocklist. */
module PresenceRuns {
  import opened Options
  import opened Presence
  import opened Sets
  import R = Registry
  import T = Terminals

  /** The states a run goes through and the steps between them. */
  datatype Run = Run(states: seq<Server>, steps: seq<Step>)
  {
    ghost predicate Valid() {
      && |states| == |steps| + 1
      && states[0].mem == map[] && states[0].rows == map[] && states[0].regs == map[] && states[0].chans == map[]
      && states[0].sweep == Idle
      && (forall k :: 0 <= k < |steps| ==> Happens(k))
    }

    ghost predicate Happens(k: nat)
      requires k < |steps| && k + 1 < |states|
    {
      Enabled(states[k], steps[k]) && states[k + 1] == Do(states[k], steps[k])
    }

    ghost predicate Is(k: int, step: Step) {
      0 <= k < |steps| && steps[k] == step
    }
  }

  lemma Next(run: Run, k: nat)
    requires run.Valid() && k < |run.steps|
    ensures Enabled(run.states[k], run.steps[k]) && run.states[k + 1] == Do(run.states[k], run.steps[k])
  {
    assert run.Happens(k);
  }

  lemma {:induction false} ShapeHolds(run: Run, k: nat, sid: SessionId)
    requires run.Valid() && k < |run.states|
    ensures ShapeInv(run.states[k], sid)
  {
    if k > 0 {
      ShapeHolds(run, k - 1, sid);
      Next(run, k - 1);
      StepKeepsShape(run.states[k - 1], run.steps[k - 1], sid);
    }
  }

  // ---- The blocklist -----------------------------------------------------------------

  /** A session that is registered but not stored yet belongs to one call. */
  ghost predicate RegInv(s: Server) {
    && (forall call :: call in s.regs && s.regs[call].Added? ==> s.regs[call].sid in s.mem && s.regs[call].sid !in s.rows)
    && (forall a, b :: a in s.regs && b in s.regs && a != b && s.regs[a].Added? && s.regs[b].Added? ==>
          s.regs[a].sid != s.regs[b].sid)
  }

  lemma StepKeepsReg(s: Server, step: Step)
    requires Enabled(s, step) && RegInv(s)
    ensures RegInv(Do(s, step))
  {
  }

  lemma {:induction false} RegHolds(run: Run, k: nat)
    requires run.Valid() && k < |run.states|
    ensures RegInv(run.states[k])
  {
    if k > 0 {
      RegHolds(run, k - 1);
      Next(run, k - 1);
      StepKeepsReg(run.states[k - 1], run.steps[k - 1]);
    }
  }

  /** Only UnblockTerminal unblocks: a later registration adds a row, and the old rows stay blocked. */
  lemma BlockedStays(s: Server, step: Step, device: DeviceId)
    requires Enabled(s, step) && RegInv(s) && T.IsBlocked(s.rows, device) && step != Unblock(device)
    ensures T.IsBlocked(Do(s, step).rows, device)
  {
    var sid :| sid in s.rows && s.rows[sid].device == device && s.rows[sid].blocked;
    var s' := Do(s, step);
    assert sid in s'.rows && s'.rows[sid].device == device && s'.rows[sid].blocked;
  }

  /** BlockTerminal blocks a device exactly when a session of it is stored. */
  lemma BlockTakesEffect(run: Run, i: nat, device: DeviceId)
    requires run.Valid() && run.Is(i, Block(device))
    ensures T.IsBlocked(run.states[i + 1].rows, device) <==> T.SessionsOf(run.states[i].rows, device) != {}
  {
    Next(run, i);
    T.BlockNeedsRow(run.states[i].rows, device);
  }

  lemma BlockedStaysAt(run: Run, k: nat, device: DeviceId)
    requires run.Valid() && k < |run.steps| && T.IsBlocked(run.states[k].rows, device) && !run.Is(k, Unblock(device))
    ensures T.IsBlocked(run.states[k + 1].rows, device)
  {
    RegHolds(run, k);
    Next(run, k);
    BlockedStays(run.states[k], run.steps[k], device);
  }

  /** From BlockTerminal on a device with a stored row until its unblocking, the device is blocked in every state. */
  lemma {:induction false} BlockHolds(run: Run, i: nat, k: nat, device: DeviceId)
    requires run.Valid() && run.Is(i, Block(device)) && i < k < |run.states|
    requires T.SessionsOf(run.states[i].rows, device) != {}
    requires forall m :: i < m < k ==> !run.Is(m, Unblock(device))
    ensures T.IsBlocked(run.states[k].rows, device)
  {
    if k == i + 1 {
      BlockTakesEffect(run, i, device);
    } else {
      BlockHolds(run, i, k - 1, device);
      BlockedStaysAt(run, k - 1, device);
    }
  }

  /** A device becomes blocked by its own blocking only, and unblocked by its own unblocking only. */
  lemma BlockedNext(s: Server, step: Step, device: DeviceId)
    requires Enabled(s, step) && RegInv(s)
    ensures T.IsBlocked(Do(s, step).rows, device) <==>
              if step == Block(device) then exists sid :: sid in s.rows && s.rows[sid].device == device
              else step != Unblock(device) && T.IsBlocked(s.rows, device)
  {
    if step.Block? || step.Unblock? {
      BlocklistNext(s.rows, step.device, step.Block?, device);
    } else {
      RowsKeepBlocked(s, step, device);
    }
  }

  lemma BlocklistNext(t: T.Table, named: DeviceId, blocked: bool, device: DeviceId)
    ensures T.IsBlocked(T.WithBlocked(t, named, blocked), device) <==>
              if named == device then blocked && exists sid :: sid in t && t[sid].device == device
              else T.IsBlocked(t, device)
  {
    T.HasSession(t, device);
    T.BlockNeedsRow(t, device);
    T.OthersStayAsBlocked(t, named, blocked);
  }

  lemma RowsKeepBlocked(s: Server, step: Step, device: DeviceId)
    requires Enabled(s, step) && RegInv(s) && !step.Block? && !step.Unblock?
    ensures T.IsBlocked(Do(s, step).rows, device) <==> T.IsBlocked(s.rows, device)
  {
    if T.IsBlocked(s.rows, device) {
      BlockedStays(s, step, device);
    } else if sid :| sid in Do(s, step).rows && Do(s, step).rows[sid].device == device && Do(s, step).rows[sid].blocked {
      assert sid in s.rows && s.rows[sid].device == device && s.rows[sid].blocked;
    }
  }

  /** Step i blocks the device, which has a row then, and it is not unblocked before step k. */
  ghost predicate BlockedSince(run: Run, i: int, k: nat, device: DeviceId) {
    && 0 <= i < k && i < |run.states| && run.Is(i, Block(device))
    && (exists sid :: sid in run.states[i].rows && run.states[i].rows[sid].device == device)
    && (forall m :: i < m < k ==> !run.Is(m, Unblock(device)))
  }

  /**
   In every state of every run a device is blocked exactly when it was itself blocked, while it had a
   row, and has not been unblocked since: no other device's blocking or unblocking, no registration
   and nothing that presence does can change that.
   */
  lemma {:induction false} BlockedExact(run: Run, k: nat, device: DeviceId)
    requires run.Valid() && k < |run.states|
    ensures T.IsBlocked(run.states[k].rows, device) <==> exists i :: BlockedSince(run, i, k, device)
  {
    if k > 0 {
      BlockedExact(run, k - 1, device);
      RegHolds(run, k - 1);
      Next(run, k - 1);
      BlockedNext(run.states[k - 1], run.steps[k - 1], device);
      SinceNext(run, k - 1, k, device);
    }
  }

  lemma SinceNext(run: Run, j: nat, k: nat, device: DeviceId)
    requires run.Valid() && j + 1 == k < |run.states|
    ensures (exists i :: BlockedSince(run, i, k, device)) <==>
              || BlockedSince(run, j, k, device)
              || (run.steps[j] != Unblock(device) && exists i :: BlockedSince(run, i, j, device))
  {
    if i :| BlockedSince(run, i, k, device) && i < j {
      assert !run.Is(j, Unblock(device));
      assert BlockedSince(run, i, j, device);
    }
    if run.steps[j] != Unblock(device) {
      if i :| BlockedSince(run, i, j, device) {
        assert BlockedSince(run, i, k, device);
      }
    }
  }

  /** This Register call has passed the blocklist check for this device and not been added yet. */
  predicate PassedCheck(s: Server, call: CallId, device: DeviceId) {
    call in s.regs && s.regs[call] == PastBlock(device)
  }

  lemma PassedEarlier(s: Server, step: Step, call: CallId, device: DeviceId)
    requires Enabled(s, step) && PassedCheck(Do(s, step), call, device)
    ensures PassedCheck(s, call, device) || (step == RegBlock(call) && !T.IsBlocked(s.rows, device))
  {
  }

  /** The check a call past it has passed: its own, as the call has been past it ever since. */
  lemma {:induction false} CheckedAt(run: Run, k: nat, call: CallId, device: DeviceId) returns (b: nat)
    requires run.Valid() && k < |run.states| && PassedCheck(run.states[k], call, device)
    ensures b < k && run.Is(b, RegBlock(call)) && !T.IsBlocked(run.states[b].rows, device)
    ensures forall m :: b < m <= k ==> PassedCheck(run.states[m], call, device)
  {
    Next(run, k - 1);
    PassedEarlier(run.states[k - 1], run.steps[k - 1], call, device);
    if PassedCheck(run.states[k - 1], call, device) {
      b := CheckedAt(run, k - 1, call, device);
    } else {
      b := k - 1;
    }
  }

  /** Step b is this call's own blocklist check: from right after it until state k the call is past it and not added. */
  ghost predicate OwnCheck(run: Run, b: nat, k: nat, call: CallId, device: DeviceId)
    requires k < |run.states|
  {
    b < k && run.Is(b, RegBlock(call)) && forall m :: b < m <= k ==> PassedCheck(run.states[m], call, device)
  }

  /**
   A session added for a blocked device belongs to a Register call that was between its blocklist
   check and its addition in the very state in which the device was blocked.
   */
  lemma LateAddWasChecked(run: Run, i: nat, k: nat, call: CallId, sid: SessionId, device: DeviceId)
    requires run.Valid() && run.Is(i, Block(device)) && run.Is(k, RegAdd(call, sid)) && i < k
    requires T.SessionsOf(run.states[i].rows, device) != {}
    requires forall m :: i < m < k ==> !run.Is(m, Unblock(device))
    requires sid in run.states[k + 1].mem && run.states[k + 1].mem[sid].device == device
    ensures PassedCheck(run.states[i], call, device)
    ensures exists b :: 0 <= b < i && OwnCheck(run, b, k, call, device)
  {
    Next(run, k);
    var b := CheckedAt(run, k, call, device);
    if i < b {
      BlockHolds(run, i, b, device);
      assert false;
    }
    assert OwnCheck(run, b, k, call, device);
  }

  // ---- Capacity ------------------------------------------------------------------------

  /** The Register calls that passed the capacity check and have not been added yet. */
  function PastCheck(s: Server): set<CallId> {
    set call | call in s.regs && !s.regs[call].Added?
  }

  predicate OfRegister(step: Step) {
    step.RegFull? || step.RegBlock? || step.RegRefuse? || step.RegAdd? || step.RegUpsert?
  }

  lemma OthersKeepCount(s: Server, step: Step)
    requires Enabled(s, step) && !OfRegister(step)
    ensures |Do(s, step).mem| == |s.mem| && Do(s, step).regs == s.regs && Do(s, step).maxConns == s.maxConns
  {
    var s' := Do(s, step);
    assert s'.mem.Keys == s.mem.Keys;
    assert |s'.mem| == |s'.mem.Keys| && |s.mem| == |s.mem.Keys|;
  }

  lemma CheckKeepsCapacity(s: Server, step: Step, c: nat)
    requires Enabled(s, step) && s.maxConns > 0 && (step.RegFull? || step.RegBlock? || step.RegRefuse?)
    requires |s.mem| + |PastCheck(s)| <= s.maxConns + c - 1 && |Do(s, step).regs| <= c
    ensures |Do(s, step).mem| + |PastCheck(Do(s, step))| <= s.maxConns + c - 1 && Do(s, step).maxConns == s.maxConns
  {
    var s' := Do(s, step);
    match step
    case RegFull(call, device) =>
      assert PastCheck(s') <= s'.regs.Keys;
      SubsetSize(PastCheck(s'), s'.regs.Keys);
      assert |s'.regs.Keys| == |s'.regs|;
    case RegBlock(call) =>
      assert PastCheck(s') == PastCheck(s);
    case RegRefuse(call) =>
      SubsetSize(PastCheck(s'), PastCheck(s));
  }

  lemma AddKeepsCapacity(s: Server, call: CallId, sid: SessionId)
    requires Enabled(s, RegAdd(call, sid))
    ensures var s' := Do(s, RegAdd(call, sid));
            |s'.mem| + |PastCheck(s')| == |s.mem| + |PastCheck(s)| && s'.maxConns == s.maxConns
  {
    var s' := Do(s, RegAdd(call, sid));
    assert PastCheck(s) == PastCheck(s') + {call};
    assert |s.mem[sid := R.NewConn(s.regs[call].device)]| == |s.mem| + 1;
  }

  lemma UpsertKeepsCapacity(s: Server, call: CallId, facts: string)
    requires Enabled(s, RegUpsert(call, facts))
    ensures var s' := Do(s, RegUpsert(call, facts));
            s'.mem == s.mem && PastCheck(s') == PastCheck(s) && s'.maxConns == s.maxConns
  {
  }

  lemma RegisterKeepsCapacity(s: Server, step: Step, c: nat)
    requires Enabled(s, step) && s.maxConns > 0 && OfRegister(step)
    requires |s.mem| + |PastCheck(s)| <= s.maxConns + c - 1 && |Do(s, step).regs| <= c
    ensures |Do(s, step).mem| + |PastCheck(Do(s, step))| <= s.maxConns + c - 1 && Do(s, step).maxConns == s.maxConns
  {
    match step
    case RegAdd(call, sid) => AddKeepsCapacity(s, call, sid);
    case RegUpsert(call, facts) => UpsertKeepsCapacity(s, call, facts);
    case _ => CheckKeepsCapacity(s, step, c);
  }

  /**
   With at most c Register calls in flight, sessions and registrations past the check stay within
   the limit plus c - 1.
   */
  lemma {:induction false} CapacityOvershoot(run: Run, k: nat, c: nat)
    requires run.Valid() && k < |run.states| && run.states[0].maxConns > 0 && c > 0
    requires forall i :: 0 <= i <= k ==> |run.states[i].regs| <= c
    ensures run.states[k].maxConns == run.states[0].maxConns
    ensures |run.states[k].mem| + |PastCheck(run.states[k])| <= run.states[0].maxConns + c - 1
  {
    if k > 0 {
      CapacityOvershoot(run, k - 1, c);
      Next(run, k - 1);
      if OfRegister(run.steps[k - 1]) {
        RegisterKeepsCapacity(run.states[k - 1], run.steps[k - 1], c);
      } else {
        OthersKeepCount(run.states[k - 1], run.steps[k - 1]);
      }
    } else {
      assert PastCheck(run.states[0]) == {};
    }
  }

  /** The registrations accepted among the first k steps. */
  ghost function Registrations(run: Run, k: nat): nat
    requires k <= |run.steps|
  {
    if k == 0 then 0 else Registrations(run, k - 1) + (if run.steps[k - 1].RegAdd? then 1 else 0)
  }

  /** No RPC removes a session, so the same bound holds for all registrations of the run. */
  lemma {:induction false} SessionsAreRegistrations(run: Run, k: nat)
    requires run.Valid() && k < |run.states|
    ensures |run.states[k].mem| == Registrations(run, k)
  {
    if k > 0 {
      SessionsAreRegistrations(run, k - 1);
      Next(run, k - 1);
      if !OfRegister(run.steps[k - 1]) {
        OthersKeepCount(run.states[k - 1], run.steps[k - 1]);
      }
    }
  }

  /** Capacity is never given back: the overshoot bounds what the whole run registers, whoever disconnects. */
  lemma {:induction false} RegistrationsAreBounded(run: Run, k: nat, c: nat)
    requires run.Valid() && k < |run.states| && run.states[0].maxConns > 0 && c > 0
    requires forall i :: 0 <= i <= k ==> |run.states[i].regs| <= c
    ensures Registrations(run, k) <= run.states[0].maxConns + c - 1
  {
    CapacityOvershoot(run, k, c);
    SessionsAreRegistrations(run, k);
  }

  // ---- Kicks ------------------------------------------------------------------------------

  predicate Disconnected(s: Server, sid: SessionId) {
    sid in s.mem && s.mem[sid].disconnected
  }

  /** Step k closes the session's channel. */
  ghost predicate Closes(run: Run, k: int, sid: SessionId) {
    0 <= k < |run.steps| && k + 1 < |run.states| && !Disconnected(run.states[k], sid) && Disconnected(run.states[k + 1], sid)
  }

  lemma {:induction false} DisconnectedForever(run: Run, i: nat, k: nat, sid: SessionId)
    requires run.Valid() && i <= k < |run.states| && Disconnected(run.states[i], sid)
    ensures Disconnected(run.states[k], sid)
  {
    if i < k {
      DisconnectedForever(run, i, k - 1, sid);
      Next(run, k - 1);
      StaysDisconnected(run.states[k - 1], run.steps[k - 1], sid);
    }
  }

  lemma StaysDisconnected(s: Server, step: Step, sid: SessionId)
    requires Enabled(s, step) && Disconnected(s, sid)
    ensures Disconnected(Do(s, step), sid)
  {
  }

  /** However kicks and blocks interleave, a session's channel is closed at most once and stays closed. */
  lemma ClosedOnce(run: Run, i: nat, j: nat, sid: SessionId)
    requires run.Valid() && Closes(run, i, sid) && Closes(run, j, sid)
    ensures i == j
    ensures forall k :: i < k < |run.states| ==> Disconnected(run.states[k], sid)
  {
    if i < j {
      DisconnectedForever(run, i + 1, j, sid);
    } else if j < i {
      DisconnectedForever(run, j + 1, i, sid);
    }
    forall k | i < k < |run.states| ensures Disconnected(run.states[k], sid) {
      DisconnectedForever(run, i + 1, k, sid);
    }
  }

  /**
   A step closes a session's channel exactly when it kicks that session or its device, by an admin or
   by BlockTerminal, while the session is online and its channel is open.
   */
  lemma ClosesExact(run: Run, k: nat, sid: SessionId)
    requires run.Valid() && k < |run.steps|
    ensures Closes(run, k, sid) <==>
              && OnlineInMemory(run.states[k], sid) && !Disconnected(run.states[k], sid)
              && (run.steps[k] == Kick(sid) || run.steps[k] == KickDevice(run.states[k].mem[sid].device))
  {
    Next(run, k);
  }
}
