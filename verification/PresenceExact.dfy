/**
 When the two copies of "online" agree: the exact condition, from the states a run goes through and
 from its events.
 */
module PresenceExact {
  import opened Options
  import opened Presence
  import opened PresenceRuns

  /** The table shows the session online only if the registry does. */
  predicate Agrees(s: Server, sid: SessionId) {
    OnlineInStore(s, sid) ==> OnlineInMemory(s, sid)
  }

  /** In the first n + 1 states, whenever nobody is between two writes for the session, the copies agree. */
  ghost predicate AlwaysAgrees(run: Run, n: nat, sid: SessionId)
    requires n < |run.states|
  {
    forall k :: 0 <= k <= n && !BetweenWrites(run.states[k], sid) ==> Agrees(run.states[k], sid)
  }

  // ---- Whatever the clock does -------------------------------------------------------------

  lemma {:induction false} ClosedHolds(run: Run, k: nat, sid: SessionId)
    requires run.Valid() && k < |run.states|
    ensures ClosedInv(run.states[k], sid)
  {
    if k > 0 {
      ClosedHolds(run, k - 1, sid);
      ShapeHolds(run, k - 1, sid);
      Next(run, k - 1);
      if OfChannel(run.steps[k - 1]) {
        ChannelKeepsClosed(run.states[k - 1], run.steps[k - 1], sid);
      } else {
        OthersKeepClosed(run.states[k - 1], run.steps[k - 1], sid);
      }
    }
  }

  /** At any speed of the handlers, a session without an open Channel is offline in both copies. */
  lemma ClosedIsOffline(run: Run, k: nat, sid: SessionId)
    requires run.Valid() && k < |run.states| && sid !in run.states[k].chans
    ensures !OnlineInStore(run.states[k], sid) && !OnlineInMemory(run.states[k], sid)
  {
    ClosedHolds(run, k, sid);
  }

  lemma {:induction false} QuietHolds(run: Run, n: nat, sid: SessionId)
    requires run.Valid() && n < |run.states|
    requires forall i :: 0 <= i < n ==> !Overtaken(run.states[i], run.steps[i], sid)
    ensures QuietInv(run.states[n], sid)
  {
    if n > 0 {
      QuietHolds(run, n - 1, sid);
      ShapeHolds(run, n - 1, sid);
      Next(run, n - 1);
      if OfChannel(run.steps[n - 1]) {
        ChannelKeepsQuiet(run.states[n - 1], run.steps[n - 1], sid);
      } else {
        OthersKeepQuiet(run.states[n - 1], run.steps[n - 1], sid);
      }
    }
  }

  /** The two copies agree in every quiet state exactly when no heartbeat's second write is overtaken. */
  lemma {:induction false} AgreesExact(run: Run, n: nat, sid: SessionId)
    requires run.Valid() && n < |run.states|
    ensures AlwaysAgrees(run, n, sid) <==> forall i :: 0 <= i < n ==> !Overtaken(run.states[i], run.steps[i], sid)
  {
    if i :| 0 <= i < n && Overtaken(run.states[i], run.steps[i], sid) {
      Next(run, i);
      OvertakenSplits(run.states[i], run.steps[i], sid);
      assert !Agrees(run.states[i + 1], sid);
    } else {
      forall k | 0 <= k <= n && !BetweenWrites(run.states[k], sid) ensures Agrees(run.states[k], sid) {
        QuietHolds(run, k, sid);
      }
    }
  }

  // ---- From the events ------------------------------------------------------------------------

  lemma ChannelWhileBeating(s: Server, step: Step, sid: SessionId)
    requires Enabled(s, step) && OfChannel(step) && At(s, sid, Beating) && step != BeatStore(sid)
    ensures At(Do(s, step), sid, Beating)
    ensures OnlineInMemory(Do(s, step), sid) <==> OnlineInMemory(s, sid)
  {
  }

  lemma OthersWhileBeating(s: Server, step: Step, sid: SessionId)
    requires Enabled(s, step) && !OfChannel(step) && ShapeInv(s, sid) && At(s, sid, Beating)
    ensures At(Do(s, step), sid, Beating)
    ensures OnlineInMemory(Do(s, step), sid) <==> OnlineInMemory(s, sid) && step != SweepDrop(sid)
  {
  }

  lemma BeatBegins(run: Run, b: nat, sid: SessionId)
    requires run.Valid() && run.Is(b, Beat(sid))
    ensures At(run.states[b + 1], sid, Beating) && OnlineInMemory(run.states[b + 1], sid)
  {
    Next(run, b);
    ShapeHolds(run, b, sid);
  }

  lemma BeatingAt(run: Run, k: nat, sid: SessionId)
    requires run.Valid() && k < |run.steps| && At(run.states[k], sid, Beating) && !run.Is(k, BeatStore(sid))
    ensures At(run.states[k + 1], sid, Beating)
    ensures OnlineInMemory(run.states[k + 1], sid) <==> OnlineInMemory(run.states[k], sid) && !run.Is(k, SweepDrop(sid))
  {
    Next(run, k);
    ShapeHolds(run, k, sid);
    if OfChannel(run.steps[k]) {
      ChannelWhileBeating(run.states[k], run.steps[k], sid);
    } else {
      OthersWhileBeating(run.states[k], run.steps[k], sid);
    }
  }

  /** While a heartbeat is between its writes, only the sweep takes the session offline. */
  lemma {:induction false} OnlineSinceBeat(run: Run, b: nat, k: nat, sid: SessionId)
    requires run.Valid() && run.Is(b, Beat(sid)) && b < k < |run.states|
    requires forall m :: b < m < k ==> !run.Is(m, BeatStore(sid))
    ensures At(run.states[k], sid, Beating)
    ensures OnlineInMemory(run.states[k], sid) <==> forall m :: b < m < k ==> !run.Is(m, SweepDrop(sid))
  {
    if k > b + 1 {
      OnlineSinceBeat(run, b, k - 1, sid);
      BeatingAt(run, k - 1, sid);
    } else {
      BeatBegins(run, b, sid);
    }
  }

  /**
   With no assumption on time: when handleHeartbeat makes its second write, the table says online,
   and the registry agrees exactly when no sweep has dropped the session since the first write.
   */
  lemma HeartbeatRaceExact(run: Run, b: nat, k: nat, sid: SessionId)
    requires run.Valid() && run.Is(b, Beat(sid)) && run.Is(k, BeatStore(sid)) && b < k
    requires forall m :: b < m < k ==> !run.Is(m, BeatStore(sid))
    requires sid in run.states[k].rows
    ensures OnlineInStore(run.states[k + 1], sid)
    ensures OnlineInMemory(run.states[k + 1], sid) <==> forall m :: b < m < k ==> !run.Is(m, SweepDrop(sid))
  {
    OnlineSinceBeat(run, b, k, sid);
    Next(run, k);
  }

  /** The sweep stores the drop of this session at step w. */
  ghost predicate StoresDrop(run: Run, w: int, sid: SessionId) {
    run.Is(w, SweepStore) && w < |run.states| && BeingDropped(run.states[w], sid)
  }

  /** Offline in the registry, and the sweep is past both its writes. */
  predicate Swept(s: Server, sid: SessionId) {
    !OnlineInMemory(s, sid) && !BeingDropped(s, sid)
  }

  lemma ChannelSweepsNothing(s: Server, step: Step, sid: SessionId)
    requires Enabled(s, step) && OfChannel(step) && At(s, sid, Beating) && step != BeatStore(sid)
    ensures Swept(Do(s, step), sid) <==> Swept(s, sid)
  {
  }

  lemma OthersSweep(s: Server, step: Step, sid: SessionId)
    requires Enabled(s, step) && !OfChannel(step) && ShapeInv(s, sid) && At(s, sid, Beating)
    ensures Swept(Do(s, step), sid) <==> Swept(s, sid) || (step == SweepStore && BeingDropped(s, sid))
  {
  }

  /** What a step does to a session whose heartbeat is between its writes. */
  lemma SweptWhileBeating(s: Server, step: Step, sid: SessionId)
    requires Enabled(s, step) && ShapeInv(s, sid) && At(s, sid, Beating) && step != BeatStore(sid)
    ensures Swept(Do(s, step), sid) <==> Swept(s, sid) || (step == SweepStore && BeingDropped(s, sid))
  {
    if OfChannel(step) {
      ChannelSweepsNothing(s, step, sid);
    } else {
      OthersSweep(s, step, sid);
    }
  }

  lemma BeatIsNotDropped(s: Server, sid: SessionId)
    requires Enabled(s, Beat(sid))
    ensures !BeingDropped(Do(s, Beat(sid)), sid)
  {
  }

  lemma SweptNext(run: Run, k: nat, sid: SessionId)
    requires run.Valid() && k < |run.steps| && At(run.states[k], sid, Beating) && !run.Is(k, BeatStore(sid))
    ensures Swept(run.states[k + 1], sid) <==> Swept(run.states[k], sid) || StoresDrop(run, k, sid)
  {
    Next(run, k);
    ShapeHolds(run, k, sid);
    SweptWhileBeating(run.states[k], run.steps[k], sid);
  }

  /** Between a heartbeat's writes, a session is offline and not being dropped exactly when a sweep has stored its drop since. */
  lemma {:induction false} SweptSinceBeat(run: Run, b: nat, k: nat, sid: SessionId)
    requires run.Valid() && run.Is(b, Beat(sid)) && b < k < |run.states|
    requires forall m :: b < m < k ==> !run.Is(m, BeatStore(sid))
    ensures At(run.states[k], sid, Beating)
    ensures Swept(run.states[k], sid) <==>
              exists w :: b < w < k && StoresDrop(run, w, sid)
  {
    OnlineSinceBeat(run, b, k, sid);
    if k == b + 1 {
      Next(run, b);
      BeatBegins(run, b, sid);
    } else {
      SweptSinceBeat(run, b, k - 1, sid);
      SweptNext(run, k - 1, sid);
    }
  }

  /** The first write of the heartbeat that is between its writes. */
  lemma {:induction false} BeatOf(run: Run, k: nat, sid: SessionId) returns (b: nat)
    requires run.Valid() && k < |run.states| && At(run.states[k], sid, Beating)
    ensures b < k && run.Is(b, Beat(sid)) && forall m :: b < m < k ==> !run.Is(m, BeatStore(sid))
  {
    Next(run, k - 1);
    if run.Is(k - 1, Beat(sid)) {
      b := k - 1;
    } else {
      BeatingBefore(run.states[k - 1], run.steps[k - 1], sid);
      b := BeatOf(run, k - 1, sid);
    }
  }

  lemma BeatingBefore(s: Server, step: Step, sid: SessionId)
    requires Enabled(s, step) && At(Do(s, step), sid, Beating) && step != Beat(sid)
    ensures At(s, sid, Beating) && step != BeatStore(sid)
  {
  }

  /** A sweep's drop of the session is stored between the two writes of one of its heartbeats. */
  ghost predicate Straddled(run: Run, b: int, w: int, k: int, sid: SessionId) {
    && 0 <= b < w < k < |run.states|
    && run.Is(b, Beat(sid)) && StoresDrop(run, w, sid) && run.Is(k, BeatStore(sid))
    && (forall m :: b < m < k ==> !run.Is(m, BeatStore(sid)))
    && sid in run.states[k].rows
  }

  /** The sweep's first write for that drop falls between the heartbeat's writes as well. */
  lemma DropFallsInside(run: Run, b: nat, w: nat, k: nat, sid: SessionId) returns (d: nat)
    requires run.Valid() && Straddled(run, b, w, k, sid)
    ensures b < d < w && run.Is(d, SweepDrop(sid))
  {
    OnlineSinceBeat(run, b, w, sid);
    ShapeHolds(run, w, sid);
    d :| b < d < w && run.Is(d, SweepDrop(sid));
  }

  lemma OvertakenIsStraddled(run: Run, k: nat, sid: SessionId)
    requires run.Valid() && k < |run.steps|
    ensures Overtaken(run.states[k], run.steps[k], sid) <==> exists b, w :: Straddled(run, b, w, k, sid)
  {
    Next(run, k);
    if run.Is(k, BeatStore(sid)) {
      var b := BeatOf(run, k, sid);
      SweptSinceBeat(run, b, k, sid);
      if Overtaken(run.states[k], run.steps[k], sid) {
        var w :| b < w < k && StoresDrop(run, w, sid);
        assert Straddled(run, b, w, k, sid);
      }
      if b', w :| Straddled(run, b', w, k, sid) {
        SweptSinceBeat(run, b', k, sid);
      }
    }
  }

  /**
   Registry and table agree about a session in every quiet state exactly when no sweep stores its drop
   between the two writes of one of its heartbeats; DropFallsInside says that the sweep's own two writes
   for it then both fall there.
   */
  lemma AgreesFromEvents(run: Run, n: nat, sid: SessionId)
    requires run.Valid() && n < |run.states|
    ensures AlwaysAgrees(run, n, sid) <==> forall b, w, k :: k < n ==> !Straddled(run, b, w, k, sid)
  {
    AgreesExact(run, n, sid);
    forall k | 0 <= k < n
      ensures Overtaken(run.states[k], run.steps[k], sid) <==> exists b, w :: Straddled(run, b, w, k, sid)
    {
      OvertakenIsStraddled(run, k, sid);
    }
  }

  // ---- Timely handlers --------------------------------------------------------------------------

  lemma {:induction false} PresenceHolds(run: Run, k: nat, sid: SessionId)
    requires run.Valid() && k < |run.states|
    requires forall i :: 0 <= i < k ==> TimelyHandlers(run.states[i])
    ensures PresenceInv(run.states[k], sid)
  {
    if k > 0 {
      PresenceHolds(run, k - 1, sid);
      ShapeHolds(run, k - 1, sid);
      Next(run, k - 1);
      if OfChannel(run.steps[k - 1]) {
        ChannelKeepsPresence(run.states[k - 1], run.steps[k - 1], sid);
      } else {
        OthersKeepPresence(run.states[k - 1], run.steps[k - 1], sid);
      }
    }
  }

  /** A heartbeat handler that is quicker than the heartbeat timeout is never overtaken. */
  lemma TimelyIsNeverOvertaken(run: Run, k: nat, sid: SessionId)
    requires run.Valid() && k < |run.steps|
    requires forall i :: 0 <= i < k ==> TimelyHandlers(run.states[i])
    ensures !Overtaken(run.states[k], run.steps[k], sid)
  {
    PresenceHolds(run, k, sid);
    Next(run, k);
  }

  /**
   If every handleHeartbeat finishes within the heartbeat timeout, a session that the table shows
   online is online in the registry whenever nobody is between the two writes for it.
   */
  lemma PresenceAgrees(run: Run, n: nat, sid: SessionId)
    requires run.Valid() && n < |run.states|
    requires forall i :: 0 <= i < n ==> TimelyHandlers(run.states[i])
    ensures AlwaysAgrees(run, n, sid)
  {
    forall i | 0 <= i < n ensures !Overtaken(run.states[i], run.steps[i], sid) {
      TimelyIsNeverOvertaken(run, i, sid);
    }
    AgreesExact(run, n, sid);
  }

  // ---- Who is online, from the events ---------------------------------------------------------------

  /** Opening its Channel and heartbeats put a session online in the registry; leaving and the sweep's drop take it offline. */
  lemma MemoryNext(run: Run, j: nat, sid: SessionId)
    requires run.Valid() && j < |run.steps|
    ensures OnlineInMemory(run.states[j + 1], sid) <==>
              || Raises(run, j, sid)
              || (OnlineInMemory(run.states[j], sid) && !Lowers(run, j, sid))
  {
    Next(run, j);
    ShapeHolds(run, j, sid);
    if OfChannel(run.steps[j]) {
      ChannelMemory(run.states[j], run.steps[j], sid);
    } else {
      OthersMemory(run.states[j], run.steps[j], sid);
    }
  }

  lemma ChannelMemory(s: Server, step: Step, sid: SessionId)
    requires Enabled(s, step) && ShapeInv(s, sid) && OfChannel(step)
    ensures OnlineInMemory(Do(s, step), sid) <==>
              step == ChanSet(sid) || step == Beat(sid) || (OnlineInMemory(s, sid) && step != Clear(sid))
  {
  }

  lemma OthersMemory(s: Server, step: Step, sid: SessionId)
    requires Enabled(s, step) && !OfChannel(step)
    ensures OnlineInMemory(Do(s, step), sid) <==> OnlineInMemory(s, sid) && step != SweepDrop(sid)
  {
  }

  ghost predicate Raises(run: Run, j: int, sid: SessionId) {
    run.Is(j, ChanSet(sid)) || run.Is(j, Beat(sid))
  }

  ghost predicate Lowers(run: Run, j: int, sid: SessionId) {
    run.Is(j, Clear(sid)) || run.Is(j, SweepDrop(sid))
  }

  /** Step i puts the session online in the registry, and no step between it and state k takes it offline. */
  ghost predicate RaisedSince(run: Run, i: int, k: nat, sid: SessionId) {
    0 <= i < k && Raises(run, i, sid) && forall m :: i < m < k ==> !Lowers(run, m, sid)
  }

  lemma RaisedNext(run: Run, j: nat, k: nat, sid: SessionId)
    requires j + 1 == k
    ensures (exists i :: RaisedSince(run, i, k, sid)) <==>
              Raises(run, j, sid) || (!Lowers(run, j, sid) && exists i :: RaisedSince(run, i, j, sid))
  {
    if i :| RaisedSince(run, i, k, sid) && i < j {
      assert !Lowers(run, j, sid) && RaisedSince(run, i, j, sid);
    }
    if Raises(run, j, sid) {
      assert RaisedSince(run, j, k, sid);
    } else if !Lowers(run, j, sid) {
      if i :| RaisedSince(run, i, j, sid) {
        assert RaisedSince(run, i, k, sid);
      }
    }
  }

  /** A session is online in the registry exactly when its last raising came after its last lowering. */
  lemma {:induction false} OnlineExact(run: Run, k: nat, sid: SessionId)
    requires run.Valid() && k < |run.states|
    ensures OnlineInMemory(run.states[k], sid) <==> exists i :: RaisedSince(run, i, k, sid)
  {
    if k > 0 {
      OnlineExact(run, k - 1, sid);
      MemoryNext(run, k - 1, sid);
      RaisedNext(run, k - 1, k, sid);
    }
  }

  /** The heartbeat's second write puts a stored session online in the table. */
  ghost predicate StoresBeat(run: Run, j: int, sid: SessionId) {
    run.Is(j, BeatStore(sid)) && j < |run.states| && sid in run.states[j].rows
  }

  ghost predicate StoresOffline(run: Run, j: int, sid: SessionId) {
    run.Is(j, ChanOff(sid)) || StoresDrop(run, j, sid)
  }

  lemma StoreNext(run: Run, j: nat, sid: SessionId)
    requires run.Valid() && j < |run.steps|
    ensures OnlineInStore(run.states[j + 1], sid) <==>
              StoresBeat(run, j, sid) || (OnlineInStore(run.states[j], sid) && !StoresOffline(run, j, sid))
  {
    Next(run, j);
    RegHolds(run, j);
    if OfChannel(run.steps[j]) {
      ChannelStore(run.states[j], run.steps[j], sid);
    } else {
      OthersStore(run.states[j], run.steps[j], sid);
    }
  }

  lemma ChannelStore(s: Server, step: Step, sid: SessionId)
    requires Enabled(s, step) && OfChannel(step)
    ensures OnlineInStore(Do(s, step), sid) <==>
              (step == BeatStore(sid) && sid in s.rows) || (OnlineInStore(s, sid) && step != ChanOff(sid))
  {
  }

  lemma OthersStore(s: Server, step: Step, sid: SessionId)
    requires Enabled(s, step) && !OfChannel(step) && RegInv(s)
    ensures OnlineInStore(Do(s, step), sid) <==> OnlineInStore(s, sid) && !(step == SweepStore && BeingDropped(s, sid))
  {
  }

  ghost predicate StoredSince(run: Run, i: int, k: nat, sid: SessionId) {
    0 <= i < k && StoresBeat(run, i, sid) && forall m :: i < m < k ==> !StoresOffline(run, m, sid)
  }

  lemma StoredNext(run: Run, j: nat, k: nat, sid: SessionId)
    requires j + 1 == k
    ensures (exists i :: StoredSince(run, i, k, sid)) <==>
              StoresBeat(run, j, sid) || (!StoresOffline(run, j, sid) && exists i :: StoredSince(run, i, j, sid))
  {
    if i :| StoredSince(run, i, k, sid) && i < j {
      assert !StoresOffline(run, j, sid) && StoredSince(run, i, j, sid);
    }
    if StoresBeat(run, j, sid) {
      assert StoredSince(run, j, k, sid);
    } else if !StoresOffline(run, j, sid) {
      if i :| StoredSince(run, i, j, sid) {
        assert StoredSince(run, i, k, sid);
      }
    }
  }

  /**
   A session is online in the table exactly when a heartbeat has been stored for it, its row being there,
   and neither the end of its Channel nor a sweep's drop has been stored since.
   */
  lemma {:induction false} StoredExact(run: Run, k: nat, sid: SessionId)
    requires run.Valid() && k < |run.states|
    ensures OnlineInStore(run.states[k], sid) <==> exists i :: StoredSince(run, i, k, sid)
  {
    if k > 0 {
      StoredExact(run, k - 1, sid);
      StoreNext(run, k - 1, sid);
      StoredNext(run, k - 1, k, sid);
    }
  }
}
