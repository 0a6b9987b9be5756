/** Change detection for hardware reports: ReportCache and the report loop. */
module ReportDedup {
  import opened Sequences
  import opened ClientStream

  /** A snapshot collected, and whether a send at that moment would succeed. */
  datatype Offer = Offer(info: Info, ok: bool)

  type Hash = Info -> string

  /** SHA-256 over the marshalled snapshot, taken as collision-free; the empty string stands for no snapshot. */
  ghost predicate Faithful(hash: Hash) {
    && (forall x :: hash(x) != "")
    && (forall x, y :: hash(x) == hash(y) ==> x == y)
  }

  predicate Changed(hash: Hash, last: string, info: Info) {
    last == "" || hash(info) != last
  }

  // ---- One check, send and mark ------------------------------------------------------

  function CacheAfter(hash: Hash, last: string, offers: seq<Offer>): string {
    if offers == [] then last
    else
      var before, offer := CacheAfter(hash, last, offers[..|offers| - 1]), offers[|offers| - 1];
      if Changed(hash, before, offer.info) && offer.ok then hash(offer.info) else before
  }

  function AttemptsFor(hash: Hash, last: string, offers: seq<Offer>): seq<Attempt> {
    if offers == [] then []
    else
      var init, offer := offers[..|offers| - 1], offers[|offers| - 1];
      if Changed(hash, CacheAfter(hash, last, init), offer.info) then
        AttemptsFor(hash, last, init) + [Attempt(Report(offer.info), offer.ok)]
      else AttemptsFor(hash, last, init)
  }

  class ReportCache {
    const hash: Hash
    var lastHash: string

    constructor (hash: Hash)
      ensures this.hash == hash && lastHash == ""
    {
      this.hash, lastHash := hash, "";
    }

    method IsChanged(info: Info) returns (changed: bool)
      ensures changed <==> Changed(hash, lastHash, info)
      ensures changed <==> lastHash == "" || hash(info) != lastHash
    {
      if lastHash == "" {
        return true;
      }
      changed := hash(info) != lastHash;
    }

    /** With a collision-free hash, only the snapshot just marked is unchanged. */
    method MarkSent(info: Info)
      modifies this
      ensures lastHash == hash(info)
      ensures Faithful(hash) ==> forall other :: Changed(hash, lastHash, other) <==> other != info
    {
      lastHash := hash(info);
    }
  }

  /**
   reportLoop, one offer per tick, until its context is cancelled or a send fails. `done` ticks were
   served; a new loop of the next session goes on with the same cache.
   */
  method ReportLoop(cache: ReportCache, stream: Stream, ticks: seq<Offer>) returns (done: nat)
    modifies cache, stream
    ensures done <= |ticks|
    ensures stream.attempts == old(stream.attempts) + AttemptsFor(cache.hash, old(cache.lastHash), ticks[..done])
    ensures cache.lastHash == CacheAfter(cache.hash, old(cache.lastHash), ticks[..done])
    ensures done < |ticks| ==>
      done > 0 && stream.attempts != [] && stream.attempts[|stream.attempts| - 1] == Attempt(Report(ticks[done - 1].info), false)
  {
    done := 0;
    while done < |ticks|
      invariant done <= |ticks|
      invariant stream.attempts == old(stream.attempts) + AttemptsFor(cache.hash, old(cache.lastHash), ticks[..done])
      invariant cache.lastHash == CacheAfter(cache.hash, old(cache.lastHash), ticks[..done])
    {
      var tick := ticks[done];
      done := done + 1;
      assert ticks[..done][..done - 1] == ticks[..done - 1];
      var changed := cache.IsChanged(tick.info);
      if changed {
        stream.Send(Report(tick.info), tick.ok);
        if !tick.ok {
          return;
        }
        cache.MarkSent(tick.info);
      }
    }
  }

  // ---- What is sent --------------------------------------------------------------------

  /** The reports that got through. */
  function Delivered(attempts: seq<Attempt>): seq<Info> {
    if attempts == [] then []
    else
      var init, last := attempts[..|attempts| - 1], attempts[|attempts| - 1];
      if last.msg.Report? && last.ok then Delivered(init) + [last.msg.info] else Delivered(init)
  }

  /** The snapshots collected at moments when a send would have got through. */
  function Sendable(offers: seq<Offer>): seq<Info> {
    if offers == [] then []
    else
      var init, last := offers[..|offers| - 1], offers[|offers| - 1];
      if last.ok then Sendable(init) + [last.info] else Sendable(init)
  }

  /** Every element that repeats the one before it is left out. */
  function Dedup(xs: seq<Info>): seq<Info> {
    if |xs| <= 1 then xs
    else
      var n := |xs| - 1;
      if xs[n] == xs[n - 1] then Dedup(xs[..n]) else Dedup(xs[..n]) + [xs[n]]
  }

  lemma {:induction false} DedupKeepsLast(xs: seq<Info>)
    ensures xs == [] <==> Dedup(xs) == []
    ensures xs != [] ==> Dedup(xs)[|Dedup(xs)| - 1] == xs[|xs| - 1]
  {
    if |xs| > 1 {
      DedupKeepsLast(xs[..|xs| - 1]);
    }
  }

  lemma {:induction false} DedupHasNoRepeats(xs: seq<Info>)
    ensures forall i :: 0 < i < |Dedup(xs)| ==> Dedup(xs)[i] != Dedup(xs)[i - 1]
  {
    if |xs| > 1 {
      DedupHasNoRepeats(xs[..|xs| - 1]);
      DedupKeepsLast(xs[..|xs| - 1]);
    }
  }

  /** The cache after an empty start: the last snapshot that could be sent, sent or not. */
  lemma {:induction false} CacheIsLastSendable(hash: Hash, offers: seq<Offer>)
    requires Faithful(hash)
    ensures var xs := Sendable(offers);
            CacheAfter(hash, "", offers) == if xs == [] then "" else hash(xs[|xs| - 1])
  {
    if offers != [] {
      CacheIsLastSendable(hash, offers[..|offers| - 1]);
    }
  }

  /** A snapshot is offered to the stream exactly when it differs from the last sendable one. */
  lemma {:induction false} ChangedExact(hash: Hash, offers: seq<Offer>, info: Info)
    requires Faithful(hash)
    ensures var xs := Sendable(offers);
            Changed(hash, CacheAfter(hash, "", offers), info) <==> xs == [] || xs[|xs| - 1] != info
  {
    CacheIsLastSendable(hash, offers);
  }

  lemma {:induction false} DeliveredNext(attempts: seq<Attempt>, info: Info, ok: bool)
    ensures Delivered(attempts + [Attempt(Report(info), ok)])
            == if ok then Delivered(attempts) + [info] else Delivered(attempts)
  {
    assert (attempts + [Attempt(Report(info), ok)])[..|attempts|] == attempts;
  }

  lemma {:induction false} DedupNext(xs: seq<Info>, x: Info)
    ensures Dedup(xs + [x]) == if xs != [] && xs[|xs| - 1] == x then Dedup(xs) else Dedup(xs) + [x]
  {
    assert (xs + [x])[..|xs|] == xs;
  }

  /** One more offer: attempted if it differs from the last sendable snapshot, sendable if a send would get through. */
  lemma {:induction false} DedupStep(attempts: seq<Attempt>, xs: seq<Info>, offer: Offer, attempts': seq<Attempt>, xs': seq<Info>)
    requires Delivered(attempts) == Dedup(xs)
    requires attempts' == if xs == [] || xs[|xs| - 1] != offer.info then attempts + [Attempt(Report(offer.info), offer.ok)]
                          else attempts
    requires xs' == if offer.ok then xs + [offer.info] else xs
    ensures Delivered(attempts') == Dedup(xs')
  {
    DeliveredNext(attempts, offer.info, offer.ok);
    DedupNext(xs, offer.info);
  }

  /**
   The reports that get through are the sendable snapshots with adjacent repeats left out. With no
   failing send that is every snapshot collected with adjacent repeats left out.
   */
  lemma {:induction false} DedupExact(hash: Hash, offers: seq<Offer>)
    requires Faithful(hash)
    ensures Delivered(AttemptsFor(hash, "", offers)) == Dedup(Sendable(offers))
  {
    if offers != [] {
      var init, offer := offers[..|offers| - 1], offers[|offers| - 1];
      DedupExact(hash, init);
      ChangedExact(hash, init, offer.info);
      DedupStep(AttemptsFor(hash, "", init), Sendable(init), offer, AttemptsFor(hash, "", offers), Sendable(offers));
    }
  }

  /** A snapshot is handed to the stream, whether or not the send gets through, exactly when it differs from the last sendable one. */
  lemma {:induction false} AttemptsExact(hash: Hash, offers: seq<Offer>, offer: Offer)
    requires Faithful(hash)
    ensures var xs := Sendable(offers);
            AttemptsFor(hash, "", offers + [offer])
            == AttemptsFor(hash, "", offers)
               + if xs != [] && xs[|xs| - 1] == offer.info then [] else [Attempt(Report(offer.info), offer.ok)]
  {
    assert (offers + [offer])[..|offers|] == offers;
    ChangedExact(hash, offers, offer.info);
  }

  /** No two consecutive reports that get through are equal, and the cache holds the last of them. */
  lemma {:induction false} ConsecutiveReportsDiffer(hash: Hash, offers: seq<Offer>)
    requires Faithful(hash)
    ensures var sent := Delivered(AttemptsFor(hash, "", offers));
            && (forall i :: 0 < i < |sent| ==> sent[i] != sent[i - 1])
            && CacheAfter(hash, "", offers) == if sent == [] then "" else hash(sent[|sent| - 1])
  {
    DedupExact(hash, offers);
    DedupHasNoRepeats(Sendable(offers));
    DedupKeepsLast(Sendable(offers));
    CacheIsLastSendable(hash, offers);
  }

  lemma {:induction false} CacheAcross(hash: Hash, last: string, offers: seq<Offer>, more: seq<Offer>)
    ensures CacheAfter(hash, last, offers + more) == CacheAfter(hash, CacheAfter(hash, last, offers), more)
  {
    if more == [] {
      assert offers + more == offers;
    } else {
      assert (offers + more)[..|offers + more| - 1] == offers + more[..|more| - 1];
      CacheAcross(hash, last, offers, more[..|more| - 1]);
    }
  }

  /** Loops and collect-now commands that follow one another on one cache act as one long loop. */
  lemma {:induction false} AcrossReconnects(hash: Hash, last: string, offers: seq<Offer>, more: seq<Offer>)
    ensures AttemptsFor(hash, last, offers + more)
            == AttemptsFor(hash, last, offers) + AttemptsFor(hash, CacheAfter(hash, last, offers), more)
  {
    if more == [] {
      assert offers + more == offers;
    } else {
      var init := more[..|more| - 1];
      assert (offers + more)[..|offers + more| - 1] == offers + init;
      AcrossReconnects(hash, last, offers, init);
      CacheAcross(hash, last, offers, init);
    }
  }
}
