/**
 ORDER BY key DESC over a set of row ids. SQL leaves ties open; here the smaller id comes first,
 so that a query has one answer.
 */
module Ranking {

  /** Row a is listed before row b. */
  predicate Before(key: map<nat, int>, a: nat, b: nat)
    requires a in key && b in key
  {
    key[a] > key[b] || (key[a] == key[b] && a < b)
  }

  predicate Leads(key: map<nat, int>, ids: set<nat>, top: nat)
    requires ids <= key.Keys
  {
    top in ids && forall o :: o in ids && o != top ==> Before(key, top, o)
  }

  lemma {:induction false} SomeoneLeads(key: map<nat, int>, ids: set<nat>)
    requires ids <= key.Keys && ids != {}
    ensures exists top :: Leads(key, ids, top)
    decreases |ids|
  {
    var x :| x in ids;
    var rest := ids - {x};
    assert ids == rest + {x};
    if rest == {} {
      assert Leads(key, ids, x);
    } else {
      SomeoneLeads(key, rest);
      var top :| Leads(key, rest, top);
      assert forall o :: o in ids <==> o == x || o in rest;
      assert Leads(key, ids, if Before(key, x, top) then x else top);
    }
  }

  function Ranked(key: map<nat, int>, ids: set<nat>): seq<nat>
    requires ids <= key.Keys
    decreases |ids|
  {
    if ids == {} then []
    else
      SomeoneLeads(key, ids);
      var top :| Leads(key, ids, top);
      [top] + Ranked(key, ids - {top})
  }

  ghost predicate InOrder(key: map<nat, int>, ids: seq<nat>)
    requires forall i :: 0 <= i < |ids| ==> ids[i] in key
  {
    forall i, j :: 0 <= i < j < |ids| ==> Before(key, ids[i], ids[j])
  }

  /** A ranking lists exactly the given rows, each once, the greatest key first. */
  lemma {:induction false} RankedExact(key: map<nat, int>, ids: set<nat>)
    requires ids <= key.Keys
    ensures var list := Ranked(key, ids);
            && (forall id :: id in list <==> id in ids)
            && |list| == |ids|
            && InOrder(key, list)
    decreases |ids|
  {
    if ids != {} {
      var list := Ranked(key, ids);
      var top := list[0];
      assert Leads(key, ids, top) && list == [top] + Ranked(key, ids - {top}) by {
        SomeoneLeads(key, ids);
      }
      RankedExact(key, ids - {top});
      forall i, j | 0 <= i < j < |list| ensures Before(key, list[i], list[j]) {
        if i == 0 {
          assert list[j] in list[1..];
        } else {
          assert list[i] == list[1..][i - 1] && list[j] == list[1..][j - 1];
        }
      }
    }
  }

  /** Nothing else is in that order: a query has one answer. */
  lemma {:induction false} RankedUnique(key: map<nat, int>, a: seq<nat>, b: seq<nat>)
    requires forall id :: id in a <==> id in b
    requires forall id :: id in a ==> id in key
    requires InOrder(key, a) && InOrder(key, b)
    ensures a == b
    decreases |a|
  {
    assert a != [] ==> a[0] in b;
    assert b != [] ==> b[0] in a;
    if a != [] && b != [] {
      assert a[0] == b[0];
      assert a == [a[0]] + a[1..] && b == [b[0]] + b[1..];
      assert a[0] !in a[1..] && b[0] !in b[1..];
      assert forall id :: id in a <==> id == a[0] || id in a[1..];
      assert forall id :: id in b <==> id == b[0] || id in b[1..];
      RankedUnique(key, a[1..], b[1..]);
    }
  }

  /** The rows listed before this one. */
  function Ahead(key: map<nat, int>, ids: set<nat>, id: nat): set<nat>
    requires ids <= key.Keys && id in key
  {
    set o | o in ids && Before(key, o, id)
  }

  lemma {:induction false} PrefixSize(list: seq<nat>, n: nat)
    requires n <= |list| && forall i, j :: 0 <= i < j < |list| ==> list[i] != list[j]
    ensures |set k | 0 <= k < n :: list[k]| == n
  {
    if n > 0 {
      PrefixSize(list, n - 1);
      assert (set k | 0 <= k < n :: list[k]) == (set k | 0 <= k < n - 1 :: list[k]) + {list[n - 1]};
    }
  }

  /** A row's place in the answer is the number of rows before it. */
  lemma PlaceIsCount(key: map<nat, int>, ids: set<nat>, list: seq<nat>, i: nat)
    requires ids <= key.Keys && (forall id :: id in list <==> id in ids) && InOrder(key, list) && i < |list|
    ensures |Ahead(key, ids, list[i])| == i
  {
    assert list[i] in list;
    assert Ahead(key, ids, list[i]) == (set k | 0 <= k < i :: list[k]) by {
      forall o | o in Ahead(key, ids, list[i]) ensures o in (set k | 0 <= k < i :: list[k]) {
        var k :| 0 <= k < |list| && list[k] == o;
        assert k < i;
      }
      forall k | 0 <= k < i ensures list[k] in Ahead(key, ids, list[i]) {
        assert list[k] in list;
      }
    }
    PrefixSize(list, i);
  }
}
