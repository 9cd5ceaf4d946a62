/**
 * The iterator adaptors the core is written with — `filter`, `filter_map`
 * and `partition` — as functions on sequences, with the facts about them
 * that the rest of the model uses.
 */
module Seqs {
  import opened Wrappers

  /** `s.into_iter().filter(keep).collect()` */
  function Filter<T(!new)>(keep: T -> bool, s: seq<T>): (r: seq<T>)
    ensures |r| <= |s|
    ensures forall i :: 0 <= i < |r| ==> keep(r[i])
  {
    if s == [] then [] else (if keep(s[0]) then [s[0]] else []) + Filter(keep, s[1..])
  }

  /**
   * The kept elements are exactly the input's elements that satisfy `keep`,
   * each as often as in the input: nothing is lost or duplicated.
   */
  lemma {:induction false} FilterCounts<T(!new)>(keep: T -> bool, s: seq<T>)
    ensures forall x :: multiset(Filter(keep, s))[x] == if keep(x) then multiset(s)[x] else 0
  {
    if s != [] {
      FilterCounts(keep, s[1..]);
      var head := [s[0]];
      assert Filter(keep, s) == (if keep(s[0]) then head else []) + Filter(keep, s[1..]);
      assert s == head + s[1..];
    }
  }

  /** Filtering distributes over concatenation: the kept elements stay in input order. */
  lemma {:induction false} FilterAppend<T(!new)>(keep: T -> bool, a: seq<T>, b: seq<T>)
    ensures Filter(keep, a + b) == Filter(keep, a) + Filter(keep, b)
  {
    if a == [] {
      assert a + b == b;
    } else {
      assert (a + b)[1..] == a[1..] + b;
      FilterAppend(keep, a[1..], b);
    }
  }

  /** Nothing is kept exactly when no element satisfies `keep`. */
  lemma {:induction false} FilterEmptyIff<T(!new)>(keep: T -> bool, s: seq<T>)
    ensures Filter(keep, s) == [] <==> forall i :: 0 <= i < |s| ==> !keep(s[i])
  {
    if s != [] {
      FilterEmptyIff(keep, s[1..]);
      assert forall i :: 1 <= i < |s| ==> s[i] == s[1..][i - 1];
    }
  }

  /** Everything is kept exactly when every element satisfies `keep`; then the result is the input. */
  lemma {:induction false} FilterAllIff<T(!new)>(keep: T -> bool, s: seq<T>)
    ensures |Filter(keep, s)| == |s| <==> forall i :: 0 <= i < |s| ==> keep(s[i])
    ensures (forall i :: 0 <= i < |s| ==> keep(s[i])) ==> Filter(keep, s) == s
  {
    if s != [] {
      var tail := Filter(keep, s[1..]);
      assert Filter(keep, s) == (if keep(s[0]) then [s[0]] else []) + tail;
      FilterAllIff(keep, s[1..]);
      assert forall i :: 1 <= i < |s| ==> s[i] == s[1..][i - 1];
      if keep(s[0]) && forall i :: 1 <= i < |s| ==> keep(s[i]) {
        assert s == [s[0]] + s[1..];
      }
    }
  }

  /** `s.partition(keep)`: the two sides together are as long as the input. */
  lemma {:induction false} PartitionSizes<T(!new)>(keep: T -> bool, reject: T -> bool, s: seq<T>)
    requires forall x :: reject(x) == !keep(x)
    ensures |Filter(keep, s)| + |Filter(reject, s)| == |s|
  {
    if s != [] {
      PartitionSizes(keep, reject, s[1..]);
    }
  }

  /**
   * `s.partition(keep)`: the two sides together hold every element exactly
   * once, the first side the ones `keep` accepts.
   */
  lemma {:induction false} PartitionSplits<T(!new)>(keep: T -> bool, reject: T -> bool, s: seq<T>)
    requires forall x :: reject(x) == !keep(x)
    ensures multiset(Filter(keep, s)) + multiset(Filter(reject, s)) == multiset(s)
  {
    if s != [] {
      var head, tail := [s[0]], s[1..];
      PartitionSplits(keep, reject, tail);
      var kept, rejected := Filter(keep, tail), Filter(reject, tail);
      assert s == head + tail;
      var rest := multiset(kept) + multiset(rejected);
      assert rest == multiset(tail);
      if keep(s[0]) {
        assert Filter(keep, s) == head + kept;
        assert Filter(reject, s) == rejected;
        assert multiset(Filter(keep, s)) == multiset(head) + multiset(kept);
      } else {
        assert Filter(keep, s) == kept;
        assert Filter(reject, s) == head + rejected;
        assert multiset(Filter(reject, s)) == multiset(head) + multiset(rejected);
      }
    }
  }

  /** `s.into_iter().filter_map(pick).collect()` */
  function FilterMap<T, U>(pick: T -> Option<U>, s: seq<T>): (r: seq<U>)
    ensures |r| <= |s|
  {
    if s == [] then []
    else (match pick(s[0]) case Some(u) => [u] case None => []) + FilterMap(pick, s[1..])
  }

  /** `filter_map` keeps the picked values in input order. */
  lemma {:induction false} FilterMapAppend<T, U>(pick: T -> Option<U>, a: seq<T>, b: seq<T>)
    ensures FilterMap(pick, a + b) == FilterMap(pick, a) + FilterMap(pick, b)
  {
    if a == [] {
      assert a + b == b;
    } else {
      assert (a + b)[1..] == a[1..] + b;
      FilterMapAppend(pick, a[1..], b);
    }
  }

  /** Every value `filter_map` yields was picked from some element of the input. */
  lemma {:induction false} FilterMapFrom<T, U>(pick: T -> Option<U>, s: seq<T>, k: int)
    requires 0 <= k < |FilterMap(pick, s)|
    ensures exists i :: 0 <= i < |s| && pick(s[i]) == Some(FilterMap(pick, s)[k])
  {
    var r := FilterMap(pick, s);
    if pick(s[0]).Some? && k == 0 {
      assert pick(s[0]) == Some(r[k]);
    } else {
      var k' := if pick(s[0]).Some? then k - 1 else k;
      assert r[k] == FilterMap(pick, s[1..])[k'];
      FilterMapFrom(pick, s[1..], k');
      var i :| 0 <= i < |s[1..]| && pick(s[1..][i]) == Some(FilterMap(pick, s[1..])[k']);
      assert pick(s[i + 1]) == Some(r[k]);
    }
  }

  /** `filter_map` yields nothing exactly when nothing is picked. */
  lemma {:induction false} FilterMapEmptyIff<T, U>(pick: T -> Option<U>, s: seq<T>)
    ensures FilterMap(pick, s) == [] <==> forall i :: 0 <= i < |s| ==> pick(s[i]).None?
  {
    if s != [] {
      FilterMapEmptyIff(pick, s[1..]);
      assert forall i :: 1 <= i < |s| ==> s[i] == s[1..][i - 1];
    }
  }

  /** When every element is picked, `filter_map` is a plain `map`. */
  lemma {:induction false} FilterMapAllPicked<T, U>(pick: T -> Option<U>, s: seq<T>)
    requires forall i :: 0 <= i < |s| ==> pick(s[i]).Some?
    ensures |FilterMap(pick, s)| == |s|
    ensures forall i :: 0 <= i < |s| ==> pick(s[i]) == Some(FilterMap(pick, s)[i])
  {
    if s != [] {
      assert forall i :: 1 <= i < |s| ==> s[i] == s[1..][i - 1];
      FilterMapAllPicked(pick, s[1..]);
    }
  }

  /** When nothing is missed, `filter_map` yields exactly one value per element. */
  lemma {:induction false} FilterMapShortIfMissed<T, U>(pick: T -> Option<U>, s: seq<T>)
    ensures |FilterMap(pick, s)| == |s| ==> forall i :: 0 <= i < |s| ==> pick(s[i]).Some?
  {
    if s != [] {
      assert forall i :: 1 <= i < |s| ==> s[i] == s[1..][i - 1];
      FilterMapShortIfMissed(pick, s[1..]);
    }
  }

  /** Filtering what `pick` yields is one `filter_map` with the combined picker. */
  lemma {:induction false} FilterOfFilterMap<T, U(!new)>(keep: U -> bool, pick: T -> Option<U>, both: T -> Option<U>, s: seq<T>)
    requires forall x :: both(x) == if pick(x).Some? && keep(pick(x).value) then pick(x) else None
    ensures Filter(keep, FilterMap(pick, s)) == FilterMap(both, s)
  {
    if s != [] {
      var head := match pick(s[0]) case Some(u) => [u] case None => [];
      assert FilterMap(pick, s) == head + FilterMap(pick, s[1..]);
      FilterAppend(keep, head, FilterMap(pick, s[1..]));
      FilterOfFilterMap(keep, pick, both, s[1..]);
      if head != [] {
        assert head == [head[0]] && head[1..] == [];
      }
    }
  }

  /** Two pieces of which one is empty can be put in either order. */
  lemma SwapEmpty<T>(a: seq<T>, b: seq<T>, rest: seq<T>)
    requires a == [] || b == []
    ensures a + (b + rest) == b + (a + rest)
  {
    if a == [] {
      assert a + (b + rest) == b + rest;
    } else {
      assert b + (a + rest) == a + rest;
    }
  }
}
