/**
 * The LINQ operators the serializer's pipelines are built from, over sequences
 * and evaluated eagerly: Where, ToDictionary (a dictionary modelled as the
 * ordered list of its entries, in insertion order) and a Select whose selector
 * can throw.
 */
module Linq {
  import opened Wrappers
  import opened Reflection

  /**
   * `r` lists the elements of `xs` at the positions `idx`, which increase strictly
   * and are exactly the positions whose element `keep` accepts: `r` is the
   * subsequence of accepted elements, in their original order and multiplicity.
   */
  ghost predicate SelectedAt<T>(xs: seq<T>, keep: T -> bool, r: seq<T>, idx: seq<nat>) {
    && |idx| == |r|
    && (forall k :: 0 <= k < |idx| ==> idx[k] < |xs| && r[k] == xs[idx[k]])
    && (forall k, l :: 0 <= k < l < |idx| ==> idx[k] < idx[l])
    && (forall i :: 0 <= i < |xs| ==> (keep(xs[i]) <==> i in idx))
  }

  /** Enumerable.Where: the elements that satisfy `keep`, in their original order. */
  function Where<T>(xs: seq<T>, keep: T -> bool): (r: seq<T>)
    ensures |r| <= |xs|
    ensures forall i :: 0 <= i < |r| ==> r[i] in xs && keep(r[i])
    ensures forall i :: 0 <= i < |xs| && keep(xs[i]) ==> xs[i] in r
  {
    if xs == [] then []
    else
      var last := xs[|xs| - 1];
      Where(xs[..|xs| - 1], keep) + if keep(last) then [last] else []
  }

  /** The positions Where takes its elements from. */
  lemma {:induction false} WherePositions<T>(xs: seq<T>, keep: T -> bool) returns (idx: seq<nat>)
    ensures SelectedAt(xs, keep, Where(xs, keep), idx)
  {
    if xs == [] {
      assert Where(xs, keep) == [];
      idx := [];
    } else {
      var init := xs[..|xs| - 1];
      var last := xs[|xs| - 1];
      var r0 := Where(init, keep);
      assert Where(xs, keep) == r0 + if keep(last) then [last] else [];
      var idx0 := WherePositions(init, keep);
      assert xs == init + [last];
      SelectedAtExtend(xs, init, last, keep, r0, idx0);
      idx := idx0 + if keep(last) then [|init|] else [];
    }
  }

  /**
   * Where keeps order and multiplicity: its result is the accepted elements at
   * strictly increasing positions (and, by SelectionIsWhere, the only such list).
   */
  lemma WhereIsOrderedSelection<T>(xs: seq<T>, keep: T -> bool)
    ensures exists idx :: SelectedAt(xs, keep, Where(xs, keep), idx)
  {
    var idx := WherePositions(xs, keep);
  }

  /** Appending one element to `xs` appends it to the selection exactly when it is accepted. */
  lemma SelectedAtExtend<T>(xs: seq<T>, init: seq<T>, x: T, keep: T -> bool, r0: seq<T>, idx0: seq<nat>)
    requires xs == init + [x]
    requires SelectedAt(init, keep, r0, idx0)
    ensures SelectedAt(xs, keep, r0 + (if keep(x) then [x] else []), idx0 + (if keep(x) then [|init|] else []))
  {
    var r := r0 + if keep(x) then [x] else [];
    var idx := idx0 + if keep(x) then [|init|] else [];
    forall k | 0 <= k < |idx| ensures idx[k] < |xs| && r[k] == xs[idx[k]] {
      if k < |idx0| {
        assert idx[k] == idx0[k] && r[k] == r0[k];
      }
    }
    forall i | 0 <= i < |xs| ensures keep(xs[i]) <==> i in idx {
      if i < |init| {
        assert xs[i] == init[i];
        assert i in idx <==> i in idx0 by {
          if i in idx {
            var k :| 0 <= k < |idx| && idx[k] == i;
            assert k < |idx0|;
          }
        }
      } else if keep(x) {
        assert idx[|idx| - 1] == i;
      } else {
        assert forall k :: 0 <= k < |idx| ==> idx[k] < |init|;
      }
    }
  }

  /** Two strictly increasing sequences with the same elements are equal. */
  lemma {:induction false} IncreasingSameElements(a: seq<nat>, b: seq<nat>)
    requires forall k, l :: 0 <= k < l < |a| ==> a[k] < a[l]
    requires forall k, l :: 0 <= k < l < |b| ==> b[k] < b[l]
    requires forall i :: i in a <==> i in b
    ensures a == b
  {
    if a == [] {
      assert forall k :: 0 <= k < |b| ==> b[k] in b;
    } else {
      assert b != [] by {
        assert a[0] in a;
      }
      assert a[0] == b[0] by {
        assert a[0] in b && b[0] in a;
      }
      forall i ensures i in a[1..] <==> i in b[1..] {
        if i in a[1..] {
          var k :| 1 <= k < |a| && a[k] == i;
          assert i in b;
        }
        if i in b[1..] {
          var k :| 1 <= k < |b| && b[k] == i;
          assert i in a;
        }
      }
      IncreasingSameElements(a[1..], b[1..]);
      assert a == [a[0]] + a[1..] && b == [b[0]] + b[1..];
    }
  }

  /** The positions a selection lists are exactly the accepted ones. */
  lemma SelectedPosition<T>(xs: seq<T>, keep: T -> bool, r: seq<T>, idx: seq<nat>, i: nat)
    requires SelectedAt(xs, keep, r, idx)
    ensures i in idx <==> i < |xs| && keep(xs[i])
  {
    if i in idx {
      var k :| 0 <= k < |idx| && idx[k] == i;
    }
  }

  /** Where is the only selection of accepted elements that keeps their order. */
  lemma SelectionIsWhere<T>(xs: seq<T>, keep: T -> bool, r: seq<T>, idx: seq<nat>)
    requires SelectedAt(xs, keep, r, idx)
    ensures r == Where(xs, keep)
  {
    var w := Where(xs, keep);
    var widx := WherePositions(xs, keep);
    forall i: nat ensures i in idx <==> i in widx {
      SelectedPosition(xs, keep, r, idx, i);
      SelectedPosition(xs, keep, w, widx, i);
    }
    IncreasingSameElements(idx, widx);
    assert forall k :: 0 <= k < |r| ==> r[k] == xs[idx[k]] == w[k];
  }

  /** Two filters that agree on every element select the same subsequence. */
  lemma {:induction false} WhereAgrees<T>(xs: seq<T>, keep1: T -> bool, keep2: T -> bool)
    requires forall i :: 0 <= i < |xs| ==> keep1(xs[i]) == keep2(xs[i])
    ensures Where(xs, keep1) == Where(xs, keep2)
  {
    if xs != [] {
      var init := xs[..|xs| - 1];
      assert forall i :: 0 <= i < |init| ==> init[i] == xs[i];
      WhereAgrees(init, keep1, keep2);
    }
  }

  /**
   * The flagged elements among the first `n` of `xs`, in order. A proof helper:
   * it is Where with the filter's answers precomputed, so that a Where over a
   * literal list can be evaluated one element at a time (WhereByFlags).
   */
  function Pick<T>(xs: seq<T>, flags: seq<bool>, n: nat): seq<T>
    requires |flags| == |xs| && n <= |xs|
  {
    if n == 0 then []
    else Pick(xs, flags, n - 1) + if flags[n - 1] then [xs[n - 1]] else []
  }

  /** Where is Pick with the filter's answer for each element. */
  lemma {:induction false} WhereByFlags<T>(xs: seq<T>, keep: T -> bool, flags: seq<bool>, n: nat)
    requires |flags| == |xs| && n <= |xs| && forall i :: 0 <= i < |xs| ==> keep(xs[i]) == flags[i]
    ensures Where(xs[..n], keep) == Pick(xs, flags, n)
  {
    if n != 0 {
      assert xs[..n][..n - 1] == xs[..n - 1];
      WhereByFlags(xs, keep, flags, n - 1);
    }
  }

  /** The keys of a dictionary, in insertion order. */
  function Keys<V>(d: seq<(string, V)>): (ks: seq<string>)
    ensures |ks| == |d|
    ensures forall i :: 0 <= i < |d| ==> ks[i] == d[i].0
  {
    seq(|d|, i requires 0 <= i < |d| => d[i].0)
  }

  /** A dictionary never holds a key twice. */
  predicate UniqueKeys<V>(d: seq<(string, V)>) {
    forall i, j :: 0 <= i < j < |d| ==> d[i].0 != d[j].0
  }

  /** No two entries share a key. */
  predicate DistinctKeys<T>(items: seq<T>, key: T -> string) {
    forall i, j :: 0 <= i < j < |items| ==> key(items[i]) != key(items[j])
  }

  /**
   * Enumerable.ToDictionary(key, value): for each element in order, the key and
   * then the value are computed and the entry added; the first value that throws,
   * or the first key already present, ends it with that fault.
   */
  function ToDictionary<T, V>(items: seq<T>, key: T -> string, value: T -> Result<V, Fault>)
    : (r: Result<seq<(string, V)>, Fault>)
    ensures r.Ok? <==> DistinctKeys(items, key) && forall i :: 0 <= i < |items| ==> value(items[i]).Ok?
    ensures r.Ok? ==> |r.value| == |items|
    ensures r.Ok? ==> forall i :: 0 <= i < |items| ==> r.value[i] == (key(items[i]), value(items[i]).value)
    ensures r.Err? && (forall i :: 0 <= i < |items| ==> value(items[i]).Ok?) ==> r.error.DuplicateKey?
  {
    if items == [] then Ok([])
    else
      var init := items[..|items| - 1];
      var last := items[|items| - 1];
      assert forall i :: 0 <= i < |init| ==> init[i] == items[i];
      match ToDictionary(init, key, value)
      case Err(e) => Err(e)
      case Ok(d) =>
        match value(last)
        case Err(e) => Err(e)
        case Ok(v) =>
          var k := key(last);
          if k in Keys(d) then
            assert !DistinctKeys(items, key) by {
              var j :| 0 <= j < |d| && Keys(d)[j] == k;
              assert key(items[j]) == key(items[|items| - 1]);
            }
            Err(DuplicateKey(k))
          else
            Ok(d + [(k, v)])
  }

  /**
   * `from item in items select f(item)` forced in order: the first element whose
   * selector throws ends it with that fault.
   */
  function SelectAll<T, U>(items: seq<T>, f: T -> Result<U, Fault>): (r: Result<seq<U>, Fault>)
    ensures r.Ok? <==> forall i :: 0 <= i < |items| ==> f(items[i]).Ok?
    ensures r.Ok? ==> |r.value| == |items| && forall i :: 0 <= i < |items| ==> r.value[i] == f(items[i]).value
  {
    if items == [] then Ok([])
    else
      match f(items[0])
      case Err(e) => Err(e)
      case Ok(u) =>
        match SelectAll(items[1..], f)
        case Err(e) => Err(e)
        case Ok(us) => Ok([u] + us)
  }
}
