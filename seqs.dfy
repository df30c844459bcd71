/** The two array operations the frame step is built from: `forEach` that
    rewrites every element (Map) and `filter` that keeps some (Filter). */
module Seqs {

  /** Every element of `s` rewritten by `f`, in place and in order. */
  function Map<T, U>(s: seq<T>, f: T -> U): (r: seq<U>)
    ensures |r| == |s|
    ensures forall i :: 0 <= i < |s| ==> r[i] == f(s[i])
  {
    seq(|s|, i requires 0 <= i < |s| => f(s[i]))
  }

  /** The elements of `s` that satisfy `keep`, in their original order. */
  function Filter<T>(s: seq<T>, keep: T -> bool): (r: seq<T>)
    ensures |r| <= |s|
    ensures forall j :: 0 <= j < |r| ==> keep(r[j]) && r[j] in s
    ensures forall i :: 0 <= i < |s| && keep(s[i]) ==> s[i] in r
  {
    if s == [] then []
    else
      var k := |s| - 1;
      assert s == s[..k] + [s[k]];
      Filter(s[..k], keep) + (if keep(s[k]) then [s[k]] else [])
  }

  /** Appending one element extends the filtered prefix by at most that element. */
  lemma FilterSnoc<T>(s: seq<T>, keep: T -> bool, i: nat)
    requires i < |s|
    ensures Filter(s[..i + 1], keep) == Filter(s[..i], keep) + (if keep(s[i]) then [s[i]] else [])
  {
    assert s[..i + 1][..i] == s[..i];
  }

  /** `r` is the subsequence of `s` at the strictly increasing positions
      `idx`, and those positions are exactly the ones whose element satisfies
      `keep`. */
  ghost predicate SelectedAt<T>(s: seq<T>, keep: T -> bool, r: seq<T>, idx: seq<nat>)
  {
    |idx| == |r|
    && (forall j :: 0 <= j < |idx| ==> idx[j] < |s| && r[j] == s[idx[j]])
    && (forall j, k :: 0 <= j < k < |idx| ==> idx[j] < idx[k])
    && (forall i :: 0 <= i < |s| ==> (keep(s[i]) <==> i in idx))
  }

  lemma SelectedAtSnoc<T>(s: seq<T>, keep: T -> bool, r: seq<T>, idx: seq<nat>)
    requires |s| > 0 && SelectedAt(s[..|s| - 1], keep, r, idx)
    ensures var k := |s| - 1;
      SelectedAt(s, keep, r + (if keep(s[k]) then [s[k]] else []), idx + (if keep(s[k]) then [k] else []))
  {
    var k := |s| - 1;
    var r' := r + (if keep(s[k]) then [s[k]] else []);
    var idx' := idx + (if keep(s[k]) then [k] else []);
    forall j | 0 <= j < |idx'|
      ensures idx'[j] < |s| && r'[j] == s[idx'[j]]
    {
      if j < |idx| {
        assert s[..k][idx[j]] == s[idx[j]];
      }
    }
    forall i | 0 <= i < |s|
      ensures keep(s[i]) <==> i in idx'
    {
      if i < k {
        assert s[..k][i] == s[i];
      } else {
        assert i !in idx;
      }
    }
  }

  /** Filter keeps exactly the elements satisfying `keep`, in order: its result
      is the subsequence of `s` at the strictly increasing positions `idx`, and
      those positions are all the positions whose element is kept. */
  lemma {:induction false} FilterIndices<T>(s: seq<T>, keep: T -> bool) returns (idx: seq<nat>)
    ensures SelectedAt(s, keep, Filter(s, keep), idx)
  {
    if s == [] {
      idx := [];
    } else {
      var k := |s| - 1;
      var pre := FilterIndices(s[..k], keep);
      SelectedAtSnoc(s, keep, Filter(s[..k], keep), pre);
      idx := pre + (if keep(s[k]) then [k] else []);
    }
  }

  /** Filtering a sequence whose elements all pass leaves it as it is. */
  lemma {:induction false} FilterAllKept<T>(s: seq<T>, keep: T -> bool)
    requires forall i :: 0 <= i < |s| ==> keep(s[i])
    ensures Filter(s, keep) == s
  {
    if s != [] {
      var k := |s| - 1;
      FilterAllKept(s[..k], keep);
      assert s == s[..k] + [s[k]];
    }
  }

  /** Pruning twice is pruning once. */
  lemma FilterIdempotent<T>(s: seq<T>, keep: T -> bool)
    ensures Filter(Filter(s, keep), keep) == Filter(s, keep)
  {
    var r := Filter(s, keep);
    assert forall i :: 0 <= i < |r| ==> r[i] in r;
    FilterAllKept(r, keep);
  }

  /** `s.filter(keep)` computed by a loop over `s`. */
  method FilterLoop<T>(s: seq<T>, keep: T -> bool) returns (r: seq<T>)
    ensures r == Filter(s, keep)
  {
    r := [];
    var i := 0;
    while i < |s|
      invariant 0 <= i <= |s|
      invariant r == Filter(s[..i], keep)
    {
      FilterSnoc(s, keep, i);
      if keep(s[i]) {
        r := r + [s[i]];
      }
      i := i + 1;
    }
    assert s[..|s|] == s;
  }

  lemma AppendAssoc<T>(a: seq<T>, b: seq<T>, c: seq<T>)
    ensures (a + b) + c == a + (b + c)
  {
  }
}
