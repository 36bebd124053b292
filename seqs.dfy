/** Sequence operations that the query pipelines of the catalog use:
    filtering, projection, distinct values, "first element of each group"
    and substring search. */
module SeqOps {
  import opened Wrappers

  /** The elements of `s` that satisfy `f`, in their original order (LINQ `Where`). */
  function Filter<T>(s: seq<T>, f: T -> bool): (r: seq<T>)
    ensures |r| <= |s|
    ensures forall i :: 0 <= i < |r| ==> r[i] in s && f(r[i])
    ensures forall i :: 0 <= i < |s| && f(s[i]) ==> s[i] in r
  {
    if s == [] then []
    else (if f(s[0]) then [s[0]] else []) + Filter(s[1..], f)
  }

  /** Every position in `idx`, one further on. */
  function Shift(idx: seq<nat>): (r: seq<nat>)
    ensures |r| == |idx|
    ensures forall k :: 0 <= k < |idx| ==> r[k] == idx[k] + 1
  {
    if idx == [] then [] else [idx[0] + 1] + Shift(idx[1..])
  }

  /** `r` is the subsequence of `s` at the increasing positions `idx`. */
  ghost predicate AtPositions<T>(idx: seq<nat>, r: seq<T>, s: seq<T>) {
    && |idx| == |r|
    && (forall i :: 0 <= i < |idx| ==> idx[i] < |s| && s[idx[i]] == r[i])
    && (forall i, j :: 0 <= i < j < |idx| ==> idx[i] < idx[j])
  }

  /** Every position of `s` from `from` on whose element satisfies `f` is in `idx`. */
  ghost predicate Covers<T>(idx: seq<nat>, s: seq<T>, f: T -> bool, from: nat) {
    forall j :: from <= j < |s| && f(s[j]) ==> exists k :: 0 <= k < |idx| && idx[k] == j
  }

  /** `r` is the subsequence of `s` at the increasing positions `idx`, and
      every position of `s` whose element satisfies `f` is among them. */
  ghost predicate KeptInOrder<T>(idx: seq<nat>, r: seq<T>, s: seq<T>, f: T -> bool) {
    AtPositions(idx, r, s) && Covers(idx, s, f, 0)
  }

  /** Positions in `t` are positions one further on in `[x] + t`. */
  lemma ShiftAtPositions<T>(x: T, t: seq<T>, rt: seq<T>, rest: seq<nat>)
    requires AtPositions(rest, rt, t)
    ensures AtPositions(Shift(rest), rt, [x] + t)
  {
    var shifted := Shift(rest);
    forall k | 0 <= k < |shifted| ensures shifted[k] < |[x] + t| && ([x] + t)[shifted[k]] == rt[k] {
      assert ([x] + t)[shifted[k]] == t[rest[k]];
    }
  }

  /** Covering `t` covers `[x] + t` from position 1 once shifted. */
  lemma ShiftCovers<T>(x: T, t: seq<T>, rest: seq<nat>, f: T -> bool)
    requires Covers(rest, t, f, 0)
    ensures Covers(Shift(rest), [x] + t, f, 1)
  {
    var s, shifted := [x] + t, Shift(rest);
    forall j | 1 <= j < |s| && f(s[j]) ensures exists k :: 0 <= k < |shifted| && shifted[k] == j {
      assert f(t[j - 1]);
      var k :| 0 <= k < |rest| && rest[k] == j - 1;
      assert shifted[k] == j;
    }
  }

  /** Keeping position 0 in front of positions that start at 1. */
  lemma TakeHead<T>(x: T, t: seq<T>, rt: seq<T>, shifted: seq<nat>, f: T -> bool)
    requires AtPositions(shifted, rt, [x] + t) && Covers(shifted, [x] + t, f, 1)
    requires forall k :: 0 <= k < |shifted| ==> shifted[k] >= 1
    ensures KeptInOrder([0] + shifted, [x] + rt, [x] + t, f)
  {
    var s, idx := [x] + t, [0] + shifted;
    forall j | 0 <= j < |s| && f(s[j]) ensures exists k :: 0 <= k < |idx| && idx[k] == j {
      if j == 0 {
        assert idx[0] == 0;
      } else {
        var k :| 0 <= k < |shifted| && shifted[k] == j;
        assert idx[k + 1] == j;
      }
    }
  }

  /** Putting `x` in front of `t` moves every kept position one further on,
      and keeps position 0 as well when `x` satisfies `f`. */
  lemma ConsKeptInOrder<T>(x: T, t: seq<T>, rt: seq<T>, rest: seq<nat>, f: T -> bool) returns (idx: seq<nat>)
    requires KeptInOrder(rest, rt, t, f)
    ensures KeptInOrder(idx, if f(x) then [x] + rt else rt, [x] + t, f)
  {
    ShiftAtPositions(x, t, rt, rest);
    ShiftCovers(x, t, rest, f);
    var shifted := Shift(rest);
    if f(x) {
      TakeHead(x, t, rt, shifted, f);
      idx := [0] + shifted;
    } else {
      idx := shifted;
      assert Covers(idx, [x] + t, f, 0) by {
        assert !f(([x] + t)[0]);
      }
    }
  }

  /** Filter keeps the order of `s`: its elements sit at increasing
      positions of `s`, and every position whose element satisfies `f` is
      among them. */
  lemma {:induction false} FilterInOrder<T>(s: seq<T>, f: T -> bool) returns (idx: seq<nat>)
    ensures KeptInOrder(idx, Filter(s, f), s, f)
  {
    if s == [] {
      idx := [];
    } else {
      var rest := FilterInOrder(s[1..], f);
      idx := ConsKeptInOrder(s[0], s[1..], Filter(s[1..], f), rest, f);
      assert [s[0]] + s[1..] == s;
    }
  }

  /** The image of every element of `s` under `f` (LINQ `Select`). */
  function Map<T, U>(s: seq<T>, f: T -> U): (r: seq<U>)
    ensures |r| == |s|
    ensures forall i :: 0 <= i < |s| ==> r[i] == f(s[i])
  {
    if s == [] then [] else [f(s[0])] + Map(s[1..], f)
  }

  /** The index of the first element of `s` that satisfies `f` (LINQ `FirstOrDefault`). */
  function FirstIndex<T>(s: seq<T>, f: T -> bool): (r: Option<nat>)
    ensures r.Some? ==> r.value < |s| && f(s[r.value])
    ensures r.Some? ==> forall j :: 0 <= j < r.value ==> !f(s[j])
    ensures r.None? <==> forall j :: 0 <= j < |s| ==> !f(s[j])
  {
    if s == [] then None
    else if f(s[0]) then Some(0)
    else match FirstIndex(s[1..], f)
      case None => None
      case Some(i) => Some(i + 1)
  }

  /** No value occurs twice in `s`. */
  predicate NoDuplicates<T(==)>(s: seq<T>) {
    forall i, j :: 0 <= i < j < |s| ==> s[i] != s[j]
  }

  /** The values of `s` with later repetitions removed (LINQ `Distinct`). */
  function Distinct<T(==)>(s: seq<T>): (r: seq<T>)
    ensures NoDuplicates(r)
    ensures forall i :: 0 <= i < |r| ==> r[i] in s
    ensures forall i :: 0 <= i < |s| ==> s[i] in r
  {
    if s == [] then []
    else
      var init, last := s[..|s| - 1], s[|s| - 1];
      assert s == init + [last];
      if last in init then Distinct(init) else Distinct(init) + [last]
  }

  /** Some element of `s` has key `k`. */
  predicate HasKey<T, K(==)>(s: seq<T>, key: T -> K, k: K) {
    exists i :: 0 <= i < |s| && key(s[i]) == k
  }

  /** No two elements of `s` have the same key. */
  predicate KeysDistinct<T, K(==)>(s: seq<T>, key: T -> K) {
    forall i, j :: 0 <= i < j < |s| ==> key(s[i]) != key(s[j])
  }

  /** The first element of `s` whose key is `k`, scanning from the front. */
  function FirstWithKey<T, K(==)>(s: seq<T>, key: T -> K, k: K): (r: Option<T>)
    ensures r.Some? ==> r.value in s && key(r.value) == k
    ensures r.None? <==> !HasKey(s, key, k)
  {
    if s == [] then None
    else if key(s[0]) == k then Some(s[0])
    else
      var r := FirstWithKey(s[1..], key, k);
      assert HasKey(s[1..], key, k) ==> HasKey(s, key, k) by {
        if HasKey(s[1..], key, k) {
          var i :| 0 <= i < |s[1..]| && key(s[1..][i]) == k;
          assert key(s[i + 1]) == k;
        }
      }
      r
  }

  /** One element per key: the first element of `s` of every key, in the
      order in which the keys first occur (LINQ `GroupBy(key).Select(g => g.First())`). */
  function KeepFirstBy<T, K(==)>(s: seq<T>, key: T -> K): (r: seq<T>)
    ensures |r| <= |s|
  {
    if s == [] then []
    else
      var init, last := s[..|s| - 1], s[|s| - 1];
      if HasKey(init, key, key(last)) then KeepFirstBy(init, key)
      else KeepFirstBy(init, key) + [last]
  }

  /** Appending an element does not change the first element of a key that
      already occurs. */
  lemma {:induction false} FirstWithKeyAppend<T, K>(p: seq<T>, x: T, key: T -> K, k: K)
    ensures FirstWithKey(p + [x], key, k) ==
      if HasKey(p, key, k) then FirstWithKey(p, key, k)
      else if key(x) == k then Some(x)
      else None
  {
    if p == [] {
      assert p + [x] == [x];
    } else {
      assert (p + [x])[1..] == p[1..] + [x];
      if key(p[0]) != k {
        FirstWithKeyAppend(p[1..], x, key, k);
        if HasKey(p, key, k) {
          var i :| 0 <= i < |p| && key(p[i]) == k;
          assert i > 0 && key(p[1..][i - 1]) == k;
        }
        if HasKey(p[1..], key, k) {
          var i :| 0 <= i < |p[1..]| && key(p[1..][i]) == k;
          assert key(p[i + 1]) == k;
        }
      } else {
        assert key(p[0]) == k;
      }
    }
  }

  /** KeepFirstBy keeps exactly one element per key that occurs in `s`,
      and that element is the first of its key in `s`. */
  lemma {:induction false} KeepFirstByCorrect<T, K>(s: seq<T>, key: T -> K)
    ensures KeysDistinct(KeepFirstBy(s, key), key)
    ensures forall k :: HasKey(KeepFirstBy(s, key), key, k) <==> HasKey(s, key, k)
    ensures forall i :: 0 <= i < |KeepFirstBy(s, key)| ==>
      FirstWithKey(s, key, key(KeepFirstBy(s, key)[i])) == Some(KeepFirstBy(s, key)[i])
  {
    if s != [] {
      var init, last := s[..|s| - 1], s[|s| - 1];
      assert s == init + [last];
      KeepFirstByCorrect(init, key);
      var rest := KeepFirstBy(init, key);
      forall k ensures HasKey(s, key, k) <==> HasKey(init, key, k) || key(last) == k {
        if HasKey(s, key, k) {
          var i :| 0 <= i < |s| && key(s[i]) == k;
          if i < |init| { assert key(init[i]) == k; }
        }
        if HasKey(init, key, k) {
          var i :| 0 <= i < |init| && key(init[i]) == k;
          assert key(s[i]) == k;
        }
        if key(last) == k { assert key(s[|s| - 1]) == k; }
      }
      forall i | 0 <= i < |rest|
        ensures FirstWithKey(s, key, key(rest[i])) == Some(rest[i])
      {
        FirstWithKeyAppend(init, last, key, key(rest[i]));
        assert HasKey(rest, key, key(rest[i]));
      }
      if !HasKey(init, key, key(last)) {
        var r := rest + [last];
        assert KeepFirstBy(s, key) == r;
        forall k ensures HasKey(r, key, k) <==> HasKey(rest, key, k) || key(last) == k {
          if HasKey(r, key, k) {
            var i :| 0 <= i < |r| && key(r[i]) == k;
            if i < |rest| { assert key(rest[i]) == k; }
          }
          if HasKey(rest, key, k) {
            var i :| 0 <= i < |rest| && key(rest[i]) == k;
            assert key(r[i]) == k;
          }
          if key(last) == k { assert key(r[|r| - 1]) == k; }
        }
        forall i, j | 0 <= i < j < |r| ensures key(r[i]) != key(r[j]) {
          if j == |rest| {
            assert r[i] == rest[i];
            assert !HasKey(rest, key, key(last));
          }
        }
        FirstWithKeyAppend(init, last, key, key(last));
      }
    }
  }

  /** KeepFirstBy keeps the order of `s`: its elements sit at increasing
      positions `idx` of `s`, and the element at each position is the first
      of its key there. So the result lists the keys in the order in which
      they first occur. */
  lemma {:induction false} KeepFirstByInOrder<T, K>(s: seq<T>, key: T -> K) returns (idx: seq<nat>)
    ensures |idx| == |KeepFirstBy(s, key)|
    ensures forall i :: 0 <= i < |idx| ==> idx[i] < |s| && s[idx[i]] == KeepFirstBy(s, key)[i]
    ensures forall i, j :: 0 <= i < |idx| && 0 <= j < idx[i] ==> key(s[j]) != key(s[idx[i]])
    ensures forall i, j :: 0 <= i < j < |idx| ==> idx[i] < idx[j]
  {
    if s == [] {
      idx := [];
    } else {
      var init, last := s[..|s| - 1], s[|s| - 1];
      var rest := KeepFirstByInOrder(init, key);
      assert forall i :: 0 <= i < |init| ==> s[i] == init[i];
      if HasKey(init, key, key(last)) {
        idx := rest;
      } else {
        idx := rest + [|s| - 1];
        assert KeepFirstBy(s, key) == KeepFirstBy(init, key) + [last];
        forall j | 0 <= j < |s| - 1 ensures key(s[j]) != key(last) {
          assert key(init[j]) != key(last);
        }
      }
    }
  }

  /** `sub` occurs as a contiguous part of `s` (C# `string.Contains`). */
  predicate Contains<T(==)>(s: seq<T>, sub: seq<T>) {
    exists i :: 0 <= i <= |s| - |sub| && IsPrefix(sub, s[i..])
  }

  /** `p` is a prefix of `s`. */
  predicate IsPrefix<T(==)>(p: seq<T>, s: seq<T>) {
    |p| <= |s| && s[..|p|] == p
  }
}
