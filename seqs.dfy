/**
 * Generic shapes of the scraper's loops over lists: "append f(x) for every x
 * that passes a test" (FilterMap), "stop at the first x that passes a test"
 * (FirstMatch) and "walk a list of lists in order" (Flatten).
 */
module Seqs {
  import opened Wrappers

  /** The elements of `s` that satisfy `keep`, each transformed by `f`, in order. */
  function FilterMap<A, B>(s: seq<A>, keep: A -> bool, f: A -> B): (r: seq<B>)
    ensures |r| <= |s|
    decreases |s|
  {
    if |s| == 0 then []
    else FilterMap(s[..|s| - 1], keep, f) + (if keep(s[|s| - 1]) then [f(s[|s| - 1])] else [])
  }

  /** Two elements that both pass are both mapped, in order. */
  lemma FilterMapPair<A, B>(x: A, y: A, keep: A -> bool, f: A -> B)
    requires keep(x) && keep(y)
    ensures FilterMap([x, y], keep, f) == [f(x), f(y)]
  {
    assert [x, y][..1] == [x];
    assert [x][..0] == [];
  }

  /** How many elements of `s` satisfy `keep`. */
  function Count<A>(s: seq<A>, keep: A -> bool): nat
    decreases |s|
  {
    if |s| == 0 then 0
    else Count(s[..|s| - 1], keep) + (if keep(s[|s| - 1]) then 1 else 0)
  }

  lemma {:induction false} FilterMapLength<A, B>(s: seq<A>, keep: A -> bool, f: A -> B)
    ensures |FilterMap(s, keep, f)| == Count(s, keep)
    decreases |s|
  {
    if |s| > 0 {
      FilterMapLength(s[..|s| - 1], keep, f);
    }
  }

  lemma {:induction false} CountBound<A>(s: seq<A>, keep: A -> bool)
    ensures Count(s, keep) <= |s|
    ensures Count(s, keep) == 0 <==> forall i :: 0 <= i < |s| ==> !keep(s[i])
    decreases |s|
  {
    if |s| > 0 {
      var s' := s[..|s| - 1];
      CountBound(s', keep);
      assert forall i :: 0 <= i < |s'| ==> s'[i] == s[i];
      if Count(s, keep) == 0 {
        assert forall i :: 0 <= i < |s| ==> !keep(s[i]) by {
          forall i | 0 <= i < |s| ensures !keep(s[i]) {
            if i < |s'| { assert !keep(s'[i]); }
          }
        }
      }
    }
  }

  lemma {:induction false} FilterMapAppend<A, B>(a: seq<A>, b: seq<A>, keep: A -> bool, f: A -> B)
    ensures FilterMap(a + b, keep, f) == FilterMap(a, keep, f) + FilterMap(b, keep, f)
    decreases |b|
  {
    if |b| == 0 {
      assert a + b == a;
    } else {
      var b' := b[..|b| - 1];
      assert (a + b)[..|a + b| - 1] == a + b';
      FilterMapAppend(a, b', keep, f);
    }
  }

  /** An element is produced exactly when some kept input maps to it. */
  lemma {:induction false} FilterMapMember<A, B>(s: seq<A>, keep: A -> bool, f: A -> B, y: B)
    ensures y in FilterMap(s, keep, f) <==> exists i :: 0 <= i < |s| && keep(s[i]) && y == f(s[i])
    decreases |s|
  {
    if |s| > 0 {
      var s' := s[..|s| - 1];
      FilterMapMember(s', keep, f, y);
      if y in FilterMap(s, keep, f) {
        if y in FilterMap(s', keep, f) {
          var i :| 0 <= i < |s'| && keep(s'[i]) && y == f(s'[i]);
          assert s[i] == s'[i];
        } else {
          assert keep(s[|s| - 1]) && y == f(s[|s| - 1]);
        }
      }
      if exists i :: 0 <= i < |s| && keep(s[i]) && y == f(s[i]) {
        var i :| 0 <= i < |s| && keep(s[i]) && y == f(s[i]);
        if i < |s'| {
          assert s'[i] == s[i];
        }
      }
    }
  }

  /**
   * The output is the kept inputs in their input order: output k comes from
   * input idx[k], the indices increase, and every kept input is used.
   */
  lemma {:induction false} FilterMapIndices<A, B>(s: seq<A>, keep: A -> bool, f: A -> B) returns (idx: seq<nat>)
    ensures |idx| == |FilterMap(s, keep, f)|
    ensures forall k :: 0 <= k < |idx| ==> idx[k] < |s| && keep(s[idx[k]]) && FilterMap(s, keep, f)[k] == f(s[idx[k]])
    ensures forall k, l :: 0 <= k < l < |idx| ==> idx[k] < idx[l]
    ensures forall i :: 0 <= i < |s| && keep(s[i]) ==> i in idx
    decreases |s|
  {
    if |s| == 0 {
      idx := [];
    } else {
      var s' := s[..|s| - 1];
      var idx' := FilterMapIndices(s', keep, f);
      var r', r := FilterMap(s', keep, f), FilterMap(s, keep, f);
      assert r[..|r'|] == r';
      if keep(s[|s| - 1]) {
        idx := idx' + [|s| - 1];
        assert r == r' + [f(s[|s| - 1])];
      } else {
        idx := idx';
      }
      forall k | 0 <= k < |idx|
        ensures idx[k] < |s| && keep(s[idx[k]]) && r[k] == f(s[idx[k]])
      {
        if k < |idx'| {
          assert idx[k] == idx'[k] && s'[idx'[k]] == s[idx'[k]];
          assert r[k] == r'[k];
        }
      }
      forall i | 0 <= i < |s| && keep(s[i]) ensures i in idx {
        if i < |s'| {
          assert s'[i] == s[i];
          assert i in idx';
        }
      }
    }
  }

  /** The first element of `s` that satisfies `keep`, transformed by `f`. */
  function FirstMatch<A, B>(s: seq<A>, keep: A -> bool, f: A -> B): Option<B>
    decreases |s|
  {
    if |s| == 0 then None
    else if keep(s[0]) then Some(f(s[0]))
    else FirstMatch(s[1..], keep, f)
  }

  lemma {:induction false} FirstMatchAt<A, B>(s: seq<A>, keep: A -> bool, f: A -> B, i: nat)
    requires i < |s| && keep(s[i])
    requires forall j :: 0 <= j < i ==> !keep(s[j])
    ensures FirstMatch(s, keep, f) == Some(f(s[i]))
    decreases i
  {
    if i > 0 {
      assert !keep(s[0]);
      FirstMatchAt(s[1..], keep, f, i - 1);
    }
  }

  lemma {:induction false} FirstMatchNone<A, B>(s: seq<A>, keep: A -> bool, f: A -> B)
    ensures FirstMatch(s, keep, f) == None <==> forall i :: 0 <= i < |s| ==> !keep(s[i])
    decreases |s|
  {
    if |s| > 0 {
      FirstMatchNone(s[1..], keep, f);
      assert forall i :: 1 <= i < |s| ==> s[i] == s[1..][i - 1];
    }
  }

  /** A found element is the first one in `s` that passes the test. */
  lemma {:induction false} FirstMatchSome<A, B>(s: seq<A>, keep: A -> bool, f: A -> B) returns (i: nat)
    requires FirstMatch(s, keep, f).Some?
    ensures i < |s| && keep(s[i]) && FirstMatch(s, keep, f) == Some(f(s[i]))
    ensures forall j :: 0 <= j < i ==> !keep(s[j])
    decreases |s|
  {
    if keep(s[0]) {
      i := 0;
    } else {
      var i' := FirstMatchSome(s[1..], keep, f);
      i := i' + 1;
      forall j | 0 <= j < i ensures !keep(s[j]) {
        if j > 0 { assert s[j] == s[1..][j - 1]; }
      }
    }
  }

  lemma {:induction false} FirstMatchAppend<A, B>(a: seq<A>, b: seq<A>, keep: A -> bool, f: A -> B)
    ensures FirstMatch(a + b, keep, f) == if FirstMatch(a, keep, f).Some? then FirstMatch(a, keep, f) else FirstMatch(b, keep, f)
    decreases |a|
  {
    if |a| == 0 {
      assert a + b == b;
    } else {
      assert (a + b)[0] == a[0];
      assert (a + b)[1..] == a[1..] + b;
      FirstMatchAppend(a[1..], b, keep, f);
    }
  }

  /** A search over `a + [x] + b` stops at `x` when nothing in `a` passes and `x` does. */
  lemma FirstMatchHit<A, B>(a: seq<A>, x: A, b: seq<A>, keep: A -> bool, f: A -> B)
    requires FirstMatch(a, keep, f) == None && keep(x)
    ensures FirstMatch(a + [x] + b, keep, f) == Some(f(x))
  {
    assert a + [x] + b == a + ([x] + b);
    FirstMatchAppend(a, [x] + b, keep, f);
  }

  lemma FirstMatchMiss<A, B>(a: seq<A>, x: A, keep: A -> bool, f: A -> B)
    requires FirstMatch(a, keep, f) == None && !keep(x)
    ensures FirstMatch(a + [x], keep, f) == None
  {
    FirstMatchAppend(a, [x], keep, f);
  }

  /** The lists of `ss` one after the other. */
  function Flatten<T>(ss: seq<seq<T>>): seq<T>
    decreases |ss|
  {
    if |ss| == 0 then [] else Flatten(ss[..|ss| - 1]) + ss[|ss| - 1]
  }

  lemma {:induction false} FlattenAppend<T>(a: seq<seq<T>>, b: seq<seq<T>>)
    ensures Flatten(a + b) == Flatten(a) + Flatten(b)
    decreases |b|
  {
    if |b| == 0 {
      assert a + b == a;
    } else {
      var b' := b[..|b| - 1];
      assert (a + b)[..|a + b| - 1] == a + b';
      FlattenAppend(a, b');
    }
  }

  lemma FlattenStep<T>(ss: seq<seq<T>>, i: nat)
    requires i < |ss|
    ensures Flatten(ss[..i + 1]) == Flatten(ss[..i]) + ss[i]
  {
    assert ss[..i + 1][..i] == ss[..i];
  }

  /** Flatten(ss) read around element j of list i. */
  lemma FlattenSplit<T>(ss: seq<seq<T>>, i: nat, j: nat)
    requires i < |ss| && j < |ss[i]|
    ensures Flatten(ss) == (Flatten(ss[..i]) + ss[i][..j]) + [ss[i][j]] + (ss[i][j + 1..] + Flatten(ss[i + 1..]))
  {
    assert ss == ss[..i + 1] + ss[i + 1..];
    FlattenAppend(ss[..i + 1], ss[i + 1..]);
    FlattenStep(ss, i);
    assert ss[i] == ss[i][..j] + [ss[i][j]] + ss[i][j + 1..];
  }

  // -----------------------------------------------------------------------
  // Keep the first of each key

  /** The keys of the elements of `s`. */
  function KeysOf<A, K(==)>(s: seq<A>, key: A -> K): set<K>
    decreases |s|
  {
    if |s| == 0 then {} else KeysOf(s[..|s| - 1], key) + {key(s[|s| - 1])}
  }

  /** The elements of `s` that pass `keep` and whose key no earlier kept element has, in order. */
  function FirstOfEachKey<A, K(==)>(s: seq<A>, keep: A -> bool, key: A -> K): (r: seq<A>)
    ensures |r| <= |s|
    decreases |s|
  {
    if |s| == 0 then []
    else
      var kept := FirstOfEachKey(s[..|s| - 1], keep, key);
      var x := s[|s| - 1];
      if keep(x) && key(x) !in KeysOf(kept, key) then kept + [x] else kept
  }

  /** Element `i` passes `keep` and no earlier element that passes has its key. */
  predicate IsFirstOfKey<A, K(==)>(s: seq<A>, keep: A -> bool, key: A -> K, i: int)
    requires 0 <= i < |s|
  {
    keep(s[i]) && forall j :: 0 <= j < i ==> !(keep(s[j]) && key(s[j]) == key(s[i]))
  }

  /** Two kept elements with different keys both stay. */
  lemma FirstOfEachKeyPair<A, K>(x: A, y: A, keep: A -> bool, key: A -> K)
    requires keep(x) && keep(y) && key(x) != key(y)
    ensures FirstOfEachKey([x, y], keep, key) == [x, y]
  {
    assert [x, y][..1] == [x];
    assert [x][..0] == [];
    assert KeysOf([x], key) == {key(x)} by {
      assert [x][..0] == [];
    }
  }

  lemma {:induction false} KeysOfMember<A, K>(s: seq<A>, key: A -> K, k: K)
    ensures k in KeysOf(s, key) <==> exists j :: 0 <= j < |s| && key(s[j]) == k
    decreases |s|
  {
    if |s| > 0 {
      KeysOfMember(s[..|s| - 1], key, k);
      assert forall j :: 0 <= j < |s| - 1 ==> s[..|s| - 1][j] == s[j];
    }
  }

  /** Every kept element passes `keep` and is an element of `s`. */
  lemma {:induction false} FirstOfEachKeyKept<A, K>(s: seq<A>, keep: A -> bool, key: A -> K)
    ensures forall x :: x in FirstOfEachKey(s, keep, key) ==> keep(x) && x in s
    decreases |s|
  {
    if |s| > 0 {
      FirstOfEachKeyKept(s[..|s| - 1], keep, key);
      assert forall x :: x in s[..|s| - 1] ==> x in s;
    }
  }

  /** No two kept elements share a key. */
  lemma {:induction false} FirstOfEachKeyDistinct<A, K>(s: seq<A>, keep: A -> bool, key: A -> K)
    ensures forall i, j :: 0 <= i < j < |FirstOfEachKey(s, keep, key)| ==>
      key(FirstOfEachKey(s, keep, key)[i]) != key(FirstOfEachKey(s, keep, key)[j])
    decreases |s|
  {
    if |s| > 0 {
      var kept := FirstOfEachKey(s[..|s| - 1], keep, key);
      FirstOfEachKeyDistinct(s[..|s| - 1], keep, key);
      KeysOfMember(kept, key, key(s[|s| - 1]));
    }
  }

  /** The kept keys are the keys of the elements that pass `keep`. */
  lemma {:induction false} FirstOfEachKeyKeys<A, K>(s: seq<A>, keep: A -> bool, key: A -> K, k: K)
    ensures k in KeysOf(FirstOfEachKey(s, keep, key), key) <==> exists j :: 0 <= j < |s| && keep(s[j]) && key(s[j]) == k
    decreases |s|
  {
    if |s| > 0 {
      var init := s[..|s| - 1];
      var kept := FirstOfEachKey(init, keep, key);
      var x := s[|s| - 1];
      FirstOfEachKeyKeys(init, keep, key, k);
      assert forall j :: 0 <= j < |init| ==> init[j] == s[j];
      if keep(x) && key(x) !in KeysOf(kept, key) {
        assert (kept + [x])[..|kept|] == kept;
      } else if keep(x) && key(x) == k {
        FirstOfEachKeyKeys(init, keep, key, key(x));
      }
    }
  }

  /** Whether element `i` is the first of its key depends only on the elements up to `i`. */
  lemma FirstOfKeyPrefix<A, K>(s: seq<A>, keep: A -> bool, key: A -> K, n: nat, i: nat)
    requires i < n <= |s|
    ensures IsFirstOfKey(s, keep, key, i) <==> IsFirstOfKey(s[..n], keep, key, i)
  {
    assert forall j :: 0 <= j <= i ==> s[..n][j] == s[j];
  }

  /**
   * FirstOfEachKey keeps first-of-their-key elements in order: `idx` gives
   * the position in `s` of each kept element, and positions increase.
   */
  lemma {:induction false} FirstOfEachKeyIndices<A, K>(s: seq<A>, keep: A -> bool, key: A -> K) returns (idx: seq<nat>)
    ensures |idx| == |FirstOfEachKey(s, keep, key)|
    ensures forall k :: 0 <= k < |idx| ==>
      idx[k] < |s| && FirstOfEachKey(s, keep, key)[k] == s[idx[k]] && IsFirstOfKey(s, keep, key, idx[k])
    ensures forall k, l :: 0 <= k < l < |idx| ==> idx[k] < idx[l]
    decreases |s|
  {
    if |s| == 0 {
      idx := [];
    } else {
      var n := |s| - 1;
      var init := s[..n];
      var prev := FirstOfEachKeyIndices(init, keep, key);
      var kept := FirstOfEachKey(init, keep, key);
      var x := s[n];
      var r := FirstOfEachKey(s, keep, key);
      FirstOfEachKeyKeys(init, keep, key, key(x));
      assert forall j :: 0 <= j < n ==> init[j] == s[j];
      if keep(x) && key(x) !in KeysOf(kept, key) {
        idx := prev + [n];
        assert r == kept + [x];
        assert IsFirstOfKey(s, keep, key, n);
      } else {
        idx := prev;
        assert r == kept;
      }
      forall k | 0 <= k < |idx|
        ensures idx[k] < |s| && r[k] == s[idx[k]] && IsFirstOfKey(s, keep, key, idx[k])
      {
        if k < |prev| {
          assert idx[k] == prev[k] && init[prev[k]] == s[prev[k]];
          assert r[k] == kept[k];
          FirstOfKeyPrefix(s, keep, key, n, prev[k]);
        }
      }
    }
  }

  /** Every first-of-its-key element is kept. */
  lemma {:induction false} FirstOfEachKeyComplete<A, K>(s: seq<A>, keep: A -> bool, key: A -> K, i: nat)
    requires i < |s| && IsFirstOfKey(s, keep, key, i)
    ensures s[i] in FirstOfEachKey(s, keep, key)
    decreases |s|
  {
    var n := |s| - 1;
    var init := s[..n];
    var kept := FirstOfEachKey(init, keep, key);
    if i < n {
      FirstOfKeyPrefix(s, keep, key, n, i);
      FirstOfEachKeyComplete(init, keep, key, i);
      assert s[i] == init[i];
    } else {
      FirstOfEachKeyKeys(init, keep, key, key(s[n]));
      assert forall j :: 0 <= j < n ==> init[j] == s[j];
    }
  }
}
