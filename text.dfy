/**
 * The string operations the scraper applies to every text it reads from the
 * page: Python's str.lower(), str.strip(), str.isdigit(), the `in` substring
 * test, `re.search(r'\d+', s)` and `re.sub(r'\s+', ' ', s)`.
 * Characters are Unicode scalar values. The whitespace and digit classes are
 * those of Python on the ASCII range (whitespace includes the separators
 * \x1c-\x1f); case mapping covers ASCII, the Latin-1 capitals and the
 * Turkish Ğ and Ş.
 */
module Text {
  type String = seq<char>

  /** Python's str.isspace() (and the regex class \s) on the ASCII range. */
  predicate IsSpace(c: char) {
    c == ' ' || c == '\t' || c == '\n' || c == '\r' || c == '\U{B}' || c == '\U{C}'
    || ('\U{1C}' <= c <= '\U{1F}')
  }

  /** The regex class \d on the ASCII range. */
  predicate IsDigit(c: char) {
    '0' <= c <= '9'
  }

  /** Python's str.lower() on one character: ASCII and Latin-1 capitals, and the Turkish Ğ and Ş. */
  function LowerChar(c: char): (r: char)
    ensures IsSpace(r) == IsSpace(c)
    ensures IsDigit(r) == IsDigit(c)
  {
    if 'A' <= c <= 'Z' then (c as int + 32) as char
    else if '\U{C0}' <= c <= '\U{DE}' && c != '\U{D7}' then (c as int + 32) as char
    else if c == 'Ğ' then 'ğ'
    else if c == 'Ş' then 'ş'
    else c
  }

  function Lower(s: String): String {
    seq(|s|, i requires 0 <= i < |s| => LowerChar(s[i]))
  }

  /** Python's `w in s`: `w` starts at some position of `s`. */
  predicate Contains(s: String, w: String)
    decreases |s|
  {
    w <= s || (|s| > 0 && Contains(s[1..], w))
  }

  /** Python's `s.endswith(w)`. */
  predicate EndsWith(s: String, w: String) {
    |w| <= |s| && s[|s| - |w|..] == w
  }

  /** `re.search(r'\d+', s)` succeeds. */
  predicate HasDigit(s: String) {
    exists i :: 0 <= i < |s| && IsDigit(s[i])
  }

  /** Python's str.isdigit(), and `re.match(r'^\d+$', s)` on a stripped text. */
  predicate IsNumber(s: String) {
    |s| > 0 && forall i :: 0 <= i < |s| ==> IsDigit(s[i])
  }

  predicate NoSpace(s: String) {
    forall i :: 0 <= i < |s| ==> !IsSpace(s[i])
  }

  /** Python's str.lstrip(). */
  function TrimLeft(s: String): (r: String)
    ensures |r| <= |s|
    decreases |s|
  {
    if |s| > 0 && IsSpace(s[0]) then TrimLeft(s[1..]) else s
  }

  /** Python's str.rstrip(). */
  function TrimRight(s: String): (r: String)
    ensures |r| <= |s|
    decreases |s|
  {
    if |s| > 0 && IsSpace(s[|s| - 1]) then TrimRight(s[..|s| - 1]) else s
  }

  /** lstrip() drops a leading run of whitespace and keeps the rest. */
  lemma {:induction false} TrimLeftShape(s: String)
    ensures TrimLeft(s) == s[|s| - |TrimLeft(s)|..]
    ensures |TrimLeft(s)| > 0 ==> !IsSpace(TrimLeft(s)[0])
    ensures forall k :: 0 <= k < |s| - |TrimLeft(s)| ==> IsSpace(s[k])
    decreases |s|
  {
    if |s| > 0 && IsSpace(s[0]) {
      TrimLeftShape(s[1..]);
      forall k | 1 <= k < |s| - |TrimLeft(s)| ensures IsSpace(s[k]) {
        assert s[k] == s[1..][k - 1];
      }
    }
  }

  /** rstrip() drops a trailing run of whitespace and keeps the rest. */
  lemma {:induction false} TrimRightShape(s: String)
    ensures TrimRight(s) == s[..|TrimRight(s)|]
    ensures |TrimRight(s)| > 0 ==> !IsSpace(TrimRight(s)[|TrimRight(s)| - 1])
    ensures forall k :: |TrimRight(s)| <= k < |s| ==> IsSpace(s[k])
    decreases |s|
  {
    if |s| > 0 && IsSpace(s[|s| - 1]) {
      TrimRightShape(s[..|s| - 1]);
      forall k | |TrimRight(s)| <= k < |s| - 1 ensures IsSpace(s[k]) {
        assert s[k] == s[..|s| - 1][k];
      }
    }
  }

  /** Python's str.strip(). */
  function Strip(s: String): String {
    TrimRight(TrimLeft(s))
  }

  /** Neither end is whitespace. */
  predicate Stripped(s: String) {
    |s| > 0 ==> !IsSpace(s[0]) && !IsSpace(s[|s| - 1])
  }

  /** Every whitespace character is a plain space and no two are adjacent. */
  predicate SingleSpaced(s: String) {
    && (forall k :: 0 <= k < |s| && IsSpace(s[k]) ==> s[k] == ' ')
    && (forall k :: 0 <= k < |s| - 1 ==> !(IsSpace(s[k]) && IsSpace(s[k + 1])))
  }

  /** The shape `re.sub(r'\s+', ' ', s.strip())` produces. */
  predicate WellSpaced(s: String) {
    Stripped(s) && SingleSpaced(s)
  }

  /** `re.sub(r'\s+', ' ', s)`: each maximal run of whitespace becomes one space. */
  function Squeeze(s: String): (r: String)
    ensures |r| <= |s|
    decreases |s|
  {
    if |s| == 0 then []
    else if IsSpace(s[0]) then [' '] + Squeeze(TrimLeft(s[1..]))
    else [s[0]] + Squeeze(s[1..])
  }

  /** `re.sub(r'\s+', ' ', s.strip())`, the clean-up of a store name. */
  function Collapse(s: String): String {
    Squeeze(Strip(s))
  }

  /** The non-whitespace characters of `s`, in order. */
  function NonSpace(s: String): String
    decreases |s|
  {
    if |s| == 0 then []
    else (if IsSpace(s[0]) then [] else [s[0]]) + NonSpace(s[1..])
  }

  /** Python's `sep.join(ss)`. */
  function Join(ss: seq<String>, sep: String): String
    decreases |ss|
  {
    if |ss| == 0 then []
    else if |ss| == 1 then ss[0]
    else Join(ss[..|ss| - 1], sep) + sep + ss[|ss| - 1]
  }

  /** Python's `s.replace(a, b)` for single characters. */
  function ReplaceChar(s: String, a: char, b: char): String {
    seq(|s|, i requires 0 <= i < |s| => if s[i] == a then b else s[i])
  }

  // ---------------------------------------------------------------------
  // Strip

  /** strip() removes whitespace from both ends and nothing else. */
  lemma {:induction false} StripShape(s: String) returns (a: nat)
    ensures a + |Strip(s)| <= |s| && Strip(s) == s[a..a + |Strip(s)|]
    ensures Stripped(Strip(s))
    ensures forall k :: 0 <= k < a ==> IsSpace(s[k])
    ensures forall k :: a + |Strip(s)| <= k < |s| ==> IsSpace(s[k])
  {
    var l := TrimLeft(s);
    a := |s| - |l|;
    assert l == s[a..] && (|l| > 0 ==> !IsSpace(l[0])) && forall k :: 0 <= k < a ==> IsSpace(s[k]) by {
      TrimLeftShape(s);
    }
    var r := TrimRight(l);
    assert r == l[..|r|] && (|r| > 0 ==> !IsSpace(r[|r| - 1])) && forall k :: |r| <= k < |l| ==> IsSpace(l[k]) by {
      TrimRightShape(l);
    }
    assert Strip(s) == r;
    TrimmedInside(s, a, l, r);
  }

  /** The pieces of StripShape, kept apart from the definitions of the trims. */
  lemma TrimmedInside(s: String, a: nat, l: String, r: String)
    requires a <= |s| && l == s[a..] && |r| <= |l| && r == l[..|r|]
    requires |l| > 0 ==> !IsSpace(l[0])
    requires |r| > 0 ==> !IsSpace(r[|r| - 1])
    requires forall k :: |r| <= k < |l| ==> IsSpace(l[k])
    ensures r == s[a..a + |r|] && Stripped(r)
    ensures forall k :: a + |r| <= k < |s| ==> IsSpace(s[k])
  {
    assert s[a..][..|r|] == s[a..a + |r|];
    if |r| > 0 {
      assert r[0] == l[0];
    }
    forall k | a + |r| <= k < |s| ensures IsSpace(s[k]) {
      assert s[k] == l[k - a];
    }
  }

  /** A string appears in `s` exactly when it is a prefix of some suffix of `s`. */
  lemma {:induction false} ContainsAt(s: String, w: String, i: nat)
    requires i <= |s| && w <= s[i..]
    ensures Contains(s, w)
    decreases i
  {
    if i > 0 {
      assert s[1..][i - 1..] == s[i..];
      ContainsAt(s[1..], w, i - 1);
    }
  }

  lemma {:induction false} ContainsWitness(s: String, w: String) returns (i: nat)
    requires Contains(s, w)
    ensures i <= |s| && w <= s[i..]
    decreases |s|
  {
    if w <= s {
      i := 0;
    } else {
      var j := ContainsWitness(s[1..], w);
      assert s[1..][j..] == s[j + 1..];
      i := j + 1;
    }
  }

  lemma {:induction false} StripIdempotent(s: String)
    ensures Strip(Strip(s)) == Strip(s)
  {
    var a := StripShape(s);
    StrippedIsFixed(Strip(s));
  }

  lemma StrippedIsFixed(s: String)
    requires Stripped(s)
    ensures Strip(s) == s
  {
  }

  /** Whatever a stripped text contains, the text contained. */
  lemma {:induction false} ContainsStrip(s: String, w: String)
    requires Contains(Strip(s), w)
    ensures Contains(s, w)
  {
    var a := StripShape(s);
    var t := Strip(s);
    var i := ContainsWitness(t, w);
    SliceContains(s, a, a + |t|, i, w);
  }

  lemma SliceContains(s: String, a: nat, b: nat, i: nat, w: String)
    requires a <= b <= |s| && i <= b - a && w <= s[a..b][i..]
    ensures Contains(s, w)
  {
    assert s[a..b][i..] == s[a + i..b];
    assert w <= s[a + i..];
    ContainsAt(s, w, a + i);
  }

  // ---------------------------------------------------------------------
  // Lower

  lemma LowerAppend(a: String, b: String)
    ensures Lower(a + b) == Lower(a) + Lower(b)
  {
  }

  lemma LowerTail(s: String)
    requires |s| > 0
    ensures Lower(s[1..]) == Lower(s)[1..]
  {
  }

  lemma LowerSlice(s: String, i: nat, j: nat)
    requires i <= j <= |s|
    ensures Lower(s[i..j]) == Lower(s)[i..j]
  {
  }

  lemma {:induction false} LowerTrimLeft(s: String)
    ensures Lower(TrimLeft(s)) == TrimLeft(Lower(s))
    decreases |s|
  {
    var l := Lower(s);
    if |s| > 0 && IsSpace(s[0]) {
      assert IsSpace(l[0]);
      assert TrimLeft(l) == TrimLeft(l[1..]);
      assert TrimLeft(s) == TrimLeft(s[1..]);
      LowerTail(s);
      LowerTrimLeft(s[1..]);
    } else {
      assert |l| > 0 ==> !IsSpace(l[0]);
      assert TrimLeft(l) == l;
    }
  }

  lemma {:induction false} LowerTrimRight(s: String)
    ensures Lower(TrimRight(s)) == TrimRight(Lower(s))
    decreases |s|
  {
    var l := Lower(s);
    if |s| > 0 && IsSpace(s[|s| - 1]) {
      assert IsSpace(l[|l| - 1]);
      assert TrimRight(l) == TrimRight(l[..|l| - 1]);
      LowerSlice(s, 0, |s| - 1);
      LowerTrimRight(s[..|s| - 1]);
    } else {
      assert |l| > 0 ==> !IsSpace(l[|l| - 1]);
      assert TrimRight(l) == l;
    }
  }

  lemma LowerStrip(s: String)
    ensures Lower(Strip(s)) == Strip(Lower(s))
  {
    LowerTrimLeft(s);
    LowerTrimRight(TrimLeft(s));
  }

  lemma {:induction false} LowerSqueeze(s: String)
    ensures Lower(Squeeze(s)) == Squeeze(Lower(s))
    decreases |s|
  {
    if |s| > 0 {
      var l := Lower(s);
      LowerTail(s);
      if IsSpace(s[0]) {
        var t := TrimLeft(s[1..]);
        LowerTrimLeft(s[1..]);
        LowerSqueeze(t);
        SqueezeSpaceHead(l);
        LowerSqueezeStep(s, [' '], [' '], t);
      } else {
        LowerSqueeze(s[1..]);
        assert Squeeze(l) == [l[0]] + Squeeze(l[1..]);
        LowerSingle(s[0]);
        LowerSqueezeStep(s, [s[0]], [l[0]], s[1..]);
      }
    }
  }

  lemma SqueezeSpaceHead(l: String)
    requires |l| > 0 && IsSpace(l[0])
    ensures Squeeze(l) == [' '] + Squeeze(TrimLeft(l[1..]))
  {
  }

  lemma LowerSingle(c: char)
    ensures Lower([c]) == [LowerChar(c)]
  {
  }

  /** One step of LowerSqueeze: the squeeze emits `head` and continues on `t`. */
  lemma LowerSqueezeStep(s: String, head: String, lowHead: String, t: String)
    requires |s| > 0 && Squeeze(s) == head + Squeeze(t)
    requires Lower(head) == lowHead
    requires Squeeze(Lower(s)) == lowHead + Squeeze(Lower(t))
    requires Lower(Squeeze(t)) == Squeeze(Lower(t))
    ensures Lower(Squeeze(s)) == Squeeze(Lower(s))
  {
    LowerAppend(head, Squeeze(t));
  }

  // ---------------------------------------------------------------------
  // Squeeze and Collapse

  /** The first and last characters of a text survive the squeeze when they are not whitespace. */
  lemma {:induction false} SqueezeEnds(s: String)
    ensures |s| > 0 && !IsSpace(s[0]) ==> |Squeeze(s)| > 0 && Squeeze(s)[0] == s[0]
    ensures |s| > 0 && !IsSpace(s[|s| - 1]) ==> |Squeeze(s)| > 0 && Squeeze(s)[|Squeeze(s)| - 1] == s[|s| - 1]
    ensures |s| > 0 ==> |Squeeze(s)| > 0
    decreases |s|
  {
    if |s| > 0 {
      if IsSpace(s[0]) {
        var t := TrimLeft(s[1..]);
        TrimLeftShape(s[1..]);
        SqueezeEnds(t);
        if !IsSpace(s[|s| - 1]) {
          assert |s| > 1;
          assert s[1..][|s| - 2] == s[|s| - 1];
          assert |t| > 0 && t[|t| - 1] == s[|s| - 1];
        }
      } else {
        SqueezeEnds(s[1..]);
      }
    }
  }

  lemma {:induction false} SqueezeSingleSpaced(s: String)
    ensures SingleSpaced(Squeeze(s))
    decreases |s|
  {
    if |s| > 0 {
      if IsSpace(s[0]) {
        var t := TrimLeft(s[1..]);
        TrimLeftShape(s[1..]);
        SqueezeSingleSpaced(t);
        SqueezeEnds(t);
      } else {
        SqueezeSingleSpaced(s[1..]);
      }
    }
  }

  /** A cleaned-up store name has no whitespace at either end and single spaces inside. */
  lemma {:induction false} CollapseWellSpaced(s: String)
    ensures WellSpaced(Collapse(s))
  {
    var a := StripShape(s);
    SqueezeEnds(Strip(s));
    SqueezeSingleSpaced(Strip(s));
  }

  lemma {:induction false} SqueezeFixed(s: String)
    requires SingleSpaced(s)
    requires |s| > 0 ==> !IsSpace(s[|s| - 1])
    ensures Squeeze(s) == s
    decreases |s|
  {
    if |s| > 0 {
      assert SingleSpaced(s[1..]);
      if IsSpace(s[0]) {
        assert |s| > 1 && !IsSpace(s[1]);
        assert TrimLeft(s[1..]) == s[1..];
      }
      SqueezeFixed(s[1..]);
    }
  }

  /** Cleaning up an already clean name changes nothing. */
  lemma {:induction false} CollapseIdempotent(s: String)
    ensures WellSpaced(s) ==> Collapse(s) == s
    ensures Collapse(Collapse(s)) == Collapse(s)
  {
    if WellSpaced(s) {
      StrippedIsFixed(s);
      SqueezeFixed(s);
    }
    CollapseWellSpaced(s);
    var c := Collapse(s);
    StrippedIsFixed(c);
    SqueezeFixed(c);
  }

  lemma {:induction false} NonSpaceAppend(a: String, b: String)
    ensures NonSpace(a + b) == NonSpace(a) + NonSpace(b)
    decreases |a|
  {
    if |a| > 0 {
      assert (a + b)[1..] == a[1..] + b;
      NonSpaceAppend(a[1..], b);
    } else {
      assert a + b == b;
    }
  }

  lemma {:induction false} NonSpaceOfSpaces(s: String)
    requires forall k :: 0 <= k < |s| ==> IsSpace(s[k])
    ensures NonSpace(s) == []
    decreases |s|
  {
    if |s| > 0 {
      NonSpaceOfSpaces(s[1..]);
    }
  }

  lemma {:induction false} NonSpaceTrimLeft(s: String)
    ensures NonSpace(TrimLeft(s)) == NonSpace(s)
    decreases |s|
  {
    if |s| > 0 && IsSpace(s[0]) {
      NonSpaceTrimLeft(s[1..]);
    }
  }

  lemma {:induction false} NonSpaceStrip(s: String)
    ensures NonSpace(Strip(s)) == NonSpace(s)
  {
    var l := TrimLeft(s);
    NonSpaceTrimLeft(s);
    var r := TrimRight(l);
    TrimRightShape(l);
    var rest := l[|r|..];
    assert l == r + rest;
    NonSpaceAppend(r, rest);
    assert forall k :: 0 <= k < |rest| ==> IsSpace(rest[k]) by {
      forall k | 0 <= k < |rest| ensures IsSpace(rest[k]) {
        assert rest[k] == l[|r| + k];
      }
    }
    NonSpaceOfSpaces(rest);
  }

  lemma {:induction false} NonSpaceSqueeze(s: String)
    ensures NonSpace(Squeeze(s)) == NonSpace(s)
    decreases |s|
  {
    if |s| > 0 {
      if IsSpace(s[0]) {
        var t := TrimLeft(s[1..]);
        NonSpaceSqueeze(t);
        NonSpaceTrimLeft(s[1..]);
        NonSpaceAppend([' '], Squeeze(t));
      } else {
        NonSpaceSqueeze(s[1..]);
        NonSpaceAppend([s[0]], Squeeze(s[1..]));
      }
    }
  }

  /** Cleaning up a store name touches only whitespace: the other characters stay, in order. */
  lemma {:induction false} CollapseKeepsText(s: String)
    ensures NonSpace(Collapse(s)) == NonSpace(s)
    ensures |Collapse(s)| <= |s|
  {
    NonSpaceSqueeze(Strip(s));
    NonSpaceStrip(s);
  }

  lemma {:induction false} NonSpaceLength(s: String)
    ensures |NonSpace(s)| <= |s|
    decreases |s|
  {
    if |s| > 0 {
      NonSpaceLength(s[1..]);
    }
  }

  lemma {:induction false} NonSpaceOfWord(w: String)
    requires NoSpace(w)
    ensures NonSpace(w) == w
    decreases |w|
  {
    if |w| > 0 {
      assert NoSpace(w[1..]) by {
        forall i | 0 <= i < |w| - 1 ensures !IsSpace(w[1..][i]) {
          assert w[1..][i] == w[i + 1];
        }
      }
      NonSpaceOfWord(w[1..]);
      assert [w[0]] + w[1..] == w;
    }
  }

  lemma {:induction false} NonSpaceHasChar(s: String, j: nat)
    requires j < |s| && !IsSpace(s[j])
    ensures |NonSpace(s)| >= 1
    decreases j
  {
    if j > 0 && IsSpace(s[0]) {
      assert s[1..][j - 1] == s[j];
      NonSpaceHasChar(s[1..], j - 1);
    }
  }

  /**
   * A stripped name of at least 4 characters in which a word of 3 or more
   * non-space characters occurs still has at least 4 characters once its
   * whitespace runs are squeezed: either it has no whitespace at all, or its
   * first or last character lies outside the word.
   */
  lemma WordInStripped(t: String, w: String)
    requires Stripped(t) && |t| >= 4
    requires NoSpace(w) && |w| >= 3 && Contains(Lower(t), w)
    ensures |Squeeze(t)| >= 4
  {
    var i := OccurrenceNoSpace(t, w);
    if NoSpace(t) {
      SqueezeWord(t);
    } else {
      assert |NonSpace(t)| >= 4 by {
        var p :| 0 <= p < |t| && IsSpace(t[p]);
        OccurrenceAndMore(t, i, |w|, p);
      }
      SqueezeKeepsNonSpace(t);
    }
  }

  lemma SqueezeWord(t: String)
    requires NoSpace(t)
    ensures Squeeze(t) == t
  {
    SqueezeAppend(t, []);
    assert t + [] == t;
  }

  lemma SqueezeKeepsNonSpace(t: String)
    ensures |Squeeze(t)| >= |NonSpace(t)|
  {
    NonSpaceSqueeze(t);
    NonSpaceLength(Squeeze(t));
  }

  /** Where a word without whitespace occurs in the lowercased text, the text has no whitespace either. */
  lemma OccurrenceNoSpace(t: String, w: String) returns (i: nat)
    requires NoSpace(w) && Contains(Lower(t), w)
    ensures i + |w| <= |t| && NoSpace(t[i..i + |w|])
  {
    i := ContainsWitness(Lower(t), w);
    var m := t[i..i + |w|];
    forall k | 0 <= k < |m| ensures !IsSpace(m[k]) {
      assert Lower(t)[i + k] == w[k];
      assert LowerChar(t[i + k]) == w[k];
    }
  }

  /** A stripped text with whitespace at `p` has a non-space character on the far side of `p` from a run. */
  lemma OccurrenceAndMore(t: String, i: nat, n: nat, p: nat)
    requires Stripped(t) && i + n <= |t| && NoSpace(t[i..i + n])
    requires p < |t| && IsSpace(t[p])
    ensures |NonSpace(t)| >= n + 1
  {
    NonSpaceAround(t, i, n);
    if p < i {
      NonSpaceHasChar(t[..i], 0);
    } else {
      SpaceOutsideRun(t, i, n, p);
      NonSpaceHasChar(t[i + n..], |t| - i - n - 1);
    }
  }

  /** The non-space characters of a text around a run without whitespace. */
  lemma NonSpaceAround(t: String, i: nat, n: nat)
    requires i + n <= |t| && NoSpace(t[i..i + n])
    ensures |NonSpace(t)| == |NonSpace(t[..i])| + n + |NonSpace(t[i + n..])|
  {
    assert t == t[..i] + t[i..i + n] + t[i + n..];
    NonSpaceAppend(t[..i] + t[i..i + n], t[i + n..]);
    NonSpaceAppend(t[..i], t[i..i + n]);
    NonSpaceOfWord(t[i..i + n]);
  }

  lemma SpaceOutsideRun(t: String, i: nat, n: nat, p: nat)
    requires i + n <= |t| && NoSpace(t[i..i + n])
    requires i <= p < |t| && IsSpace(t[p])
    ensures i + n <= p
  {
  }

  lemma ContainsSuffix(s: String, j: nat, w: String)
    requires j <= |s| && Contains(s[j..], w)
    ensures Contains(s, w)
  {
    var i := ContainsWitness(s[j..], w);
    assert s[j..][i..] == s[j + i..];
    ContainsAt(s, w, j + i);
  }

  lemma {:induction false} PrefixThroughSqueeze(s: String, w: String)
    requires NoSpace(w) && w <= Squeeze(s)
    ensures w <= s
    decreases |s|
  {
    if |w| > 0 {
      assert |s| > 0;
      assert w[0] == Squeeze(s)[0];
      assert !IsSpace(s[0]);
      assert w[1..] <= Squeeze(s[1..]);
      PrefixThroughSqueeze(s[1..], w[1..]);
    }
  }

  /** A word without whitespace that the squeezed text contains, the text contained. */
  lemma {:induction false} ContainsThroughSqueeze(s: String, w: String)
    requires NoSpace(w) && |w| > 0 && Contains(Squeeze(s), w)
    ensures Contains(s, w)
    decreases |s|
  {
    var q := Squeeze(s);
    if w <= q {
      PrefixThroughSqueeze(s, w);
    } else {
      assert |s| > 0;
      var t := if IsSpace(s[0]) then TrimLeft(s[1..]) else s[1..];
      TrimLeftShape(s[1..]);
      assert q[1..] == Squeeze(t);
      ContainsThroughSqueeze(t, w);
      assert s[|s| - |t|..] == t;
      ContainsSuffix(s, |s| - |t|, w);
    }
  }

  /** Cleaning up a name cannot make its lower-case form contain a new word. */
  lemma {:induction false} ContainsThroughCollapse(s: String, w: String)
    requires NoSpace(w) && |w| > 0 && Contains(Lower(Collapse(s)), w)
    ensures Contains(Lower(s), w)
  {
    LowerSqueeze(Strip(s));
    LowerStrip(s);
    ContainsThroughSqueeze(Strip(Lower(s)), w);
    ContainsStrip(Lower(s), w);
  }

  /** A word with no whitespace passes through the squeeze unchanged. */
  lemma {:induction false} SqueezeAppend(w: String, t: String)
    requires NoSpace(w)
    ensures Squeeze(w + t) == w + Squeeze(t)
    decreases |w|
  {
    if |w| > 0 {
      var s := w + t;
      assert s[0] == w[0] && !IsSpace(s[0]);
      assert s[1..] == w[1..] + t;
      assert NoSpace(w[1..]) by {
        forall i | 0 <= i < |w| - 1 ensures !IsSpace(w[1..][i]) {
          assert w[1..][i] == w[i + 1];
        }
      }
      SqueezeAppend(w[1..], t);
      assert Squeeze(s) == [w[0]] + Squeeze(w[1..] + t);
      assert [w[0]] + (w[1..] + Squeeze(t)) == w + Squeeze(t);
    } else {
      assert w + t == t;
    }
  }

  /** lstrip() drops exactly a leading run of whitespace. */
  lemma {:induction false} TrimLeftSpaces(gap: String, b: String)
    requires forall i :: 0 <= i < |gap| ==> IsSpace(gap[i])
    requires |b| > 0 && !IsSpace(b[0])
    ensures TrimLeft(gap + b) == b
    decreases |gap|
  {
    if |gap| > 0 {
      assert (gap + b)[1..] == gap[1..] + b;
      TrimLeftSpaces(gap[1..], b);
    } else {
      assert gap + b == b;
    }
  }

  /** A run of whitespace between two words collapses to one space. */
  lemma CollapseGap(a: String, gap: String, b: String)
    requires NoSpace(a) && NoSpace(b) && |a| > 0 && |b| > 0
    requires |gap| > 0 && forall i :: 0 <= i < |gap| ==> IsSpace(gap[i])
    ensures Collapse(a + gap + b) == a + " " + b
  {
    var s := a + gap + b;
    var tail := gap + b;
    assert Strip(s) == s by {
      assert s[0] == a[0] && s[|s| - 1] == b[|b| - 1];
      StrippedIsFixed(s);
    }
    assert Squeeze(tail) == " " + b by {
      assert tail[0] == gap[0] && tail[1..] == gap[1..] + b;
      TrimLeftSpaces(gap[1..], b);
      SqueezeWord(b);
    }
    assert Squeeze(s) == a + Squeeze(tail) by {
      assert s == a + tail;
      SqueezeAppend(a, tail);
    }
    assert a + (" " + b) == a + " " + b;
  }
}
