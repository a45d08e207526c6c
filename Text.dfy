/**
 * Character classes and string helpers with Python's meaning.  Case mapping
 * and digit tests are the ASCII part of Python's; whitespace is the full set
 * that `str.isspace`, `str.strip` and `str.split()` use.
 */
module Text {
  import opened Wrappers

  predicate IsDigit(c: char) { '0' <= c <= '9' }
  predicate IsUpper(c: char) { 'A' <= c <= 'Z' }
  predicate IsLower(c: char) { 'a' <= c <= 'z' }
  predicate IsLetter(c: char) { IsUpper(c) || IsLower(c) }
  predicate IsAlnum(c: char) { IsLetter(c) || IsDigit(c) }

  function ToLower(c: char): (r: char)
    ensures IsUpper(c) ==> IsLower(r)
    ensures !IsUpper(c) ==> r == c
  {
    if IsUpper(c) then (c as int - 'A' as int + 'a' as int) as char else c
  }

  function ToUpper(c: char): (r: char)
    ensures IsLower(c) ==> IsUpper(r)
    ensures !IsLower(c) ==> r == c
  {
    if IsLower(c) then (c as int - 'a' as int + 'A' as int) as char else c
  }

  function Lower(s: string): (r: string)
    ensures |r| == |s|
    ensures forall i :: 0 <= i < |s| ==> r[i] == ToLower(s[i])
  {
    if s == [] then [] else [ToLower(s[0])] + Lower(s[1..])
  }

  function Upper(s: string): (r: string)
    ensures |r| == |s|
    ensures forall i :: 0 <= i < |s| ==> r[i] == ToUpper(s[i])
  {
    if s == [] then [] else [ToUpper(s[0])] + Upper(s[1..])
  }

  lemma {:induction false} LowerConcat(a: string, b: string)
    ensures Lower(a + b) == Lower(a) + Lower(b)
  {
    if a == [] {
      assert a + b == b;
    } else {
      assert (a + b)[1..] == a[1..] + b;
      LowerConcat(a[1..], b);
    }
  }

  /** The characters Python's `str.isspace` accepts. */
  predicate IsSpace(c: char) {
    c == ' ' || '\t' <= c <= '\r' || '\U{1c}' <= c <= '\U{1f}' || c == '\U{85}' || c == '\U{a0}'
    || c == '\U{1680}' || '\U{2000}' <= c <= '\U{200a}' || c == '\U{2028}' || c == '\U{2029}'
    || c == '\U{202f}' || c == '\U{205f}' || c == '\U{3000}'
  }

  function StripLeft(s: string): (r: string)
    ensures |r| <= |s| && r == s[|s| - |r|..]
    ensures forall i :: 0 <= i < |s| - |r| ==> IsSpace(s[i])
    ensures r == [] || !IsSpace(r[0])
  {
    if s != [] && IsSpace(s[0]) then StripLeft(s[1..]) else s
  }

  function StripRight(s: string): (r: string)
    ensures |r| <= |s| && r == s[..|r|]
    ensures forall i :: |r| <= i < |s| ==> IsSpace(s[i])
    ensures r == [] || !IsSpace(r[|r| - 1])
  {
    if s != [] && IsSpace(s[|s| - 1]) then StripRight(s[..|s| - 1]) else s
  }

  /** Python's `str.strip()` with no argument. */
  function Strip(s: string): (r: string)
    ensures r == [] || (!IsSpace(r[0]) && !IsSpace(r[|r| - 1]))
    ensures exists i :: OccursAt(s, r, i)
  {
    var l := StripLeft(s);
    var r := StripRight(l);
    assert OccursAt(s, r, |s| - |l|);
    r
  }

  lemma {:induction false} StripLeftAllSpace(s: string)
    requires forall i :: 0 <= i < |s| ==> IsSpace(s[i])
    ensures StripLeft(s) == []
  {
    if s != [] {
      StripLeftAllSpace(s[1..]);
    }
  }

  /** `strip()` leaves nothing exactly when every character is whitespace. */
  lemma StripAllSpace(s: string)
    ensures Strip(s) == [] <==> forall i :: 0 <= i < |s| ==> IsSpace(s[i])
  {
    var l := StripLeft(s);
    if Strip(s) == [] {
      // StripLeft stops at a non-space, and StripRight removed only spaces, so l is empty.
      assert l == [];
    }
    if forall i :: 0 <= i < |s| ==> IsSpace(s[i]) {
      StripLeftAllSpace(s);
    }
  }

  /** `strip()` leaves a string alone when it neither starts nor ends with whitespace. */
  lemma StripNoSpace(s: string)
    requires s == [] || (!IsSpace(s[0]) && !IsSpace(s[|s| - 1]))
    ensures Strip(s) == s
  {
  }

  /** `strip()` keeps every character that is not whitespace. */
  lemma StripKeeps(s: string, c: char)
    requires c in s && !IsSpace(c)
    ensures c in Strip(s)
  {
    var l := StripLeft(s);
    var j :| 0 <= j < |s| && s[j] == c;
    assert l[j - (|s| - |l|)] == c;
    var r := StripRight(l);
    assert r[j - (|s| - |l|)] == c;
  }

  /** `needle` sits in `hay` at position `i`. */
  ghost predicate OccursAt(hay: string, needle: string, i: int) {
    0 <= i && i + |needle| <= |hay| && hay[i..i + |needle|] == needle
  }

  /** Python's `needle in hay` for strings. */
  function Contains(hay: string, needle: string): (r: bool)
    ensures r <==> exists i :: OccursAt(hay, needle, i)
  {
    if |needle| <= |hay| && hay[..|needle|] == needle then
      assert OccursAt(hay, needle, 0);
      true
    else if |hay| <= |needle| then
      assert forall i :: !OccursAt(hay, needle, i);
      false
    else
      var r := Contains(hay[1..], needle);
      assert forall i :: OccursAt(hay[1..], needle, i) <==> OccursAt(hay, needle, i + 1) by {
        forall i ensures OccursAt(hay[1..], needle, i) <==> OccursAt(hay, needle, i + 1) {
          if 0 <= i && i + |needle| <= |hay| - 1 {
            assert hay[1..][i..i + |needle|] == hay[i + 1..i + 1 + |needle|];
          }
        }
      }
      assert forall i :: OccursAt(hay, needle, i) ==> i == 0 || OccursAt(hay[1..], needle, i - 1);
      r
  }

  /** Python's `c in s` for a single character. */
  predicate Has(s: string, c: char) { c in s }

  /** The digits of `s`, in order: `''.join(filter(str.isdigit, s))`. */
  function Digits(s: string): (r: string)
    ensures |r| <= |s|
    ensures forall i :: 0 <= i < |r| ==> IsDigit(r[i])
  {
    if s == [] then [] else (if IsDigit(s[0]) then [s[0]] else []) + Digits(s[1..])
  }

  /** Text without digits has none to keep. */
  lemma {:induction false} NoDigits(s: string)
    requires forall i :: 0 <= i < |s| ==> !IsDigit(s[i])
    ensures Digits(s) == []
  {
    if s != [] {
      NoDigits(s[1..]);
    }
  }

  lemma {:induction false} DigitsOfDigits(s: string)
    requires forall i :: 0 <= i < |s| ==> IsDigit(s[i])
    ensures Digits(s) == s
  {
    if s != [] {
      DigitsOfDigits(s[1..]);
    }
  }

  lemma {:induction false} DigitsConcat(a: string, b: string)
    ensures Digits(a + b) == Digits(a) + Digits(b)
  {
    if a == [] {
      assert a + b == b;
    } else {
      assert (a + b)[1..] == a[1..] + b;
      DigitsConcat(a[1..], b);
    }
  }

  /** Python's `a < b` on strings: lexicographic by code point. */
  predicate LexLess(a: string, b: string) {
    if a == [] then b != []
    else if b == [] then false
    else a[0] < b[0] || (a[0] == b[0] && LexLess(a[1..], b[1..]))
  }

  /** No string is below itself. */
  lemma {:induction false} LexLessIrreflexive(a: string)
    ensures !LexLess(a, a)
  {
    if a != [] {
      LexLessIrreflexive(a[1..]);
    }
  }

  /** Of two different strings one is below the other. */
  lemma {:induction false} LexLessTotal(a: string, b: string)
    requires a != b
    ensures LexLess(a, b) || LexLess(b, a)
  {
    if a != [] && b != [] && a[0] == b[0] {
      assert a == [a[0]] + a[1..] && b == [b[0]] + b[1..];
      LexLessTotal(a[1..], b[1..]);
    }
  }

  /** Python's `s.find(c)`, with `None` for -1. */
  function IndexOf(s: string, c: char): (r: Option<nat>)
    ensures r.Some? ==> r.value < |s| && s[r.value] == c && forall k :: 0 <= k < r.value ==> s[k] != c
    ensures r.None? ==> c !in s
  {
    if s == [] then None
    else if s[0] == c then Some(0)
    else match IndexOf(s[1..], c)
      case None => None
      case Some(i) => Some(i + 1)
  }

  /** Python's `s.rfind(c)`, with `None` for -1. */
  function LastIndexOf(s: string, c: char): (r: Option<nat>)
    ensures r.Some? ==> r.value < |s| && s[r.value] == c && forall k :: r.value < k < |s| ==> s[k] != c
    ensures r.None? ==> c !in s
  {
    if s == [] then None
    else if s[|s| - 1] == c then Some(|s| - 1)
    else
      var r := LastIndexOf(s[..|s| - 1], c);
      assert c !in s[..|s| - 1] ==> c !in s by {
        assert s == s[..|s| - 1] + [s[|s| - 1]];
      }
      r
  }

  /** Python's `sep.join(parts)`. */
  function Join(sep: string, parts: seq<string>): string {
    if parts == [] then "" else if |parts| == 1 then parts[0] else parts[0] + sep + Join(sep, parts[1..])
  }

  /** The first whitespace-free run of `s` (which starts at a non-space) and what follows it. */
  function TokenLen(s: string): (n: nat)
    ensures n <= |s|
    ensures forall i :: 0 <= i < n ==> !IsSpace(s[i])
    ensures n == |s| || IsSpace(s[n])
  {
    if s == [] || IsSpace(s[0]) then 0 else 1 + TokenLen(s[1..])
  }

  /** A non-empty run of non-whitespace characters. */
  predicate IsWord(w: string) {
    w != [] && forall i :: 0 <= i < |w| ==> !IsSpace(w[i])
  }

  /** Python's `str.split()` with no argument: maximal runs of non-whitespace. */
  function SplitWs(s: string): seq<string>
    decreases |s|
  {
    if s == [] then []
    else if IsSpace(s[0]) then SplitWs(s[1..])
    else
      var n := TokenLen(s);
      [s[..n]] + SplitWs(s[n..])
  }

  /** The token length is the only length with its two properties. */
  lemma {:induction false} TokenLenUnique(s: string, n: nat)
    requires n <= |s| && (forall i :: 0 <= i < n ==> !IsSpace(s[i])) && (n == |s| || IsSpace(s[n]))
    ensures TokenLen(s) == n
  {
    if n > 0 {
      TokenLenUnique(s[1..], n - 1);
    }
  }

  /** A string of whitespace only splits into nothing. */
  lemma {:induction false} AllSpaceSplit(s: string)
    requires forall i :: 0 <= i < |s| ==> IsSpace(s[i])
    ensures SplitWs(s) == []
    decreases |s|
  {
    if s != [] {
      AllSpaceSplit(s[1..]);
    }
  }

  /** Leading whitespace does not change what `split()` finds. */
  lemma SplitSpaceThen(c: char, r: string)
    requires IsSpace(c)
    ensures SplitWs([c] + r) == SplitWs(r)
  {
    assert ([c] + r)[1..] == r;
  }

  /** A word followed by whitespace (or by nothing) is the first thing `split()` finds. */
  lemma SplitWordThen(w: string, r: string)
    requires IsWord(w) && (r == [] || IsSpace(r[0]))
    ensures SplitWs(w + r) == [w] + SplitWs(r)
  {
    var t := w + r;
    assert TokenLen(t) == |w| by {
      assert forall i :: 0 <= i < |w| ==> t[i] == w[i];
      TokenLenUnique(t, |w|);
    }
    assert t[0] == w[0];
    assert t[..|w|] == w && t[|w|..] == r;
  }

  /** `split()` of a string and of the string without its leading whitespace agree. */
  lemma {:induction false} StripLeftIdem(z: string)
    ensures SplitWs(StripLeft(z)) == SplitWs(z)
    decreases |z|
  {
    if z != [] && IsSpace(z[0]) {
      StripLeftIdem(z[1..]);
    }
  }

  /** Trailing whitespace does not change what `split()` finds. */
  lemma {:induction false} SplitAppendSpaces(z: string, tail: string)
    requires forall i :: 0 <= i < |tail| ==> IsSpace(tail[i])
    ensures SplitWs(z + tail) == SplitWs(z)
    decreases |z|
  {
    if z == [] {
      assert z + tail == tail;
      AllSpaceSplit(tail);
    } else if IsSpace(z[0]) {
      assert (z + tail)[1..] == z[1..] + tail;
      SplitAppendSpaces(z[1..], tail);
    } else {
      var n := TokenLen(z);
      var zt := z + tail;
      assert TokenLen(zt) == n by {
        assert forall i :: 0 <= i < n ==> zt[i] == z[i];
        if n < |z| {
          assert zt[n] == z[n];
        } else if tail != [] {
          assert zt[n] == tail[0];
        }
        TokenLenUnique(zt, n);
      }
      if n == |z| {
        assert zt[n..] == tail;
        AllSpaceSplit(tail);
        assert z[n..] == [];
      } else {
        assert zt[n..] == z[n..] + tail;
        SplitAppendSpaces(z[n..], tail);
      }
      assert zt[..n] == z[..n];
    }
  }

  /** `split()` finds the same words in a string and in its `strip()`. */
  lemma SplitStrip(x: string)
    ensures SplitWs(Strip(x)) == SplitWs(x)
  {
    var l := StripLeft(x);
    var r := StripRight(l);
    var tail := l[|r|..];
    assert l == r + tail;
    SplitAppendSpaces(r, tail);
    StripLeftIdem(x);
  }
}
