/**
 * The two regular expressions the contact validators share, as predicates
 * over ASCII text:
 *   phone  `^\+?1?\d{9,15}$`
 *   email  `^[a-zA-Z0-9._%+-]+@[a-zA-Z0-9.-]+\.[a-zA-Z]{2,}$`
 * Each has a declarative reading (how the pattern splits the text) and a
 * computable one, proved equal.  Python's `$` also matches just before a
 * final newline, so `re.match` accepts the text with one trailing "\n" too.
 */
module Patterns {
  import opened Wrappers
  import opened Text

  /** What `$` allows after a match: the end, or one final newline. */
  predicate EndsAt(s: string, body: string) {
    s == body || (s == body + "\n")
  }

  // ---------------------------------------------------------------------
  // Phone numbers

  /**
   * `\+?1?\d{9,15}` covers all of `s`, taking the optional `+` when `plus`
   * and the optional `1` when `one`.
   */
  ghost predicate PhoneParts(s: string, plus: bool, one: bool) {
    var k := (if plus then 1 else 0) + (if one then 1 else 0);
    k <= |s| && (plus ==> s[0] == '+') && (one ==> s[k - 1] == '1')
    && 9 <= |s| - k <= 15 && forall i :: k <= i < |s| ==> IsDigit(s[i])
  }

  /** The pattern matches `s` in one of the ways the optional parts allow. */
  ghost predicate PhoneRegex(s: string) {
    exists plus: bool, one: bool :: PhoneParts(s, plus, one)
  }

  /** Drops a leading `+`. */
  function AfterPlus(s: string): (b: string)
    ensures b == s || (s != [] && s[0] == '+' && b == s[1..])
  {
    if s != [] && s[0] == '+' then s[1..] else s
  }

  /** All digits, 9 to 15 of them, or 16 when the first is the optional `1`. */
  predicate PhoneShape(s: string) {
    var b := AfterPlus(s);
    (forall i :: 0 <= i < |b| ==> IsDigit(b[i])) && 9 <= |b| && (|b| <= 15 || (|b| == 16 && b[0] == '1'))
  }

  lemma PhoneShapeIff(s: string)
    ensures PhoneShape(s) <==> PhoneRegex(s)
  {
    var plus := s != [] && s[0] == '+';
    var b := AfterPlus(s);
    if PhoneShape(s) {
      if |b| <= 15 {
        assert PhoneParts(s, plus, false);
      } else {
        assert PhoneParts(s, plus, true);
      }
    }
    if PhoneRegex(s) {
      var p: bool, o: bool :| PhoneParts(s, p, o);
      // A '+' cannot be a digit, so the optional '+' is taken exactly when present.
      assert p == plus;
    }
  }

  /** `re.match(r'^\+?1?\d{9,15}$', s)`, with digits read as ASCII digits. */
  predicate PhoneMatch(s: string) {
    PhoneShape(s) || (s != [] && s[|s| - 1] == '\n' && PhoneShape(s[..|s| - 1]))
  }

  lemma PhoneMatchIff(s: string)
    ensures PhoneMatch(s) <==> exists body :: EndsAt(s, body) && PhoneRegex(body)
  {
    PhoneShapeIff(s);
    if s != [] && s[|s| - 1] == '\n' {
      var body := s[..|s| - 1];
      PhoneShapeIff(body);
      assert s == body + "\n";
    }
    forall body | EndsAt(s, body) && PhoneRegex(body) ensures PhoneMatch(s) {
      PhoneShapeIff(body);
      if s != body {
        assert s[..|s| - 1] == body;
      }
    }
  }

  /** An accepted phone number is 9 to 17 characters long, digits after an optional '+'. */
  lemma PhoneShapeBounds(s: string)
    requires PhoneShape(s)
    ensures 9 <= |s| <= 17
    ensures forall i :: (if s[0] == '+' then 1 else 0) <= i < |s| ==> IsDigit(s[i])
  {
    var b := AfterPlus(s);
    assert forall i :: (if s[0] == '+' then 1 else 0) <= i < |s| ==> s[i] == b[i - (|s| - |b|)];
  }

  // ---------------------------------------------------------------------
  // Email addresses

  predicate IsLocalChar(c: char) { IsAlnum(c) || c == '.' || c == '_' || c == '%' || c == '+' || c == '-' }

  predicate IsDomainChar(c: char) { IsAlnum(c) || c == '.' || c == '-' }

  /**
   * `[a-zA-Z0-9._%+-]+@[a-zA-Z0-9.-]+\.[a-zA-Z]{2,}` covers all of `s` with
   * the `@` at `at` and the literal dot at `dot`.
   */
  ghost predicate EmailParts(s: string, at: int, dot: int) {
    0 < at && at + 1 < dot && dot < |s|
    && s[at] == '@' && s[dot] == '.' && |s| - dot - 1 >= 2
    && (forall k :: 0 <= k < at ==> IsLocalChar(s[k]))
    && (forall k :: at < k < dot ==> IsDomainChar(s[k]))
    && (forall k :: dot < k < |s| ==> IsLetter(s[k]))
  }

  ghost predicate EmailRegex(s: string) {
    exists at, dot :: EmailParts(s, at, dot)
  }

  /** The only possible split: the first '@' (the local part has none) and the last '.' (the suffix has none). */
  predicate EmailShape(s: string) {
    match (IndexOf(s, '@'), LastIndexOf(s, '.'))
    case (Some(at), Some(dot)) =>
      0 < at && at + 1 < dot && |s| - dot - 1 >= 2
      && (forall k :: 0 <= k < at ==> IsLocalChar(s[k]))
      && (forall k :: at < k < dot ==> IsDomainChar(s[k]))
      && (forall k :: dot < k < |s| ==> IsLetter(s[k]))
    case _ => false
  }

  lemma EmailShapeIff(s: string)
    ensures EmailShape(s) <==> EmailRegex(s)
  {
    if EmailShape(s) {
      assert EmailParts(s, IndexOf(s, '@').value, LastIndexOf(s, '.').value);
    }
    if EmailRegex(s) {
      var at, dot :| EmailParts(s, at, dot);
      assert s[at] == '@' && s[dot] == '.';
      var i, j := IndexOf(s, '@'), LastIndexOf(s, '.');
      assert i.Some? && j.Some?;
      assert i.value == at;
      assert j.value == dot;
    }
  }

  /** `re.match` of the email pattern. */
  predicate EmailMatch(s: string) {
    EmailShape(s) || (s != [] && s[|s| - 1] == '\n' && EmailShape(s[..|s| - 1]))
  }

  lemma EmailMatchIff(s: string)
    ensures EmailMatch(s) <==> exists body :: EndsAt(s, body) && EmailRegex(body)
  {
    EmailShapeIff(s);
    if s != [] && s[|s| - 1] == '\n' {
      var body := s[..|s| - 1];
      EmailShapeIff(body);
      assert s == body + "\n";
    }
    forall body | EndsAt(s, body) && EmailRegex(body) ensures EmailMatch(s) {
      EmailShapeIff(body);
      if s != body {
        assert s[..|s| - 1] == body;
      }
    }
  }

  /** An accepted address holds exactly one '@'. */
  lemma EmailOneAt(s: string, at: int, dot: int, k: int)
    requires EmailParts(s, at, dot) && 0 <= k < |s| && s[k] == '@'
    ensures k == at
  {
  }

  /** `bool(name.strip())`: some character is not whitespace. */
  function HasNonSpace(s: string): (r: bool)
    ensures r <==> exists i :: 0 <= i < |s| && !IsSpace(s[i])
  {
    StripAllSpace(s);
    Strip(s) != []
  }
}
