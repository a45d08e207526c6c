/**
 * The email slicer of `040_project/email_slicer.py`: `slice_email` splits a
 * stripped address at its `@` into user name and domain, and
 * `validate_email` makes a few character checks on the address as given.
 */
module EmailSlicer {
  import opened Wrappers
  import opened Text

  /** Python's `s.split(sep)` for a one-character separator. */
  function SplitOn(s: string, sep: char): (r: seq<string>)
    ensures r != [] && forall k :: 0 <= k < |r| ==> sep !in r[k]
    ensures Join([sep], r) == s
    decreases |s|
  {
    match IndexOf(s, sep)
    case None => [s]
    case Some(i) =>
      var rest := SplitOn(s[i + 1..], sep);
      var r := [s[..i]] + rest;
      assert sep !in s[..i];
      assert r[1..] == rest;
      assert s == s[..i] + [sep] + s[i + 1..];
      r
  }

  /** Splitting two separator-free parts joined by the separator gives the two parts. */
  lemma SplitOnTwo(u: string, d: string, sep: char)
    requires sep !in u && sep !in d
    ensures SplitOn(u + [sep] + d, sep) == [u, d]
  {
    var s := u + [sep] + d;
    assert s[|u|] == sep;
    assert IndexOf(s, sep) == Some(|u|) by {
      assert forall k :: 0 <= k < |u| ==> s[k] == u[k];
    }
    assert s[..|u|] == u && s[|u| + 1..] == d;
  }

  /**
   * `slice_email`: `None` stands for `(None, None)`.  The address is
   * stripped; it fails without an `@`, with more than one (the unpacking
   * raises, and the exception is caught), or when the user name or the
   * domain is empty or the domain has no `.`.
   */
  function SliceEmail(email: string): (r: Option<(string, string)>)
    ensures r.Some? ==> var (user, domain) := r.value;
      Strip(email) == user + "@" + domain && user != [] && domain != []
      && '@' !in user && '@' !in domain && '.' in domain
  {
    var e := Strip(email);
    if '@' !in e then None
    else
      var parts := SplitOn(e, '@');
      if |parts| != 2 then None
      else
        var user, domain := parts[0], parts[1];
        assert parts[1..] == [domain];
        if user == [] || domain == [] || '.' !in domain then None
        else Some((user, domain))
  }

  /** Every address of that shape is sliced, at its only `@`. */
  lemma SliceEmailComplete(email: string, user: string, domain: string)
    requires Strip(email) == user + "@" + domain && user != [] && domain != []
    requires '@' !in user && '@' !in domain && '.' in domain
    ensures SliceEmail(email) == Some((user, domain))
  {
    SplitOnTwo(user, domain, '@');
    assert Strip(email)[|user|] == '@';
  }

  /** An address with two `@` is never sliced. */
  lemma TwoAtSigns(email: string, i: nat, j: nat)
    requires i < j < |Strip(email)| && Strip(email)[i] == '@' && Strip(email)[j] == '@'
    ensures SliceEmail(email).None?
  {
  }

  /** Surrounding whitespace does not change the slicing. */
  lemma SliceStripped(email: string)
    ensures SliceEmail(Strip(email)) == SliceEmail(email)
  {
    StripNoSpace(Strip(email));
  }

  /** The characters `validate_email` refuses. */
  const InvalidChars: string := " !#$%^&*()=+{}[]|\\/:;\"'<>,?"

  /**
   * `validate_email`: not empty, has an `@` and a `.`, and none of the
   * refused characters.  The address is not stripped.
   */
  function ValidateEmail(email: string): (r: bool)
    ensures r ==> email != [] && '@' in email && '.' in email
    ensures r <==> email != [] && '@' in email && '.' in email
                   && forall i :: 0 <= i < |email| ==> email[i] !in InvalidChars
  {
    if email == [] then false
    else if '@' !in email || '.' !in email then false
    else if exists i :: 0 <= i < |email| && email[i] in InvalidChars then false
    else true
  }

  /** A space anywhere, even at either end, makes an address invalid. */
  lemma SpaceRejected(email: string)
    requires ' ' in email
    ensures !ValidateEmail(email)
  {
    var i :| 0 <= i < |email| && email[i] == ' ';
    assert InvalidChars[0] == ' ';
  }

  /**
   * Other whitespace is not refused: a valid address with a leading tab is
   * still valid, and `slice_email` strips the tab away.
   */
  lemma TabAccepted(email: string)
    requires ValidateEmail(email)
    ensures ValidateEmail(['\t'] + email)
    ensures SliceEmail(['\t'] + email) == SliceEmail(email)
  {
    TabKeepsValid(email);
    TabStripped(email);
  }

  lemma TabKeepsValid(email: string)
    requires ValidateEmail(email)
    ensures ValidateEmail(['\t'] + email)
  {
    var e := ['\t'] + email;
    assert '\t' !in InvalidChars;
    assert forall i :: 1 <= i < |e| ==> e[i] == email[i - 1];
    var a :| 0 <= a < |email| && email[a] == '@';
    var d :| 0 <= d < |email| && email[d] == '.';
    assert e[a + 1] == '@' && e[d + 1] == '.';
  }

  lemma TabStripped(s: string)
    ensures Strip(['\t'] + s) == Strip(s)
  {
    var e := ['\t'] + s;
    assert e[1..] == s;
    assert StripLeft(e) == StripLeft(s);
  }
}
