/**
 * The two path functions of Python's `posixpath` the file organizers use:
 * `join` of two components and `splitext`.
 */
module Paths {
  import opened Wrappers
  import opened Text

  /** `os.path.join(a, b)`. */
  function PathJoin(a: string, b: string): (r: string)
    ensures b != [] && b[0] == '/' ==> r == b
    ensures (b == [] || b[0] != '/') ==> |a| + |b| <= |r| <= |a| + 1 + |b|
  {
    if b != [] && b[0] == '/' then b
    else if a == [] || a[|a| - 1] == '/' then a + b
    else a + "/" + b
  }

  /** A position as `rfind` reports it: -1 when the character is absent. */
  function Found(i: Option<nat>): int {
    if i.Some? then i.value else -1
  }

  /**
   * `os.path.splitext(p)`: the extension starts at the last `.` when that dot
   * lies in the last component and something other than a dot precedes it
   * there; otherwise there is none.
   */
  function SplitExt(p: string): (r: (string, string))
    ensures r.0 + r.1 == p
    ensures r.1 == [] || (r.1[0] == '.' && '.' !in r.1[1..] && '/' !in r.1)
  {
    var sepIndex := Found(LastIndexOf(p, '/'));
    var dotIndex := Found(LastIndexOf(p, '.'));
    if dotIndex > sepIndex && exists i :: sepIndex + 1 <= i < dotIndex && p[i] != '.' then
      assert p[..dotIndex] + p[dotIndex..] == p;
      (p[..dotIndex], p[dotIndex..])
    else (p, "")
  }

  /** A name made of a stem with something other than dots, a dot and a dot-free suffix splits at that dot. */
  lemma SplitExtOf(stem: string, ext: string)
    requires '/' !in stem && '/' !in ext && '.' !in ext
    requires exists i :: 0 <= i < |stem| && stem[i] != '.'
    ensures SplitExt(stem + "." + ext) == (stem, "." + ext)
  {
    var p := stem + "." + ext;
    assert p[|stem|] == '.';
    assert forall k :: |stem| < k < |p| ==> p[k] == ext[k - |stem| - 1];
    assert LastIndexOf(p, '.') == Some(|stem|);
    assert '/' !in p by {
      assert forall k :: 0 <= k < |p| ==> p[k] == '/' ==> (k < |stem| && stem[k] == '/') || (k > |stem| && ext[k - |stem| - 1] == '/');
    }
    var i :| 0 <= i < |stem| && stem[i] != '.';
    assert p[i] != '.';
    assert p[..|stem|] == stem && p[|stem|..] == "." + ext;
  }

  /** A name without a dot has no extension. */
  lemma NoDotNoExt(p: string)
    requires '.' !in p
    ensures SplitExt(p) == (p, "")
  {
  }

  /** A name made only of dots and a dot-free, slash-free rest (".bashrc", "..x") has no extension. */
  lemma LeadingDotsNoExt(dots: nat, rest: string)
    requires '.' !in rest && '/' !in rest
    ensures SplitExt(seq(dots, _ => '.') + rest).1 == []
  {
    var p := seq(dots, _ => '.') + rest;
    assert forall k :: 0 <= k < |p| ==> p[k] == (if k < dots then '.' else rest[k - dots]);
    assert '/' !in p;
    if LastIndexOf(p, '.').Some? {
      assert LastIndexOf(p, '.').value < dots;
    }
  }
}
