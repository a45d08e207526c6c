/**
 * `generate_password` and the length check of `main` in
 * `004_project/password_generator.py`.  The random numbers are an input
 * (`Chance.Source`); the console answers are the `Request` list.
 */
module MenuPasswordGenerator {
  import opened Wrappers
  import opened Text
  import opened Charsets
  import opened Chance

  /** What `generate_password` returns when no set is chosen. */
  const NoSetError: string := "Error: At least one character type must be selected"

  /** `all_characters`: letters, digits and punctuation for the enabled flags. */
  function Pool(useLetters: bool, useNumbers: bool, useSymbols: bool): (r: string)
    ensures |r| == (if useLetters then 52 else 0) + (if useNumbers then 10 else 0) + (if useSymbols then 32 else 0)
  {
    (if useLetters then Letters else "") + (if useNumbers then DigitChars else "")
    + (if useSymbols then Punctuation else "")
  }

  /** A character is in the pool exactly when its set is enabled. */
  lemma PoolMembers(useLetters: bool, useNumbers: bool, useSymbols: bool, c: char)
    ensures c in Pool(useLetters, useNumbers, useSymbols) <==>
      (useLetters && IsLetter(c)) || (useNumbers && IsDigit(c)) || (useSymbols && IsPunct(c))
  {
    LettersMembers(c);
    DigitsMembers(c);
    PunctuationMembers(c);
    var a := if useLetters then Letters else "";
    var b := if useNumbers then DigitChars else "";
    var s := if useSymbols then Punctuation else "";
    assert c in a + b + s <==> c in a || c in b || c in s;
  }

  /** `generate_password`: the error text when no set is chosen, otherwise `length` choices from the pool. */
  function GeneratePassword(length: int, useLetters: bool, useNumbers: bool, useSymbols: bool, draw: Source)
    : (r: string)
    ensures r == NoSetError || |r| == (if length > 0 then length else 0)
  {
    var pool := Pool(useLetters, useNumbers, useSymbols);
    if pool == "" then NoSetError
    else Choices(draw, 0, pool, if length > 0 then length else 0)
  }

  /**
   * With some set chosen, the password has the requested length (none when it
   * is not positive) and every character from a chosen set; with none, it is
   * the error text.
   */
  lemma GeneratedShape(length: int, useLetters: bool, useNumbers: bool, useSymbols: bool, draw: Source)
    ensures var p := GeneratePassword(length, useLetters, useNumbers, useSymbols, draw);
      (!useLetters && !useNumbers && !useSymbols ==> p == NoSetError)
      && (useLetters || useNumbers || useSymbols ==>
            |p| == (if length > 0 then length else 0)
            && forall i :: 0 <= i < |p| ==>
                 (useLetters && IsLetter(p[i])) || (useNumbers && IsDigit(p[i])) || (useSymbols && IsPunct(p[i])))
  {
    var pool := Pool(useLetters, useNumbers, useSymbols);
    if pool != "" {
      var p := GeneratePassword(length, useLetters, useNumbers, useSymbols, draw);
      ChoicesIn(draw, 0, pool, |p|);
      forall i | 0 <= i < |p|
        ensures (useLetters && IsLetter(p[i])) || (useNumbers && IsDigit(p[i])) || (useSymbols && IsPunct(p[i]))
      {
        PoolMembers(useLetters, useNumbers, useSymbols, p[i]);
      }
    }
  }

  /**
   * One round of the menu: the length typed (`None` when `int()` fails), the
   * three answers, and whether another password is wanted.
   */
  datatype Request = Request(length: Option<int>, letters: bool, numbers: bool, symbols: bool, another: bool)

  /** Whether `main` goes on to generate for this length. */
  predicate Accepted(length: Option<int>) {
    length.Some? && 8 <= length.value <= 50
  }

  /** The lengths `main` generates for, until an answer other than "y" to "another". */
  function CalledLengths(requests: seq<Request>): (r: seq<int>)
    ensures forall i :: 0 <= i < |r| ==> 8 <= r[i] <= 50
  {
    if requests == [] then []
    else if !Accepted(requests[0].length) then CalledLengths(requests[1..])
    else if !requests[0].another then [requests[0].length.value]
    else [requests[0].length.value] + CalledLengths(requests[1..])
  }

  /**
   * The loop of `main` over the answers given: a failed `int()` or a length
   * outside 8..50 asks again; otherwise a password is generated (its draws
   * following the previous password's; no option chosen draws nothing) and
   * shown.
   */
  method RunMenu(requests: seq<Request>, draw: Source) returns (lengths: seq<int>, passwords: seq<string>)
    ensures lengths == CalledLengths(requests)
    ensures |passwords| == |lengths|
    ensures forall i :: 0 <= i < |passwords| ==> |passwords[i]| == lengths[i] || passwords[i] == NoSetError
  {
    lengths, passwords := [], [];
    var i := 0;
    var k: nat := 0;
    while i < |requests|
      invariant 0 <= i <= |requests|
      invariant |passwords| == |lengths|
      invariant forall j :: 0 <= j < |passwords| ==> |passwords[j]| == lengths[j] || passwords[j] == NoSetError
      invariant lengths + CalledLengths(requests[i..]) == CalledLengths(requests)
    {
      var r := requests[i];
      assert requests[i..][1..] == requests[i + 1..];
      if !Accepted(r.length) {
        i := i + 1;
        continue;
      }
      var length := r.length.value;
      var shifted: Source := (j: nat) => draw(j + k);
      var password := GeneratePassword(length, r.letters, r.numbers, r.symbols, shifted);
      lengths := lengths + [length];
      passwords := passwords + [password];
      if Pool(r.letters, r.numbers, r.symbols) != "" {
        k := k + length;
      }
      if !r.another {
        assert CalledLengths(requests[i..]) == [length];
        return;
      }
      i := i + 1;
    }
  }
}
