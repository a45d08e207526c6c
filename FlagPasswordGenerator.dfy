/**
 * `generate_password` of `040_project/password_generator.py`: the pool is
 * made of the enabled sets, and the password is `length` independent random
 * choices from it.  The random numbers are an input (`Chance.Source`).
 */
module FlagPasswordGenerator {
  import opened Wrappers
  import opened Text
  import opened Charsets
  import opened Chance

  /** `char_pool`: letters, digits and symbols for exactly the enabled flags, in that order. */
  function Pool(useLetters: bool, useNumbers: bool, useSymbols: bool): (r: string)
    ensures |r| == (if useLetters then 52 else 0) + (if useNumbers then 10 else 0) + (if useSymbols then 26 else 0)
  {
    (if useLetters then Letters else []) + (if useNumbers then DigitChars else [])
    + (if useSymbols then Symbols else [])
  }

  /** A character is in the pool exactly when its set is enabled. */
  lemma PoolMembers(useLetters: bool, useNumbers: bool, useSymbols: bool, c: char)
    ensures c in Pool(useLetters, useNumbers, useSymbols) <==>
      (useLetters && IsLetter(c)) || (useNumbers && IsDigit(c)) || (useSymbols && c in Symbols)
  {
    LettersMembers(c);
    DigitsMembers(c);
    var a := if useLetters then Letters else [];
    var b := if useNumbers then DigitChars else [];
    var s := if useSymbols then Symbols else [];
    assert c in a + b + s <==> c in a || c in b || c in s;
  }

  /**
   * `generate_password`: `None` when no set is enabled, otherwise `length`
   * choices from the pool (none when `length` is not positive).
   */
  function GeneratePassword(length: int, useLetters: bool, useNumbers: bool, useSymbols: bool, draw: Source)
    : (r: Option<string>)
    ensures r.None? <==> !useLetters && !useNumbers && !useSymbols
    ensures r.Some? ==> |r.value| == (if length > 0 then length else 0)
  {
    var pool := Pool(useLetters, useNumbers, useSymbols);
    if pool == [] then None
    else Some(Choices(draw, 0, pool, if length > 0 then length else 0))
  }

  /** Every character of a generated password comes from an enabled set. */
  lemma GeneratedFromEnabledSets(length: int, useLetters: bool, useNumbers: bool, useSymbols: bool, draw: Source)
    requires useLetters || useNumbers || useSymbols
    ensures var p := GeneratePassword(length, useLetters, useNumbers, useSymbols, draw).value;
      forall i :: 0 <= i < |p| ==>
        (useLetters && IsLetter(p[i])) || (useNumbers && IsDigit(p[i])) || (useSymbols && p[i] in Symbols)
  {
    var pool := Pool(useLetters, useNumbers, useSymbols);
    var p := GeneratePassword(length, useLetters, useNumbers, useSymbols, draw).value;
    ChoicesIn(draw, 0, pool, |p|);
    forall i | 0 <= i < |p|
      ensures (useLetters && IsLetter(p[i])) || (useNumbers && IsDigit(p[i])) || (useSymbols && p[i] in Symbols)
    {
      PoolMembers(useLetters, useNumbers, useSymbols, p[i]);
    }
  }

  /** A length that is not positive gives the empty password, which the menu does not print. */
  lemma NonPositiveLength(length: int, draw: Source)
    requires length <= 0
    ensures GeneratePassword(length, true, true, true, draw) == Some("")
  {
  }
}
