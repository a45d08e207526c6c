/**
 * The character sets of Python's `string` module and the symbol set the
 * password generators share.
 */
module Charsets {
  import opened Text
  import opened Chance

  /** `n` consecutive ASCII characters from `first` on. */
  function Run(first: char, n: nat): (r: string)
    requires first as int + n <= 128
    ensures |r| == n
    ensures forall i :: 0 <= i < n ==> r[i] as int == first as int + i
  {
    seq(n, i requires 0 <= i < n => (first as int + i) as char)
  }

  /** A character belongs to a run exactly when it lies in its range. */
  lemma InRun(first: char, n: nat, c: char)
    requires first as int + n <= 128
    ensures c in Run(first, n) <==> first as int <= c as int < first as int + n
  {
    if first as int <= c as int < first as int + n {
      assert Run(first, n)[c as int - first as int] == c;
    }
  }

  /** `string.ascii_lowercase`. */
  const Lowercase: string := Run('a', 26)
  /** `string.ascii_uppercase`. */
  const Uppercase: string := Run('A', 26)
  /** `string.digits`. */
  const DigitChars: string := Run('0', 10)
  /** `string.ascii_letters`. */
  const Letters: string := Lowercase + Uppercase
  /** `string.punctuation`: the four runs of printable ASCII that are neither letters, digits nor space. */
  const Punctuation: string := Run('!', 15) + Run(':', 7) + Run('[', 6) + Run('{', 4)

  /** The symbols `"!@#$%^&*()_+-=[]{}|;:,.<>?"` the password generators draw from. */
  const Symbols: string := "!@#$%^&*()_+-=[]{}|;:,.<>?"

  predicate IsPunct(c: char) {
    '!' <= c <= '/' || ':' <= c <= '@' || '[' <= c <= '`' || '{' <= c <= '~'
  }

  lemma LowercaseMembers(c: char)
    ensures c in Lowercase <==> IsLower(c)
  {
    InRun('a', 26, c);
  }

  lemma UppercaseMembers(c: char)
    ensures c in Uppercase <==> IsUpper(c)
  {
    InRun('A', 26, c);
  }

  lemma DigitsMembers(c: char)
    ensures c in DigitChars <==> IsDigit(c)
  {
    InRun('0', 10, c);
  }

  lemma LettersMembers(c: char)
    ensures c in Letters <==> IsLetter(c)
  {
    LowercaseMembers(c);
    UppercaseMembers(c);
  }

  lemma PunctuationMembers(c: char)
    ensures c in Punctuation <==> IsPunct(c)
  {
    InRun('!', 15, c);
    InRun(':', 7, c);
    InRun('[', 6, c);
    InRun('{', 4, c);
  }

  /** Every symbol is punctuation, so none is a letter or a digit. */
  lemma SymbolsArePunct(c: char)
    requires c in Symbols
    ensures IsPunct(c) && !IsAlnum(c)
  {
    var i :| 0 <= i < |Symbols| && Symbols[i] == c;
    if i < 13 {
      SymbolsLow(i);
    } else {
      SymbolsHigh(i);
    }
  }

  lemma SymbolsLow(i: nat)
    requires i < 13
    ensures IsPunct(Symbols[i]) && !IsAlnum(Symbols[i])
  {
  }

  lemma SymbolsHigh(i: nat)
    requires 13 <= i < 26
    ensures IsPunct(Symbols[i]) && !IsAlnum(Symbols[i])
  {
  }

  /** Whether a password holds a character of each class, as `any(...)` tests it. */
  predicate HasLower(p: string) { exists i :: 0 <= i < |p| && IsLower(p[i]) }
  predicate HasUpper(p: string) { exists i :: 0 <= i < |p| && IsUpper(p[i]) }
  predicate HasDigit(p: string) { exists i :: 0 <= i < |p| && IsDigit(p[i]) }
  predicate HasSymbol(p: string) { exists i :: 0 <= i < |p| && p[i] in Symbols }

  /** A class present before the shuffle is present after it. */
  lemma ShuffleKeepsClasses(x: string, draw: Source, k: nat)
    ensures var y := Shuffled(x, draw, k);
      (HasLower(x) <==> HasLower(y)) && (HasUpper(x) <==> HasUpper(y))
      && (HasDigit(x) <==> HasDigit(y)) && (HasSymbol(x) <==> HasSymbol(y))
  {
    var y := Shuffled(x, draw, k);
    forall c | c in x || c in y
      ensures c in x <==> c in y
    {
      ShuffledMembers(x, draw, k, c);
    }
    assert forall i :: 0 <= i < |x| ==> x[i] in y;
    assert forall i :: 0 <= i < |y| ==> y[i] in x;
  }
}
