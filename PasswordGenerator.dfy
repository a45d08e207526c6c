/**
 * `PasswordGenerator` of `025_project/password_generator.py`: a password of
 * lowercase letters and the enabled character sets, with one character
 * forced per enabled set, and a strength score with its feedback.  The
 * random numbers are an input (`Chance.Source`).
 */
module PasswordGenerator {
  import opened Text
  import opened Charsets
  import opened Chance

  /** `characters`: the lowercase letters, then each enabled set in the order upper, digits, symbols. */
  function Pool(uppercase: bool, numbers: bool, symbols: bool): (r: string)
    ensures r != []
  {
    var a := Lowercase;
    var b := if uppercase then a + Uppercase else a;
    var c := if numbers then b + DigitChars else b;
    if symbols then c + Symbols else c
  }

  /** The pool holds the lowercase letters and exactly the enabled classes. */
  lemma PoolMembers(uppercase: bool, numbers: bool, symbols: bool, c: char)
    ensures c in Pool(uppercase, numbers, symbols) <==>
      IsLower(c) || (uppercase && IsUpper(c)) || (numbers && IsDigit(c)) || (symbols && c in Symbols)
  {
    LowercaseMembers(c);
    UppercaseMembers(c);
    DigitsMembers(c);
    if c in Symbols {
      SymbolsArePunct(c);
    }
  }

  /** The number of enabled optional sets. */
  function Enabled(uppercase: bool, numbers: bool, symbols: bool): nat {
    (if uppercase then 1 else 0) + (if numbers then 1 else 0) + (if symbols then 1 else 0)
  }

  /** One character per enabled set, made with the first draws in the order upper, digits, symbols. */
  function Forced(uppercase: bool, numbers: bool, symbols: bool, draw: Source): (r: string)
    ensures |r| == Enabled(uppercase, numbers, symbols)
  {
    var a := if uppercase then [Choice(draw, 0, Uppercase)] else [];
    var b := if numbers then a + [Choice(draw, |a|, DigitChars)] else a;
    if symbols then b + [Choice(draw, |b|, Symbols)] else b
  }

  /** The password before the shuffle: the forced characters, then pool characters up to `length`. */
  function Unshuffled(length: int, uppercase: bool, numbers: bool, symbols: bool, draw: Source): (r: string)
    ensures |r| == if length > Enabled(uppercase, numbers, symbols) then length else Enabled(uppercase, numbers, symbols)
  {
    var f := Forced(uppercase, numbers, symbols, draw);
    if |f| >= length then f else f + Choices(draw, |f|, Pool(uppercase, numbers, symbols), length - |f|)
  }

  /** The password `generate_password` returns. */
  function Generated(length: int, uppercase: bool, numbers: bool, symbols: bool, draw: Source): string {
    var x := Unshuffled(length, uppercase, numbers, symbols, draw);
    Shuffled(x, draw, |x|)
  }

  /** `generate_password`: build the pool, force one per enabled set, fill up, shuffle. */
  method GeneratePassword(length: int, uppercase: bool, numbers: bool, symbols: bool, draw: Source)
    returns (password: string)
    ensures password == Generated(length, uppercase, numbers, symbols, draw)
  {
    var characters := Lowercase;
    if uppercase {
      characters := characters + Uppercase;
    }
    if numbers {
      characters := characters + DigitChars;
    }
    if symbols {
      characters := characters + Symbols;
    }
    assert characters == Pool(uppercase, numbers, symbols);
    var chosen: string := [];
    if uppercase {
      chosen := chosen + [Choice(draw, |chosen|, Uppercase)];
    }
    ghost var a := chosen;
    assert a == if uppercase then [Choice(draw, 0, Uppercase)] else [];
    if numbers {
      chosen := chosen + [Choice(draw, |chosen|, DigitChars)];
    }
    ghost var b := chosen;
    assert b == if numbers then a + [Choice(draw, |a|, DigitChars)] else a;
    if symbols {
      chosen := chosen + [Choice(draw, |chosen|, Symbols)];
    }
    assert chosen == if symbols then b + [Choice(draw, |b|, Symbols)] else b;
    chosen := ChooseUpTo(chosen, characters, length, draw);
    assert chosen == Unshuffled(length, uppercase, numbers, symbols, draw);
    password := Shuffle(chosen, draw, |chosen|);
  }

  /** Every character before the shuffle is from the pool. */
  lemma UnshuffledInPool(length: int, uppercase: bool, numbers: bool, symbols: bool, draw: Source)
    ensures var x := Unshuffled(length, uppercase, numbers, symbols, draw);
      forall i :: 0 <= i < |x| ==> x[i] in Pool(uppercase, numbers, symbols)
  {
    var f := Forced(uppercase, numbers, symbols, draw);
    var x := Unshuffled(length, uppercase, numbers, symbols, draw);
    forall i | 0 <= i < |x|
      ensures x[i] in Pool(uppercase, numbers, symbols)
    {
      if i >= |f| {
        assert x[i] == Choices(draw, |f|, Pool(uppercase, numbers, symbols), length - |f|)[i - |f|];
      } else {
        ForcedInPool(uppercase, numbers, symbols, draw, i);
      }
    }
  }

  lemma ForcedInPool(uppercase: bool, numbers: bool, symbols: bool, draw: Source, i: nat)
    requires i < |Forced(uppercase, numbers, symbols, draw)|
    ensures Forced(uppercase, numbers, symbols, draw)[i] in Pool(uppercase, numbers, symbols)
  {
    var c := Forced(uppercase, numbers, symbols, draw)[i];
    ForcedClasses(uppercase, numbers, symbols, draw);
    PoolMembers(uppercase, numbers, symbols, c);
    UppercaseMembers(c);
    DigitsMembers(c);
  }

  /** The forced characters: one of each enabled set, nothing else. */
  lemma ForcedClasses(uppercase: bool, numbers: bool, symbols: bool, draw: Source)
    ensures var f := Forced(uppercase, numbers, symbols, draw);
      (forall i :: 0 <= i < |f| ==> f[i] in Uppercase || f[i] in DigitChars || f[i] in Symbols)
      && (uppercase ==> HasUpper(f)) && (numbers ==> HasDigit(f)) && (symbols ==> HasSymbol(f))
  {
    var f := Forced(uppercase, numbers, symbols, draw);
    var a := if uppercase then [Choice(draw, 0, Uppercase)] else [];
    var b := if numbers then a + [Choice(draw, |a|, DigitChars)] else a;
    if uppercase {
      UppercaseMembers(f[0]);
    }
    if numbers {
      DigitsMembers(f[|a|]);
    }
    if symbols {
      assert f[|b|] in Symbols;
    }
  }

  /** Before the shuffle each enabled set appears, through its forced character. */
  lemma UnshuffledClasses(length: int, uppercase: bool, numbers: bool, symbols: bool, draw: Source)
    ensures var x := Unshuffled(length, uppercase, numbers, symbols, draw);
      (uppercase ==> HasUpper(x)) && (numbers ==> HasDigit(x)) && (symbols ==> HasSymbol(x))
  {
    var x := Unshuffled(length, uppercase, numbers, symbols, draw);
    var f := Forced(uppercase, numbers, symbols, draw);
    ForcedClasses(uppercase, numbers, symbols, draw);
    assert forall i :: 0 <= i < |f| ==> x[i] == f[i];
  }

  /**
   * The length is `max(length, number of enabled sets)`, every character is
   * from the pool, and each enabled set appears.
   */
  lemma GeneratedShape(length: int, uppercase: bool, numbers: bool, symbols: bool, draw: Source)
    ensures var g := Generated(length, uppercase, numbers, symbols, draw);
      var e := Enabled(uppercase, numbers, symbols);
      |g| == (if length > e then length else e)
      && (forall i :: 0 <= i < |g| ==> g[i] in Pool(uppercase, numbers, symbols))
      && (uppercase ==> HasUpper(g)) && (numbers ==> HasDigit(g)) && (symbols ==> HasSymbol(g))
  {
    var x := Unshuffled(length, uppercase, numbers, symbols, draw);
    var g := Generated(length, uppercase, numbers, symbols, draw);
    UnshuffledClasses(length, uppercase, numbers, symbols, draw);
    ShuffleKeepsClasses(x, draw, |x|);
    GeneratedInPool(length, uppercase, numbers, symbols, draw);
  }

  /** After the shuffle every character is still from the pool. */
  lemma GeneratedInPool(length: int, uppercase: bool, numbers: bool, symbols: bool, draw: Source)
    ensures var g := Generated(length, uppercase, numbers, symbols, draw);
      forall i :: 0 <= i < |g| ==> g[i] in Pool(uppercase, numbers, symbols)
  {
    var x := Unshuffled(length, uppercase, numbers, symbols, draw);
    var g := Generated(length, uppercase, numbers, symbols, draw);
    UnshuffledInPool(length, uppercase, numbers, symbols, draw);
    forall i | 0 <= i < |g|
      ensures g[i] in Pool(uppercase, numbers, symbols)
    {
      ShuffledMembers(x, draw, |x|, g[i]);
    }
  }

  /** The characters of the regular expression `[!@#$%^&*()_+\-=\[\]{}|;:,.<>?]`, in its order. */
  predicate InSymbolClass(c: char) {
    c == '!' || c == '@' || c == '#' || c == '$' || c == '%' || c == '^' || c == '&' || c == '*'
    || c == '(' || c == ')' || c == '_' || c == '+' || c == '-' || c == '=' || c == '[' || c == ']'
    || c == '{' || c == '}' || c == '|' || c == ';' || c == ':' || c == ',' || c == '.' || c == '<'
    || c == '>' || c == '?'
  }

  /** The regular expression's class is exactly the generator's symbol set. */
  lemma SymbolClassIsSymbols(c: char)
    ensures InSymbolClass(c) <==> c in Symbols
  {
    if c in Symbols {
      var i :| 0 <= i < |Symbols| && Symbols[i] == c;
      if i < 13 {
        SymbolsLowClass(i);
      } else {
        SymbolsHighClass(i);
      }
    }
    if InSymbolClass(c) {
      SymbolClassInSymbols(c);
    }
  }

  lemma SymbolsLowClass(i: nat)
    requires i < 13
    ensures InSymbolClass(Symbols[i])
  {
  }

  lemma SymbolsHighClass(i: nat)
    requires 13 <= i < 26
    ensures InSymbolClass(Symbols[i])
  {
  }

  lemma SymbolClassInSymbols(c: char)
    requires InSymbolClass(c)
    ensures c in Symbols
  {
    if c == '!' || c == '@' || c == '#' || c == '$' || c == '%' || c == '^' || c == '&' || c == '*'
       || c == '(' || c == ')' || c == '_' || c == '+' || c == '-' {
      LowClassInSymbols(c);
    } else {
      HighClassInSymbols(c);
    }
  }

  lemma LowClassInSymbols(c: char)
    requires c == '!' || c == '@' || c == '#' || c == '$' || c == '%' || c == '^' || c == '&' || c == '*'
             || c == '(' || c == ')' || c == '_' || c == '+' || c == '-'
    ensures c in Symbols
  {
    var k := if c == '!' then 0 else if c == '@' then 1 else if c == '#' then 2 else if c == '$' then 3
      else if c == '%' then 4 else if c == '^' then 5 else if c == '&' then 6 else if c == '*' then 7
      else if c == '(' then 8 else if c == ')' then 9 else if c == '_' then 10 else if c == '+' then 11
      else 12;
    assert Symbols[k] == c;
  }

  lemma HighClassInSymbols(c: char)
    requires c == '=' || c == '[' || c == ']' || c == '{' || c == '}' || c == '|' || c == ';' || c == ':'
             || c == ',' || c == '.' || c == '<' || c == '>' || c == '?'
    ensures c in Symbols
  {
    var k := if c == '=' then 13 else if c == '[' then 14 else if c == ']' then 15
      else if c == '{' then 16 else if c == '}' then 17 else if c == '|' then 18 else if c == ';' then 19
      else if c == ':' then 20 else if c == ',' then 21 else if c == '.' then 22 else if c == '<' then 23
      else if c == '>' then 24 else 25;
    assert Symbols[k] == c;
  }

  /** `re.search(r'[!@#...]', password)`. */
  predicate HasSymbolClass(p: string) { exists i :: 0 <= i < |p| && InSymbolClass(p[i]) }

  /** Points for the length: none below 8, one for 8 to 11, two from 12. */
  function LengthPoints(n: nat): (r: nat)
    ensures r <= 2
  {
    if n < 8 then 0 else if n >= 12 then 2 else 1
  }

  /** The score before the bonus: length points and one per class present. */
  function BaseScore(p: string): (r: nat)
    ensures r <= 6
  {
    LengthPoints(|p|) + (if HasUpper(p) then 1 else 0) + (if HasLower(p) then 1 else 0)
    + (if HasDigit(p) then 1 else 0) + (if HasSymbolClass(p) then 1 else 0)
  }

  /** Whether the complexity bonus applies. */
  predicate Bonus(p: string) {
    BaseScore(p) >= 4 && |p| >= 12
  }

  /** The score `check_password_strength` computes. */
  function StrengthScore(p: string): int {
    if Bonus(p) then BaseScore(p) + 1 else BaseScore(p)
  }

  /** The feedback line for the length, if any. */
  function LengthLines(n: nat): seq<string> {
    if n < 8 then ["Password is too short"] else if n >= 12 then ["Good length"] else []
  }

  /** `lines` with `advice` added when a check failed. */
  function Advise(lines: seq<string>, passed: bool, advice: string): seq<string> {
    if passed then lines else lines + [advice]
  }

  /** The feedback lines for the length and the four classes, in order. */
  function ClassLines(p: string): seq<string> {
    var u := Advise(LengthLines(|p|), HasUpper(p), "Add uppercase letters");
    var w := Advise(u, HasLower(p), "Add lowercase letters");
    var d := Advise(w, HasDigit(p), "Add numbers");
    Advise(d, HasSymbolClass(p), "Add special characters")
  }

  /** The feedback lines `check_password_strength` collects, in order. */
  function FeedbackLines(p: string): seq<string> {
    var s := ClassLines(p);
    if Bonus(p) then s + ["Excellent password!"]
    else if s == [] then ["Good password!"]
    else s
  }

  /** The score lies between 0 and 7. */
  lemma ScoreRange(p: string)
    ensures 0 <= StrengthScore(p) <= 7
  {
  }

  /** The top score 7 takes 12 characters and all four classes. */
  lemma TopScore(p: string)
    ensures StrengthScore(p) == 7 <==> |p| >= 12 && HasUpper(p) && HasLower(p) && HasDigit(p) && HasSymbolClass(p)
  {
  }

  /** Below 12 characters there is no bonus, so the score is at most 5. */
  lemma ShortScore(p: string)
    requires |p| < 12
    ensures StrengthScore(p) <= 5
  {
  }

  /** Some feedback line is always collected, so "Strong password!" is never the feedback. */
  lemma FeedbackNeverEmpty(p: string)
    ensures FeedbackLines(p) != []
  {
  }

  /**
   * A password generated with every option and at least 12 characters scores
   * at least 6 (the accompanying test asks for 4): two for the length, one each
   * for the forced upper case letter, digit and symbol, and the bonus.
   */
  lemma AllOptionsScore(length: int, draw: Source)
    requires length >= 12
    ensures var g := Generated(length, true, true, true, draw);
      |g| == length && HasUpper(g) && HasDigit(g) && HasSymbol(g) && StrengthScore(g) >= 6
  {
    var x := Unshuffled(length, true, true, true, draw);
    var g := Generated(length, true, true, true, draw);
    UnshuffledClasses(length, true, true, true, draw);
    ShuffleKeepsClasses(x, draw, |x|);
    var i :| 0 <= i < |g| && g[i] in Symbols;
    SymbolClassIsSymbols(g[i]);
  }

  /** `check_password_strength`: the score and the feedback joined by newlines. */
  method CheckPasswordStrength(password: string) returns (score: int, feedback: string)
    ensures score == StrengthScore(password)
    ensures feedback == if FeedbackLines(password) != [] then Join("\n", FeedbackLines(password)) else "Strong password!"
  {
    score := 0;
    var lines: seq<string> := [];
    if |password| < 8 {
      lines := lines + ["Password is too short"];
    } else if |password| >= 12 {
      score := score + 2;
      lines := lines + ["Good length"];
    } else {
      score := score + 1;
    }
    ghost var l := lines;
    assert score == LengthPoints(|password|) && l == LengthLines(|password|);
    if HasUpper(password) {
      score := score + 1;
    } else {
      lines := lines + ["Add uppercase letters"];
    }
    ghost var u := lines;
    assert u == Advise(l, HasUpper(password), "Add uppercase letters");
    ghost var su := LengthPoints(|password|) + (if HasUpper(password) then 1 else 0);
    assert score == su;
    if HasLower(password) {
      score := score + 1;
    } else {
      lines := lines + ["Add lowercase letters"];
    }
    ghost var w := lines;
    assert w == Advise(u, HasLower(password), "Add lowercase letters");
    ghost var sw := su + (if HasLower(password) then 1 else 0);
    assert score == sw;
    if HasDigit(password) {
      score := score + 1;
    } else {
      lines := lines + ["Add numbers"];
    }
    ghost var d := lines;
    assert d == Advise(w, HasDigit(password), "Add numbers");
    ghost var sd := sw + (if HasDigit(password) then 1 else 0);
    assert score == sd;
    if HasSymbolClass(password) {
      score := score + 1;
    } else {
      lines := lines + ["Add special characters"];
    }
    assert score == BaseScore(password) && lines == ClassLines(password);
    if score >= 4 && |password| >= 12 {
      score := score + 1;
      lines := lines + ["Excellent password!"];
    } else if lines == [] {
      lines := lines + ["Good password!"];
    }
    feedback := if lines != [] then Join("\n", lines) else "Strong password!";
  }
}
