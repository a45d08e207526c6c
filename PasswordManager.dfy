/**
 * The password generator and the strength check of
 * `040_project/password_manager.py`.  The random numbers `secrets` hands out
 * are an input (`Chance.Source`); the encrypted store is not part of this
 * model.
 */
module PasswordManager {
  import opened Wrappers
  import opened Text
  import opened Charsets
  import opened Chance

  /** The characters `generate` fills with: letters, digits and, when asked for, symbols. */
  function Pool(useSymbols: bool): (r: string)
    ensures r != []
  {
    var base := Lowercase + Uppercase + DigitChars;
    if useSymbols then base + Symbols else base
  }

  /** The pool holds exactly the ASCII letters and digits, and the symbols when they are used. */
  lemma PoolMembers(useSymbols: bool, c: char)
    ensures c in Pool(useSymbols) <==> IsAlnum(c) || (useSymbols && c in Symbols)
  {
    LowercaseMembers(c);
    UppercaseMembers(c);
    DigitsMembers(c);
  }

  /** The characters `generate` puts in before filling, made with the first draws. */
  function Forced(useSymbols: bool, draw: Source): (r: string)
    ensures |r| == if useSymbols then 4 else 3
  {
    var base := [Choice(draw, 0, Lowercase), Choice(draw, 1, Uppercase), Choice(draw, 2, DigitChars)];
    if useSymbols then base + [Choice(draw, 3, Symbols)] else base
  }

  /** The characters before the shuffle: the forced ones, then pool characters up to `length`. */
  function Unshuffled(length: nat, useSymbols: bool, draw: Source): (r: string)
    requires length >= 8
    ensures |r| == length
  {
    var f := Forced(useSymbols, draw);
    f + Choices(draw, |f|, Pool(useSymbols), length - |f|)
  }

  /** The password `generate(length, use_symbols)` returns when `length` is at least 8. */
  function Generated(length: nat, useSymbols: bool, draw: Source): string
    requires length >= 8
  {
    Shuffled(Unshuffled(length, useSymbols, draw), draw, length)
  }

  /**
   * `PasswordGenerator.generate`: `None` is the `ValueError` for a length
   * below 8.  Otherwise one character of each required kind, then random pool
   * characters up to the length, then a shuffle.
   */
  method Generate(length: int, useSymbols: bool, draw: Source) returns (r: Option<string>)
    ensures length < 8 ==> r.None?
    ensures length >= 8 ==> r == Some(Generated(length, useSymbols, draw))
  {
    if length < 8 {
      return None;
    }
    var chars := Lowercase + Uppercase + DigitChars;
    if useSymbols {
      chars := chars + Symbols;
    }
    var password := [Choice(draw, 0, Lowercase), Choice(draw, 1, Uppercase), Choice(draw, 2, DigitChars)];
    if useSymbols {
      password := password + [Choice(draw, 3, Symbols)];
    }
    assert password == Forced(useSymbols, draw) && chars == Pool(useSymbols);
    password := ChooseUpTo(password, chars, length, draw);
    var shuffled := Shuffle(password, draw, |password|);
    return Some(shuffled);
  }

  /** Before the shuffle every character is from the pool. */
  lemma UnshuffledInPool(length: nat, useSymbols: bool, draw: Source)
    requires length >= 8
    ensures var x := Unshuffled(length, useSymbols, draw);
      forall i :: 0 <= i < |x| ==> x[i] in Pool(useSymbols)
  {
    var f := Forced(useSymbols, draw);
    var x := Unshuffled(length, useSymbols, draw);
    forall i | 0 <= i < |x|
      ensures x[i] in Pool(useSymbols)
    {
      if i >= |f| {
        assert x[i] == Choices(draw, |f|, Pool(useSymbols), length - |f|)[i - |f|];
      } else {
        PoolMembers(useSymbols, x[i]);
        LowercaseMembers(x[i]);
        UppercaseMembers(x[i]);
        DigitsMembers(x[i]);
      }
    }
  }

  /** Before the shuffle the forced characters give the three classes, and a symbol when asked for. */
  lemma UnshuffledClasses(length: nat, useSymbols: bool, draw: Source)
    requires length >= 8
    ensures var x := Unshuffled(length, useSymbols, draw);
      HasLower(x) && HasUpper(x) && HasDigit(x) && (useSymbols ==> HasSymbol(x))
  {
    var x := Unshuffled(length, useSymbols, draw);
    LowercaseMembers(x[0]);
    UppercaseMembers(x[1]);
    DigitsMembers(x[2]);
    if useSymbols {
      assert x[3] in Symbols;
    }
  }

  /** Without symbols in the pool none can appear. */
  lemma UnshuffledNoSymbol(length: nat, draw: Source)
    requires length >= 8
    ensures !HasSymbol(Unshuffled(length, false, draw))
  {
    var x := Unshuffled(length, false, draw);
    UnshuffledInPool(length, false, draw);
    forall i | 0 <= i < |x|
      ensures x[i] !in Symbols
    {
      PoolMembers(false, x[i]);
      if x[i] in Symbols {
        SymbolsArePunct(x[i]);
      }
    }
  }

  /**
   * A generated password has the requested length, uses pool characters only,
   * holds a lowercase letter, an uppercase letter and a digit, a symbol when
   * symbols are used and none otherwise.
   */
  lemma GeneratedShape(length: nat, useSymbols: bool, draw: Source)
    requires length >= 8
    ensures var g := Generated(length, useSymbols, draw);
      |g| == length
      && (forall i :: 0 <= i < |g| ==> g[i] in Pool(useSymbols))
      && HasLower(g) && HasUpper(g) && HasDigit(g)
      && (useSymbols <==> HasSymbol(g))
  {
    var x := Unshuffled(length, useSymbols, draw);
    var g := Generated(length, useSymbols, draw);
    UnshuffledInPool(length, useSymbols, draw);
    UnshuffledClasses(length, useSymbols, draw);
    if !useSymbols {
      UnshuffledNoSymbol(length, draw);
    }
    ShuffleKeepsClasses(x, draw, length);
    forall i | 0 <= i < |g|
      ensures g[i] in Pool(useSymbols)
    {
      ShuffledMembers(x, draw, length, g[i]);
    }
  }

  /** One entry of the checks list: whether it passed, and its name. */
  datatype Check = Check(passed: bool, name: string)

  /** The four checks of `check_password_strength`, in their order. */
  function Checks(p: string): seq<Check> {
    [Check(HasLower(p), "lowercase"), Check(HasUpper(p), "uppercase"),
     Check(HasDigit(p), "numbers"), Check(HasSymbol(p), "symbols")]
  }

  /** The names of the failed checks, in check order. */
  function Missing(cs: seq<Check>): (r: seq<string>)
    ensures |r| <= |cs|
  {
    if cs == [] then [] else (if cs[0].passed then [] else [cs[0].name]) + Missing(cs[1..])
  }

  /** The number of passed checks. */
  function Score(cs: seq<Check>): (r: nat)
    ensures r + |Missing(cs)| == |cs|
  {
    if cs == [] then 0 else (if cs[0].passed then 1 else 0) + Score(cs[1..])
  }

  /** Four checks, written out. */
  lemma FourChecks(cs: seq<Check>)
    requires |cs| == 4
    ensures Score(cs) == (if cs[0].passed then 1 else 0) + (if cs[1].passed then 1 else 0)
                       + (if cs[2].passed then 1 else 0) + (if cs[3].passed then 1 else 0)
    ensures Missing(cs) == (if cs[0].passed then [] else [cs[0].name]) + (if cs[1].passed then [] else [cs[1].name])
                         + (if cs[2].passed then [] else [cs[2].name]) + (if cs[3].passed then [] else [cs[3].name])
  {
    var c1 := cs[1..];
    var c2 := c1[1..];
    var c3 := c2[1..];
    assert c3[1..] == [];
    assert Missing(c3) == (if cs[3].passed then [] else [cs[3].name]);
    assert Missing(c2) == (if cs[2].passed then [] else [cs[2].name]) + Missing(c3);
    assert Missing(c1) == (if cs[1].passed then [] else [cs[1].name]) + Missing(c2);
  }

  /** `check_password_strength`. */
  function CheckStrength(p: string): (r: string)
    ensures |p| < 8 ==> r == "Weak: Too short"
  {
    if |p| < 8 then "Weak: Too short"
    else
      var cs := Checks(p);
      var score := Score(cs);
      if score == 4 then "Strong"
      else if score == 3 then "Moderate: Missing " + Missing(cs)[0]
      else "Weak: Missing " + Join(", ", Missing(cs))
  }

  /** "Strong" exactly for passwords of at least 8 characters with all four classes. */
  lemma StrongIff(p: string)
    ensures CheckStrength(p) == "Strong" <==> |p| >= 8 && HasLower(p) && HasUpper(p) && HasDigit(p) && HasSymbol(p)
  {
    var cs := Checks(p);
    FourChecks(cs);
    if |p| >= 8 && Score(cs) == 3 {
      assert |CheckStrength(p)| >= 18;
    } else if |p| >= 8 && Score(cs) < 3 {
      assert |CheckStrength(p)| >= 14;
    }
    assert Score(cs) == 4 <==> HasLower(p) && HasUpper(p) && HasDigit(p) && HasSymbol(p);
  }

  /** The verdict starts with "Weak" exactly when the password is short or passes two checks or fewer. */
  lemma WeakIff(p: string)
    ensures var r := CheckStrength(p);
      (|r| >= 4 && r[..4] == "Weak") <==> |p| < 8 || Score(Checks(p)) <= 2
  {
    var r := CheckStrength(p);
    if |p| >= 8 && Score(Checks(p)) == 3 {
      assert r[..4] == "Mode";
    } else if |p| >= 8 && Score(Checks(p)) == 4 {
      assert r[..4] == "Stro";
    } else if |p| >= 8 {
      assert r[..4] == "Weak" by {
        assert r == "Weak: Missing " + Join(", ", Missing(Checks(p)));
      }
    }
  }

  /** With one check failed, the verdict names that check. */
  lemma ModerateNamesMissing(p: string, k: nat)
    requires |p| >= 8 && k < 4 && !Checks(p)[k].passed
    requires forall j :: 0 <= j < 4 && j != k ==> Checks(p)[j].passed
    ensures CheckStrength(p) == "Moderate: Missing " + Checks(p)[k].name
  {
    var cs := Checks(p);
    FourChecks(cs);
  }

  /** A long enough password lacking only symbols is missing just those. */
  lemma OnlySymbolsMissing(p: string)
    requires |p| >= 8 && HasLower(p) && HasUpper(p) && HasDigit(p) && !HasSymbol(p)
    ensures CheckStrength(p) == "Moderate: Missing " + "symbols"
  {
    FourChecks(Checks(p));
  }

  /** Every `generate(n, True)` password rates "Strong". */
  lemma GeneratedIsStrong(length: nat, draw: Source)
    requires length >= 8
    ensures CheckStrength(Generated(length, true, draw)) == "Strong"
  {
    GeneratedShape(length, true, draw);
    StrongIff(Generated(length, true, draw));
  }

  /** Every `generate(n, False)` password rates "Moderate: Missing symbols". */
  lemma GeneratedWithoutSymbols(length: nat, draw: Source)
    requires length >= 8
    ensures CheckStrength(Generated(length, false, draw)) == "Moderate: Missing " + "symbols"
  {
    GeneratedShape(length, false, draw);
    OnlySymbolsMissing(Generated(length, false, draw));
  }
}
