/**
 * The hangman game of `045_project/hangman.py`, whose rules
 * `005_project/hangman.py` repeats with another word list and another
 * blank.  A round keeps the letters of the word still to be found, the
 * letters used and the tries left; the player's lines are an input
 * sequence, and the game stops early when that sequence runs out.
 */
module Hangman {
  import opened Wrappers
  import opened Text
  import opened Chance

  /** The tries a game starts with. */
  const MaxTries: int := 6

  /** `set(word)`. */
  function Letters(word: string): set<char> {
    set c | c in word
  }

  /** The three variables `play_game` updates. */
  datatype State = State(wordLetters: set<char>, used: set<char>, tries: int)

  function Start(word: string): State {
    State(Letters(word), {}, MaxTries)
  }

  /** `guess in alphabet - used_letters`: one lower-case letter not used yet. */
  predicate Fresh(s: State, guess: string) {
    |guess| == 1 && IsLower(guess[0]) && guess[0] !in s.used
  }

  /** One pass of the loop body with the lowered guess. */
  function Step(s: State, guess: string): State {
    if Fresh(s, guess) then
      var c := guess[0];
      if c in s.wordLetters then State(s.wordLetters - {c}, s.used + {c}, s.tries)
      else State(s.wordLetters, s.used + {c}, s.tries - 1)
    else s
  }

  /** The loop condition fails: every letter found, or no try left. */
  predicate Over(s: State) {
    s.wordLetters == {} || s.tries <= 0
  }

  /** The loop run on the player's lines until the game is over or the lines run out. */
  function Run(s: State, lines: seq<string>): State
    decreases |lines|
  {
    if Over(s) || lines == [] then s else Run(Step(s, Lower(lines[0])), lines[1..])
  }

  /**
   * What the loop keeps: the letters to find are those of the word not used,
   * only lower-case letters are used, each used letter outside the word cost
   * one try, and a game with every letter found still has a try.
   */
  ghost predicate Inv(word: string, s: State) {
    && s.wordLetters == Letters(word) - s.used
    && (forall c :: c in s.used ==> IsLower(c))
    && s.tries == MaxTries - |s.used - Letters(word)|
    && 0 <= s.tries
    && (s.wordLetters == {} ==> s.tries > 0)
  }

  lemma StartInv(word: string)
    ensures Inv(word, Start(word))
  {
    assert Start(word).used - Letters(word) == {};
  }

  /** A pass of the loop keeps the invariant. */
  lemma StepKeepsInv(word: string, s: State, guess: string)
    requires Inv(word, s) && !Over(s)
    ensures Inv(word, Step(s, guess))
  {
    if Fresh(s, guess) {
      var c, L := guess[0], Letters(word);
      if c in s.wordLetters {
        assert (s.used + {c}) - L == s.used - L;
      } else {
        assert (s.used + {c}) - L == (s.used - L) + {c};
        assert c !in s.used - L;
      }
    }
  }

  /**
   * A used, non-letter or longer guess changes nothing; a fresh letter is
   * added to the used ones and either is found or costs exactly one try.
   */
  lemma StepEffect(word: string, s: State, guess: string)
    requires Inv(word, s)
    ensures !Fresh(s, guess) ==> Step(s, guess) == s
    ensures Fresh(s, guess) ==> var r := Step(s, guess);
      r.used == s.used + {guess[0]} && |r.used| == |s.used| + 1
      && (guess[0] in Letters(word) <==> r.tries == s.tries)
      && (guess[0] in Letters(word) <==> |r.wordLetters| == |s.wordLetters| - 1)
      && (guess[0] !in Letters(word) <==> r.tries == s.tries - 1)
  {
    if Fresh(s, guess) {
      var c := guess[0];
      if c in s.wordLetters {
        assert s.wordLetters == (s.wordLetters - {c}) + {c};
      }
    }
  }

  /** The invariant holds wherever the loop stops. */
  lemma {:induction false} RunKeepsInv(word: string, s: State, lines: seq<string>)
    requires Inv(word, s)
    ensures Inv(word, Run(s, lines))
    decreases |lines|
  {
    if !Over(s) && lines != [] {
      StepKeepsInv(word, s, Lower(lines[0]));
      RunKeepsInv(word, Step(s, Lower(lines[0])), lines[1..]);
    }
  }

  /** `stages[tries]` of a seven-stage list, Python's negative indices included; `None` is an `IndexError`. */
  function StageIndex(tries: int): (r: Option<nat>)
    ensures r.Some? <==> -7 <= tries < 7
    ensures r.Some? ==> r.value < 7 && (r.value == tries || r.value == tries + 7)
  {
    if 0 <= tries < 7 then Some(tries)
    else if -7 <= tries < 0 then Some(tries + 7)
    else None
  }

  /** Under the invariant `display_hangman(tries)` shows the stage of that many tries. */
  lemma TriesInRange(word: string, s: State)
    requires Inv(word, s)
    ensures 0 <= s.tries <= MaxTries
    ensures StageIndex(s.tries) == Some(s.tries)
  {
  }

  /** `word_list`: each letter of the word when used, the blank otherwise. */
  function Mask(word: string, used: set<char>, blank: char): (r: string)
    ensures |r| == |word|
    ensures forall i :: 0 <= i < |word| ==> r[i] == if word[i] in used then word[i] else blank
  {
    seq(|word|, i requires 0 <= i < |word| => if word[i] in used then word[i] else blank)
  }

  /** The mask is the word itself exactly when every letter has been used. */
  lemma MaskComplete(word: string, used: set<char>, blank: char)
    requires blank !in word
    ensures Mask(word, used, blank) == word <==> Letters(word) <= used
    ensures blank in Mask(word, used, blank) <==> !(Letters(word) <= used)
  {
    var m := Mask(word, used, blank);
    if !(Letters(word) <= used) {
      var c :| c in Letters(word) && c !in used;
      var i :| 0 <= i < |word| && word[i] == c;
      assert m[i] == blank;
    } else {
      assert forall i :: 0 <= i < |word| ==> m[i] == word[i];
    }
  }

  /**
   * The report at the end: "you died" when no try is left, congratulations
   * otherwise, and the latter exactly when every letter was found, so the
   * mask then shows the whole word.
   */
  lemma WonIffFound(word: string, s: State, blank: char)
    requires Inv(word, s) && Over(s) && blank !in word
    ensures s.tries != 0 <==> s.wordLetters == {}
    ensures s.tries != 0 <==> Mask(word, s.used, blank) == word
  {
    MaskComplete(word, s.used, blank);
    if s.wordLetters != {} {
      var c :| c in s.wordLetters;
      assert !(Letters(word) <= s.used);
    } else {
      forall c | c in Letters(word)
        ensures c in s.used
      {
        assert c !in Letters(word) - s.used;
      }
    }
  }

  /** The outcome `play_game` reports: `None` while the game is not over. */
  function Outcome(s: State): Option<bool> {
    if Over(s) then Some(s.tries != 0) else None
  }

  /** One pass of the loop, seen from line `i` on. */
  lemma RunFrom(result: State, s: State, lines: seq<string>, i: nat)
    requires i < |lines| && !Over(s) && result == Run(s, lines[i..])
    ensures result == Run(Step(s, Lower(lines[i])), lines[i + 1..])
  {
    assert lines[i..][0] == lines[i] && lines[i..][1..] == lines[i + 1..];
  }

  /**
   * The game loop of `play_game` on a chosen word and the player's lines:
   * the final state is the run from the start, and the result is won, lost,
   * or `None` when the lines ran out first.
   */
  method GuessLoop(word: string, lines: seq<string>) returns (final: State, won: Option<bool>)
    ensures final == Run(Start(word), lines)
    ensures Inv(word, final)
    ensures won == Outcome(final)
  {
    var wordLetters := Letters(word);
    var usedLetters: set<char> := {};
    var tries := MaxTries;
    StartInv(word);
    ghost var result := Run(Start(word), lines);
    ghost var st := Start(word);
    var i := 0;
    while |wordLetters| > 0 && tries > 0 && i < |lines|
      invariant 0 <= i <= |lines|
      invariant st == State(wordLetters, usedLetters, tries)
      invariant result == Run(st, lines[i..])
      invariant Inv(word, st)
      decreases |lines| - i
    {
      var guess := Lower(lines[i]);
      RunFrom(result, st, lines, i);
      StepKeepsInv(word, st, guess);
      ghost var next := Step(st, guess);
      if |guess| == 1 && IsLower(guess[0]) && guess[0] !in usedLetters {
        usedLetters := usedLetters + {guess[0]};
        if guess[0] in wordLetters {
          wordLetters := wordLetters - {guess[0]};
        } else {
          tries := tries - 1;
        }
      }
      st := next;
      i := i + 1;
    }
    final := State(wordLetters, usedLetters, tries);
    if |wordLetters| > 0 && tries > 0 {
      assert lines[i..] == [];
      won := None;
    } else if tries == 0 {
      won := Some(false);
    } else {
      won := Some(true);
    }
  }

  /** What stands for a letter not yet guessed. */
  const Blank: char := '_'

  /**
   * `play_game`: a word drawn from the list, then the loop.  A reported win
   * is one where the word shows in full.
   */
  method PlayGame(draw: Source, lines: seq<string>) returns (word: string, final: State, won: Option<bool>)
    ensures word == GetWord(draw)
    ensures final == Run(Start(word), lines) && won == Outcome(final)
    ensures won.Some? ==> (won.value <==> Mask(word, final.used, Blank) == word)
  {
    word := GetWord(draw);
    final, won := GuessLoop(word, lines);
    if won.Some? {
      WordsLower();
      LowerWordNoBlank(Words, word, Blank);
      WonIffFound(word, final, Blank);
    }
  }

  /** A blank that is no lower-case letter never occurs in a word of an all-lower-case list. */
  lemma LowerWordNoBlank(ws: seq<string>, word: string, blank: char)
    requires AllLower(ws) && word in ws && !IsLower(blank)
    ensures blank !in word
  {
    var i :| 0 <= i < |ws| && ws[i] == word;
    assert forall j :: 0 <= j < |word| ==> IsLower(word[j]);
  }

  /** The word list of `get_word`. */
  const Words: seq<string> := ["python", "programming", "computer", "algorithm", "database",
                               "network", "software", "developer", "keyboard", "internet"]

  /** `get_word` with the first draw. */
  function GetWord(draw: Source): (r: string)
    ensures r in Words
  {
    var i :| 0 <= i < |Words| && Choice(draw, 0, Words) == Words[i];
    Choice(draw, 0, Words)
  }

  /** Every word of a list is made of lower-case letters only, so a blank never occurs in one. */
  ghost predicate AllLower(ws: seq<string>) {
    forall i, j :: 0 <= i < |ws| && 0 <= j < |ws[i]| ==> IsLower(ws[i][j])
  }

  lemma WordsLower()
    ensures AllLower(Words)
  {
    assert AllLower(Words[..5]);
    assert AllLower(Words[5..]);
    assert Words == Words[..5] + Words[5..];
  }
}
