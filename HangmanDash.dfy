/**
 * `005_project/hangman.py`: the rules of `Hangman` with its own, shorter
 * word list and `-` for a letter not yet guessed.
 */
module HangmanDash {
  import opened Wrappers
  import opened Chance
  import H = Hangman

  const Blank: char := '-'

  /** The word list of `get_word`. */
  const Words: seq<string> := ["python", "programming", "computer", "algorithm", "database", "network"]

  /** `get_word` with the first draw. */
  function GetWord(draw: Source): (r: string)
    ensures r in Words
  {
    var i :| 0 <= i < |Words| && Choice(draw, 0, Words) == Words[i];
    Choice(draw, 0, Words)
  }

  lemma WordsLower()
    ensures H.AllLower(Words)
  {
    assert H.AllLower(Words[..3]);
    assert H.AllLower(Words[3..]);
    assert Words == Words[..3] + Words[3..];
  }

  /** `play_hangman`: a word drawn from the list, then the same loop; a reported win shows the word in full. */
  method PlayHangman(draw: Source, lines: seq<string>) returns (word: string, final: H.State, won: Option<bool>)
    ensures word == GetWord(draw)
    ensures final == H.Run(H.Start(word), lines) && won == H.Outcome(final)
    ensures won.Some? ==> (won.value <==> H.Mask(word, final.used, Blank) == word)
  {
    word := GetWord(draw);
    final, won := H.GuessLoop(word, lines);
    if won.Some? {
      WordsLower();
      H.LowerWordNoBlank(Words, word, Blank);
      H.WonIffFound(word, final, Blank);
    }
  }
}
