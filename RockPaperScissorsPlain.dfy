/**
 * `038_project/rock_paper_scissors.py`: the same table and verdict as
 * `RockPaperScissors`, with "It's a tie!" for a tie and no scores.
 */
module RockPaperScissorsPlain {
  import opened Wrappers
  import R = RockPaperScissors

  const TieMessage: string := "It's a tie!"

  /** `determine_winner`; `None` is the `KeyError`. */
  function DetermineWinner(user: string, computer: string): (r: Option<string>)
    ensures r.Some? <==> R.Verdict(user, computer).Some?
    ensures r.Some? ==> r.value == R.Message(R.Verdict(user, computer).value, TieMessage)
  {
    match R.Verdict(user, computer)
    case None => None
    case Some(o) => Some(R.Message(o, TieMessage))
  }

  /**
   * On two valid choices the sentence is the tie one exactly when they are
   * equal, "You win!" exactly when the table maps the user's choice to the
   * computer's, and "Computer wins!" otherwise; swapping distinct choices
   * swaps the two winning sentences.
   */
  lemma Sentences(user: string, computer: string)
    requires user in R.Choices && computer in R.Choices
    ensures DetermineWinner(user, computer).Some?
    ensures DetermineWinner(user, computer).value == TieMessage <==> user == computer
    ensures DetermineWinner(user, computer).value == "You win!" <==> R.WinningCombinations[user] == computer
    ensures DetermineWinner(user, computer).value == "Computer wins!" <==> user != computer && R.WinningCombinations[user] != computer
    ensures user != computer ==> (DetermineWinner(user, computer).value == "You win!" <==> DetermineWinner(computer, user).value == "Computer wins!")
  {
    R.VerdictOnChoices(user, computer);
    var o := R.Verdict(user, computer).value;
    R.MessagesDistinct(o, R.Tie, TieMessage);
    R.MessagesDistinct(o, R.UserWins, TieMessage);
    R.MessagesDistinct(o, R.ComputerWins, TieMessage);
    if user != computer {
      R.VerdictSwap(user, computer);
      R.MessagesDistinct(R.Opposite(o), R.ComputerWins, TieMessage);
    }
  }
}
