/**
 * Rock, paper, scissors as `007_project/rock_paper_scissors.py` plays it:
 * `determine_winner` looks the user's choice up in the table of what each
 * choice beats, and `play_game` keeps the score of the rounds.  Each round
 * here is one of the user's validated choices; the computer's choice is a
 * draw.
 */
module RockPaperScissors {
  import opened Wrappers
  import opened Text
  import opened Chance
  import opened Seqs

  const Choices: seq<string> := ["rock", "paper", "scissors"]

  /** `winning_combinations`: what each choice beats. */
  const WinningCombinations: map<string, string> := map["rock" := "scissors", "paper" := "rock", "scissors" := "paper"]

  datatype Outcome = UserWins | ComputerWins | Tie

  function Opposite(o: Outcome): (r: Outcome)
    ensures r == Tie <==> o == Tie
    ensures o != Tie ==> r != o
  {
    match o
    case UserWins => ComputerWins
    case ComputerWins => UserWins
    case Tie => Tie
  }

  /**
   * Who wins; `None` is the `KeyError` of looking up a user choice outside
   * the table.  Equal choices tie before the lookup, whatever they are.
   */
  function Verdict(user: string, computer: string): Option<Outcome> {
    if user == computer then Some(Tie)
    else if user !in WinningCombinations then None
    else if WinningCombinations[user] == computer then Some(UserWins)
    else Some(ComputerWins)
  }

  /** The table is defined on the three choices and only on them, and maps none to itself. */
  lemma TableShape()
    ensures WinningCombinations.Keys == set c | c in Choices
    ensures forall u :: u in WinningCombinations ==> WinningCombinations[u] in Choices && WinningCombinations[u] != u
  {
  }

  /** Every distinct pair of choices has a winner, and swapping the choices swaps it. */
  lemma VerdictSwap(user: string, computer: string)
    requires user in Choices && computer in Choices && user != computer
    ensures Verdict(user, computer).Some? && Verdict(user, computer) != Some(Tie)
    ensures Verdict(computer, user) == Some(Opposite(Verdict(user, computer).value))
  {
  }

  /** The verdict on two valid choices: a tie exactly when equal, a user win exactly when the table says so. */
  lemma VerdictOnChoices(user: string, computer: string)
    requires user in Choices && computer in Choices
    ensures Verdict(user, computer).Some?
    ensures Verdict(user, computer) == Some(Tie) <==> user == computer
    ensures Verdict(user, computer) == Some(UserWins) <==> WinningCombinations[user] == computer
    ensures Verdict(user, computer) == Some(ComputerWins) <==> WinningCombinations[computer] == user
  {
  }

  /** The sentence `determine_winner` returns for an outcome, with the given tie sentence. */
  function Message(o: Outcome, tie: string): string {
    match o
    case UserWins => "You win!"
    case ComputerWins => "Computer wins!"
    case Tie => tie
  }

  /** `determine_winner`; `None` is the `KeyError`. */
  function DetermineWinner(user: string, computer: string): (r: Option<string>)
    ensures r.Some? <==> Verdict(user, computer).Some?
    ensures r.Some? ==> r.value == Message(Verdict(user, computer).value, "Tie!")
  {
    match Verdict(user, computer)
    case None => None
    case Some(o) => Some(Message(o, "Tie!"))
  }

  /** The three sentences differ, so the result names the outcome. */
  lemma MessagesDistinct(o: Outcome, p: Outcome, tie: string)
    requires tie != "You win!" && tie != "Computer wins!"
    ensures Message(o, tie) == Message(p, tie) <==> o == p
  {
    assert "You win!"[0] != "Computer wins!"[0];
  }

  /** `get_computer_choice` with the k-th draw. */
  function ComputerChoice(draw: Source, k: nat): (r: string)
    ensures r in Choices
  {
    Choice(draw, k, Choices)
  }

  /**
   * `get_user_choice` on the lines typed: the first one that, lowered, is a
   * choice, and where it is; `None` when the lines run out first.
   */
  method GetUserChoice(lines: seq<string>) returns (r: Option<(string, nat)>)
    ensures r.Some? ==> r.value.1 < |lines| && r.value.0 == Lower(lines[r.value.1]) && r.value.0 in Choices
    ensures r.Some? ==> forall j :: 0 <= j < r.value.1 ==> Lower(lines[j]) !in Choices
    ensures r.None? ==> forall j :: 0 <= j < |lines| ==> Lower(lines[j]) !in Choices
  {
    var i := 0;
    while i < |lines|
      invariant 0 <= i <= |lines|
      invariant forall j :: 0 <= j < i ==> Lower(lines[j]) !in Choices
    {
      var choice := Lower(lines[i]);
      if choice in Choices {
        return Some((choice, i));
      }
      i := i + 1;
    }
    return None;
  }

  /** The `scores` dictionary. */
  datatype Scores = Scores(user: nat, computer: nat, ties: nat)

  /** The score update of one round. */
  function Record(s: Scores, o: Outcome): (r: Scores)
    ensures r.user + r.computer + r.ties == s.user + s.computer + s.ties + 1
    ensures r.user >= s.user && r.computer >= s.computer && r.ties >= s.ties
    ensures r.user > s.user <==> o == UserWins
    ensures r.computer > s.computer <==> o == ComputerWins
    ensures r.ties > s.ties <==> o == Tie
  {
    match o
    case UserWins => s.(user := s.user + 1)
    case ComputerWins => s.(computer := s.computer + 1)
    case Tie => s.(ties := s.ties + 1)
  }

  /** The scores after the given rounds, the computer's choice of round `i` made with draw `i`. */
  function Tally(users: seq<string>, draw: Source): (r: Scores)
    requires forall i :: 0 <= i < |users| ==> users[i] in Choices
    ensures r.user + r.computer + r.ties == |users|
  {
    if users == [] then Scores(0, 0, 0)
    else
      var n := |users| - 1;
      VerdictOnChoices(users[n], ComputerChoice(draw, n));
      Record(Tally(users[..n], draw), Verdict(users[n], ComputerChoice(draw, n)).value)
  }

  /** Round `i` is one the user's choice beats the computer's. */
  predicate UserBeats(users: seq<string>, draw: Source, i: nat)
    requires i < |users|
  {
    users[i] in WinningCombinations && WinningCombinations[users[i]] == ComputerChoice(draw, i)
  }

  /** The rounds the user's choice beats the computer's. */
  function BeatsAt(users: seq<string>, draw: Source): nat -> bool {
    (i: nat) => i < |users| && UserBeats(users, draw, i)
  }

  /** The user's score after `n` rounds counts exactly those of them whose choice beats the computer's. */
  lemma {:induction false} TallyUserWins(users: seq<string>, draw: Source, n: nat)
    requires n <= |users|
    requires forall i :: 0 <= i < |users| ==> users[i] in Choices
    ensures Tally(users[..n], draw).user == |Indices(BeatsAt(users, draw), n)|
  {
    if n > 0 {
      var m := n - 1;
      TallyUserWins(users, draw, m);
      IndicesStep(BeatsAt(users, draw), m);
      assert users[..n][..m] == users[..m];
      var c := ComputerChoice(draw, m);
      VerdictOnChoices(users[m], c);
      assert Tally(users[..n], draw) == Record(Tally(users[..m], draw), Verdict(users[m], c).value);
    }
  }

  /**
   * The loop of `play_game`: a round per choice of the user, the score of
   * its outcome incremented by one.
   */
  method PlayGame(users: seq<string>, draw: Source) returns (scores: Scores)
    requires forall i :: 0 <= i < |users| ==> users[i] in Choices
    ensures scores == Tally(users, draw)
  {
    scores := Scores(0, 0, 0);
    for i := 0 to |users|
      invariant scores == Tally(users[..i], draw)
    {
      assert users[..i + 1][..i] == users[..i];
      var computerChoice := ComputerChoice(draw, i);
      VerdictOnChoices(users[i], computerChoice);
      var result := DetermineWinner(users[i], computerChoice).value;
      MessagesDistinct(Verdict(users[i], computerChoice).value, UserWins, "Tie!");
      MessagesDistinct(Verdict(users[i], computerChoice).value, ComputerWins, "Tie!");
      if result == "You win!" {
        scores := scores.(user := scores.user + 1);
      } else if result == "Computer wins!" {
        scores := scores.(computer := scores.computer + 1);
      } else {
        scores := scores.(ties := scores.ties + 1);
      }
    }
    assert users[..|users|] == users;
  }
}
