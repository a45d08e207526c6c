/**
 * The dice roller of `041_project/dice_simulator.py`: `roll_dice` draws
 * `random.randint(1, sides)` once per die (the rolling animation and its
 * pause are left out), `display_dice_art` draws a face, and the menu of
 * `main` rolls between one and five dice.
 */
module DiceSimulator {
  import opened Wrappers
  import opened Chance

  /** `random.randint(1, sides)` with the k-th draw: CPython adds one to `randbelow(sides)`. */
  function RandInt(draw: Source, k: nat, sides: nat): (r: int)
    requires sides >= 1
    ensures 1 <= r <= sides
  {
    1 + Below(draw, k, sides)
  }

  /** The rolls of `n` dice, die `i` with the `k + i`-th draw. */
  function Rolls(draw: Source, k: nat, n: nat, sides: nat): (r: seq<int>)
    requires sides >= 1
    ensures |r| == n
    ensures forall i :: 0 <= i < n ==> 1 <= r[i] <= sides
  {
    var r := seq(n, i requires 0 <= i < n => RandInt(draw, k + i, sides));
    assert forall i :: 0 <= i < n ==> r[i] == RandInt(draw, k + i, sides);
    r
  }

  /**
   * `roll_dice(num_dice, sides)`: no dice below one; otherwise one roll per
   * die, and `None` for the `ValueError` `randint` raises when there are no
   * sides to land on.
   */
  method RollDice(numDice: int, sides: int, draw: Source, k: nat) returns (r: Option<seq<int>>)
    ensures numDice < 1 ==> r == Some([])
    ensures numDice >= 1 && sides < 1 ==> r.None?
    ensures numDice >= 1 && sides >= 1 ==> r == Some(Rolls(draw, k, numDice, sides))
  {
    if numDice < 1 {
      return Some([]);
    }
    if sides < 1 {
      return None;
    }
    var results: seq<int> := [];
    for i := 0 to numDice
      invariant results == Rolls(draw, k, i, sides)
    {
      var roll := RandInt(draw, k + i, sides);
      results := results + [roll];
    }
    return Some(results);
  }

  /** `sum(results)`. */
  function Sum(xs: seq<int>): int {
    if xs == [] then 0 else Sum(xs[..|xs| - 1]) + xs[|xs| - 1]
  }

  /** The total `main` prints lies between the number of dice and that many times the sides. */
  lemma {:induction false} SumBounds(xs: seq<int>, sides: int)
    requires forall i :: 0 <= i < |xs| ==> 1 <= xs[i] <= sides
    ensures |xs| <= Sum(xs) <= |xs| * sides
  {
    if xs != [] {
      SumBounds(xs[..|xs| - 1], sides);
    }
  }

  const Pip: char := '●'

  /** A row of a face: pips or spaces at the left, middle and right, inside the frame. */
  function Row(left: char, middle: char, right: char): (r: string)
    ensures |r| == 11
  {
    "│  " + [left] + " " + [middle] + " " + [right] + "  │"
  }

  const Top: string := "┌─────────┐"
  const Bottom: string := "└─────────┘"
  const Blank: string := Row(' ', ' ', ' ')
  const Middle: string := Row(' ', Pip, ' ')
  const Left: string := Row(Pip, ' ', ' ')
  const Right: string := Row(' ', ' ', Pip)
  const Both: string := Row(Pip, ' ', Pip)

  /** `display_dice_art(value)`: the face of a value from one to six, nothing for any other. */
  function DiceArt(value: int): (r: seq<string>)
    ensures 1 <= value <= 6 ==> |r| == 5 && r[0] == Top && r[4] == Bottom
    ensures !(1 <= value <= 6) ==> r == []
  {
    if value == 1 then [Top, Blank, Middle, Blank, Bottom]
    else if value == 2 then [Top, Left, Blank, Right, Bottom]
    else if value == 3 then [Top, Left, Middle, Right, Bottom]
    else if value == 4 then [Top, Both, Blank, Both, Bottom]
    else if value == 5 then [Top, Both, Middle, Both, Bottom]
    else if value == 6 then [Top, Both, Both, Both, Bottom]
    else []
  }

  /** The pips of a line. */
  function PipsOf(line: string): nat {
    multiset(line)[Pip]
  }

  /** The pips of a row are those of its three cells. */
  lemma RowPips(left: char, middle: char, right: char)
    ensures PipsOf(Row(left, middle, right)) == (if left == Pip then 1 else 0) + (if middle == Pip then 1 else 0) + (if right == Pip then 1 else 0)
  {
    assert Pip !in "│  " && Pip !in " " && Pip !in "  │";
  }

  /** The pips of a face. */
  function Pips(lines: seq<string>): nat {
    if lines == [] then 0 else Pips(lines[..|lines| - 1]) + PipsOf(lines[|lines| - 1])
  }

  /** Each kind of line has as many pips as it shows. */
  lemma LinePips()
    ensures PipsOf(Top) == 0 && PipsOf(Bottom) == 0 && PipsOf(Blank) == 0
    ensures PipsOf(Middle) == 1 && PipsOf(Left) == 1 && PipsOf(Right) == 1 && PipsOf(Both) == 2
  {
    FramePips();
    RowPips(' ', ' ', ' ');
    RowPips(' ', Pip, ' ');
    RowPips(Pip, ' ', ' ');
    RowPips(' ', ' ', Pip);
    RowPips(Pip, ' ', Pip);
  }

  /** The top and bottom of the frame have no pips. */
  lemma FramePips()
    ensures PipsOf(Top) == 0 && PipsOf(Bottom) == 0
  {
    TopPips();
    BottomPips();
  }

  lemma TopPips()
    ensures PipsOf(Top) == 0
  {
    assert Pip !in Top;
    assert Pip !in multiset(Top);
  }

  lemma BottomPips()
    ensures PipsOf(Bottom) == 0
  {
    assert Pip !in Bottom;
    assert Pip !in multiset(Bottom);
  }

  /** The pips of a five-line face are those of its lines. */
  lemma PipsOfFive(f: seq<string>)
    requires |f| == 5
    ensures Pips(f) == PipsOf(f[0]) + PipsOf(f[1]) + PipsOf(f[2]) + PipsOf(f[3]) + PipsOf(f[4])
  {
    assert f[..4][..3] == f[..3] && f[..3][..2] == f[..2] && f[..2][..1] == f[..1] && f[..1][..0] == [];
    assert Pips(f[..1]) == PipsOf(f[0]);
    assert Pips(f[..2]) == Pips(f[..1]) + PipsOf(f[1]);
    assert Pips(f[..3]) == Pips(f[..2]) + PipsOf(f[2]);
    assert Pips(f[..4]) == Pips(f[..3]) + PipsOf(f[3]);
  }

  /** Every face shows as many pips as its value. */
  lemma FaceShowsValue(value: int)
    requires 1 <= value <= 6
    ensures Pips(DiceArt(value)) == value
  {
    LinePips();
    var f := DiceArt(value);
    PipsOfFive(f);
    if value == 1 {
      assert f == [Top, Blank, Middle, Blank, Bottom];
    } else if value == 2 {
      assert f == [Top, Left, Blank, Right, Bottom];
    } else if value == 3 {
      assert f == [Top, Left, Middle, Right, Bottom];
    } else if value == 4 {
      assert f == [Top, Both, Blank, Both, Bottom];
    } else if value == 5 {
      assert f == [Top, Both, Middle, Both, Bottom];
    } else {
      assert f == [Top, Both, Both, Both, Bottom];
    }
  }

  /** One choice at the menu: roll (with the count `int` read, `None` for a `ValueError`), exit, or anything else. */
  datatype Command = Roll(count: Option<int>) | Exit | Other

  /** A count the menu accepts: `1 <= num_dice <= 5` after a successful `int()`. */
  predicate AcceptedCount(count: Option<int>) {
    count.Some? && 1 <= count.value <= 5
  }

  /** The counts the menu rolls, in order, up to the first exit. */
  function AcceptedCounts(commands: seq<Command>): (r: seq<nat>)
    ensures |r| <= |commands|
    ensures forall j :: 0 <= j < |r| ==> 1 <= r[j] <= 5
  {
    if commands == [] then []
    else match commands[0]
      case Exit => []
      case Other => AcceptedCounts(commands[1..])
      case Roll(count) =>
        if AcceptedCount(count) then [count.value] + AcceptedCounts(commands[1..])
        else AcceptedCounts(commands[1..])
  }

  /** The rolls for `counts`, each roll using the draws after the previous one's, from the `k`-th. */
  function MenuRolls(counts: seq<nat>, draw: Source, k: nat): (r: seq<seq<int>>)
    ensures |r| == |counts|
  {
    if counts == [] then []
    else [Rolls(draw, k, counts[0], 6)] + MenuRolls(counts[1..], draw, k + counts[0])
  }

  /** One roll per count, of as many six-sided dice as the count says. */
  lemma {:induction false} MenuRollsShape(counts: seq<nat>, draw: Source, k: nat)
    ensures |MenuRolls(counts, draw, k)| == |counts|
    ensures forall j :: 0 <= j < |counts| ==> |MenuRolls(counts, draw, k)[j]| == counts[j]
    ensures forall j, i :: 0 <= j < |counts| && 0 <= i < counts[j] ==> 1 <= MenuRolls(counts, draw, k)[j][i] <= 6
  {
    if counts != [] {
      MenuRollsShape(counts[1..], draw, k + counts[0]);
    }
  }

  /** How the command at `c` changes the counts still to come. */
  lemma CountsStep(commands: seq<Command>, c: nat)
    requires c < |commands|
    ensures commands[c].Exit? ==> AcceptedCounts(commands[c..]) == []
    ensures commands[c].Roll? && AcceptedCount(commands[c].count) ==>
      AcceptedCounts(commands[c..]) == [commands[c].count.value] + AcceptedCounts(commands[c + 1..])
    ensures commands[c].Other? || (commands[c].Roll? && !AcceptedCount(commands[c].count)) ==>
      AcceptedCounts(commands[c..]) == AcceptedCounts(commands[c + 1..])
  {
    assert commands[c..][1..] == commands[c + 1..];
  }

  /** Rolling the next count moves one roll from what is to come to what was made. */
  lemma RollStep(rolls: seq<seq<int>>, todo: seq<nat>, draw: Source, k: nat, goal: seq<seq<int>>)
    requires todo != [] && rolls + MenuRolls(todo, draw, k) == goal
    ensures (rolls + [Rolls(draw, k, todo[0], 6)]) + MenuRolls(todo[1..], draw, k + todo[0]) == goal
  {
    assert MenuRolls(todo, draw, k) == [Rolls(draw, k, todo[0], 6)] + MenuRolls(todo[1..], draw, k + todo[0]);
  }

  /**
   * The loop of `main` until "2" or the end of the input: the rolls made,
   * one list per accepted count; every accepted count is from one to five
   * and draws six-sided dice.
   */
  method RunMenu(commands: seq<Command>, draw: Source) returns (rolls: seq<seq<int>>)
    ensures rolls == MenuRolls(AcceptedCounts(commands), draw, 0)
    ensures |rolls| == |AcceptedCounts(commands)| <= |commands|
    ensures forall j :: 0 <= j < |rolls| ==> |rolls[j]| == AcceptedCounts(commands)[j]
    ensures forall j, i :: 0 <= j < |rolls| && 0 <= i < |rolls[j]| ==> 1 <= rolls[j][i] <= 6
  {
    rolls := [];
    var k: nat := 0;
    ghost var goal := MenuRolls(AcceptedCounts(commands), draw, 0);
    ghost var todo := AcceptedCounts(commands);
    assert commands[0..] == commands;
    var c := 0;
    while c < |commands| && !commands[c].Exit?
      invariant c <= |commands|
      invariant todo == AcceptedCounts(commands[c..])
      invariant rolls + MenuRolls(todo, draw, k) == goal
    {
      CountsStep(commands, c);
      var command := commands[c];
      if command.Roll? && AcceptedCount(command.count) {
        var n := command.count.value;
        var results := RollDice(n, 6, draw, k);
        RollStep(rolls, todo, draw, k, goal);
        rolls := rolls + [results.value];
        k := k + n;
        todo := todo[1..];
      }
      c := c + 1;
    }
    if c < |commands| {
      CountsStep(commands, c);
    } else {
      assert commands[c..] == [];
    }
    assert rolls + [] == rolls;
    MenuRollsShape(AcceptedCounts(commands), draw, 0);
  }
}
