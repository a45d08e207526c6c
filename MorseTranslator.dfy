/**
 * The Morse code translator of `046_project/morse_translator.py`: text is
 * upper-cased and written code by code, each followed by a space; Morse is
 * split on whitespace and each code read back through the inverted table.
 * Characters the table does not know pass through unchanged both ways.
 */
module MorseTranslator {
  import opened Wrappers
  import opened Text
  import opened Seqs

  /** A string of dots and dashes only. */
  predicate IsCode(s: string) {
    forall i :: 0 <= i < |s| ==> s[i] == '.' || s[i] == '-'
  }

  /** `get_morse_dict()`: the code of a letter, digit or space; `None` for any other character. */
  function Code(c: char): Option<string>
  {
    match c
    case 'A' => Some(".-")    case 'B' => Some("-...")  case 'C' => Some("-.-.")  case 'D' => Some("-..")
    case 'E' => Some(".")     case 'F' => Some("..-.")  case 'G' => Some("--.")   case 'H' => Some("....")
    case 'I' => Some("..")    case 'J' => Some(".---")  case 'K' => Some("-.-")   case 'L' => Some(".-..")
    case 'M' => Some("--")    case 'N' => Some("-.")    case 'O' => Some("---")   case 'P' => Some(".--.")
    case 'Q' => Some("--.-")  case 'R' => Some(".-.")   case 'S' => Some("...")   case 'T' => Some("-")
    case 'U' => Some("..-")   case 'V' => Some("...-")  case 'W' => Some(".--")   case 'X' => Some("-..-")
    case 'Y' => Some("-.--")  case 'Z' => Some("--..")
    case '1' => Some(".----") case '2' => Some("..---") case '3' => Some("...--") case '4' => Some("....-")
    case '5' => Some(".....") case '6' => Some("-....") case '7' => Some("--...") case '8' => Some("---..")
    case '9' => Some("----.") case '0' => Some("-----")
    case ' ' => Some(" ")
    case _ => None
  }

  /** The table has a code for exactly the upper-case letters, the digits and the space; the space's is a space, every other one one to five dots and dashes. */
  lemma CodeShape(c: char)
    ensures Code(c).Some? <==> IsUpper(c) || IsDigit(c) || c == ' '
    ensures Code(c).Some? && c != ' ' ==> 1 <= |Code(c).value| <= 5 && IsCode(Code(c).value)
    ensures Code(c) == Some(" ") <==> c == ' '
  {
    if 'A' <= c <= 'M' {
      CodeShapeAM(c);
    } else if 'N' <= c <= 'Z' {
      CodeShapeNZ(c);
    } else if IsDigit(c) {
      CodeShapeDigit(c);
    }
  }

  lemma CodeShapeAM(c: char)
    requires 'A' <= c <= 'M'
    ensures Code(c).Some? <==> IsUpper(c) || IsDigit(c) || c == ' '
    ensures Code(c).Some? && c != ' ' ==> 1 <= |Code(c).value| <= 5 && IsCode(Code(c).value)
    ensures Code(c) == Some(" ") <==> c == ' '
  {
  }

  lemma CodeShapeNZ(c: char)
    requires 'N' <= c <= 'Z'
    ensures Code(c).Some? <==> IsUpper(c) || IsDigit(c) || c == ' '
    ensures Code(c).Some? && c != ' ' ==> 1 <= |Code(c).value| <= 5 && IsCode(Code(c).value)
    ensures Code(c) == Some(" ") <==> c == ' '
  {
  }

  lemma CodeShapeDigit(c: char)
    requires IsDigit(c)
    ensures Code(c).Some? <==> IsUpper(c) || IsDigit(c) || c == ' '
    ensures Code(c).Some? && c != ' ' ==> 1 <= |Code(c).value| <= 5 && IsCode(Code(c).value)
    ensures Code(c) == Some(" ") <==> c == ' '
  {
  }

  function Signal(ch: char): nat {
    if ch == '.' then 1 else 2
  }

  function Step(k: nat, s: string, i: nat): nat {
    if i < |s| then 3 * k + Signal(s[i]) else k
  }

  /**
   * A code of at most five signals read as a number in bijective base 3, a
   * dot counting 1 and a dash 2: different codes get different numbers
   * (`KeyInjective`), which is what lets the inverted table below be looked
   * up by number.
   */
  function Key(s: string): (k: nat)
    requires |s| <= 5
  {
    Step(Step(Step(Step(Step(0, s, 0), s, 1), s, 2), s, 3), s, 4)
  }

  /** Codes of different lengths have keys in disjoint ranges. */
  lemma KeyBounds(s: string)
    requires |s| <= 5 && IsCode(s)
    ensures |s| == 0 ==> Key(s) == 0
    ensures |s| == 1 ==> 1 <= Key(s) <= 2
    ensures |s| == 2 ==> 4 <= Key(s) <= 8
    ensures |s| == 3 ==> 13 <= Key(s) <= 26
    ensures |s| == 4 ==> 40 <= Key(s) <= 80
    ensures |s| == 5 ==> 121 <= Key(s) <= 242
  {
  }

  /** The key of a code is three times the key without its last signal, plus that signal. */
  lemma KeySnoc(s: string)
    requires 1 <= |s| <= 5
    ensures Key(s) == 3 * Key(s[..|s| - 1]) + Signal(s[|s| - 1])
  {
  }

  /** Equal keys of equal-length codes: equal last signals and equal keys before them. */
  lemma KeyLast(a: string, b: string)
    requires 1 <= |a| == |b| <= 5 && IsCode(a) && IsCode(b) && Key(a) == Key(b)
    ensures Key(a[..|a| - 1]) == Key(b[..|b| - 1]) && a[|a| - 1] == b[|b| - 1]
  {
    KeySnoc(a);
    KeySnoc(b);
  }

  /** Different codes have different keys. */
  lemma {:induction false} KeyInjective(a: string, b: string)
    requires |a| <= 5 && |b| <= 5 && IsCode(a) && IsCode(b) && Key(a) == Key(b)
    ensures a == b
    decreases |a|
  {
    KeyBounds(a);
    KeyBounds(b);
    if |a| > 0 {
      var n := |a| - 1;
      KeyLast(a, b);
      KeyInjective(a[..n], b[..n]);
      assert a == a[..n] + [a[n]];
      assert b == b[..n] + [b[n]];
    }
  }

  /** The letters and digits of the table by the keys of their codes. */
  function FromKey(k: nat): Option<char> {
    match k
    case 1 => Some('E')  case 2 => Some('T')  case 4 => Some('I')  case 5 => Some('A')
    case 7 => Some('N')  case 8 => Some('M')  case 13 => Some('S')  case 14 => Some('U')
    case 16 => Some('R')  case 17 => Some('W')  case 22 => Some('D')  case 23 => Some('K')
    case 25 => Some('G')  case 26 => Some('O')  case 40 => Some('H')  case 41 => Some('V')
    case 43 => Some('F')  case 49 => Some('L')  case 52 => Some('P')  case 53 => Some('J')
    case 67 => Some('B')  case 68 => Some('X')  case 70 => Some('C')  case 71 => Some('Y')
    case 76 => Some('Z')  case 77 => Some('Q')  case 121 => Some('5')  case 122 => Some('4')
    case 125 => Some('3')  case 134 => Some('2')  case 161 => Some('1')  case 202 => Some('6')
    case 229 => Some('7')  case 238 => Some('8')  case 241 => Some('9')  case 242 => Some('0')
    case _ => None
  }

  /**
   * The inverted table `{v: k for k, v in get_morse_dict().items()}`: a
   * code of dots and dashes looked up by its key, or the space's code.
   * `DecodeSound` and `DecodeComplete` show it answers exactly for the codes
   * of the table, with the character each was written for.
   */
  function Decode(s: string): (r: Option<char>)
  {
    if |s| <= 5 && IsCode(s) then FromKey(Key(s))
    else if s == " " then Some(' ')
    else None
  }

  /**
   * One entry of the table at a time: its code, the key of the code, and
   * the entry found again under that key.
   */
  lemma EntryA()
    ensures Code('A') == Some(".-") && Key(".-") == 5 && FromKey(5) == Some('A') && Decode(".-") == Some('A')
  {
  }

  lemma EntryB()
    ensures Code('B') == Some("-...") && Key("-...") == 67 && FromKey(67) == Some('B') && Decode("-...") == Some('B')
  {
  }

  lemma EntryC()
    ensures Code('C') == Some("-.-.") && Key("-.-.") == 70 && FromKey(70) == Some('C') && Decode("-.-.") == Some('C')
  {
  }

  lemma EntryD()
    ensures Code('D') == Some("-..") && Key("-..") == 22 && FromKey(22) == Some('D') && Decode("-..") == Some('D')
  {
  }

  lemma EntryE()
    ensures Code('E') == Some(".") && Key(".") == 1 && FromKey(1) == Some('E') && Decode(".") == Some('E')
  {
  }

  lemma EntryF()
    ensures Code('F') == Some("..-.") && Key("..-.") == 43 && FromKey(43) == Some('F') && Decode("..-.") == Some('F')
  {
  }

  lemma EntryG()
    ensures Code('G') == Some("--.") && Key("--.") == 25 && FromKey(25) == Some('G') && Decode("--.") == Some('G')
  {
  }

  lemma EntryH()
    ensures Code('H') == Some("....") && Key("....") == 40 && FromKey(40) == Some('H') && Decode("....") == Some('H')
  {
  }

  lemma EntryI()
    ensures Code('I') == Some("..") && Key("..") == 4 && FromKey(4) == Some('I') && Decode("..") == Some('I')
  {
  }

  lemma EntryJ()
    ensures Code('J') == Some(".---") && Key(".---") == 53 && FromKey(53) == Some('J') && Decode(".---") == Some('J')
  {
  }

  lemma EntryK()
    ensures Code('K') == Some("-.-") && Key("-.-") == 23 && FromKey(23) == Some('K') && Decode("-.-") == Some('K')
  {
  }

  lemma EntryL()
    ensures Code('L') == Some(".-..") && Key(".-..") == 49 && FromKey(49) == Some('L') && Decode(".-..") == Some('L')
  {
  }

  lemma EntryM()
    ensures Code('M') == Some("--") && Key("--") == 8 && FromKey(8) == Some('M') && Decode("--") == Some('M')
  {
  }

  lemma EntryN()
    ensures Code('N') == Some("-.") && Key("-.") == 7 && FromKey(7) == Some('N') && Decode("-.") == Some('N')
  {
  }

  lemma EntryO()
    ensures Code('O') == Some("---") && Key("---") == 26 && FromKey(26) == Some('O') && Decode("---") == Some('O')
  {
  }

  lemma EntryP()
    ensures Code('P') == Some(".--.") && Key(".--.") == 52 && FromKey(52) == Some('P') && Decode(".--.") == Some('P')
  {
  }

  lemma EntryQ()
    ensures Code('Q') == Some("--.-") && Key("--.-") == 77 && FromKey(77) == Some('Q') && Decode("--.-") == Some('Q')
  {
  }

  lemma EntryR()
    ensures Code('R') == Some(".-.") && Key(".-.") == 16 && FromKey(16) == Some('R') && Decode(".-.") == Some('R')
  {
  }

  lemma EntryS()
    ensures Code('S') == Some("...") && Key("...") == 13 && FromKey(13) == Some('S') && Decode("...") == Some('S')
  {
  }

  lemma EntryT()
    ensures Code('T') == Some("-") && Key("-") == 2 && FromKey(2) == Some('T') && Decode("-") == Some('T')
  {
  }

  lemma EntryU()
    ensures Code('U') == Some("..-") && Key("..-") == 14 && FromKey(14) == Some('U') && Decode("..-") == Some('U')
  {
  }

  lemma EntryV()
    ensures Code('V') == Some("...-") && Key("...-") == 41 && FromKey(41) == Some('V') && Decode("...-") == Some('V')
  {
  }

  lemma EntryW()
    ensures Code('W') == Some(".--") && Key(".--") == 17 && FromKey(17) == Some('W') && Decode(".--") == Some('W')
  {
  }

  lemma EntryX()
    ensures Code('X') == Some("-..-") && Key("-..-") == 68 && FromKey(68) == Some('X') && Decode("-..-") == Some('X')
  {
  }

  lemma EntryY()
    ensures Code('Y') == Some("-.--") && Key("-.--") == 71 && FromKey(71) == Some('Y') && Decode("-.--") == Some('Y')
  {
  }

  lemma EntryZ()
    ensures Code('Z') == Some("--..") && Key("--..") == 76 && FromKey(76) == Some('Z') && Decode("--..") == Some('Z')
  {
  }

  lemma EntryDigit1()
    ensures Code('1') == Some(".----") && Key(".----") == 161 && FromKey(161) == Some('1') && Decode(".----") == Some('1')
  {
  }

  lemma EntryDigit2()
    ensures Code('2') == Some("..---") && Key("..---") == 134 && FromKey(134) == Some('2') && Decode("..---") == Some('2')
  {
  }

  lemma EntryDigit3()
    ensures Code('3') == Some("...--") && Key("...--") == 125 && FromKey(125) == Some('3') && Decode("...--") == Some('3')
  {
  }

  lemma EntryDigit4()
    ensures Code('4') == Some("....-") && Key("....-") == 122 && FromKey(122) == Some('4') && Decode("....-") == Some('4')
  {
  }

  lemma EntryDigit5()
    ensures Code('5') == Some(".....") && Key(".....") == 121 && FromKey(121) == Some('5') && Decode(".....") == Some('5')
  {
  }

  lemma EntryDigit6()
    ensures Code('6') == Some("-....") && Key("-....") == 202 && FromKey(202) == Some('6') && Decode("-....") == Some('6')
  {
  }

  lemma EntryDigit7()
    ensures Code('7') == Some("--...") && Key("--...") == 229 && FromKey(229) == Some('7') && Decode("--...") == Some('7')
  {
  }

  lemma EntryDigit8()
    ensures Code('8') == Some("---..") && Key("---..") == 238 && FromKey(238) == Some('8') && Decode("---..") == Some('8')
  {
  }

  lemma EntryDigit9()
    ensures Code('9') == Some("----.") && Key("----.") == 241 && FromKey(241) == Some('9') && Decode("----.") == Some('9')
  {
  }

  lemma EntryDigit0()
    ensures Code('0') == Some("-----") && Key("-----") == 242 && FromKey(242) == Some('0') && Decode("-----") == Some('0')
  {
  }

  /** Every key in the table is the key of the code of its character. */
  lemma FromKeyCode(k: nat)
    requires FromKey(k).Some?
    ensures var c := FromKey(k).value; c != ' ' && Code(c).Some? && Key(Code(c).value) == k
  {
    if k <= 8 {
      FromKeyCode1(k);
    } else if k <= 23 {
      FromKeyCode13(k);
    } else if k <= 49 {
      FromKeyCode25(k);
    } else if k <= 71 {
      FromKeyCode52(k);
    } else if k <= 134 {
      FromKeyCode76(k);
    } else {
      FromKeyCode161(k);
    }
  }

  lemma FromKeyCode1(k: nat)
    requires FromKey(k).Some? && k <= 8
    ensures var c := FromKey(k).value; c != ' ' && Code(c).Some? && Key(Code(c).value) == k
  {
    if k == 1 {
      EntryE();
    } else if k == 2 {
      EntryT();
    } else if k == 4 {
      EntryI();
    } else if k == 5 {
      EntryA();
    } else if k == 7 {
      EntryN();
    } else {
      EntryM();
    }
  }

  lemma FromKeyCode13(k: nat)
    requires FromKey(k).Some? && 13 <= k <= 23
    ensures var c := FromKey(k).value; c != ' ' && Code(c).Some? && Key(Code(c).value) == k
  {
    if k == 13 {
      EntryS();
    } else if k == 14 {
      EntryU();
    } else if k == 16 {
      EntryR();
    } else if k == 17 {
      EntryW();
    } else if k == 22 {
      EntryD();
    } else {
      EntryK();
    }
  }

  lemma FromKeyCode25(k: nat)
    requires FromKey(k).Some? && 25 <= k <= 49
    ensures var c := FromKey(k).value; c != ' ' && Code(c).Some? && Key(Code(c).value) == k
  {
    if k == 25 {
      EntryG();
    } else if k == 26 {
      EntryO();
    } else if k == 40 {
      EntryH();
    } else if k == 41 {
      EntryV();
    } else if k == 43 {
      EntryF();
    } else {
      EntryL();
    }
  }

  lemma FromKeyCode52(k: nat)
    requires FromKey(k).Some? && 52 <= k <= 71
    ensures var c := FromKey(k).value; c != ' ' && Code(c).Some? && Key(Code(c).value) == k
  {
    if k == 52 {
      EntryP();
    } else if k == 53 {
      EntryJ();
    } else if k == 67 {
      EntryB();
    } else if k == 68 {
      EntryX();
    } else if k == 70 {
      EntryC();
    } else {
      EntryY();
    }
  }

  lemma FromKeyCode76(k: nat)
    requires FromKey(k).Some? && 76 <= k <= 134
    ensures var c := FromKey(k).value; c != ' ' && Code(c).Some? && Key(Code(c).value) == k
  {
    if k == 76 {
      EntryZ();
    } else if k == 77 {
      EntryQ();
    } else if k == 121 {
      EntryDigit5();
    } else if k == 122 {
      EntryDigit4();
    } else if k == 125 {
      EntryDigit3();
    } else {
      EntryDigit2();
    }
  }

  lemma FromKeyCode161(k: nat)
    requires FromKey(k).Some? && 161 <= k <= 242
    ensures var c := FromKey(k).value; c != ' ' && Code(c).Some? && Key(Code(c).value) == k
  {
    if k == 161 {
      EntryDigit1();
    } else if k == 202 {
      EntryDigit6();
    } else if k == 229 {
      EntryDigit7();
    } else if k == 238 {
      EntryDigit8();
    } else if k == 241 {
      EntryDigit9();
    } else {
      EntryDigit0();
    }
  }

  /** Whatever the inverted table answers, the table maps that character to the code read. */
  lemma DecodeSound(s: string)
    ensures Decode(s).Some? ==> Code(Decode(s).value) == Some(s)
  {
    if |s| <= 5 && IsCode(s) && Decode(s).Some? {
      var c := Decode(s).value;
      FromKeyCode(Key(s));
      CodeShape(c);
      KeyInjective(Code(c).value, s);
    }
  }

  /** Reading a code back gives the character it was written for. */
  lemma DecodeComplete(c: char)
    ensures Code(c).Some? ==> Decode(Code(c).value) == Some(c)
  {
    if c == 'A' {
      EntryA();
    } else if c == 'B' {
      EntryB();
    } else if c == 'C' {
      EntryC();
    } else if c == 'D' {
      EntryD();
    } else if c == 'E' {
      EntryE();
    } else if c == 'F' {
      EntryF();
    } else if c == 'G' {
      EntryG();
    } else if c == 'H' {
      EntryH();
    } else if c == 'I' {
      EntryI();
    } else if c == 'J' {
      EntryJ();
    } else if c == 'K' {
      EntryK();
    } else if c == 'L' {
      EntryL();
    } else if c == 'M' {
      EntryM();
    } else if c == 'N' {
      EntryN();
    } else if c == 'O' {
      EntryO();
    } else if c == 'P' {
      EntryP();
    } else if c == 'Q' {
      EntryQ();
    } else if c == 'R' {
      EntryR();
    } else if c == 'S' {
      EntryS();
    } else if c == 'T' {
      EntryT();
    } else if c == 'U' {
      EntryU();
    } else if c == 'V' {
      EntryV();
    } else if c == 'W' {
      EntryW();
    } else if c == 'X' {
      EntryX();
    } else if c == 'Y' {
      EntryY();
    } else if c == 'Z' {
      EntryZ();
    } else if c == '1' {
      EntryDigit1();
    } else if c == '2' {
      EntryDigit2();
    } else if c == '3' {
      EntryDigit3();
    } else if c == '4' {
      EntryDigit4();
    } else if c == '5' {
      EntryDigit5();
    } else if c == '6' {
      EntryDigit6();
    } else if c == '7' {
      EntryDigit7();
    } else if c == '8' {
      EntryDigit8();
    } else if c == '9' {
      EntryDigit9();
    } else if c == '0' {
      EntryDigit0();
    } else {
      CodeShape(c);
    }
  }

  /** What `text_to_morse` writes for one (upper-cased) character, before its separating space. */
  function Piece(c: char): (r: string)
    ensures Code(c).Some? ==> r == Code(c).value
    ensures Code(c).None? ==> r == [c]
  {
    if Code(c).Some? then Code(c).value else [c]
  }

  /** The pieces of every character, each followed by a space. */
  function Spelled(s: string): (r: string)
  {
    if s == [] then [] else Piece(s[0]) + " " + Spelled(s[1..])
  }

  lemma {:induction false} SpelledSnoc(s: string, c: char)
    ensures Spelled(s + [c]) == Spelled(s) + Piece(c) + " "
  {
    if s == [] {
      assert s + [c] == [c];
    } else {
      assert (s + [c])[1..] == s[1..] + [c];
      SpelledSnoc(s[1..], c);
    }
  }

  /** `text_to_morse`. */
  method TextToMorse(text: string) returns (morse: string)
    ensures morse == Strip(Spelled(Upper(text)))
  {
    var up := Upper(text);
    var acc := "";
    var i := 0;
    while i < |up|
      invariant 0 <= i <= |up|
      invariant acc == Spelled(up[..i])
    {
      var c := up[i];
      var code := Code(c);
      if code.Some? {
        acc := acc + code.value + " ";
      } else {
        acc := acc + [c] + " ";
      }
      assert up[..i + 1] == up[..i] + [c];
      SpelledSnoc(up[..i], c);
      i := i + 1;
    }
    assert up[..i] == up;
    morse := Strip(acc);
  }

  /** What `morse_to_text` appends for one code: its character, or the code itself when the table does not know it. */
  function Read(code: string): (r: string)
    ensures Decode(code).Some? ==> r == [Decode(code).value]
    ensures Decode(code).None? ==> r == code
  {
    if Decode(code).Some? then [Decode(code).value] else code
  }

  function ReadAll(codes: seq<string>): (r: string)
  {
    if codes == [] then [] else Read(codes[0]) + ReadAll(codes[1..])
  }

  lemma {:induction false} ReadAllSnoc(codes: seq<string>, code: string)
    ensures ReadAll(codes + [code]) == ReadAll(codes) + Read(code)
  {
    if codes == [] {
      assert codes + [code] == [code];
    } else {
      assert (codes + [code])[1..] == codes[1..] + [code];
      ReadAllSnoc(codes[1..], code);
    }
  }

  /** `morse_to_text`. */
  method MorseToText(morse: string) returns (text: string)
    ensures text == ReadAll(SplitWs(morse))
  {
    var codes := SplitWs(morse);
    text := "";
    var i := 0;
    while i < |codes|
      invariant 0 <= i <= |codes|
      invariant text == ReadAll(codes[..i])
    {
      var code := codes[i];
      var c := Decode(code);
      if c.Some? {
        text := text + [c.value];
      } else {
        text := text + code;
      }
      assert codes[..i + 1] == codes[..i] + [code];
      ReadAllSnoc(codes[..i], code);
      i := i + 1;
    }
    assert codes[..i] == codes;
  }

  /** The characters `split()` keeps: everything but whitespace. */
  function Visible(s: string): (r: string)
    ensures forall i :: 0 <= i < |r| ==> !IsSpace(r[i])
  {
    FilterKept(c => !IsSpace(c), s);
    Filter(c => !IsSpace(c), s)
  }

  /** A character that is not `.` or `-` reads back as itself from its piece. */
  lemma ReadPiece(c: char)
    requires !IsSpace(c) && c != '.' && c != '-'
    ensures IsWord(Piece(c)) && Read(Piece(c)) == [c]
  {
    DecodeComplete(c);
    CodeShape(c);
    if Code(c).None? {
      var p := Piece(c);
      assert p == [c];
    }
  }

  /** Reading back what was spelled gives the visible characters, for text without `.` and `-`. */
  lemma {:induction false} ReadSpelled(s: string)
    requires '.' !in s && '-' !in s
    ensures ReadAll(SplitWs(Spelled(s))) == Visible(s)
  {
    if s != [] {
      var c, rest := s[0], s[1..];
      assert '.' !in rest && '-' !in rest by {
        assert forall k :: 0 <= k < |rest| ==> rest[k] == s[k + 1];
      }
      ReadSpelled(rest);
      var e := Spelled(rest);
      assert Spelled(s) == Piece(c) + ([' '] + e);
      SplitSpaceThen(' ', e);
      if IsSpace(c) {
        CodeShape(c);
        assert Piece(c) == [if c == ' ' then ' ' else c];
        SplitSpaceThen(Piece(c)[0], [' '] + e);
        assert Visible(s) == Visible(rest);
      } else {
        ReadPiece(c);
        SplitWordThen(Piece(c), [' '] + e);
        assert Visible(s) == [c] + Visible(rest);
      }
    }
  }

  /**
   * Translating to Morse and back gives the upper-cased text without its
   * whitespace, as long as the text holds no `.` or `-` (which would come
   * back as `E` and `T`).
   */
  lemma RoundTrip(text: string)
    requires '.' !in text && '-' !in text
    ensures ReadAll(SplitWs(Strip(Spelled(Upper(text))))) == Visible(Upper(text))
  {
    UpperNoSignals(text);
    RoundTripUpper(Upper(text));
  }

  /** The round trip once the text is upper-cased. */
  lemma RoundTripUpper(up: string)
    requires '.' !in up && '-' !in up
    ensures ReadAll(SplitWs(Strip(Spelled(up)))) == Visible(up)
  {
    SplitStrip(Spelled(up));
    ReadSpelled(up);
  }

  /** Upper-casing brings in no `.` and no `-`. */
  lemma UpperNoSignals(text: string)
    requires '.' !in text && '-' !in text
    ensures '.' !in Upper(text) && '-' !in Upper(text)
  {
    var up := Upper(text);
    assert forall k :: 0 <= k < |up| ==> up[k] == ToUpper(text[k]);
  }

  /** Upper-case letters and digits come back exactly. */
  lemma RoundTripPlain(text: string)
    requires forall i :: 0 <= i < |text| ==> IsUpper(text[i]) || IsDigit(text[i])
    ensures ReadAll(SplitWs(Strip(Spelled(Upper(text))))) == text
  {
    PlainFacts(text);
    RoundTripUpper(text);
  }

  /** Text of upper-case letters and digits is its own upper-case form, has no whitespace, and no `.` or `-`. */
  lemma PlainFacts(text: string)
    requires forall i :: 0 <= i < |text| ==> IsUpper(text[i]) || IsDigit(text[i])
    ensures Upper(text) == text && Visible(text) == text
    ensures '.' !in text && '-' !in text
  {
    PlainUpper(text);
    PlainVisible(text);
  }

  lemma PlainUpper(text: string)
    requires forall i :: 0 <= i < |text| ==> IsUpper(text[i]) || IsDigit(text[i])
    ensures Upper(text) == text
  {
    var up := Upper(text);
    forall k | 0 <= k < |text|
      ensures up[k] == text[k]
    {
      assert !IsLower(text[k]);
    }
  }

  lemma PlainVisible(text: string)
    requires forall i :: 0 <= i < |text| ==> IsUpper(text[i]) || IsDigit(text[i])
    ensures Visible(text) == text
  {
    assert forall i :: 0 <= i < |text| ==> !IsSpace(text[i]);
    FilterAll(c => !IsSpace(c), text);
  }

  /** A character of Morse as this translator writes it. */
  predicate IsSignal(ch: char) {
    ch == '.' || ch == '-' || ch == ' '
  }

  lemma {:induction false} SpelledSignals(s: string)
    requires forall i :: 0 <= i < |s| ==> IsUpper(s[i]) || IsDigit(s[i]) || s[i] == ' '
    ensures forall i :: 0 <= i < |Spelled(s)| ==> IsSignal(Spelled(s)[i])
  {
    if s != [] {
      SpelledSignals(s[1..]);
      CodeShape(s[0]);
      var p, e := Piece(s[0]), Spelled(s[1..]);
      assert Spelled(s) == p + " " + e;
      assert forall i :: 0 <= i < |p| ==> IsSignal(p[i]);
    }
  }

  /** Letters, digits and spaces are written with dots, dashes and spaces only. */
  lemma SignalsOnly(text: string)
    requires forall i :: 0 <= i < |text| ==> IsAlnum(text[i]) || text[i] == ' '
    ensures var m := Strip(Spelled(Upper(text))); forall i :: 0 <= i < |m| ==> IsSignal(m[i])
  {
    var up := Upper(text);
    assert forall i :: 0 <= i < |up| ==> IsUpper(up[i]) || IsDigit(up[i]) || up[i] == ' ';
    var sp := Spelled(up);
    assert forall i :: 0 <= i < |sp| ==> IsSignal(sp[i]) by {
      SpelledSignals(up);
    }
    StripSignals(sp);
  }

  lemma StripSignals(sp: string)
    requires forall i :: 0 <= i < |sp| ==> IsSignal(sp[i])
    ensures var m := Strip(sp); forall i :: 0 <= i < |m| ==> IsSignal(m[i])
  {
    var m := Strip(sp);
    var j :| OccursAt(sp, m, j);
    assert forall i :: 0 <= i < |m| ==> m[i] == sp[j + i];
  }

  /** A `.` in the text does not survive: it is written as the code of `E`. */
  lemma DotReadsAsE()
    ensures ReadAll(SplitWs(Strip(Spelled(Upper("."))))) == "E"
  {
    DotSpelled();
    DotStripped();
    DotSplit();
    EntryE();
    assert ReadAll(["."]) == Read(".") + ReadAll([]);
  }

  lemma DotSpelled()
    ensures Spelled(Upper(".")) == ". "
  {
    assert Upper(".") == ".";
    assert Code('.') == None;
  }

  lemma DotStripped()
    ensures Strip(". ") == "."
  {
    assert StripLeft(". ") == ". ";
    assert StripRight(". ") == ".";
  }

  lemma DotSplit()
    ensures SplitWs(".") == ["."]
  {
    var d := ".";
    assert TokenLen(d) == 1 && !IsSpace(d[0]);
    assert d[..1] == d && d[1..] == [];
  }
}
