/**
 * The Caesar cipher of `041_project/file_encryptor.py`: every ASCII letter
 * moves `shift` places round its own alphabet, every other character stays.
 * Reading and writing the files are reduced to their outcome: the text read,
 * or `None` when the input file could not be opened.
 */
module FileEncryptor {
  import opened Wrappers
  import opened Text

  /** The shift `encrypt_text` and `decrypt_text` use when none is given. */
  const DefaultShift: int := 3

  /** Python's `%` by 26, which is never negative, like Dafny's. */
  function Wrap(n: int): (r: nat)
    ensures r < 26
    ensures exists q :: n == 26 * q + r
  {
    assert n == 26 * (n / 26) + n % 26;
    n % 26
  }

  /** One character of `encrypt_text`. */
  function ShiftChar(c: char, shift: int): (r: char)
    ensures IsUpper(c) ==> IsUpper(r) && r as int - 'A' as int == Wrap(c as int - 'A' as int + shift)
    ensures IsLower(c) ==> IsLower(r) && r as int - 'a' as int == Wrap(c as int - 'a' as int + shift)
    ensures !IsLetter(c) ==> r == c
  {
    if IsLetter(c) then
      var base := if IsUpper(c) then 'A' as int else 'a' as int;
      (base + Wrap(c as int - base + shift)) as char
    else c
  }

  /** `encrypt_text(text, shift)`, character by character. */
  function Encrypted(text: string, shift: int): (r: string)
    ensures |r| == |text|
    ensures forall i :: 0 <= i < |text| ==> r[i] == ShiftChar(text[i], shift)
  {
    seq(|text|, i requires 0 <= i < |text| => ShiftChar(text[i], shift))
  }

  /** `encrypt_text`: the loop that builds the encrypted text. */
  method EncryptText(text: string, shift: int) returns (encrypted: string)
    ensures encrypted == Encrypted(text, shift)
  {
    encrypted := "";
    for i := 0 to |text|
      invariant encrypted == Encrypted(text[..i], shift)
    {
      var c := text[i];
      if IsLetter(c) {
        var asciiBase := if IsUpper(c) then 'A' as int else 'a' as int;
        var shifted := (c as int - asciiBase + shift) % 26;
        encrypted := encrypted + [(asciiBase + shifted) as char];
      } else {
        encrypted := encrypted + [c];
      }
    }
    assert text[..|text|] == text;
  }

  /** `decrypt_text`: encryption the other way round. */
  method DecryptText(text: string, shift: int) returns (decrypted: string)
    ensures decrypted == Encrypted(text, -shift)
  {
    decrypted := EncryptText(text, -shift);
  }

  /** Moving a position of the alphabet forward and back again lands on it. */
  lemma WrapBack(a: int, shift: int)
    requires 0 <= a < 26
    ensures Wrap(Wrap(a + shift) - shift) == a
  {
    var q :| a + shift == 26 * q + Wrap(a + shift);
    assert Wrap(a + shift) - shift == a - 26 * q;
    var p :| a - 26 * q == 26 * p + Wrap(a - 26 * q);
    assert 26 * (p + q) == a - Wrap(a - 26 * q);
    assert -26 < a - Wrap(a - 26 * q) < 26;
  }

  /** Every character comes back after a shift and the opposite shift. */
  lemma ShiftBack(c: char, shift: int)
    ensures ShiftChar(ShiftChar(c, shift), -shift) == c
  {
    if IsUpper(c) {
      WrapBack(c as int - 'A' as int, shift);
    } else if IsLower(c) {
      WrapBack(c as int - 'a' as int, shift);
    }
  }

  /** `decrypt_text(encrypt_text(t, k), k) == t`. */
  lemma DecryptEncrypt(text: string, shift: int)
    ensures Encrypted(Encrypted(text, shift), -shift) == text
  {
    var r := Encrypted(Encrypted(text, shift), -shift);
    forall i | 0 <= i < |text|
      ensures r[i] == text[i]
    {
      ShiftBack(text[i], shift);
    }
  }

  /** A whole number of turns round the alphabet changes nothing. */
  lemma FullTurns(text: string, turns: int)
    ensures Encrypted(text, 26 * turns) == text
  {
    var r := Encrypted(text, 26 * turns);
    forall i | 0 <= i < |text|
      ensures r[i] == text[i]
    {
      var c := text[i];
      if IsLetter(c) {
        var a := if IsUpper(c) then c as int - 'A' as int else c as int - 'a' as int;
        var q :| a + 26 * turns == 26 * q + Wrap(a + 26 * turns);
        assert 26 * (q - turns) == a - Wrap(a + 26 * turns);
      }
    }
  }

  /**
   * `process_file` once the input has been read (`None` when it could not
   * be opened or read) and given whether opening and writing the output
   * succeeds.  `processed` is the text handed to the output file, `None`
   * when the input was not read; `true` is returned exactly when the text
   * was read and written.  The default shift is used both ways.
   */
  method ProcessFile(contents: Option<string>, writeOk: bool, encrypt: bool) returns (ok: bool, processed: Option<string>)
    ensures ok <==> contents.Some? && writeOk
    ensures contents.Some? ==> processed == Some(Encrypted(contents.value, if encrypt then DefaultShift else -DefaultShift))
    ensures contents.None? ==> processed.None?
  {
    if contents.None? {
      return false, None;
    }
    var text: string;
    if encrypt {
      text := EncryptText(contents.value, DefaultShift);
    } else {
      text := DecryptText(contents.value, DefaultShift);
    }
    if !writeOk {
      return false, Some(text);
    }
    return true, Some(text);
  }

  /** Decrypting the file that encrypting wrote gives the original text back. */
  lemma ProcessRoundTrip(text: string)
    ensures Encrypted(Encrypted(text, DefaultShift), -DefaultShift) == text
  {
    DecryptEncrypt(text, DefaultShift);
  }
}
