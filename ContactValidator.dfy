/**
 * `ContactValidator` of the contact-book package (036/utils/validators.py):
 * three stateless checks, so plain functions here.  Digits are ASCII digits.
 */
module ContactValidator {
  import opened Wrappers
  import opened Text
  import opened Patterns

  /** `validate_phone`: optional '+', optional '1', then 9 to 15 digits, up to a final newline. */
  function ValidatePhone(phone: string): (r: bool)
    ensures r <==> exists body :: EndsAt(phone, body) && PhoneRegex(body)
  {
    PhoneMatchIff(phone);
    PhoneMatch(phone)
  }

  /** `validate_email`: local part, '@', domain, '.', at least two letters, up to a final newline. */
  function ValidateEmail(email: string): (r: bool)
    ensures r <==> exists body :: EndsAt(email, body) && EmailRegex(body)
  {
    EmailMatchIff(email);
    EmailMatch(email)
  }

  /** `validate_name`: the name has a character that is not whitespace. */
  function ValidateName(name: string): (r: bool)
    ensures r <==> exists i :: 0 <= i < |name| && !IsSpace(name[i])
  {
    HasNonSpace(name)
  }

  /** The phone cases of the package's unit tests. */
  lemma PhoneExamples()
    ensures ValidatePhone("+1234567890") && ValidatePhone("1234567890")
    ensures !ValidatePhone("123") && !ValidatePhone("abc")
  {
    assert AfterPlus("+1234567890") == "1234567890";
    assert PhoneShape("1234567890");
    assert !PhoneShape("abc") by { assert !IsDigit("abc"[0]); }
    assert !PhoneShape("ab") by { assert !IsDigit("ab"[0]); }
  }

  /** The email cases of the package's unit tests. */
  lemma EmailAccepted()
    ensures ValidateEmail("test@example.com")
  {
    var s := "test@example.com";
    ExampleParts(s);
    assert EmailRegex(s);
    assert EndsAt(s, s);
  }

  lemma ExampleParts(s: string)
    requires s == "test@example.com"
    ensures EmailParts(s, 4, 12)
  {
    assert forall k :: 0 <= k < 4 ==> IsLocalChar(s[k]);
    assert forall k :: 4 < k < 12 ==> IsDomainChar(s[k]);
    assert forall k :: 12 < k < |s| ==> IsLetter(s[k]);
  }

  lemma EmailRejected()
    ensures !ValidateEmail("invalid_email")
  {
    var s := "invalid_email";
    assert '@' !in s;
    assert '@' !in s[..|s| - 1];
    assert IndexOf(s, '@') == None;
    assert IndexOf(s[..|s| - 1], '@') == None;
  }

  /** An accepted phone number (no final newline) is 9 to 17 characters, all digits after an optional '+'. */
  lemma AcceptedPhoneShape(phone: string)
    requires ValidatePhone(phone) && (phone == [] || phone[|phone| - 1] != '\n')
    ensures 9 <= |phone| <= 17
    ensures forall i :: (if phone[0] == '+' then 1 else 0) <= i < |phone| ==> IsDigit(phone[i])
  {
    PhoneShapeBounds(phone);
  }
}
