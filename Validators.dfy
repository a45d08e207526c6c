/**
 * The module-level validators of the contact-book package
 * (036-project/utils/validators.py).  They use the same two patterns and the
 * same strip test as `ContactValidator`.
 */
module Validators {
  import opened Text
  import opened Patterns
  import ContactValidator

  /** `validate_phone`: optional '+', optional '1', then 9 to 15 digits, up to a final newline. */
  function ValidatePhone(phone: string): (r: bool)
    ensures r <==> exists body :: EndsAt(phone, body) && PhoneRegex(body)
  {
    PhoneMatchIff(phone);
    PhoneShape(phone) || (phone != [] && phone[|phone| - 1] == '\n' && PhoneShape(phone[..|phone| - 1]))
  }

  /** `validate_email`: local part, '@', domain, '.', at least two letters, up to a final newline. */
  function ValidateEmail(email: string): (r: bool)
    ensures r <==> exists body :: EndsAt(email, body) && EmailRegex(body)
  {
    EmailMatchIff(email);
    EmailShape(email) || (email != [] && email[|email| - 1] == '\n' && EmailShape(email[..|email| - 1]))
  }

  /** `validate_name`: the name has a character that is not whitespace. */
  function ValidateName(name: string): (r: bool)
    ensures r <==> exists i :: 0 <= i < |name| && !IsSpace(name[i])
  {
    StripAllSpace(name);
    Strip(name) != []
  }

  /** The functions agree with the `ContactValidator` methods of the same names on every input. */
  lemma AgreeWithContactValidator(s: string)
    ensures ValidatePhone(s) == ContactValidator.ValidatePhone(s)
    ensures ValidateEmail(s) == ContactValidator.ValidateEmail(s)
    ensures ValidateName(s) == ContactValidator.ValidateName(s)
  {
  }
}
