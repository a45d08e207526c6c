/**
 * The contact book of `contact_book.py`: contacts with normalised phone
 * numbers, birthdays read with `strptime("%Y-%m-%d")`, a list of contacts in
 * which no two share the digits of their phone number, search, removal by
 * name, CSV import and named groups.  The clock (`datetime.now`,
 * `date.today`) is a parameter; files, the log and the history database are
 * not modelled.
 */
module ContactBook {
  import opened Wrappers
  import opened Text
  import opened Seqs
  import opened Patterns

  // ---------------------------------------------------------------------
  // Phone numbers

  /** The shape `(ddd) ddd-dddd`. */
  predicate IsFormatted(r: string) {
    |r| == 14 && r[0] == '(' && r[4] == ')' && r[5] == ' ' && r[9] == '-'
    && forall i :: 0 <= i < 14 && i !in {0, 4, 5, 9} ==> IsDigit(r[i])
  }

  /** The ten-digit layout of `_format_phone`. */
  function Layout(d: string): string
    requires |d| == 10
  {
    "(" + d[..3] + ") " + d[3..6] + "-" + d[6..]
  }

  lemma LayoutDigits(d: string)
    requires |d| == 10 && forall i :: 0 <= i < 10 ==> IsDigit(d[i])
    ensures Digits(Layout(d)) == d
  {
    var a, b, c := d[..3], d[3..6], d[6..];
    assert a + b + c == d;
    var p := "(" + a + ") " + b + "-";
    LayoutFrontDigits(a, b);
    DigitsOfDigits(c);
    DigitsConcat(p, c);
    assert Layout(d) == p + c;
  }

  lemma LayoutFrontDigits(a: string, b: string)
    requires forall i :: 0 <= i < |a| ==> IsDigit(a[i])
    requires forall i :: 0 <= i < |b| ==> IsDigit(b[i])
    ensures Digits("(" + a + ") " + b + "-") == a + b
  {
    var p2 := "(" + a + ") ";
    AreaCodeDigits(a);
    var p3 := p2 + b;
    AppendDigits(p2, b);
    AppendOthers(p3, "-");
  }

  lemma AreaCodeDigits(a: string)
    requires forall i :: 0 <= i < |a| ==> IsDigit(a[i])
    ensures Digits("(" + a + ") ") == a
  {
    NoDigits("(");
    var p1 := "(" + a;
    AppendDigits("(", a);
    assert Digits(p1) == a;
    DigitsConcat(p1, ") ");
    CloseParenDigits();
  }

  lemma CloseParenDigits()
    ensures Digits(") ") == []
  {
    assert ") "[1..] == " " && " "[1..] == [];
  }

  lemma AppendDigits(p: string, s: string)
    requires forall i :: 0 <= i < |s| ==> IsDigit(s[i])
    ensures Digits(p + s) == Digits(p) + s
  {
    DigitsOfDigits(s);
    DigitsConcat(p, s);
  }

  lemma AppendOthers(p: string, s: string)
    requires forall i :: 0 <= i < |s| ==> !IsDigit(s[i])
    ensures Digits(p + s) == Digits(p)
  {
    NoDigits(s);
    DigitsConcat(p, s);
  }

  lemma LayoutShape(d: string)
    requires |d| == 10 && forall i :: 0 <= i < 10 ==> IsDigit(d[i])
    ensures IsFormatted(Layout(d))
  {
    var r := Layout(d);
    assert forall i :: 1 <= i < 4 ==> r[i] == d[i - 1];
    assert forall i :: 6 <= i < 9 ==> r[i] == d[i - 3];
    assert forall i :: 10 <= i < 14 ==> r[i] == d[i - 4];
  }

  /**
   * `_format_phone`: when the input holds exactly ten digits they are laid
   * out as `(ddd) ddd-dddd`; any other input is kept as it is.  Either way
   * the digits are those of the input.
   */
  function FormatPhone(phone: string): (r: string)
    ensures Digits(r) == Digits(phone)
    ensures |Digits(phone)| == 10 ==> IsFormatted(r)
    ensures |Digits(phone)| != 10 ==> r == phone
  {
    var d := Digits(phone);
    if |d| == 10 then
      LayoutDigits(d);
      LayoutShape(d);
      Layout(d)
    else phone
  }

  /** Formatting a formatted number changes nothing. */
  lemma FormatPhoneIdempotent(phone: string)
    ensures FormatPhone(FormatPhone(phone)) == FormatPhone(phone)
  {
  }

  // ---------------------------------------------------------------------
  // Birthdays: `datetime.strptime(text, "%Y-%m-%d")`

  datatype Date = Date(year: int, month: int, day: int)

  function DigitValue(c: char): int { c as int - '0' as int }

  predicate InRange(c: char, lo: char, hi: char) { lo <= c <= hi }

  /** The alternatives of `%m`, tried in order: `1[0-2]`, `0[1-9]`, `[1-9]`; the value and the length read. */
  function MonthToken(s: string): (r: Option<(int, nat)>)
    ensures r.Some? ==> 1 <= r.value.0 <= 12 && 1 <= r.value.1 <= 2 && r.value.1 <= |s|
  {
    if |s| >= 2 && s[0] == '1' && InRange(s[1], '0', '2') then Some((10 + DigitValue(s[1]), 2))
    else if |s| >= 2 && s[0] == '0' && InRange(s[1], '1', '9') then Some((DigitValue(s[1]), 2))
    else if |s| >= 1 && InRange(s[0], '1', '9') then Some((DigitValue(s[0]), 1))
    else None
  }

  /**
   * The alternatives of `%d`, tried in order: `3[01]`, `[12]\d`, `0[1-9]`,
   * `[1-9]`, ` [1-9]` (a space then a digit); the value and the length read.
   */
  function DayToken(s: string): (r: Option<(int, nat)>)
    ensures r.Some? ==> 1 <= r.value.0 <= 31 && 1 <= r.value.1 <= 2 && r.value.1 <= |s|
  {
    if |s| >= 2 && s[0] == '3' && InRange(s[1], '0', '1') then Some((30 + DigitValue(s[1]), 2))
    else if |s| >= 2 && InRange(s[0], '1', '2') && IsDigit(s[1]) then Some((10 * DigitValue(s[0]) + DigitValue(s[1]), 2))
    else if |s| >= 2 && s[0] == '0' && InRange(s[1], '1', '9') then Some((DigitValue(s[1]), 2))
    else if |s| >= 1 && InRange(s[0], '1', '9') then Some((DigitValue(s[0]), 1))
    else if |s| >= 2 && s[0] == ' ' && InRange(s[1], '1', '9') then Some((DigitValue(s[1]), 2))
    else None
  }

  predicate IsLeap(y: int) { y % 4 == 0 && (y % 100 != 0 || y % 400 == 0) }

  function DaysIn(year: int, month: int): int {
    if month == 2 then (if IsLeap(year) then 29 else 28)
    else if month in {4, 6, 9, 11} then 30
    else 31
  }

  /** A day the `date` type accepts. */
  predicate IsCalendarDate(d: Date) {
    1 <= d.year <= 9999 && 1 <= d.month <= 12 && 1 <= d.day <= DaysIn(d.year, d.month)
  }

  /**
   * `strptime(s, "%Y-%m-%d")`: four digits, '-', a month, '-', a day, with
   * nothing left over (the first alternative that matches is kept), and a
   * real calendar day; `None` where Python raises `ValueError`.
   */
  function ParseDate(s: string): (r: Option<Date>)
    ensures r.Some? ==> IsCalendarDate(r.value)
  {
    if |s| < 5 || !IsDigit(s[0]) || !IsDigit(s[1]) || !IsDigit(s[2]) || !IsDigit(s[3]) || s[4] != '-' then None
    else
      var year := 1000 * DigitValue(s[0]) + 100 * DigitValue(s[1]) + 10 * DigitValue(s[2]) + DigitValue(s[3]);
      match MonthToken(s[5..])
      case None => None
      case Some((month, ml)) =>
        var k := 5 + ml;
        if k >= |s| || s[k] != '-' then None
        else match DayToken(s[k + 1..])
          case None => None
          case Some((day, dl)) =>
            if k + 1 + dl != |s| then None
            else if !IsCalendarDate(Date(year, month, day)) then None
            else Some(Date(year, month, day))
  }

  function DigitChar(n: int): char
    requires 0 <= n <= 9
  {
    ('0' as int + n) as char
  }

  /** Two digits with a leading zero, as `%m` and `%d` print. */
  function TwoDigits(n: int): string
    requires 0 <= n <= 99
  {
    [DigitChar(n / 10), DigitChar(n % 10)]
  }

  /** The `YYYY-MM-DD` text of a calendar day. */
  function FormatDate(d: Date): string
    requires IsCalendarDate(d)
  {
    [DigitChar(d.year / 1000), DigitChar(d.year / 100 % 10), DigitChar(d.year / 10 % 10), DigitChar(d.year % 10)]
    + "-" + TwoDigits(d.month) + "-" + TwoDigits(d.day)
  }

  lemma YearDigits(y: int)
    requires 1 <= y <= 9999
    ensures 1000 * (y / 1000) + 100 * (y / 100 % 10) + 10 * (y / 10 % 10) + y % 10 == y
  {
    var r1, d0 := y / 10, y % 10;
    var r2, d1 := r1 / 10, r1 % 10;
    var r3, d2 := r2 / 10, r2 % 10;
    assert y == 1000 * r3 + 100 * d2 + 10 * d1 + d0;
    assert r1 == y / 10;
    assert r2 == y / 100;
    assert r3 == y / 1000;
  }

  lemma MonthTokenOf(m: int, rest: string)
    requires 1 <= m <= 12
    ensures MonthToken(TwoDigits(m) + rest) == Some((m, 2))
  {
    var s := TwoDigits(m) + rest;
    assert s[0] == DigitChar(m / 10) && s[1] == DigitChar(m % 10);
  }

  lemma DayTokenOf(d: int)
    requires 1 <= d <= 31
    ensures DayToken(TwoDigits(d)) == Some((d, 2))
  {
  }

  /** Every calendar day reads back from its `YYYY-MM-DD` text. */
  lemma ParseFormatDate(d: Date)
    requires IsCalendarDate(d)
    ensures ParseDate(FormatDate(d)) == Some(d)
  {
    var s := FormatDate(d);
    YearDigits(d.year);
    assert s[5..] == TwoDigits(d.month) + "-" + TwoDigits(d.day);
    MonthTokenOf(d.month, "-" + TwoDigits(d.day));
    assert s[7] == '-';
    assert s[8..] == TwoDigits(d.day);
    DayTokenOf(d.day);
  }

  /** The `%d` alternative ` [1-9]` lets a space stand for a leading zero. */
  lemma SpacedDayAccepted()
    ensures ParseDate("2001-02- 3") == Some(Date(2001, 2, 3))
  {
    var s := "2001-02- 3";
    assert s[5..] == "02- 3" && s[8..] == " 3";
  }

  /** Calendar validation rejects the 29th of February outside leap years. */
  lemma NoFebruary29In2001()
    ensures ParseDate("2001-02-29") == None
  {
    var s := "2001-02-29";
    assert s[5..] == "02-29" && s[8..] == "29";
    assert !IsLeap(2001);
  }

  datatype Contact = Contact(name: string, phone: string, email: string, address: string,
                             birthday: string, notes: string, createdAt: string)

  /** `Contact(name, phone, ...)` created at clock text `now`: the phone number is formatted. */
  function NewContact(name: string, phone: string, email: string, address: string,
                      birthday: string, notes: string, now: string): (c: Contact)
    ensures c.phone == FormatPhone(phone) && Digits(c.phone) == Digits(phone)
    ensures c.name == name && c.email == email && c.address == address
    ensures c.birthday == birthday && c.notes == notes && c.createdAt == now
  {
    Contact(name, FormatPhone(phone), email, address, birthday, notes, now)
  }

  /** `Contact.validate_email`: empty is accepted, otherwise the address pattern must match. */
  function ValidateEmail(email: string): (r: bool)
    ensures r <==> email == [] || exists body :: EndsAt(email, body) && EmailRegex(body)
  {
    EmailMatchIff(email);
    email == [] || EmailMatch(email)
  }

  /** `Contact.validate_birthday`: empty is accepted, otherwise it must parse as a calendar day. */
  function ValidateBirthday(birthday: string): (r: bool)
    ensures r <==> birthday == [] || ParseDate(birthday).Some?
    ensures r && birthday != [] ==> IsCalendarDate(ParseDate(birthday).value)
  {
    birthday == [] || ParseDate(birthday).Some?
  }

  /** `(month, day)` of `a` comes strictly before that of `b`. */
  predicate BeforeInYear(a: Date, b: Date) {
    a.month < b.month || (a.month == b.month && a.day < b.day)
  }

  /** `a` is no later than `b`, comparing year, month and day in turn. */
  predicate DateLeq(a: Date, b: Date) {
    a.year < b.year || (a.year == b.year && !BeforeInYear(b, a))
  }

  /** `get_age` on the day `today`: completed years, or `None` without a readable birthday. */
  function GetAge(c: Contact, today: Date): (r: Option<int>)
    ensures r.None? <==> c.birthday == [] || ParseDate(c.birthday).None?
  {
    if c.birthday == [] then None
    else match ParseDate(c.birthday)
      case None => None
      case Some(b) =>
        var age := today.year - b.year;
        Some(if BeforeInYear(today, b) then age - 1 else age)
  }

  /**
   * The age is the number of birthdays reached: the `age`-th anniversary
   * (same month and day) is no later than today and the next one is later.
   */
  lemma AgeIsCompletedYears(c: Contact, today: Date)
    requires GetAge(c, today).Some?
    ensures var b := ParseDate(c.birthday).value; var age := GetAge(c, today).value;
      DateLeq(Date(b.year + age, b.month, b.day), today)
      && !DateLeq(Date(b.year + age + 1, b.month, b.day), today)
  {
  }

  // ---------------------------------------------------------------------
  // The book

  /** The digits that identify a contact's phone number. */
  function PhoneKey(c: Contact): string { Digits(c.phone) }

  /** Some contact's phone number has the same digits as `phone`. */
  predicate PhoneTaken(cs: seq<Contact>, phone: string) {
    KeyTaken(cs, Digits(phone))
  }

  /** Some contact's phone digits are `key`, looking from the front. */
  predicate KeyTaken(cs: seq<Contact>, key: string)
    decreases |cs|
  {
    cs != [] && (PhoneKey(cs[0]) == key || KeyTaken(cs[1..], key))
  }

  lemma {:induction false} KeyTakenIff(cs: seq<Contact>, key: string)
    ensures KeyTaken(cs, key) <==> exists i :: 0 <= i < |cs| && PhoneKey(cs[i]) == key
    decreases |cs|
  {
    if cs != [] {
      var rest := cs[1..];
      KeyTakenIff(rest, key);
      if KeyTaken(rest, key) {
        var i :| 0 <= i < |rest| && PhoneKey(rest[i]) == key;
        assert cs[i + 1] == rest[i];
      }
      if exists i :: 0 <= i < |cs| && PhoneKey(cs[i]) == key {
        var i :| 0 <= i < |cs| && PhoneKey(cs[i]) == key;
        if i > 0 {
          assert rest[i - 1] == cs[i];
        }
      }
    }
  }

  /** A phone is taken exactly when some contact holds its digits. */
  lemma PhoneTakenIff(cs: seq<Contact>, phone: string)
    ensures PhoneTaken(cs, phone) <==> exists i :: 0 <= i < |cs| && PhoneKey(cs[i]) == Digits(phone)
  {
    KeyTakenIff(cs, Digits(phone));
  }

  lemma {:induction false} KeyTakenAppend(cs: seq<Contact>, c: Contact, key: string)
    ensures KeyTaken(cs + [c], key) <==> KeyTaken(cs, key) || PhoneKey(c) == key
    decreases |cs|
  {
    if cs == [] {
      assert [c][1..] == [];
    } else {
      assert (cs + [c])[1..] == cs[1..] + [c];
      KeyTakenAppend(cs[1..], c, key);
    }
  }

  lemma {:induction false} KeyTakenFilter(f: Contact -> bool, cs: seq<Contact>, key: string)
    requires !KeyTaken(cs, key)
    ensures !KeyTaken(Filter(f, cs), key)
    decreases |cs|
  {
    if cs != [] {
      KeyTakenFilter(f, cs[1..], key);
      if f(cs[0]) {
        var t := Filter(f, cs);
        assert t == [cs[0]] + Filter(f, cs[1..]);
        assert t[0] == cs[0] && t[1..] == Filter(f, cs[1..]);
      } else {
        assert Filter(f, cs) == Filter(f, cs[1..]);
      }
    }
  }

  /**
   * No two contacts share the digits of their phone numbers, stated contact
   * by contact from the front: the first one's digits are free in the rest.
   */
  predicate DistinctPhones(cs: seq<Contact>)
    decreases |cs|
  {
    cs == [] || (!KeyTaken(cs[1..], PhoneKey(cs[0])) && DistinctPhones(cs[1..]))
  }

  /** The same as no two positions holding the same phone digits. */
  lemma {:induction false} DistinctPairwise(cs: seq<Contact>)
    ensures DistinctPhones(cs) <==> forall i, j :: 0 <= i < j < |cs| ==> PhoneKey(cs[i]) != PhoneKey(cs[j])
    decreases |cs|
  {
    if cs != [] {
      var rest := cs[1..];
      DistinctPairwise(rest);
      KeyTakenIff(rest, PhoneKey(cs[0]));
      assert forall i :: 0 <= i < |rest| ==> rest[i] == cs[i + 1];
      if DistinctPhones(cs) {
        forall i, j | 0 <= i < j < |cs| ensures PhoneKey(cs[i]) != PhoneKey(cs[j]) {
          if i > 0 {
            assert PhoneKey(rest[i - 1]) != PhoneKey(rest[j - 1]);
          } else {
            assert PhoneKey(rest[j - 1]) != PhoneKey(cs[0]);
          }
        }
      }
      if forall i, j :: 0 <= i < j < |cs| ==> PhoneKey(cs[i]) != PhoneKey(cs[j]) {
        forall i, j | 0 <= i < j < |rest| ensures PhoneKey(rest[i]) != PhoneKey(rest[j]) {
          assert PhoneKey(cs[i + 1]) != PhoneKey(cs[j + 1]);
        }
        forall k | 0 <= k < |rest| ensures PhoneKey(rest[k]) != PhoneKey(cs[0]) {
          assert PhoneKey(cs[0]) != PhoneKey(cs[k + 1]);
        }
      }
    }
  }

  lemma {:induction false} AppendDistinct(cs: seq<Contact>, c: Contact)
    requires DistinctPhones(cs) && !PhoneTaken(cs, c.phone)
    ensures DistinctPhones(cs + [c])
    decreases |cs|
  {
    if cs == [] {
      assert [c][1..] == [];
    } else {
      var rest := cs[1..];
      assert (cs + [c])[1..] == rest + [c];
      AppendDistinct(rest, c);
      KeyTakenAppend(rest, c, PhoneKey(cs[0]));
    }
  }

  function NameIsNot(name: string): Contact -> bool {
    (c: Contact) => Lower(c.name) != Lower(name)
  }

  /** The filter of `search_contact` for the lower-cased query `q`. */
  function MatchesQuery(q: string): Contact -> bool {
    (c: Contact) => Contains(Lower(c.name), q) || Contains(c.phone, q) || Contains(Lower(c.email), q)
                    || Contains(Lower(c.address), q)
  }

  lemma {:induction false} FilterDistinct(f: Contact -> bool, cs: seq<Contact>)
    requires DistinctPhones(cs)
    ensures DistinctPhones(Filter(f, cs))
    decreases |cs|
  {
    if cs != [] {
      var rest := cs[1..];
      FilterDistinct(f, rest);
      if f(cs[0]) {
        var t := Filter(f, cs);
        assert t == [cs[0]] + Filter(f, rest);
        assert t[1..] == Filter(f, rest);
        KeyTakenFilter(f, rest, PhoneKey(cs[0]));
      } else {
        assert Filter(f, cs) == Filter(f, rest);
      }
    }
  }

  /** A CSV column: one of the parameters of `Contact(...)`, or any other header. */
  datatype Column = Name | Phone | Email | Address | Birthday | Notes | Other(header: string)

  /** The column a CSV header names. */
  function ColumnOf(header: string): (c: Column)
    ensures c.Other? ==> c.header == header
  {
    if header == "name" then Name
    else if header == "phone" then Phone
    else if header == "email" then Email
    else if header == "address" then Address
    else if header == "birthday" then Birthday
    else if header == "notes" then Notes
    else Other(header)
  }

  /** Exactly the six parameter names of `Contact(...)` are known columns. */
  lemma ColumnOfKnown(header: string)
    ensures !ColumnOf(header).Other? <==> header in {"name", "phone", "email", "address", "birthday", "notes"}
  {
  }

  /** A CSV row: the cell text under the column each header names. */
  type Row = map<Column, string>

  /** Every column of the row is a parameter of `Contact(...)`. */
  predicate KnownColumns(row: Row) {
    forall k :: k in row ==> !k.Other?
  }

  function Cell(row: Row, key: Column): string { if key in row then row[key] else "" }

  /**
   * `Contact(**row)`: `None` where Python raises `TypeError` (an unknown
   * column, or no name or phone).
   */
  function ContactFromRow(row: Row, now: string): (r: Option<Contact>)
    ensures r.Some? <==> KnownColumns(row) && Name in row && Phone in row
    ensures r.Some? ==> Digits(r.value.phone) == Digits(row[Phone])
  {
    if KnownColumns(row) && Name in row && Phone in row then
      Some(NewContact(row[Name], row[Phone], Cell(row, Email), Cell(row, Address),
                      Cell(row, Birthday), Cell(row, Notes), now))
    else None
  }

  /** What importing `rows` onto `cs` leaves: the contacts, both counters, and whether it stopped on an error. */
  datatype Import = Import(contacts: seq<Contact>, imported: nat, skipped: nat, failed: bool)

  /**
   * One row of `import_from_csv`.  After an error nothing more happens.  A
   * row without a phone column, or one that `Contact(**row)` refuses, ends
   * the import with an error, keeping the contacts added so far; a row whose
   * phone digits are taken (also by a row imported just before) is skipped;
   * any other row adds its contact.
   */
  function ImportStep(r: Import, row: Row, now: string): Import {
    if r.failed then r
    else if Phone !in row then r.(failed := true)
    else if PhoneTaken(r.contacts, row[Phone]) then r.(skipped := r.skipped + 1)
    else match ContactFromRow(row, now)
      case None => r.(failed := true)
      case Some(c) => r.(contacts := r.contacts + [c], imported := r.imported + 1)
  }

  /** What importing `rows` in order onto the contacts `cs` leaves. */
  function ImportRows(cs: seq<Contact>, rows: seq<Row>, now: string): Import
    decreases |rows|
  {
    if rows == [] then Import(cs, 0, 0, false)
    else ImportStep(ImportRows(cs, rows[..|rows| - 1], now), rows[|rows| - 1], now)
  }

  lemma ImportSnoc(cs: seq<Contact>, rows: seq<Row>, row: Row, now: string)
    ensures ImportRows(cs, rows + [row], now) == ImportStep(ImportRows(cs, rows, now), row, now)
  {
    assert (rows + [row])[..|rows|] == rows;
  }

  /** The rows up to `i` and one more are those up to `i` and then row `i`. */
  lemma ImportPrefix(cs: seq<Contact>, rows: seq<Row>, i: nat, now: string)
    requires i < |rows|
    ensures ImportRows(cs, rows[..i + 1], now) == ImportStep(ImportRows(cs, rows[..i], now), rows[i], now)
  {
    assert rows[..i + 1][..i] == rows[..i];
  }

  /** A row whose phone digits are taken counts as skipped and changes nothing else. */
  lemma ImportSkip(cs: seq<Contact>, rows: seq<Row>, row: Row, now: string)
    requires !ImportRows(cs, rows, now).failed
    requires Phone in row && PhoneTaken(ImportRows(cs, rows, now).contacts, row[Phone])
    ensures var r := ImportRows(cs, rows, now); ImportRows(cs, rows + [row], now) == r.(skipped := r.skipped + 1)
  {
    ImportSnoc(cs, rows, row, now);
  }

  /** A row whose phone digits are free, and that makes a contact, adds that contact at the end. */
  lemma ImportAdd(cs: seq<Contact>, rows: seq<Row>, row: Row, now: string)
    requires !ImportRows(cs, rows, now).failed
    requires Phone in row && !PhoneTaken(ImportRows(cs, rows, now).contacts, row[Phone])
    requires ContactFromRow(row, now).Some?
    ensures var r := ImportRows(cs, rows, now);
      ImportRows(cs, rows + [row], now)
      == r.(contacts := r.contacts + [ContactFromRow(row, now).value], imported := r.imported + 1)
  {
    ImportSnoc(cs, rows, row, now);
  }

  /** A row without a phone, or one whose contact cannot be built, ends the import with an error. */
  lemma ImportStop(cs: seq<Contact>, rows: seq<Row>, row: Row, now: string)
    requires !ImportRows(cs, rows, now).failed
    requires Phone !in row
             || (!PhoneTaken(ImportRows(cs, rows, now).contacts, row[Phone]) && ContactFromRow(row, now).None?)
    ensures ImportRows(cs, rows + [row], now) == ImportRows(cs, rows, now).(failed := true)
  {
    ImportSnoc(cs, rows, row, now);
  }

  /** Once an error has ended the import, the rows after it change nothing. */
  lemma {:induction false} ImportFailedSticks(cs: seq<Contact>, rows: seq<Row>, k: nat, now: string)
    requires k <= |rows| && ImportRows(cs, rows[..k], now).failed
    ensures ImportRows(cs, rows, now) == ImportRows(cs, rows[..k], now)
    decreases |rows|
  {
    if k < |rows| {
      var front := rows[..|rows| - 1];
      assert front[..k] == rows[..k];
      ImportFailedSticks(cs, front, k, now);
    } else {
      assert rows[..k] == rows;
    }
  }

  /**
   * An import that ends normally counts every row once, as imported or
   * skipped; the old contacts stay in front, one new contact is added per
   * imported row, and no two contacts end up sharing phone digits.
   */
  lemma {:induction false} ImportFacts(cs: seq<Contact>, rows: seq<Row>, now: string)
    ensures var r := ImportRows(cs, rows, now);
      (!r.failed ==> r.imported + r.skipped == |rows|)
      && r.imported + r.skipped <= |rows|
      && |r.contacts| == |cs| + r.imported && r.contacts[..|cs|] == cs
      && (DistinctPhones(cs) ==> DistinctPhones(r.contacts))
    decreases |rows|
  {
    if rows != [] {
      var front, row := rows[..|rows| - 1], rows[|rows| - 1];
      ImportFacts(cs, front, now);
      var p := ImportRows(cs, front, now);
      if !p.failed && Phone in row && !PhoneTaken(p.contacts, row[Phone]) && ContactFromRow(row, now).Some? {
        var c := ContactFromRow(row, now).value;
        assert (p.contacts + [c])[..|cs|] == p.contacts[..|cs|];
        if DistinctPhones(cs) {
          AppendDistinct(p.contacts, c);
        }
      }
    }
  }

  /** A named group of contacts. */
  datatype Group = Group(name: string, description: string, contacts: seq<Contact>)

  class Book {
    var contacts: seq<Contact>
    var groups: map<string, Group>

    ghost predicate Valid()
      reads this
    {
      DistinctPhones(contacts)
    }

    /** An empty book; reading `contacts.json` is not modelled. */
    constructor()
      ensures Valid() && contacts == [] && groups == map[]
    {
      contacts, groups := [], map[];
    }

    /** `_phone_exists`: the first contact whose phone has the same digits ends the scan. */
    method PhoneExists(phone: string) returns (found: bool)
      ensures found <==> PhoneTaken(contacts, phone)
    {
      var digits := Digits(phone);
      var i := 0;
      while i < |contacts|
        invariant 0 <= i <= |contacts|
        invariant PhoneTaken(contacts, phone) == KeyTaken(contacts[i..], digits)
      {
        assert contacts[i..][1..] == contacts[i + 1..];
        if Digits(contacts[i].phone) == digits {
          return true;
        }
        i := i + 1;
      }
      return false;
    }

    /** `add_contact`: refused, with nothing changed, when the phone digits are taken. */
    method AddContact(name: string, phone: string, email: string, address: string, birthday: string,
                      notes: string, now: string) returns (added: bool)
      requires Valid()
      modifies this
      ensures Valid() && groups == old(groups)
      ensures added <==> !PhoneTaken(old(contacts), phone)
      ensures contacts == if added then old(contacts) + [NewContact(name, phone, email, address, birthday, notes, now)]
                          else old(contacts)
    {
      var taken := PhoneExists(phone);
      if taken {
        return false;
      }
      var c := NewContact(name, phone, email, address, birthday, notes, now);
      AppendDistinct(contacts, c);
      contacts := contacts + [c];
      return true;
    }

    /**
     * `remove_contact`: drops every contact whose name matches `name` without
     * regard to case, keeping the others in order; success is reported when
     * the list got shorter, which is when some name matched.
     */
    method RemoveContact(name: string) returns (removed: bool)
      requires Valid()
      modifies this
      ensures Valid() && groups == old(groups)
      ensures contacts == Filter(NameIsNot(name), old(contacts))
      ensures forall c :: c in contacts <==> c in old(contacts) && Lower(c.name) != Lower(name)
      ensures removed <==> exists i :: 0 <= i < |old(contacts)| && Lower(old(contacts)[i].name) == Lower(name)
      ensures removed <==> |contacts| < |old(contacts)|
    {
      var before := |contacts|;
      FilterShorter(NameIsNot(name), contacts);
      FilterMembers(NameIsNot(name), contacts);
      FilterDistinct(NameIsNot(name), contacts);
      contacts := Filter(NameIsNot(name), contacts);
      removed := |contacts| < before;
    }

    /**
     * `search_contact`: the contacts, in list order, where the lower-cased
     * query occurs in the lower-cased name, email or address, or in the phone
     * as stored.
     */
    method SearchContact(query: string) returns (matches: seq<Contact>)
      ensures matches == Filter(MatchesQuery(Lower(query)), contacts)
      ensures forall c :: c in matches <==> c in contacts && MatchesQuery(Lower(query))(c)
    {
      var q, cs := Lower(query), contacts;
      matches := [];
      var i := 0;
      while i < |cs|
        invariant 0 <= i <= |cs|
        invariant matches == Filter(MatchesQuery(q), cs[..i])
      {
        var c := cs[i];
        FilterPrefix(MatchesQuery(q), cs, i);
        if Contains(Lower(c.name), q) || Contains(c.phone, q) || Contains(Lower(c.email), q)
           || Contains(Lower(c.address), q) {
          matches := matches + [c];
        }
        i := i + 1;
      }
      assert cs[..i] == cs;
      FilterMembers(MatchesQuery(q), cs);
    }

    /** The rows of `import_from_csv`, read in order. */
    method ImportFromCsv(rows: seq<Row>, now: string) returns (imported: nat, skipped: nat, failed: bool)
      requires Valid()
      modifies this
      ensures Valid() && groups == old(groups)
      ensures contacts == ImportRows(old(contacts), rows, now).contacts
      ensures imported == ImportRows(old(contacts), rows, now).imported
      ensures skipped == ImportRows(old(contacts), rows, now).skipped
      ensures failed == ImportRows(old(contacts), rows, now).failed
    {
      ghost var start := contacts;
      imported, skipped, failed := 0, 0, false;
      var i := 0;
      while i < |rows| && !failed
        invariant 0 <= i <= |rows| && groups == old(groups)
        invariant ImportRows(start, rows[..i], now) == Import(contacts, imported, skipped, failed)
      {
        var row := rows[i];
        ImportPrefix(start, rows, i, now);
        if Phone !in row {
          failed := true;
        } else {
          var taken := PhoneExists(row[Phone]);
          if taken {
            skipped := skipped + 1;
          } else {
            var c := ContactFromRow(row, now);
            if c.None? {
              failed := true;
            } else {
              contacts := contacts + [c.value];
              imported := imported + 1;
            }
          }
        }
        i := i + 1;
      }
      if failed {
        ImportFailedSticks(start, rows, i, now);
      } else {
        assert rows[..i] == rows;
      }
      ImportFacts(start, rows, now);
    }

    /** `create_group`: refused for a name already in use. */
    method CreateGroup(name: string, description: string) returns (ok: bool)
      modifies this
      ensures contacts == old(contacts)
      ensures ok <==> name !in old(groups)
      ensures groups == if ok then old(groups)[name := Group(name, description, [])] else old(groups)
    {
      if name in groups {
        return false;
      }
      groups := groups[name := Group(name, description, [])];
      return true;
    }
  }
}
