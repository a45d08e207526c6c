/**
 * The URL shortener of `url_shortener.py`: the `urls` table as a sequence of
 * rows in insertion order, which is the order `fetchone` sees them in.  The
 * draws of `random.choice` and the `CURRENT_TIMESTAMP` of an insertion are
 * inputs; the SQLite connection is not modelled.
 */
module UrlShortener {
  import opened Wrappers
  import opened Text

  /** `string.ascii_letters + string.digits`. */
  function Alphabet(): (r: string)
    ensures |r| == 62
  {
    Run('a', 26) + Run('A', 26) + Run('0', 10)
  }

  /** `n` consecutive characters from `first`. */
  function Run(first: char, n: nat): (r: string)
    requires first as int + n < 128
    ensures |r| == n && forall k :: 0 <= k < n ==> r[k] as int == first as int + k
  {
    if n == 0 then [] else Run(first, n - 1) + [(first as int + n - 1) as char]
  }

  const CodeLength: nat := 6

  datatype Row = Row(id: nat, originalUrl: string, shortCode: string, createdAt: int, clicks: nat)

  /** The dictionary `get_stats` returns. */
  datatype Stats = Stats(originalUrl: string, createdAt: int, clicks: nat)

  /** The `UNIQUE` constraint on `short_code`. */
  predicate CodesUnique(rows: seq<Row>) {
    forall i, j :: 0 <= i < j < |rows| ==> rows[i].shortCode != rows[j].shortCode
  }

  /** The first row holding `code`, as `fetchone` returns it. */
  function FindCode(rows: seq<Row>, code: string): (r: Option<nat>)
    ensures r.Some? ==> (r.value < |rows| && rows[r.value].shortCode == code
                         && forall k :: 0 <= k < r.value ==> rows[k].shortCode != code)
    ensures r.None? <==> forall k :: 0 <= k < |rows| ==> rows[k].shortCode != code
  {
    if rows == [] then None
    else if rows[0].shortCode == code then Some(0)
    else match FindCode(rows[1..], code)
      case None => None
      case Some(i) => Some(i + 1)
  }

  /** The first row holding `url`. */
  function FindUrl(rows: seq<Row>, url: string): (r: Option<nat>)
    ensures r.Some? ==> (r.value < |rows| && rows[r.value].originalUrl == url
                         && forall k :: 0 <= k < r.value ==> rows[k].originalUrl != url)
    ensures r.None? <==> forall k :: 0 <= k < |rows| ==> rows[k].originalUrl != url
  {
    if rows == [] then None
    else if rows[0].originalUrl == url then Some(0)
    else match FindUrl(rows[1..], url)
      case None => None
      case Some(i) => Some(i + 1)
  }

  /** `UPDATE urls SET clicks = clicks + 1 WHERE short_code = ?`. */
  function Click(rows: seq<Row>, code: string): (r: seq<Row>)
    ensures |r| == |rows|
    ensures forall k :: 0 <= k < |rows| ==>
      r[k] == if rows[k].shortCode == code then rows[k].(clicks := rows[k].clicks + 1) else rows[k]
  {
    if rows == [] then []
    else [if rows[0].shortCode == code then rows[0].(clicks := rows[0].clicks + 1) else rows[0]]
         + Click(rows[1..], code)
  }

  /** A click changes no code and no URL, so the table keeps its unique codes and its lookups. */
  lemma ClickKeepsLookups(rows: seq<Row>, code: string, other: string, url: string)
    requires CodesUnique(rows)
    ensures var r := Click(rows, code);
      CodesUnique(r) && FindCode(r, other) == FindCode(rows, other) && FindUrl(r, url) == FindUrl(rows, url)
  {
    var r := Click(rows, code);
    assert forall k :: 0 <= k < |rows| ==> r[k].shortCode == rows[k].shortCode && r[k].originalUrl == rows[k].originalUrl;
    FindCodeSame(rows, r, other);
    FindUrlSame(rows, r, url);
  }

  lemma {:induction false} FindCodeSame(a: seq<Row>, b: seq<Row>, code: string)
    requires |a| == |b| && forall k :: 0 <= k < |a| ==> a[k].shortCode == b[k].shortCode
    ensures FindCode(a, code) == FindCode(b, code)
  {
    if a != [] {
      FindCodeSame(a[1..], b[1..], code);
    }
  }

  lemma {:induction false} FindUrlSame(a: seq<Row>, b: seq<Row>, url: string)
    requires |a| == |b| && forall k :: 0 <= k < |a| ==> a[k].originalUrl == b[k].originalUrl
    ensures FindUrl(a, url) == FindUrl(b, url)
  {
    if a != [] {
      FindUrlSame(a[1..], b[1..], url);
    }
  }

  /** With unique codes, a code's row is the only one holding it and receives the only click. */
  lemma ClickOneRow(rows: seq<Row>, code: string, i: nat)
    requires CodesUnique(rows) && i < |rows| && rows[i].shortCode == code
    ensures FindCode(rows, code) == Some(i)
    ensures var r := Click(rows, code);
      r[i].clicks == rows[i].clicks + 1 && forall k :: 0 <= k < |rows| && k != i ==> r[k] == rows[k]
  {
  }

  /** The code `random.choice` builds from the drawn positions in the alphabet. */
  function CodeOf(draw: seq<nat>): (code: string)
    requires forall k :: 0 <= k < |draw| ==> draw[k] < 62
    ensures |code| == |draw| && forall k :: 0 <= k < |code| ==> IsAlnum(code[k])
  {
    AlphabetIsAlnum();
    seq(|draw|, k requires 0 <= k < |draw| => Alphabet()[draw[k]])
  }

  lemma AlphabetIsAlnum()
    ensures |Alphabet()| == 62 && forall k :: 0 <= k < |Alphabet()| ==> IsAlnum(Alphabet()[k])
  {
    forall k | 0 <= k < |Alphabet()| ensures IsAlnum(Alphabet()[k]) {
      if k < 26 {
        assert IsLower(Alphabet()[k]);
      } else if k < 52 {
        assert IsUpper(Alphabet()[k]);
      } else {
        assert IsDigit(Alphabet()[k]);
      }
    }
  }

  /** Every draw has `length` positions, each within the alphabet. */
  predicate DrawsFit(draws: seq<seq<nat>>, length: nat) {
    forall i :: 0 <= i < |draws| ==> |draws[i]| == length && forall k :: 0 <= k < length ==> draws[i][k] < 62
  }

  class Shortener {
    var rows: seq<Row>
    /** The next `AUTOINCREMENT` id. */
    var nextId: nat

    ghost predicate Valid()
      reads this
    {
      CodesUnique(rows) && forall k :: 0 <= k < |rows| ==> rows[k].id < nextId
    }

    /** `create_table` on a database without the table. */
    constructor()
      ensures Valid() && rows == [] && nextId == 1
    {
      rows, nextId := [], 1;
    }

    /** `code_exists`. */
    function CodeExists(code: string): (b: bool)
      reads this
      ensures b <==> exists k :: 0 <= k < |rows| && rows[k].shortCode == code
    {
      FindCode(rows, code).Some?
    }

    /**
     * `generate_short_code`: the first drawn code not in the table.  Python
     * keeps drawing for ever; here the draws are finite and `None` says
     * every one of them was taken.
     */
    method GenerateShortCode(length: nat, draws: seq<seq<nat>>) returns (code: Option<string>)
      requires DrawsFit(draws, length)
      ensures code.Some? ==> |code.value| == length && (forall k :: 0 <= k < length ==> IsAlnum(code.value[k]))
                             && !CodeExists(code.value)
      ensures code.Some? ==> exists i :: 0 <= i < |draws| && CodeOf(draws[i]) == code.value
      ensures code.None? ==> forall i :: 0 <= i < |draws| ==> CodeExists(CodeOf(draws[i]))
    {
      var i := 0;
      while i < |draws|
        invariant 0 <= i <= |draws|
        invariant forall j :: 0 <= j < i ==> CodeExists(CodeOf(draws[j]))
      {
        var candidate := CodeOf(draws[i]);
        if !CodeExists(candidate) {
          return Some(candidate);
        }
        i := i + 1;
      }
      return None;
    }

    /**
     * `shorten_url`: a URL already in the table gives back its code and
     * changes nothing; a new one gets a fresh six-character code in a new
     * row with no clicks.
     */
    method ShortenUrl(url: string, draws: seq<seq<nat>>, now: int) returns (code: Option<string>)
      requires Valid() && DrawsFit(draws, CodeLength)
      modifies this
      ensures Valid()
      ensures FindUrl(old(rows), url).Some? ==>
        rows == old(rows) && nextId == old(nextId) && code == Some(old(rows)[FindUrl(old(rows), url).value].shortCode)
      ensures FindUrl(old(rows), url).None? && code.Some? ==>
        rows == old(rows) + [Row(old(nextId), url, code.value, now, 0)] && nextId == old(nextId) + 1
        && (forall k :: 0 <= k < |old(rows)| ==> old(rows)[k].shortCode != code.value)
        && |code.value| == CodeLength && forall k :: 0 <= k < CodeLength ==> IsAlnum(code.value[k])
      ensures code.None? ==> rows == old(rows) && nextId == old(nextId)
      ensures code.Some? ==> FindUrl(rows, url).Some? && rows[FindUrl(rows, url).value].shortCode == code.value
    {
      var existing := FindUrl(rows, url);
      if existing.Some? {
        return Some(rows[existing.value].shortCode);
      }
      code := GenerateShortCode(CodeLength, draws);
      if code.Some? {
        var row := Row(nextId, url, code.value, now, 0);
        var before := rows;
        rows := rows + [row];
        assert forall k :: 0 <= k < |before| ==> rows[k] == before[k];
        assert rows[|rows| - 1] == row;
        nextId := nextId + 1;
        assert FindUrl(rows, url).Some? && FindUrl(rows, url).value == |rows| - 1;
      }
    }

    /** `get_original_url`: the click is counted before the lookup, on a known code only. */
    method GetOriginalUrl(code: string) returns (url: Option<string>)
      requires Valid()
      modifies this
      ensures Valid() && nextId == old(nextId)
      ensures rows == Click(old(rows), code)
      ensures url.None? <==> !old(CodeExists(code))
      ensures url.Some? ==> exists k :: 0 <= k < |rows| && rows[k].shortCode == code && rows[k].originalUrl == url.value
    {
      ClickKeepsLookups(rows, code, code, "");
      rows := Click(rows, code);
      var i := FindCode(rows, code);
      url := if i.Some? then Some(rows[i.value].originalUrl) else None;
    }

    /** `get_stats`: the row's URL, creation time and clicks, or `None` for an unknown code. */
    function GetStats(code: string): (s: Option<Stats>)
      reads this
      ensures s.None? <==> !CodeExists(code)
      ensures s.Some? ==> exists k :: (0 <= k < |rows| && rows[k].shortCode == code
                                       && s.value == Stats(rows[k].originalUrl, rows[k].createdAt, rows[k].clicks))
    {
      match FindCode(rows, code)
      case None => None
      case Some(i) => Some(Stats(rows[i].originalUrl, rows[i].createdAt, rows[i].clicks))
    }
  }

  /** After a visit, a known code's statistics show exactly one more click and the same URL and time. */
  lemma VisitAddsOneClick(rows: seq<Row>, code: string, i: nat)
    requires CodesUnique(rows) && i < |rows| && rows[i].shortCode == code
    ensures var r := Click(rows, code);
      FindCode(r, code) == Some(i) && r[i] == rows[i].(clicks := rows[i].clicks + 1)
  {
    ClickKeepsLookups(rows, code, code, "");
    ClickOneRow(rows, code, i);
  }
}
