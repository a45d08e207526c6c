/**
 * Library lending: books with copy counters, patrons with loans, fines and
 * history, and the borrow records that tie the two.  One borrow record is
 * stored under both `book.borrowedBy[patronId]` and
 * `patron.borrowedBooks[isbn]`; here the two maps hold equal values and the
 * invariant `Linked` keeps them in step.  Money is counted in whole units.
 */
module Library {
  import opened Wrappers
  import opened Json

  /** Seconds on the wall clock. */
  type Time = int

  const Day: int := 86400
  /** Loans and renewals last two weeks. */
  const LoanPeriod: int := 14 * Day
  const DailyFineRate: int := 1
  const MaxRenewals: int := 2
  const MaxLoans: int := 5

  datatype BorrowRecord = BorrowRecord(
    isbn: string,
    patronId: string,
    borrowDate: Time,
    dueDate: Time,
    returnDate: Option<Time>,
    renewedCount: int,
    status: string,
    fine: int)

  /** A loan that starts at `now`. */
  function NewBorrowRecord(isbn: string, patronId: string, now: Time): (r: BorrowRecord)
    ensures r.isbn == isbn && r.patronId == patronId && r.borrowDate == now
    ensures r.dueDate == now + LoanPeriod && r.returnDate == None && r.renewedCount == 0
    ensures r.status == "Borrowed" && r.fine == 0
  {
    BorrowRecord(isbn, patronId, now, now + LoanPeriod, None, 0, "Borrowed", 0)
  }

  datatype Review = Review(patronName: string, rating: real, comment: string, date: Time)

  datatype HistoryEntry =
    | Borrowed(bookTitle: string, date: Time)
    | Returned(bookTitle: string, date: Time)
    | PaidFine(amount: int, date: Time)

  datatype Book = Book(
    title: string,
    author: string,
    isbn: string,
    totalCopies: int,
    availableCopies: int,
    borrowedBy: map<string, BorrowRecord>,
    addedDate: Time,
    category: string,
    location: string,
    rating: real,
    reviews: seq<Review>)

  function NewBook(title: string, author: string, isbn: string, copies: int, now: Time): (b: Book)
    ensures b.totalCopies == copies && b.availableCopies == copies && b.borrowedBy == map[]
    ensures b.title == title && b.author == author && b.isbn == isbn && b.reviews == []
  {
    Book(title, author, isbn, copies, copies, map[], now, "", "", 0.0, [])
  }

  datatype Patron = Patron(
    name: string,
    email: string,
    patronId: string,
    joinDate: Time,
    borrowedBooks: map<string, BorrowRecord>,
    history: seq<HistoryEntry>,
    fines: int,
    status: string)

  function NewPatron(name: string, email: string, patronId: string, now: Time): (p: Patron)
    ensures p.borrowedBooks == map[] && p.history == [] && p.fines == 0 && p.status == "Active"
    ensures p.name == name && p.email == email && p.patronId == patronId
  {
    Patron(name, email, patronId, now, map[], [], 0, "Active")
  }

  /** `timedelta.days` of a non-negative duration: the whole days in it. */
  function WholeDays(d: int): (n: int)
    requires d >= 0
    ensures n >= 0 && n * Day <= d < (n + 1) * Day
  {
    d / Day
  }

  /**
   * The fine for returning at `returned` a book due at `dueDate`: nothing
   * when not late, otherwise the whole days late times the daily rate (a
   * part day costs nothing).
   */
  function OverdueFine(dueDate: Time, returned: Time): (fine: int)
    ensures fine >= 0
    ensures returned <= dueDate ==> fine == 0
    ensures returned > dueDate ==>
      fine * Day <= (returned - dueDate) * DailyFineRate < (fine + DailyFineRate) * Day
  {
    if returned > dueDate then WholeDays(returned - dueDate) * DailyFineRate else 0
  }

  function Sum(rs: seq<real>): real {
    if rs == [] then 0.0 else rs[0] + Sum(rs[1..])
  }

  function Ratings(reviews: seq<Review>): (rs: seq<real>)
    ensures |rs| == |reviews| && forall i :: 0 <= i < |rs| ==> rs[i] == reviews[i].rating
  {
    if reviews == [] then [] else [reviews[0].rating] + Ratings(reviews[1..])
  }

  /** The average rating, computed exactly. */
  function MeanRating(reviews: seq<Review>): real
    requires reviews != []
  {
    Sum(Ratings(reviews)) / (|reviews| as real)
  }

  lemma {:induction false} SumBounds(rs: seq<real>, lo: real, hi: real)
    requires forall i :: 0 <= i < |rs| ==> lo <= rs[i] <= hi
    ensures (|rs| as real) * lo <= Sum(rs) <= (|rs| as real) * hi
  {
    if rs != [] {
      SumBounds(rs[1..], lo, hi);
    }
  }

  /** Every rating is accepted only within [1, 5], so the average stays within [1, 5]. */
  lemma MeanRatingBounds(reviews: seq<Review>)
    requires reviews != [] && forall i :: 0 <= i < |reviews| ==> 1.0 <= reviews[i].rating <= 5.0
    ensures 1.0 <= MeanRating(reviews) <= 5.0
  {
    var rs := Ratings(reviews);
    SumBounds(rs, 1.0, 5.0);
    var n := |reviews| as real;
    assert n * 1.0 <= Sum(rs) <= n * 5.0;
    DivBetween(Sum(rs), n, 1.0, 5.0);
  }

  lemma DivBetween(s: real, n: real, lo: real, hi: real)
    requires n > 0.0 && lo * n <= s <= hi * n
    ensures lo <= s / n <= hi
  {
    assert s / n - lo == (s - lo * n) / n;
    assert hi - s / n == (hi * n - s) / n;
  }

  /**
   * Every loan appears on both sides with the same record, and the record
   * names the book and the patron it is filed under.
   */
  ghost predicate LinkedMaps(books: map<string, Book>, patrons: map<string, Patron>) {
    LoansFiled(books, patrons) && LoansBacked(books, patrons)
  }

  /** Each book's loan is on its patron's side with the same record. */
  ghost predicate LoansFiled(books: map<string, Book>, patrons: map<string, Patron>) {
    forall isbn, pid :: isbn in books && pid in books[isbn].borrowedBy ==>
      pid in patrons && isbn in patrons[pid].borrowedBooks
      && patrons[pid].borrowedBooks[isbn] == books[isbn].borrowedBy[pid]
      && books[isbn].borrowedBy[pid].isbn == isbn && books[isbn].borrowedBy[pid].patronId == pid
  }

  /** Each patron's loan is on its book's side. */
  ghost predicate LoansBacked(books: map<string, Book>, patrons: map<string, Patron>) {
    forall pid, isbn :: pid in patrons && isbn in patrons[pid].borrowedBooks ==>
      isbn in books && pid in books[isbn].borrowedBy
  }

  /** Filing the record `rec` under both sides keeps the loans linked. */
  lemma PutLoan(books: map<string, Book>, patrons: map<string, Patron>, isbn: string, pid: string,
                rec: BorrowRecord, b: Book, p: Patron)
    requires LinkedMaps(books, patrons) && isbn in books && pid in patrons
    requires rec.isbn == isbn && rec.patronId == pid
    requires b.borrowedBy == books[isbn].borrowedBy[pid := rec]
    requires p.borrowedBooks == patrons[pid].borrowedBooks[isbn := rec]
    ensures LinkedMaps(books[isbn := b], patrons[pid := p])
  {
    var books', patrons' := books[isbn := b], patrons[pid := p];
    assert LoansFiled(books', patrons') by {
      forall i, q | i in books' && q in books'[i].borrowedBy
        ensures q in patrons' && i in patrons'[q].borrowedBooks
        ensures patrons'[q].borrowedBooks[i] == books'[i].borrowedBy[q]
        ensures books'[i].borrowedBy[q].isbn == i && books'[i].borrowedBy[q].patronId == q
      {
        if i != isbn || q != pid {
          assert q in books[i].borrowedBy && books'[i].borrowedBy[q] == books[i].borrowedBy[q];
        }
      }
    }
    assert LoansBacked(books', patrons') by {
      forall q, i | q in patrons' && i in patrons'[q].borrowedBooks
        ensures i in books' && q in books'[i].borrowedBy
      {
        if i != isbn || q != pid {
          assert i in patrons[q].borrowedBooks;
        }
      }
    }
  }

  /** Removing one loan from both sides keeps the loans linked. */
  lemma DropLoan(books: map<string, Book>, patrons: map<string, Patron>, isbn: string, pid: string, b: Book, p: Patron)
    requires LinkedMaps(books, patrons) && isbn in books && pid in patrons
    requires b.borrowedBy == books[isbn].borrowedBy - {pid}
    requires p.borrowedBooks == patrons[pid].borrowedBooks - {isbn}
    ensures LinkedMaps(books[isbn := b], patrons[pid := p])
  {
    var books', patrons' := books[isbn := b], patrons[pid := p];
    assert LoansFiled(books', patrons') by {
      forall i, q | i in books' && q in books'[i].borrowedBy
        ensures q in patrons' && i in patrons'[q].borrowedBooks
        ensures patrons'[q].borrowedBooks[i] == books'[i].borrowedBy[q]
        ensures books'[i].borrowedBy[q].isbn == i && books'[i].borrowedBy[q].patronId == q
      {
        assert i in books && q in books[i].borrowedBy && books'[i].borrowedBy[q] == books[i].borrowedBy[q];
        assert q != pid || i != isbn;
      }
    }
    assert LoansBacked(books', patrons') by {
      forall q, i | q in patrons' && i in patrons'[q].borrowedBooks
        ensures i in books' && q in books'[i].borrowedBy
      {
        assert q in patrons && i in patrons[q].borrowedBooks;
        assert q != pid || i != isbn;
      }
    }
  }

  /** Changing a book but not its loans keeps the loans linked. */
  lemma SameBookLoans(books: map<string, Book>, patrons: map<string, Patron>, isbn: string, b: Book)
    requires LinkedMaps(books, patrons)
    requires isbn in books && b.borrowedBy == books[isbn].borrowedBy
    ensures LinkedMaps(books[isbn := b], patrons)
  {
  }

  /** Changing a patron but not their loans keeps the loans linked. */
  lemma SamePatronLoans(books: map<string, Book>, patrons: map<string, Patron>, pid: string, p: Patron)
    requires LinkedMaps(books, patrons)
    requires pid in patrons && p.borrowedBooks == patrons[pid].borrowedBooks
    ensures LinkedMaps(books, patrons[pid := p])
  {
  }

  /** The copy counters of one book are consistent. */
  ghost predicate BookBounded(b: Book) {
    0 <= b.availableCopies && b.availableCopies + |b.borrowedBy| <= b.totalCopies
  }

  /**
   * No counter goes below zero, and the copies out on loan never exceed
   * what is missing from the shelf.
   */
  ghost predicate BoundedCopies(books: map<string, Book>) {
    forall isbn :: isbn in books ==> BookBounded(books[isbn])
  }

  /** Forgetting a present key makes a map one entry smaller. */
  lemma RemoveOne<K, V>(m: map<K, V>, k: K)
    requires k in m
    ensures |m - {k}| == |m| - 1
  {
    assert (m - {k}).Keys == m.Keys - {k};
    assert |m.Keys - {k}| == |m.Keys| - 1;
  }

  /** The book once `pid` has brought back their copy. */
  function BookReturned(b: Book, pid: string): (r: Book)
    ensures pid in b.borrowedBy ==> |r.borrowedBy| == |b.borrowedBy| - 1
    ensures pid !in r.borrowedBy && r.availableCopies == b.availableCopies + 1
  {
    if pid in b.borrowedBy then RemoveOne(b.borrowedBy, pid); b.(availableCopies := b.availableCopies + 1, borrowedBy := b.borrowedBy - {pid})
    else b.(availableCopies := b.availableCopies + 1, borrowedBy := b.borrowedBy - {pid})
  }

  /** The patron once `isbn` (titled `title`) is back at `now`, charged the overdue fine. */
  function PatronReturned(p: Patron, isbn: string, title: string, now: Time): (r: Patron)
    requires isbn in p.borrowedBooks
    ensures isbn !in r.borrowedBooks && r.fines >= p.fines
  {
    p.(borrowedBooks := p.borrowedBooks - {isbn},
       fines := p.fines + OverdueFine(p.borrowedBooks[isbn].dueDate, now),
       history := p.history + [Returned(title, now)])
  }

  /** Replacing one book by a consistent one keeps every book consistent. */
  lemma PutBounded(books: map<string, Book>, isbn: string, b: Book)
    requires BoundedCopies(books) && BookBounded(b)
    ensures BoundedCopies(books[isbn := b])
  {
  }

  class Library {
    /** Books by ISBN. */
    var books: map<string, Book>
    /** Patrons by id. */
    var patrons: map<string, Patron>

    ghost predicate Linked()
      reads this
    {
      LinkedMaps(books, patrons)
    }

    /** Every book's copy counters are consistent. */
    ghost predicate CopiesBounded()
      reads this
    {
      BoundedCopies(books)
    }

    constructor()
      ensures books == map[] && patrons == map[] && Linked() && CopiesBounded()
    {
      books, patrons := map[], map[];
    }

    method AddBook(title: string, author: string, isbn: string, copies: int, now: Time) returns (ok: bool)
      requires Linked()
      modifies this
      ensures ok && Linked() && patrons == old(patrons)
      ensures isbn in old(books) ==> books == old(books)[isbn := old(books)[isbn].(
        totalCopies := old(books)[isbn].totalCopies + copies,
        availableCopies := old(books)[isbn].availableCopies + copies)]
      ensures isbn !in old(books) ==> books == old(books)[isbn := NewBook(title, author, isbn, copies, now)]
      ensures old(CopiesBounded()) && copies >= 0 ==> CopiesBounded()
    {
      if isbn in books {
        var b := books[isbn];
        var b' := b.(totalCopies := b.totalCopies + copies, availableCopies := b.availableCopies + copies);
        SameBookLoans(books, patrons, isbn, b');
        if BoundedCopies(books) && copies >= 0 {
          PutBounded(books, isbn, b');
        }
        books := books[isbn := b'];
      } else {
        var b' := NewBook(title, author, isbn, copies, now);
        assert LinkedMaps(books[isbn := b'], patrons);
        if BoundedCopies(books) && copies >= 0 {
          PutBounded(books, isbn, b');
        }
        books := books[isbn := b'];
      }
      return true;
    }

    /** `register_patron` with the generated id passed in. */
    method RegisterPatron(name: string, email: string, patronId: string, now: Time) returns (id: string)
      requires Linked()
      modifies this
      ensures id == patronId && books == old(books)
      ensures patrons == old(patrons)[patronId := NewPatron(name, email, patronId, now)]
      ensures patronId !in old(patrons) ==> Linked()
    {
      ghost var before := patrons;
      patrons := patrons[patronId := NewPatron(name, email, patronId, now)];
      if patronId !in before {
        assert forall pid :: pid in before ==> pid in patrons && patrons[pid] == before[pid];
      }
      return patronId;
    }

    /**
     * Lends `isbn` to `patronId`; refused for an unknown book or patron, an
     * inactive patron, unpaid fines, no copy on the shelf, or five loans held.
     */
    method BorrowBook(isbn: string, patronId: string, now: Time) returns (ok: bool)
      requires Linked()
      modifies this
      ensures Linked()
      ensures ok <==> (isbn in old(books) && patronId in old(patrons)
        && old(patrons)[patronId].status == "Active" && old(patrons)[patronId].fines <= 0
        && old(books)[isbn].availableCopies != 0 && |old(patrons)[patronId].borrowedBooks| < MaxLoans)
      ensures !ok ==> books == old(books) && patrons == old(patrons)
      ensures ok ==>
        var rec := NewBorrowRecord(isbn, patronId, now);
        var b := old(books)[isbn];
        var p := old(patrons)[patronId];
        books == old(books)[isbn := b.(borrowedBy := b.borrowedBy[patronId := rec], availableCopies := b.availableCopies - 1)]
        && patrons == old(patrons)[patronId := p.(borrowedBooks := p.borrowedBooks[isbn := rec],
                                                  history := p.history + [Borrowed(b.title, now)])]
      ensures old(CopiesBounded()) ==> CopiesBounded()
    {
      if isbn !in books || patronId !in patrons {
        return false;
      }
      var b := books[isbn];
      var p := patrons[patronId];
      if p.status != "Active" {
        return false;
      }
      if p.fines > 0 {
        return false;
      }
      if b.availableCopies == 0 {
        return false;
      }
      if |p.borrowedBooks| >= MaxLoans {
        return false;
      }
      var rec := NewBorrowRecord(isbn, patronId, now);
      var b' := b.(borrowedBy := b.borrowedBy[patronId := rec], availableCopies := b.availableCopies - 1);
      var p' := p.(borrowedBooks := p.borrowedBooks[isbn := rec], history := p.history + [Borrowed(b.title, now)]);
      PutLoan(books, patrons, isbn, patronId, rec, b', p');
      if BoundedCopies(books) {
        PutBounded(books, isbn, b');
      }
      Put(isbn, b', patronId, p');
      return true;
    }

    /**
     * Takes back `isbn` from `patronId` at `now`, charging the overdue fine,
     * and forgets the loan on both sides.
     */
    method ReturnBook(isbn: string, patronId: string, now: Time) returns (ok: bool)
      requires Linked()
      modifies this
      ensures Linked()
      ensures ok <==> isbn in old(books) && patronId in old(patrons) && isbn in old(patrons)[patronId].borrowedBooks
      ensures !ok ==> books == old(books) && patrons == old(patrons)
      ensures ok ==> books == old(books)[isbn := BookReturned(old(books)[isbn], patronId)]
      ensures ok ==> patrons == old(patrons)[patronId := PatronReturned(old(patrons)[patronId], isbn, old(books)[isbn].title, now)]
      ensures old(CopiesBounded()) ==> CopiesBounded()
    {
      if isbn !in books || patronId !in patrons {
        return false;
      }
      var b := books[isbn];
      var p := patrons[patronId];
      if isbn !in p.borrowedBooks {
        return false;
      }
      var rec := p.borrowedBooks[isbn];
      assert patronId in b.borrowedBy;
      var b' := BookReturned(b, patronId);
      var p' := PatronReturned(p, isbn, b.title, now);
      DropLoan(books, patrons, isbn, patronId, b', p');
      if BoundedCopies(books) {
        PutBounded(books, isbn, b');
      }
      Put(isbn, b', patronId, p');
      return true;
    }

    /**
     * Extends a loan by two weeks; refused after two renewals or once the
     * loan is overdue.
     */
    method RenewBook(isbn: string, patronId: string, now: Time) returns (ok: bool)
      requires Linked()
      modifies this
      ensures Linked()
      ensures ok <==> (isbn in old(books) && patronId in old(patrons) && isbn in old(patrons)[patronId].borrowedBooks
        && old(patrons)[patronId].borrowedBooks[isbn].renewedCount < MaxRenewals
        && old(patrons)[patronId].borrowedBooks[isbn].dueDate >= now)
      ensures !ok ==> books == old(books) && patrons == old(patrons)
      ensures ok ==>
        var b := old(books)[isbn];
        var p := old(patrons)[patronId];
        var rec := p.borrowedBooks[isbn];
        var renewed := rec.(dueDate := rec.dueDate + LoanPeriod, renewedCount := rec.renewedCount + 1);
        books == old(books)[isbn := b.(borrowedBy := b.borrowedBy[patronId := renewed])]
        && patrons == old(patrons)[patronId := p.(borrowedBooks := p.borrowedBooks[isbn := renewed])]
      ensures old(CopiesBounded()) ==> CopiesBounded()
    {
      if isbn !in books || patronId !in patrons {
        return false;
      }
      var p := patrons[patronId];
      if isbn !in p.borrowedBooks {
        return false;
      }
      var rec := p.borrowedBooks[isbn];
      if rec.renewedCount >= MaxRenewals {
        return false;
      }
      if rec.dueDate < now {
        return false;
      }
      var renewed := rec.(dueDate := rec.dueDate + LoanPeriod, renewedCount := rec.renewedCount + 1);
      var b := books[isbn];
      var b' := b.(borrowedBy := b.borrowedBy[patronId := renewed]);
      var p' := p.(borrowedBooks := p.borrowedBooks[isbn := renewed]);
      assert patronId in b.borrowedBy && b.borrowedBy[patronId] == rec;
      PutLoan(books, patrons, isbn, patronId, renewed, b', p');
      if BoundedCopies(books) {
        assert b'.borrowedBy.Keys == b.borrowedBy.Keys;
        PutBounded(books, isbn, b');
      }
      Put(isbn, b', patronId, p');
      return true;
    }

    /** Replaces one book and one patron. */
    method Put(isbn: string, b: Book, patronId: string, p: Patron)
      modifies this
      ensures books == old(books)[isbn := b] && patrons == old(patrons)[patronId := p]
    {
      books := books[isbn := b];
      patrons := patrons[patronId := p];
    }

    /** Adds a review with a rating in [1, 5] and refreshes the average. */
    method AddReview(isbn: string, patronId: string, rating: real, comment: string, now: Time) returns (ok: bool)
      requires Linked()
      modifies this
      ensures Linked() && patrons == old(patrons)
      ensures ok <==> isbn in old(books) && patronId in old(patrons) && 1.0 <= rating <= 5.0
      ensures !ok ==> books == old(books)
      ensures ok ==>
        var b := old(books)[isbn];
        var reviews := b.reviews + [Review(old(patrons)[patronId].name, rating, comment, now)];
        books == old(books)[isbn := b.(reviews := reviews, rating := MeanRating(reviews))]
      ensures old(CopiesBounded()) ==> CopiesBounded()
    {
      if isbn !in books || patronId !in patrons {
        return false;
      }
      if rating < 1.0 || rating > 5.0 {
        return false;
      }
      var b := books[isbn];
      var reviews := b.reviews + [Review(patrons[patronId].name, rating, comment, now)];
      var b' := b.(reviews := reviews, rating := MeanRating(reviews));
      SameBookLoans(books, patrons, isbn, b');
      if BoundedCopies(books) {
        PutBounded(books, isbn, b');
      }
      books := books[isbn := b'];
      return true;
    }

    /** Pays `amount` off the patron's fines; refused when it exceeds them. */
    method PayFine(patronId: string, amount: int, now: Time) returns (ok: bool)
      requires Linked()
      modifies this
      ensures Linked() && books == old(books)
      ensures ok <==> patronId in old(patrons) && amount <= old(patrons)[patronId].fines
      ensures !ok ==> patrons == old(patrons)
      ensures ok ==>
        var p := old(patrons)[patronId];
        patrons == old(patrons)[patronId := p.(fines := p.fines - amount, history := p.history + [PaidFine(amount, now)])]
        && patrons[patronId].fines >= 0
    {
      if patronId !in patrons {
        return false;
      }
      var p := patrons[patronId];
      if amount > p.fines {
        return false;
      }
      var p' := p.(fines := p.fines - amount, history := p.history + [PaidFine(amount, now)]);
      SamePatronLoans(books, patrons, patronId, p');
      patrons := patrons[patronId := p'];
      return true;
    }
  }

  // ---------------------------------------------------------------------
  // The saved form

  function SerializeRecord(r: BorrowRecord): Json {
    JObj(map[
      "isbn" := JStr(r.isbn),
      "patron_id" := JStr(r.patronId),
      "borrow_date" := JInt(r.borrowDate),
      "due_date" := JInt(r.dueDate),
      "return_date" := OptInt(r.returnDate),
      "renewed_count" := JInt(r.renewedCount),
      "status" := JStr(r.status),
      "fine" := JInt(r.fine)])
  }

  function DeserializeRecord(j: Json): Option<BorrowRecord> {
    if !j.JObj? then None else
    var m := j.fields;
    match (GetStr(m, "isbn"), GetStr(m, "patron_id"), GetInt(m, "borrow_date"), GetInt(m, "due_date"))
    case (Some(isbn), Some(pid), Some(borrowed), Some(due)) =>
      (match (if "return_date" in m then AsOptInt(m["return_date"]) else None,
              GetInt(m, "renewed_count"), GetStr(m, "status"), GetInt(m, "fine"))
       case (Some(returned), Some(renewed), Some(status), Some(fine)) =>
         Some(BorrowRecord(isbn, pid, borrowed, due, returned, renewed, status, fine))
       case _ => None)
    case _ => None
  }

  lemma RecordRoundTrip(r: BorrowRecord)
    ensures DeserializeRecord(SerializeRecord(r)) == Some(r)
  {
    var m := SerializeRecord(r).fields;
    assert GetStr(m, "isbn") == Some(r.isbn) && GetStr(m, "patron_id") == Some(r.patronId);
    assert GetInt(m, "borrow_date") == Some(r.borrowDate) && GetInt(m, "due_date") == Some(r.dueDate);
    assert AsOptInt(m["return_date"]) == Some(r.returnDate);
    assert GetInt(m, "renewed_count") == Some(r.renewedCount) && GetStr(m, "status") == Some(r.status);
    assert GetInt(m, "fine") == Some(r.fine);
  }

  function SerializeReview(r: Review): Json {
    JObj(map["patron_name" := JStr(r.patronName), "rating" := JReal(r.rating),
             "comment" := JStr(r.comment), "date" := JInt(r.date)])
  }

  function DeserializeReview(j: Json): Option<Review> {
    if !j.JObj? then None else
    var m := j.fields;
    match (GetStr(m, "patron_name"), GetReal(m, "rating"), GetStr(m, "comment"), GetInt(m, "date"))
    case (Some(name), Some(rating), Some(comment), Some(date)) => Some(Review(name, rating, comment, date))
    case _ => None
  }

  lemma ReviewRoundTrip(r: Review)
    ensures DeserializeReview(SerializeReview(r)) == Some(r)
  {
    var m := SerializeReview(r).fields;
    assert GetStr(m, "patron_name") == Some(r.patronName) && GetReal(m, "rating") == Some(r.rating);
    assert GetStr(m, "comment") == Some(r.comment) && GetInt(m, "date") == Some(r.date);
  }

  function SerializeEntry(e: HistoryEntry): Json {
    match e
    case Borrowed(title, date) => JObj(map["action" := JStr("borrowed"), "book_title" := JStr(title), "date" := JInt(date)])
    case Returned(title, date) => JObj(map["action" := JStr("returned"), "book_title" := JStr(title), "date" := JInt(date)])
    case PaidFine(amount, date) => JObj(map["action" := JStr("paid_fine"), "amount" := JInt(amount), "date" := JInt(date)])
  }

  function DeserializeEntry(j: Json): Option<HistoryEntry> {
    if !j.JObj? then None else
    var m := j.fields;
    match (GetStr(m, "action"), GetInt(m, "date"))
    case (Some(action), Some(date)) =>
      if action == "paid_fine" then
        (match GetInt(m, "amount") case Some(amount) => Some(PaidFine(amount, date)) case None => None)
      else if action == "borrowed" || action == "returned" then
        (match GetStr(m, "book_title")
         case Some(title) => Some(if action == "borrowed" then Borrowed(title, date) else Returned(title, date))
         case None => None)
      else None
    case _ => None
  }

  lemma EntryRoundTrip(e: HistoryEntry)
    ensures DeserializeEntry(SerializeEntry(e)) == Some(e)
  {
    var m := SerializeEntry(e).fields;
    assert GetInt(m, "date") == Some(e.date);
    match e
    case Borrowed(title, date) =>
      assert GetStr(m, "action") == Some("borrowed") && GetStr(m, "book_title") == Some(title);
    case Returned(title, date) =>
      assert GetStr(m, "action") == Some("returned") && GetStr(m, "book_title") == Some(title);
    case PaidFine(amount, date) =>
      assert GetStr(m, "action") == Some("paid_fine") && GetInt(m, "amount") == Some(amount);
  }

  function SerializeBook(b: Book): Json {
    JObj(map[
      "title" := JStr(b.title),
      "author" := JStr(b.author),
      "isbn" := JStr(b.isbn),
      "total_copies" := JInt(b.totalCopies),
      "available_copies" := JInt(b.availableCopies),
      "borrowed_by" := ObjOf(b.borrowedBy, SerializeRecord),
      "added_date" := JInt(b.addedDate),
      "category" := JStr(b.category),
      "location" := JStr(b.location),
      "rating" := JReal(b.rating),
      "reviews" := JArr(Items(b.reviews, SerializeReview))])
  }

  function DeserializeBook(j: Json): Option<Book> {
    if !j.JObj? then None else
    var m := j.fields;
    match (GetStr(m, "title"), GetStr(m, "author"), GetStr(m, "isbn"), GetInt(m, "total_copies"),
           GetInt(m, "available_copies"))
    case (Some(title), Some(author), Some(isbn), Some(total), Some(available)) =>
      (match (if "borrowed_by" in m then AsObjOf(m["borrowed_by"], DeserializeRecord) else None,
              GetInt(m, "added_date"), GetStr(m, "category"), GetStr(m, "location"), GetReal(m, "rating"),
              if "reviews" in m && m["reviews"].JArr? then AsItems(m["reviews"].items, DeserializeReview) else None)
       case (Some(borrowedBy), Some(added), Some(category), Some(location), Some(rating), Some(reviews)) =>
         Some(Book(title, author, isbn, total, available, borrowedBy, added, category, location, rating, reviews))
       case _ => None)
    case _ => None
  }

  lemma BookFields(b: Book)
    ensures var m := SerializeBook(b).fields;
      GetStr(m, "title") == Some(b.title) && GetStr(m, "author") == Some(b.author)
      && GetStr(m, "isbn") == Some(b.isbn) && GetInt(m, "total_copies") == Some(b.totalCopies)
      && GetInt(m, "available_copies") == Some(b.availableCopies)
      && "borrowed_by" in m && m["borrowed_by"] == ObjOf(b.borrowedBy, SerializeRecord)
      && GetInt(m, "added_date") == Some(b.addedDate) && GetStr(m, "category") == Some(b.category)
      && GetStr(m, "location") == Some(b.location) && GetReal(m, "rating") == Some(b.rating)
      && "reviews" in m && m["reviews"] == JArr(Items(b.reviews, SerializeReview))
  {
  }

  /** `_deserialize_book(_serialize_book(b))` gives back `b`, loans and reviews included. */
  lemma BookRoundTrip(b: Book)
    ensures DeserializeBook(SerializeBook(b)) == Some(b)
  {
    BookFields(b);
    forall k | k in b.borrowedBy ensures DeserializeRecord(SerializeRecord(b.borrowedBy[k])) == Some(b.borrowedBy[k]) {
      RecordRoundTrip(b.borrowedBy[k]);
    }
    AsObjOfObjOf(b.borrowedBy, SerializeRecord, DeserializeRecord);
    forall i | 0 <= i < |b.reviews| ensures DeserializeReview(SerializeReview(b.reviews[i])) == Some(b.reviews[i]) {
      ReviewRoundTrip(b.reviews[i]);
    }
    AsItemsItems(b.reviews, SerializeReview, DeserializeReview);
  }

  function SerializePatron(p: Patron): Json {
    JObj(map[
      "name" := JStr(p.name),
      "email" := JStr(p.email),
      "patron_id" := JStr(p.patronId),
      "join_date" := JInt(p.joinDate),
      "borrowed_books" := ObjOf(p.borrowedBooks, SerializeRecord),
      "history" := JArr(Items(p.history, SerializeEntry)),
      "fines" := JInt(p.fines),
      "status" := JStr(p.status)])
  }

  function DeserializePatron(j: Json): Option<Patron> {
    if !j.JObj? then None else
    var m := j.fields;
    match (GetStr(m, "name"), GetStr(m, "email"), GetStr(m, "patron_id"), GetInt(m, "join_date"))
    case (Some(name), Some(email), Some(pid), Some(joined)) =>
      (match (if "borrowed_books" in m then AsObjOf(m["borrowed_books"], DeserializeRecord) else None,
              if "history" in m && m["history"].JArr? then AsItems(m["history"].items, DeserializeEntry) else None,
              GetInt(m, "fines"), GetStr(m, "status"))
       case (Some(loans), Some(history), Some(fines), Some(status)) =>
         Some(Patron(name, email, pid, joined, loans, history, fines, status))
       case _ => None)
    case _ => None
  }

  lemma PatronFields(p: Patron)
    ensures var m := SerializePatron(p).fields;
      GetStr(m, "name") == Some(p.name) && GetStr(m, "email") == Some(p.email)
      && GetStr(m, "patron_id") == Some(p.patronId) && GetInt(m, "join_date") == Some(p.joinDate)
      && "borrowed_books" in m && m["borrowed_books"] == ObjOf(p.borrowedBooks, SerializeRecord)
      && "history" in m && m["history"] == JArr(Items(p.history, SerializeEntry))
      && GetInt(m, "fines") == Some(p.fines) && GetStr(m, "status") == Some(p.status)
  {
  }

  /** `_deserialize_patron(_serialize_patron(p))` gives back `p`, loans and history included. */
  lemma PatronRoundTrip(p: Patron)
    ensures DeserializePatron(SerializePatron(p)) == Some(p)
  {
    PatronFields(p);
    forall k | k in p.borrowedBooks
      ensures DeserializeRecord(SerializeRecord(p.borrowedBooks[k])) == Some(p.borrowedBooks[k])
    {
      RecordRoundTrip(p.borrowedBooks[k]);
    }
    AsObjOfObjOf(p.borrowedBooks, SerializeRecord, DeserializeRecord);
    forall i | 0 <= i < |p.history| ensures DeserializeEntry(SerializeEntry(p.history[i])) == Some(p.history[i]) {
      EntryRoundTrip(p.history[i]);
    }
    AsItemsItems(p.history, SerializeEntry, DeserializeEntry);
  }
}
