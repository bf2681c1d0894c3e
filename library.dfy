/** Loans, returns and the late fine of library.cpp, with the clock read
    passed in as `now`. */
module Library {
  import opened Wrappers

  const SecondsPerDay := 24 * 60 * 60

  datatype Book = Book(bookId: int, bookName: string, bookAuthor: string, borrowDuration: int)

  /** The due date of a loan issued at `issued`: `duration` whole days later. */
  function DueDate(issued: int, duration: int): (due: int)
    ensures duration >= 0 ==> due >= issued
    ensures due - issued == duration * SecondsPerDay
  {
    issued + duration * SecondsPerDay
  }

  /** PerDayFineCalculator::fineCalculator as written: the division by 24
      binds first and the result is then multiplied by 60 twice. */
  function FineAsWritten(dueDate: int, returnDate: int): (f: int)
    ensures returnDate <= dueDate ==> f == 0
    ensures f >= 0
  {
    if returnDate <= dueDate then 0 else ((returnDate - dueDate) / 24 * 60 * 60) * 10
  }

  /** One day late is charged 129600000 units as written, not 10. */
  lemma OneDayLateAsWritten(dueDate: int)
    ensures FineAsWritten(dueDate, dueDate + SecondsPerDay) == 129600000
  {
  }

  /** The per-day fine: 10 units for each whole day past the due date. */
  function Fine(dueDate: int, returnDate: int): (f: int)
    ensures returnDate <= dueDate ==> f == 0
    ensures f >= 0
  {
    if returnDate <= dueDate then 0 else ((returnDate - dueDate) / SecondsPerDay) * 10
  }

  /** Returning `days` whole days and `extra` seconds late costs 10 per day. */
  lemma FinePerDay(dueDate: int, days: nat, extra: int)
    requires 0 <= extra < SecondsPerDay
    ensures Fine(dueDate, dueDate + days * SecondsPerDay + extra) == 10 * days
  {
    var late := days * SecondsPerDay + extra;
    assert late / SecondsPerDay == days by {
      DivOfMultiplePlus(days, extra, SecondsPerDay);
    }
  }

  lemma DivOfMultiplePlus(q: nat, r: int, d: int)
    requires d > 0 && 0 <= r < d
    ensures (q * d + r) / d == q
  {
    var n := q * d + r;
    var k, m := n / d, n % d;
    assert (q - k) * d == m - r;
    MultipleSign(q - k, d);
  }

  /** A non-zero factor moves a product with `d` at least `d` away from 0. */
  lemma MultipleSign(e: int, d: int)
    requires d > 0
    ensures e >= 1 ==> e * d >= d
    ensures e <= -1 ==> e * d <= -d
  {
    if e >= 1 {
      assert e * d == (e - 1) * d + d;
      assert (e - 1) * d >= 0;
    }
    if e <= -1 {
      assert e * d == -((-e - 1) * d) - d;
      assert (-e - 1) * d >= 0;
    }
  }

  /** Returning later never costs less. */
  lemma FineMonotone(dueDate: int, r1: int, r2: int)
    requires r1 <= r2
    ensures Fine(dueDate, r1) <= Fine(dueDate, r2)
  {
    if r1 > dueDate {
      DivMonotone(r1 - dueDate, r2 - dueDate, SecondsPerDay);
    }
  }

  lemma DivMonotone(a: int, b: int, d: int)
    requires 0 <= a <= b && d > 0
    ensures a / d <= b / d
  {
    var qa, qb := a / d, b / d;
    assert (qa - qb) * d == (a - a % d) - (b - b % d);
    assert (qa - qb) * d < d;
    MultipleSign(qa - qb, d);
  }

  /** BookItem: one copy on loan, issued at `issuedDate`. */
  class BookItem {
    const book: Book
    const issuedTo: string
    const issuedDate: int
    const dueDate: int

    constructor (b: Book, user: string, now: int)
      ensures book == b && issuedTo == user && issuedDate == now
      ensures dueDate == DueDate(now, b.borrowDuration)
    {
      book := b;
      issuedTo := user;
      issuedDate := now;
      dueDate := DueDate(now, b.borrowDuration);
    }

    /** BookItem::isOverDue at time `now`: a copy that is not overdue costs
        no fine, as written or corrected. */
    predicate IsOverDue(now: int)
      ensures !IsOverDue(now) ==> Fine(dueDate, now) == 0 && FineAsWritten(dueDate, now) == 0
    {
      now > dueDate
    }
  }

  /** A copy returned while not overdue costs nothing, and an overdue one a
      fine of at least 10 once a whole day has passed. */
  lemma OverdueAndFine(item: BookItem, now: int)
    ensures !item.IsOverDue(now) <==> Fine(item.dueDate, now) == 0 && now <= item.dueDate
    ensures now >= item.dueDate + SecondsPerDay ==> Fine(item.dueDate, now) >= 10
  {
    if now >= item.dueDate + SecondsPerDay {
      DivMonotone(SecondsPerDay, now - item.dueDate, SecondsPerDay);
    }
  }

  /** `s` without any occurrence of `x`, order kept. */
  function RemoveAll<T(==)>(s: seq<T>, x: T): seq<T>
    decreases |s|
  {
    if s == [] then []
    else RemoveAll(s[..|s| - 1], x) + (if s[|s| - 1] == x then [] else [s[|s| - 1]])
  }

  /** Removal drops every occurrence of `x` and keeps every other element
      with its multiplicity. */
  lemma {:induction false} RemoveAllMultiset<T>(s: seq<T>, x: T)
    ensures multiset(RemoveAll(s, x)) == multiset(s)[x := 0]
    decreases |s|
  {
    if s != [] {
      var init, last := s[..|s| - 1], s[|s| - 1];
      RemoveAllMultiset(init, x);
      assert s == init + [last];
    }
  }

  lemma RemoveAllMembers<T>(s: seq<T>, x: T, y: T)
    ensures y in RemoveAll(s, x) <==> y in s && y != x
  {
    RemoveAllMultiset(s, x);
    assert y in RemoveAll(s, x) <==> y in multiset(RemoveAll(s, x));
  }

  /** User: the copies the user holds, in borrowing order. */
  class User {
    const id: int
    const name: string
    var borrowed: seq<BookItem>

    constructor (i: int, n: string)
      ensures id == i && name == n && borrowed == []
    {
      id := i;
      name := n;
      borrowed := [];
    }

    /** User::borrow appends the copy. */
    method Borrow(item: BookItem)
      modifies this
      ensures borrowed == old(borrowed) + [item]
    {
      borrowed := borrowed + [item];
    }

    /** User::returnBook: the fine the given calculator charges for returning
        at `now`, and every occurrence of the copy dropped from the list. */
    method ReturnBook(item: BookItem, fineCalculator: (int, int) -> int, now: int) returns (fine: int)
      modifies this
      ensures fine == fineCalculator(item.dueDate, now)
      ensures borrowed == RemoveAll(old(borrowed), item)
    {
      fine := fineCalculator(item.dueDate, now);
      var kept: seq<BookItem> := [];
      for k := 0 to |borrowed|
        invariant kept == RemoveAll(borrowed[..k], item)
      {
        assert borrowed[..k + 1][..k] == borrowed[..k];
        if borrowed[k] != item {
          kept := kept + [borrowed[k]];
        }
      }
      assert borrowed[..|borrowed|] == borrowed;
      borrowed := kept;
    }
  }

  /** Library: the catalogue, the members and the copy on loan per book id. */
  class Library {
    var books: seq<Book>
    var users: seq<User>
    var borrowedBooks: map<int, BookItem>

    constructor ()
      ensures books == [] && users == [] && borrowedBooks == map[]
    {
      books := [];
      users := [];
      borrowedBooks := map[];
    }

    method AddBook(book: Book)
      modifies this
      ensures books == old(books) + [book]
      ensures users == old(users) && borrowedBooks == old(borrowedBooks)
    {
      books := books + [book];
    }

    method CreateUser(user: User)
      modifies this
      ensures users == old(users) + [user]
      ensures books == old(books) && borrowedBooks == old(borrowedBooks)
    {
      users := users + [user];
    }

    /** Library::borrowBook: a new copy issued at `now` to the user is filed
        under the book id, replacing any earlier copy there, and appended to
        the user's list. */
    method BorrowBook(user: User, book: Book, now: int)
      modifies this, user
      ensures book.bookId in borrowedBooks
      ensures var item := borrowedBooks[book.bookId];
        && fresh(item) && item.book == book && item.issuedTo == user.name
        && item.issuedDate == now && item.dueDate == DueDate(now, book.borrowDuration)
        && borrowedBooks == old(borrowedBooks)[book.bookId := item]
        && user.borrowed == old(user.borrowed) + [item]
      ensures books == old(books) && users == old(users)
    {
      var item := new BookItem(book, user.name, now);
      borrowedBooks := borrowedBooks[book.bookId := item];
      user.Borrow(item);
    }

    /** Library::returnBook: nothing happens without a copy filed under the
        book id; otherwise the user is charged what the calculator computes
        for that copy, loses every occurrence of it and the entry is erased.
        The source's one calculator is `FineAsWritten`; `Fine` is the
        per-day calculator it evidently intends. */
    method ReturnBook(user: User, book: Book, fineCalculator: (int, int) -> int, now: int) returns (fine: Option<int>)
      modifies this, user
      ensures fine.Some? <==> book.bookId in old(borrowedBooks)
      ensures fine.None? ==> borrowedBooks == old(borrowedBooks) && user.borrowed == old(user.borrowed)
      ensures fine.Some? ==>
        var item := old(borrowedBooks)[book.bookId];
        && fine.value == fineCalculator(item.dueDate, now)
        && borrowedBooks == old(borrowedBooks) - {book.bookId}
        && user.borrowed == RemoveAll(old(user.borrowed), item)
        && item !in user.borrowed
      ensures books == old(books) && users == old(users)
    {
      if book.bookId !in borrowedBooks {
        return None;
      }
      var item := borrowedBooks[book.bookId];
      var charged := user.ReturnBook(item, fineCalculator, now);
      RemoveAllMembers(old(user.borrowed), item, item);
      borrowedBooks := borrowedBooks - {book.bookId};
      fine := Some(charged);
    }
  }
}
