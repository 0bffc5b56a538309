/** The records both library exercises are written over (the `Library`,
    `Book` and `LibraryBook` dataclasses, identical in RK1/rk1.py and
    RK2/library_system.py) and the query building blocks they share: the
    title and name tests, the two-stage join through the link table, the
    grouping of books under a library, and the per-library page averages. */
module LibraryRecords {

  import opened Sequences
  import opened StableSort

  datatype Library = Library(id: int, name: string)

  /** `libraryId` is the book's own home library, independent of the link table. */
  datatype Book = Book(id: int, title: string, author: string, pages: int, libraryId: int)

  /** One row of the many-to-many link table; rows may repeat. */
  datatype LibraryBook = LibraryBook(libraryId: int, bookId: int)

  /** One tuple `(library.name, avg_pages, len(books))` of the averages report. */
  datatype AverageEntry = AverageEntry(name: string, average: real, count: int)

  /** Cyrillic small letter a, U+0430: the suffix tested on titles. */
  const SmallA: char := '\U{0430}'
  /** Cyrillic capital letter A, U+0410: the prefix tested on library names. */
  const CapitalA: char := '\U{0410}'

  /** `s.endswith(c)` for a one-character suffix: `s` is some string
      followed by `c`. */
  function EndsWith(s: string, c: char): (b: bool)
    ensures b <==> exists p: string :: s == p + [c]
  {
    assert |s| > 0 ==> s == s[..|s| - 1] + [s[|s| - 1]];
    |s| > 0 && s[|s| - 1] == c
  }

  /** `s.startswith(c)` for a one-character prefix: `s` is `c` followed by
      some string. */
  function StartsWith(s: string, c: char): (b: bool)
    ensures b <==> exists t: string :: s == [c] + t
  {
    assert |s| > 0 ==> s == [s[0]] + s[1..];
    |s| > 0 && s[0] == c
  }

  predicate TitleEndsWithA(b: Book) {
    EndsWith(b.title, SmallA)
  }

  predicate NameStartsWithA(lib: Library) {
    StartsWith(lib.name, CapitalA)
  }

  /** The link table relates library `libraryId` to book `bookId`. */
  predicate Linked(links: seq<LibraryBook>, libraryId: int, bookId: int) {
    LibraryBook(libraryId, bookId) in links
  }

  function RowOfLibrary(libraryId: int): LibraryBook -> bool {
    (lb: LibraryBook) => lb.libraryId == libraryId
  }

  function BookIdOf(lb: LibraryBook): int {
    lb.bookId
  }

  function IdAmong(ids: seq<int>): Book -> bool {
    (b: Book) => b.id in ids
  }

  function AtHome(libraryId: int): Book -> bool {
    (b: Book) => b.libraryId == libraryId
  }

  /** The id tests of the lookups by id. */
  function LibraryIdIs(libraryId: int): Library -> bool {
    (lib: Library) => lib.id == libraryId
  }

  function BookIdIs(bookId: int): Book -> bool {
    (b: Book) => b.id == bookId
  }

  /** First stage of the join: `[lb.book_id for lb in library_books if
      lb.library_id == library_id]`, every linked book id, repeated as often
      as its link row is. */
  function LinkedBookIds(links: seq<LibraryBook>, libraryId: int): (ids: seq<int>)
    ensures forall id {:trigger id in ids} :: id in ids <==> Linked(links, libraryId, id)
  {
    LinkedBookIdsMembership(links, libraryId);
    Map(Filter(links, RowOfLibrary(libraryId)), BookIdOf)
  }

  lemma LinkedBookIdsMembership(links: seq<LibraryBook>, libraryId: int)
    ensures forall id :: id in Map(Filter(links, RowOfLibrary(libraryId)), BookIdOf) <==> Linked(links, libraryId, id)
  {
    var f := Filter(links, RowOfLibrary(libraryId));
    var ids := Map(f, BookIdOf);
    FilterMembers(links, RowOfLibrary(libraryId));
    forall id ensures id in ids <==> Linked(links, libraryId, id) {
      if Linked(links, libraryId, id) {
        assert LibraryBook(libraryId, id) in f;
        var i :| 0 <= i < |f| && f[i] == LibraryBook(libraryId, id);
        assert ids[i] == id;
      }
      if id in ids {
        var i :| 0 <= i < |ids| && ids[i] == id;
        assert f[i] in f;
        assert f[i] == LibraryBook(libraryId, id);
      }
    }
  }

  /** Second stage of the join (`_get_books_by_library`): every book, in
      book-list order, whose id some link row pairs with `libraryId`. A book
      occurs as often as it does in `books`, however many link rows name it. */
  function LinkedBooks(books: seq<Book>, links: seq<LibraryBook>, libraryId: int): (r: seq<Book>)
    ensures IsSubsequence(r, books)
    ensures forall b {:trigger b in r} :: b in r <==> b in books && Linked(links, libraryId, b.id)
  {
    FilterMembers(books, IdAmong(LinkedBookIds(links, libraryId)));
    FilterIsSubsequence(books, IdAmong(LinkedBookIds(links, libraryId)));
    Filter(books, IdAmong(LinkedBookIds(links, libraryId)))
  }

  /** Duplicate link rows never duplicate a book: a linked book occurs in the
      join exactly as often as in `books`, an unlinked one not at all. */
  lemma LinkedBooksMultiplicity(books: seq<Book>, links: seq<LibraryBook>, libraryId: int, b: Book)
    ensures multiset(LinkedBooks(books, links, libraryId))[b]
         == if Linked(links, libraryId, b.id) then multiset(books)[b] else 0
  {
    FilterMultiplicity(books, IdAmong(LinkedBookIds(links, libraryId)), b);
  }

  /** Adding a link row that is already present changes no library's books. */
  lemma LinkedBooksIgnoreRepeatedRow(books: seq<Book>, links: seq<LibraryBook>, row: LibraryBook, libraryId: int)
    requires row in links
    ensures LinkedBooks(books, links + [row], libraryId) == LinkedBooks(books, links, libraryId)
  {
    var ids, ids' := LinkedBookIds(links, libraryId), LinkedBookIds(links + [row], libraryId);
    forall b | b in books ensures IdAmong(ids')(b) == IdAmong(ids)(b) {
      assert Linked(links + [row], libraryId, b.id) <==> Linked(links, libraryId, b.id);
    }
    FilterAgree(books, IdAmong(ids'), IdAmong(ids));
  }

  /** With book records that are all distinct, the join lists no book twice. */
  lemma LinkedBooksNoDup(books: seq<Book>, links: seq<LibraryBook>, libraryId: int)
    requires NoDup(books)
    ensures NoDup(LinkedBooks(books, links, libraryId))
  {
    SubsequenceNoDup(LinkedBooks(books, links, libraryId), books);
  }

  /** `[book for book in books if book.library_id == library.id]`: the books
      whose own home library is `libraryId`, in book-list order. */
  function HomeBooks(books: seq<Book>, libraryId: int): (r: seq<Book>)
    ensures IsSubsequence(r, books)
    ensures forall b {:trigger b in r} :: b in r <==> b in books && b.libraryId == libraryId
  {
    FilterMembers(books, AtHome(libraryId));
    FilterIsSubsequence(books, AtHome(libraryId));
    Filter(books, AtHome(libraryId))
  }

  /** A book whose home is the library occurs among its home books exactly
      as often as in `books`; any other book not at all. */
  lemma HomeBooksMultiplicity(books: seq<Book>, libraryId: int, b: Book)
    ensures multiset(HomeBooks(books, libraryId))[b] == if b.libraryId == libraryId then multiset(books)[b] else 0
  {
    FilterMultiplicity(books, AtHome(libraryId), b);
  }

  /** How the averages query finds a library's books: through the link table
      (RK2) or through each book's own `library_id` (RK1). */
  datatype Grouping = ByLinkTable(links: seq<LibraryBook>) | ByHomeLibrary

  function BooksOf(books: seq<Book>, g: Grouping, libraryId: int): seq<Book> {
    match g
    case ByLinkTable(links) => LinkedBooks(books, links, libraryId)
    case ByHomeLibrary => HomeBooks(books, libraryId)
  }

  /** `sum(book.pages for book in bs)` */
  function TotalPages(bs: seq<Book>): int {
    if bs == [] then 0 else bs[0].pages + TotalPages(bs[1..])
  }

  /** The total of two lists of books is the sum of their totals, so the
      total does not depend on how the list is split. */
  lemma {:induction false} TotalPagesAppend(a: seq<Book>, b: seq<Book>)
    ensures TotalPages(a + b) == TotalPages(a) + TotalPages(b)
    decreases |a|
  {
    if a != [] {
      assert (a + b)[1..] == a[1..] + b;
      TotalPagesAppend(a[1..], b);
    } else {
      assert a + b == b;
    }
  }

  /** The report tuple for a library with a non-empty list of books; Python's
      `/` is modelled as exact division. */
  function EntryFor(lib: Library, bs: seq<Book>): (e: AverageEntry)
    requires bs != []
    ensures e.name == lib.name && e.count == |bs| > 0
    ensures e.average * (e.count as real) == TotalPages(bs) as real
  {
    AverageEntry(lib.name, TotalPages(bs) as real / |bs| as real, |bs|)
  }

  function AverageOf(e: AverageEntry): real {
    e.average
  }

  function HasBooks(books: seq<Book>, g: Grouping): Library -> bool {
    (lib: Library) => BooksOf(books, g, lib.id) != []
  }

  /** The list the averages loop builds before sorting: one entry per library
      in library order, skipping the libraries that have no books. */
  function AverageRows(libs: seq<Library>, books: seq<Book>, g: Grouping): seq<AverageEntry> {
    if libs == [] then []
    else
      var lib := libs[|libs| - 1];
      var bs := BooksOf(books, g, lib.id);
      AverageRows(libs[..|libs| - 1], books, g) + (if bs == [] then [] else [EntryFor(lib, bs)])
  }

  /** The averages query: the rows sorted by average, stably. */
  function AveragesReport(libs: seq<Library>, books: seq<Book>, g: Grouping): seq<AverageEntry> {
    SortBy(AverageRows(libs, books, g), AverageOf)
  }

  /** Visiting one more library appends its entry, or nothing when it has no books. */
  lemma AverageRowsSnoc(init: seq<Library>, lib: Library, books: seq<Book>, g: Grouping)
    ensures AverageRows(init + [lib], books, g)
         == AverageRows(init, books, g) + (if BooksOf(books, g, lib.id) == [] then [] else [EntryFor(lib, BooksOf(books, g, lib.id))])
  {
    assert (init + [lib])[..|init|] == init;
  }

  /** There is one entry per library that has books. */
  lemma {:induction false} AverageRowsCount(libs: seq<Library>, books: seq<Book>, g: Grouping)
    ensures |AverageRows(libs, books, g)| == |Filter(libs, HasBooks(books, g))|
  {
    if libs != [] {
      var init, lib := libs[..|libs| - 1], libs[|libs| - 1];
      assert libs == init + [lib];
      AverageRowsSnoc(init, lib, books, g);
      AverageRowsCount(init, books, g);
      FilterSnoc(init, lib, HasBooks(books, g));
    }
  }

  /** Every entry is the entry of some library that has books: no library
      without books contributes one. */
  lemma {:induction false} AverageRowsSound(libs: seq<Library>, books: seq<Book>, g: Grouping)
    ensures forall e :: e in AverageRows(libs, books, g) ==>
              exists lib :: lib in libs && BooksOf(books, g, lib.id) != [] && e == EntryFor(lib, BooksOf(books, g, lib.id))
  {
    if libs != [] {
      var init, lib := libs[..|libs| - 1], libs[|libs| - 1];
      assert libs == init + [lib];
      AverageRowsSnoc(init, lib, books, g);
      AverageRowsSound(init, books, g);
      assert forall l :: l in init ==> l in libs;
    }
  }

  /** Every library that has books contributes its entry. */
  lemma {:induction false} AverageRowsComplete(libs: seq<Library>, books: seq<Book>, g: Grouping)
    ensures forall lib :: lib in libs && BooksOf(books, g, lib.id) != [] ==>
              EntryFor(lib, BooksOf(books, g, lib.id)) in AverageRows(libs, books, g)
  {
    if libs != [] {
      var init, last := libs[..|libs| - 1], libs[|libs| - 1];
      assert libs == init + [last];
      AverageRowsSnoc(init, last, books, g);
      AverageRowsComplete(init, books, g);
      forall lib | lib in libs && BooksOf(books, g, lib.id) != []
        ensures EntryFor(lib, BooksOf(books, g, lib.id)) in AverageRows(libs, books, g)
      {
        if lib != last {
          assert lib in init;
        }
      }
    }
  }

  /** The averages report is sorted by average, holds exactly the rows the
      loop built, and keeps library order among equal averages. */
  lemma AveragesReportSpec(libs: seq<Library>, books: seq<Book>, g: Grouping)
    ensures SortedBy(AveragesReport(libs, books, g), AverageOf)
    ensures multiset(AveragesReport(libs, books, g)) == multiset(AverageRows(libs, books, g))
    ensures forall k :: Filter(AveragesReport(libs, books, g), HasKey(AverageOf, k))
                     == Filter(AverageRows(libs, books, g), HasKey(AverageOf, k))
    ensures forall e :: e in AveragesReport(libs, books, g) <==> e in AverageRows(libs, books, g)
  {
    var rows := AverageRows(libs, books, g);
    SortBySorted(rows, AverageOf);
    SortByPermutes(rows, AverageOf);
    forall k ensures Filter(SortBy(rows, AverageOf), HasKey(AverageOf, k)) == Filter(rows, HasKey(AverageOf, k)) {
      SortByStable(rows, AverageOf, k);
    }
    assert forall e :: e in SortBy(rows, AverageOf) <==> e in multiset(SortBy(rows, AverageOf));
  }

  /** The report has one entry per library that has books. */
  lemma AveragesReportCount(libs: seq<Library>, books: seq<Book>, g: Grouping)
    ensures |AveragesReport(libs, books, g)| == |Filter(libs, HasBooks(books, g))|
  {
    var rows := AverageRows(libs, books, g);
    SortByPermutes(rows, AverageOf);
    assert |SortBy(rows, AverageOf)| == |multiset(SortBy(rows, AverageOf))|;
    AverageRowsCount(libs, books, g);
  }

  /** Every entry of the report is the entry of a library that has books. */
  lemma AveragesReportSound(libs: seq<Library>, books: seq<Book>, g: Grouping)
    ensures forall e :: e in AveragesReport(libs, books, g) ==>
              exists lib :: lib in libs && BooksOf(books, g, lib.id) != [] && e == EntryFor(lib, BooksOf(books, g, lib.id))
  {
    var rows := AverageRows(libs, books, g);
    SortByPermutes(rows, AverageOf);
    AverageRowsSound(libs, books, g);
    forall e | e in SortBy(rows, AverageOf) ensures e in rows {
      assert e in multiset(SortBy(rows, AverageOf));
    }
  }

  /** Every library that has books has its entry in the report. */
  lemma AveragesReportComplete(libs: seq<Library>, books: seq<Book>, g: Grouping)
    ensures forall lib :: lib in libs && BooksOf(books, g, lib.id) != [] ==>
              EntryFor(lib, BooksOf(books, g, lib.id)) in AveragesReport(libs, books, g)
  {
    var rows := AverageRows(libs, books, g);
    SortByPermutes(rows, AverageOf);
    AverageRowsComplete(libs, books, g);
    forall e | e in rows ensures e in SortBy(rows, AverageOf) {
      assert e in multiset(rows);
    }
  }
}
