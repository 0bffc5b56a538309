/** RK1/rk1.py: the same queries as the library system, written as a
    script over module-level lists (the sample data). Queries 1 and 3 and
    the name lookups are expressions; query 2 is a loop that appends to a
    list and then sorts it. Unlike the library system, query 2 groups the
    books by each book's own `library_id`, not through the link table. */
module Rk1 {

  import opened Wrappers
  import opened Sequences
  import opened StableSort
  import opened LibraryRecords
  import opened SampleData

  /** The fallback of the name lookups. */
  const Unknown: string := "Неизвестно"

  /** `next((lib.name for lib in libraries if lib.id == library_id), "Неизвестно")` */
  function LibraryNameById(libraryId: int): (name: string)
    ensures (forall i :: 0 <= i < |Libraries| ==> Libraries[i].id != libraryId) ==> name == Unknown
    ensures forall i :: 0 <= i < |Libraries| && Libraries[i].id == libraryId && (forall j :: 0 <= j < i ==> Libraries[j].id != libraryId)
                        ==> name == Libraries[i].name
  {
    match FirstMatch(Libraries, LibraryIdIs(libraryId))
    case Some(lib) => lib.name
    case None => Unknown
  }

  /** `next((book.title for book in books if book.id == book_id), "Неизвестно")` */
  function BookTitleById(bookId: int): (title: string)
    ensures (forall i :: 0 <= i < |Books| ==> Books[i].id != bookId) ==> title == Unknown
    ensures forall i :: 0 <= i < |Books| && Books[i].id == bookId && (forall j :: 0 <= j < i ==> Books[j].id != bookId)
                        ==> title == Books[i].title
  {
    match FirstMatch(Books, BookIdIs(bookId))
    case Some(b) => b.title
    case None => Unknown
  }

  /** Each library id 1 to 4 names the library at that position. */
  lemma LibraryIdsResolve(libraryId: int)
    requires 1 <= libraryId <= |Libraries|
    ensures LibraryNameById(libraryId) == Libraries[libraryId - 1].name
  {
    FirstMatchAt(Libraries, LibraryIdIs(libraryId), libraryId - 1);
  }

  /** Each book id 1 to 7 names the book at that position. */
  lemma BookIdsResolve(bookId: int)
    requires 1 <= bookId <= |Books|
    ensures BookTitleById(bookId) == Books[bookId - 1].title
  {
    FirstMatchAt(Books, BookIdIs(bookId), bookId - 1);
  }

  /** Every link row of the sample data names a library and a book that
      exist, so the listing of links never falls back to "Неизвестно". */
  lemma LinkRowsResolve()
    ensures forall lb :: lb in Links ==> LibraryNameById(lb.libraryId) == Libraries[lb.libraryId - 1].name
    ensures forall lb :: lb in Links ==> BookTitleById(lb.bookId) == Books[lb.bookId - 1].title
  {
    forall lb | lb in Links
      ensures LibraryNameById(lb.libraryId) == Libraries[lb.libraryId - 1].name
      ensures BookTitleById(lb.bookId) == Books[lb.bookId - 1].title
    {
      assert 1 <= lb.libraryId <= 4 && 1 <= lb.bookId <= 7;
      LibraryIdsResolve(lb.libraryId);
      BookIdsResolve(lb.bookId);
    }
  }

  /** An id that no record carries falls back to "Неизвестно". */
  lemma UnknownIdsFallBack()
    ensures LibraryNameById(5) == Unknown && BookTitleById(0) == Unknown
  {
  }

  /** Query 1: the books whose title ends with the small Cyrillic a, in
      book-list order. */
  function BooksEndingWithA(): (r: seq<Book>)
    ensures IsSubsequence(r, Books)
    ensures forall b {:trigger b in r} :: b in r <==> b in Books && TitleEndsWithA(b)
    ensures r == [AnnaKarenina, EvgeniaOnegina, MasterAndMargarita]
  {
    FilterIsSubsequence(Books, TitleEndsWithA);
    FilterMembers(Books, TitleEndsWithA);
    SampleBooksEndingWithA();
    Filter(Books, TitleEndsWithA)
  }

  /** Query 2: the loop appends one entry per library that owns books (by
      each book's own `library_id`) and the result is sorted by average,
      ties in library order. The script runs it on `Libraries` and `Books`;
      `SampleReportByHomeLibrary` gives the result there. */
  method LibraryAvgPages(libraries: seq<Library>, books: seq<Book>) returns (sorted: seq<AverageEntry>)
    ensures sorted == AveragesReport(libraries, books, ByHomeLibrary)
    ensures SortedBy(sorted, AverageOf)
    ensures multiset(sorted) == multiset(AverageRows(libraries, books, ByHomeLibrary))
    ensures forall k :: Filter(sorted, HasKey(AverageOf, k)) == Filter(AverageRows(libraries, books, ByHomeLibrary), HasKey(AverageOf, k))
    ensures |sorted| == |Filter(libraries, HasBooks(books, ByHomeLibrary))|
    ensures forall e :: e in sorted ==> exists lib :: lib in libraries && HomeBooks(books, lib.id) != [] && e == EntryFor(lib, HomeBooks(books, lib.id))
    ensures forall lib :: lib in libraries && HomeBooks(books, lib.id) != [] ==> EntryFor(lib, HomeBooks(books, lib.id)) in sorted
  {
    var libraryAvgPages: seq<AverageEntry> := [];
    for i := 0 to |libraries|
      invariant libraryAvgPages == AverageRows(libraries[..i], books, ByHomeLibrary)
    {
      var library := libraries[i];
      var libraryBooksList := HomeBooks(books, library.id);
      if libraryBooksList != [] {
        var totalPages := TotalPages(libraryBooksList);
        var avgPages := totalPages as real / |libraryBooksList| as real;
        assert AverageEntry(library.name, avgPages, |libraryBooksList|) == EntryFor(library, libraryBooksList);
        libraryAvgPages := libraryAvgPages + [AverageEntry(library.name, avgPages, |libraryBooksList|)];
      }
      assert libraryAvgPages == AverageRows(libraries[..i + 1], books, ByHomeLibrary) by {
        AverageRowsSnoc(libraries[..i], library, books, ByHomeLibrary);
        assert libraries[..i + 1] == libraries[..i] + [library];
      }
    }
    assert libraries[..|libraries|] == libraries;
    sorted := SortBy(libraryAvgPages, AverageOf);
    HomeLibraryReport(libraries, books);
  }

  /** The report grouped by home library, with each library's books written
      as the books whose own `library_id` is that library's id. */
  lemma HomeLibraryReport(libraries: seq<Library>, books: seq<Book>)
    ensures SortedBy(AveragesReport(libraries, books, ByHomeLibrary), AverageOf)
    ensures multiset(AveragesReport(libraries, books, ByHomeLibrary)) == multiset(AverageRows(libraries, books, ByHomeLibrary))
    ensures forall k :: Filter(AveragesReport(libraries, books, ByHomeLibrary), HasKey(AverageOf, k)) == Filter(AverageRows(libraries, books, ByHomeLibrary), HasKey(AverageOf, k))
    ensures |AveragesReport(libraries, books, ByHomeLibrary)| == |Filter(libraries, HasBooks(books, ByHomeLibrary))|
    ensures forall e :: e in AveragesReport(libraries, books, ByHomeLibrary) ==>
              exists lib :: lib in libraries && HomeBooks(books, lib.id) != [] && e == EntryFor(lib, HomeBooks(books, lib.id))
    ensures forall lib :: lib in libraries && HomeBooks(books, lib.id) != [] ==>
              EntryFor(lib, HomeBooks(books, lib.id)) in AveragesReport(libraries, books, ByHomeLibrary)
  {
    AveragesReportSpec(libraries, books, ByHomeLibrary);
    AveragesReportCount(libraries, books, ByHomeLibrary);
    AveragesReportSound(libraries, books, ByHomeLibrary);
    AveragesReportComplete(libraries, books, ByHomeLibrary);
  }

  /** The two ways of grouping disagree on the sample data: by home library,
      library 2 ("Абонемент художественной литературы") sorts before
      library 1 and both have two books; through the link table each has
      three and library 1 comes first. */
  lemma GroupingsDiffer()
    ensures AveragesReport(Libraries, Books, ByHomeLibrary) != AveragesReport(Libraries, Books, ByLinkTable(Links))
  {
    SampleReportByHomeLibrary();
    SampleReportByLinkTable();
    assert FictionAtHome != AcademicByLinks;
  }

  /** Query 3: the libraries whose name starts with the capital Cyrillic A,
      in library-list order. */
  function LibrariesStartingWithA(): (r: seq<Library>)
    ensures IsSubsequence(r, Libraries)
    ensures forall lib {:trigger lib in r} :: lib in r <==> lib in Libraries && NameStartsWithA(lib)
    ensures r == [Academic, FictionLending, ScienceLending]
  {
    FilterIsSubsequence(Libraries, NameStartsWithA);
    FilterMembers(Libraries, NameStartsWithA);
    SampleLibrariesStartingWithA();
    Filter(Libraries, NameStartsWithA)
  }

  /** The books query 3 lists under each of its libraries, through the link
      table; library 2's list includes book 1, whose own home is library 1. */
  lemma Query3Books()
    ensures LinkedBooks(Books, Links, LibrariesStartingWithA()[0].id) == [WarAndPeace, EvgeniaOnegina, CrimeAndPunishment]
    ensures LinkedBooks(Books, Links, LibrariesStartingWithA()[1].id) == [WarAndPeace, AnnaKarenina, CrimeAndPunishment]
    ensures LinkedBooks(Books, Links, LibrariesStartingWithA()[2].id) == [PhysicsForBeginners, OrganicChemistry]
  {
    SampleAcademicBooks();
    SampleFictionBooks();
    SampleScienceBooks();
  }
}
