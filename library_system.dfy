/** The `LibrarySystem` class of RK2/library_system.py. Its three lists are
    set by the constructor and never reassigned or mutated afterwards, so
    they are `const` fields here: no member of the class can change them,
    and every query is a function of them. */
module LibrarySystem {

  import opened Wrappers
  import opened Sequences
  import opened StableSort
  import opened LibraryRecords
  import opened SampleData

  class LibrarySystem {
    const libraries: seq<Library>
    const books: seq<Book>
    const libraryBooks: seq<LibraryBook>

    constructor (libraries: seq<Library>, books: seq<Book>, libraryBooks: seq<LibraryBook>)
      ensures this.libraries == libraries && this.books == books && this.libraryBooks == libraryBooks
    {
      this.libraries := libraries;
      this.books := books;
      this.libraryBooks := libraryBooks;
    }

    /** The stored lists, as given to the constructor. */
    function GetAllLibraries(): (r: seq<Library>)
      ensures r == libraries
    {
      libraries
    }

    function GetAllBooks(): (r: seq<Book>)
      ensures r == books
    {
      books
    }

    function GetLibraryBooksRelations(): (r: seq<LibraryBook>)
      ensures r == libraryBooks
    {
      libraryBooks
    }

    /** Query 1: the books whose title ends with the small Cyrillic a, in
        book-list order, each as often as it occurs in `books`. */
    function BooksEndingWithA(): (r: seq<Book>)
      ensures IsSubsequence(r, books)
      ensures forall b {:trigger b in r} :: b in r <==> b in books && TitleEndsWithA(b)
      ensures forall b {:trigger multiset(r)[b]} :: multiset(r)[b] == if TitleEndsWithA(b) then multiset(books)[b] else 0
    {
      FilterIsSubsequence(books, TitleEndsWithA);
      FilterMembers(books, TitleEndsWithA);
      FilterMultiplicities(books, TitleEndsWithA);
      Filter(books, TitleEndsWithA)
    }

    /** `_get_books_by_library`: the books some link row pairs with
        `libraryId`, in book-list order; repeated link rows do not repeat a
        book. */
    function BooksByLibrary(libraryId: int): (r: seq<Book>)
      ensures IsSubsequence(r, books)
      ensures forall b {:trigger b in r} :: b in r <==> b in books && Linked(libraryBooks, libraryId, b.id)
      ensures forall b {:trigger multiset(r)[b]} :: multiset(r)[b] == if Linked(libraryBooks, libraryId, b.id) then multiset(books)[b] else 0
    {
      var r := LinkedBooks(books, libraryBooks, libraryId);
      assert forall b {:trigger multiset(r)[b]} :: multiset(r)[b] == if Linked(libraryBooks, libraryId, b.id) then multiset(books)[b] else 0 by {
        forall b ensures multiset(r)[b] == if Linked(libraryBooks, libraryId, b.id) then multiset(books)[b] else 0 {
          LinkedBooksMultiplicity(books, libraryBooks, libraryId, b);
        }
      }
      r
    }

    /** The libraries whose name starts with the capital Cyrillic A, in
        library-list order. */
    function LibrariesStartingWithA(): (r: seq<Library>)
      ensures IsSubsequence(r, libraries)
      ensures forall lib {:trigger lib in r} :: lib in r <==> lib in libraries && NameStartsWithA(lib)
      ensures forall lib {:trigger multiset(r)[lib]} :: multiset(r)[lib] == if NameStartsWithA(lib) then multiset(libraries)[lib] else 0
    {
      FilterIsSubsequence(libraries, NameStartsWithA);
      FilterMembers(libraries, NameStartsWithA);
      FilterMultiplicities(libraries, NameStartsWithA);
      Filter(libraries, NameStartsWithA)
    }

    /** Query 2: one entry per library that has linked books, holding its
        name, its average page count and its number of books, sorted by
        average with ties left in library order. */
    method GetLibraryAvgPages() returns (r: seq<AverageEntry>)
      ensures r == AveragesReport(libraries, books, ByLinkTable(libraryBooks))
      ensures SortedBy(r, AverageOf)
      ensures multiset(r) == multiset(AverageRows(libraries, books, ByLinkTable(libraryBooks)))
      ensures forall k :: Filter(r, HasKey(AverageOf, k)) == Filter(AverageRows(libraries, books, ByLinkTable(libraryBooks)), HasKey(AverageOf, k))
      ensures |r| == |Filter(libraries, HasBooks(books, ByLinkTable(libraryBooks)))|
      ensures forall e :: e in r ==> exists lib :: lib in libraries && BooksByLibrary(lib.id) != [] && e == EntryFor(lib, BooksByLibrary(lib.id))
      ensures forall lib :: lib in libraries && BooksByLibrary(lib.id) != [] ==> EntryFor(lib, BooksByLibrary(lib.id)) in r
    {
      var g := ByLinkTable(libraryBooks);
      var result: seq<AverageEntry> := [];
      for i := 0 to |libraries|
        invariant result == AverageRows(libraries[..i], books, g)
      {
        var library := libraries[i];
        var libraryBooksList := BooksByLibrary(library.id);
        if libraryBooksList != [] {
          var totalPages := TotalPages(libraryBooksList);
          var avgPages := totalPages as real / |libraryBooksList| as real;
          result := result + [AverageEntry(library.name, avgPages, |libraryBooksList|)];
        }
        AverageRowsSnoc(libraries[..i], library, books, g);
        assert libraries[..i + 1] == libraries[..i] + [library];
      }
      assert libraries[..|libraries|] == libraries;
      r := SortBy(result, AverageOf);
      AveragesReportSpec(libraries, books, g);
      AveragesReportCount(libraries, books, g);
      AveragesReportSound(libraries, books, g);
      AveragesReportComplete(libraries, books, g);
      assert forall id :: BooksOf(books, g, id) == BooksByLibrary(id);
    }

    /** Query 3: the libraries whose name starts with the capital Cyrillic A,
        in order, each paired with its linked books (possibly none). */
    method GetLibrariesStartingWithAWithBooks() returns (r: seq<(Library, seq<Book>)>)
      ensures |r| == |LibrariesStartingWithA()|
      ensures forall i :: 0 <= i < |r| ==> r[i].0 == LibrariesStartingWithA()[i] && r[i].1 == BooksByLibrary(r[i].0.id)
    {
      var librariesA := LibrariesStartingWithA();
      var result: seq<(Library, seq<Book>)> := [];
      for i := 0 to |librariesA|
        invariant |result| == i
        invariant forall j :: 0 <= j < i ==> result[j] == (librariesA[j], BooksByLibrary(librariesA[j].id))
      {
        var library := librariesA[i];
        var libraryBooksOf := BooksByLibrary(library.id);
        result := result + [(library, libraryBooksOf)];
      }
      r := result;
    }

    /** The first library with id `libraryId`, or `None` when there is none. */
    method GetLibraryById(libraryId: int) returns (r: Option<Library>)
      ensures r.None? <==> forall i :: 0 <= i < |libraries| ==> libraries[i].id != libraryId
      ensures r.Some? ==> exists i :: 0 <= i < |libraries| && libraries[i] == r.value && r.value.id == libraryId
                                      && forall j :: 0 <= j < i ==> libraries[j].id != libraryId
      ensures r == FirstMatch(libraries, LibraryIdIs(libraryId))
    {
      for i := 0 to |libraries|
        invariant forall j :: 0 <= j < i ==> libraries[j].id != libraryId
      {
        if libraries[i].id == libraryId {
          FirstMatchAt(libraries, LibraryIdIs(libraryId), i);
          return Some(libraries[i]);
        }
      }
      return None;
    }

    /** The first book with id `bookId`, or `None` when there is none. */
    method GetBookById(bookId: int) returns (r: Option<Book>)
      ensures r.None? <==> forall i :: 0 <= i < |books| ==> books[i].id != bookId
      ensures r.Some? ==> exists i :: 0 <= i < |books| && books[i] == r.value && r.value.id == bookId
                                      && forall j :: 0 <= j < i ==> books[j].id != bookId
      ensures r == FirstMatch(books, BookIdIs(bookId))
    {
      for i := 0 to |books|
        invariant forall j :: 0 <= j < i ==> books[j].id != bookId
      {
        if books[i].id == bookId {
          FirstMatchAt(books, BookIdIs(bookId), i);
          return Some(books[i]);
        }
      }
      return None;
    }
  }

  /** `create_sample_data`: a system over the sample lists. */
  method CreateSampleData() returns (system: LibrarySystem)
    ensures fresh(system)
    ensures system.libraries == Libraries && system.books == Books
    ensures system.libraryBooks == Links
  {
    system := new LibrarySystem(Libraries, Books, Links);
  }

  /** The system `create_sample_data` builds. */
  predicate HoldsSampleData(system: LibrarySystem) {
    system.libraries == Libraries && system.books == Books && system.libraryBooks == Links
  }

  /** Query 1 and query 3 on the sample data: three books end with the
      small a, three libraries start with the capital A, and library 1
      holds the books 1, 3 and 5. */
  lemma SampleFilters(system: LibrarySystem)
    requires HoldsSampleData(system)
    ensures system.BooksEndingWithA() == [AnnaKarenina, EvgeniaOnegina, MasterAndMargarita]
    ensures system.LibrariesStartingWithA() == [Academic, FictionLending, ScienceLending]
    ensures system.BooksByLibrary(1) == [WarAndPeace, EvgeniaOnegina, CrimeAndPunishment]
  {
    SampleBooksEndingWithA();
    SampleLibrariesStartingWithA();
    SampleAcademicBooks();
  }

  /** Query 2 on the sample data: four entries in ascending order of
      average; library 1 has three books averaging (1225 + 320 + 672) / 3. */
  lemma SampleAverages(system: LibrarySystem)
    requires HoldsSampleData(system)
    ensures AveragesReport(system.libraries, system.books, ByLinkTable(system.libraryBooks))
         == [ScienceEntry, CityEntry, AcademicByLinks, FictionByLinks]
    ensures AcademicByLinks.name == Academic.name && AcademicByLinks.count == 3
    ensures AcademicByLinks.average == (1225 + 320 + 672) as real / 3.0
  {
    SampleReportByLinkTable();
  }

  /** The lookups of library 1 and book 1 on the sample data. */
  lemma SampleLookups(system: LibrarySystem)
    requires HoldsSampleData(system)
    ensures FirstMatch(system.libraries, LibraryIdIs(1)) == Some(Academic)
    ensures FirstMatch(system.books, BookIdIs(1)) == Some(WarAndPeace)
    ensures FirstMatch(system.books, BookIdIs(8)) == None
  {
    FirstMatchAt(Libraries, LibraryIdIs(1), 0);
    FirstMatchAt(Books, BookIdIs(1), 0);
  }
}
