/** The sample data set both exercises run on (the literals of RK1/rk1.py and
    of `create_sample_data` in RK2/library_system.py, which are the same), and
    what each query yields on it. */
module SampleData {

  import opened Sequences
  import opened StableSort
  import opened LibraryRecords

  const Academic := Library(1, "Академическая библиотека")
  const FictionLending := Library(2, "Абонемент художественной литературы")
  const CityCentral := Library(3, "Городская центральная библиотека")
  const ScienceLending := Library(4, "Абонемент научной литературы")

  const Libraries: seq<Library> := [Academic, FictionLending, CityCentral, ScienceLending]

  const WarAndPeace := Book(1, "Война и мир", "Л. Толстой", 1225, 1)
  const AnnaKarenina := Book(2, "Анна Каренина", "Л. Толстой", 864, 2)
  const EvgeniaOnegina := Book(3, "Евгения Онегина", "А. Пушкин", 320, 1)
  const MasterAndMargarita := Book(4, "Мастер и Маргарита", "М. Булгаков", 480, 3)
  const CrimeAndPunishment := Book(5, "Преступление и наказание", "Ф. Достоевский", 672, 2)
  const PhysicsForBeginners := Book(6, "Физика для начинающих", "А. Эйнштейн", 350, 4)
  const OrganicChemistry := Book(7, "Химия органических соединений", "Д. Менделеев", 540, 4)

  const Books: seq<Book> := [
    WarAndPeace, AnnaKarenina, EvgeniaOnegina, MasterAndMargarita,
    CrimeAndPunishment, PhysicsForBeginners, OrganicChemistry
  ]

  const Links: seq<LibraryBook> := [
    LibraryBook(1, 1),
    LibraryBook(1, 3),
    LibraryBook(2, 2),
    LibraryBook(2, 5),
    LibraryBook(3, 4),
    LibraryBook(4, 6),
    LibraryBook(4, 7),
    LibraryBook(1, 5),
    LibraryBook(2, 1)
  ]

  /** The report entries the sample data yields. The two groupings agree
      on libraries 3 and 4 and differ on libraries 1 and 2. */
  const AcademicByLinks := AverageEntry("Академическая библиотека", 2217.0 / 3.0, 3)
  const FictionByLinks := AverageEntry("Абонемент художественной литературы", 2761.0 / 3.0, 3)
  const AcademicAtHome := AverageEntry("Академическая библиотека", 772.5, 2)
  const FictionAtHome := AverageEntry("Абонемент художественной литературы", 768.0, 2)
  const CityEntry := AverageEntry("Городская центральная библиотека", 480.0, 1)
  const ScienceEntry := AverageEntry("Абонемент научной литературы", 445.0, 2)

  lemma SampleBooksEndingWithAFrom6()
    ensures Filter(Books[6..], TitleEndsWithA) == []
  {
    var p := TitleEndsWithA;
    assert Filter(Books[6..], p) == [] by {
      assert Books[7..] == [];
      FilterStep(Books, 6, p);
    }
  }

  lemma SampleBooksEndingWithAFrom3()
    ensures Filter(Books[3..], TitleEndsWithA) == [MasterAndMargarita]
  {
    var p := TitleEndsWithA;
    assert Filter(Books[3..], p) == [MasterAndMargarita] by {
      assert Filter(Books[4..], p) == [] by {
        assert Filter(Books[5..], p) == [] by {
          SampleBooksEndingWithAFrom6();
          FilterStep(Books, 5, p);
        }
        FilterStep(Books, 4, p);
      }
      FilterStep(Books, 3, p);
    }
  }

  /** Query 1: three titles end with the small Cyrillic a, in book-list order. */
  lemma SampleBooksEndingWithA()
    ensures Filter(Books, TitleEndsWithA) == [AnnaKarenina, EvgeniaOnegina, MasterAndMargarita]
  {
    var p := TitleEndsWithA;
    assert Filter(Books[0..], p) == [AnnaKarenina, EvgeniaOnegina, MasterAndMargarita] by {
      assert Filter(Books[1..], p) == [AnnaKarenina, EvgeniaOnegina, MasterAndMargarita] by {
        assert Filter(Books[2..], p) == [EvgeniaOnegina, MasterAndMargarita] by {
          SampleBooksEndingWithAFrom3();
          FilterStep(Books, 2, p);
        }
        FilterStep(Books, 1, p);
      }
      FilterStep(Books, 0, p);
    }
    assert Books[0..] == Books;
  }

  /** Query 3: three library names start with the capital Cyrillic A. */
  lemma SampleLibrariesStartingWithA()
    ensures Filter(Libraries, NameStartsWithA) == [Academic, FictionLending, ScienceLending]
  {
    var p := NameStartsWithA;
    assert Filter(Libraries[0..], p) == [Academic, FictionLending, ScienceLending] by {
      assert Filter(Libraries[1..], p) == [FictionLending, ScienceLending] by {
        assert Filter(Libraries[2..], p) == [ScienceLending] by {
          assert Filter(Libraries[3..], p) == [ScienceLending] by {
            assert Libraries[4..] == [];
            FilterStep(Libraries, 3, p);
          }
          FilterStep(Libraries, 2, p);
        }
        FilterStep(Libraries, 1, p);
      }
      FilterStep(Libraries, 0, p);
    }
    assert Libraries[0..] == Libraries;
  }

  lemma SampleAcademicRowsFrom6()
    ensures Filter(Links[6..], RowOfLibrary(1)) == [Links[7]]
  {
    var p := RowOfLibrary(1);
    assert Filter(Links[6..], p) == [Links[7]] by {
      assert Filter(Links[7..], p) == [Links[7]] by {
        assert Filter(Links[8..], p) == [] by {
          assert Links[9..] == [];
          FilterStep(Links, 8, p);
        }
        FilterStep(Links, 7, p);
      }
      FilterStep(Links, 6, p);
    }
  }

  lemma SampleAcademicRowsFrom3()
    ensures Filter(Links[3..], RowOfLibrary(1)) == [Links[7]]
  {
    var p := RowOfLibrary(1);
    assert Filter(Links[3..], p) == [Links[7]] by {
      assert Filter(Links[4..], p) == [Links[7]] by {
        assert Filter(Links[5..], p) == [Links[7]] by {
          SampleAcademicRowsFrom6();
          FilterStep(Links, 5, p);
        }
        FilterStep(Links, 4, p);
      }
      FilterStep(Links, 3, p);
    }
  }

  /** The link rows of library 1. */
  lemma SampleAcademicRows()
    ensures Filter(Links, RowOfLibrary(1)) == [Links[0], Links[1], Links[7]]
  {
    var p := RowOfLibrary(1);
    assert Filter(Links[0..], p) == [Links[0], Links[1], Links[7]] by {
      assert Filter(Links[1..], p) == [Links[1], Links[7]] by {
        assert Filter(Links[2..], p) == [Links[7]] by {
          SampleAcademicRowsFrom3();
          FilterStep(Links, 2, p);
        }
        FilterStep(Links, 1, p);
      }
      FilterStep(Links, 0, p);
    }
    assert Links[0..] == Links;
  }

  /** Library 1 is linked to the book ids 1, 3, 5. */
  lemma SampleAcademicBookIds()
    ensures LinkedBookIds(Links, 1) == [1, 3, 5]
  {
    SampleAcademicRows();
    assert Map([Links[0], Links[1], Links[7]], BookIdOf) == [1, 3, 5];
  }

  lemma SampleAcademicBooksWithIdsFrom6(ids: seq<int>)
    requires ids == [1, 3, 5]
    ensures Filter(Books[6..], IdAmong(ids)) == []
  {
    var p := IdAmong(ids);
    assert Filter(Books[6..], p) == [] by {
      assert Books[7..] == [];
      FilterStep(Books, 6, p);
    }
  }

  lemma SampleAcademicBooksWithIdsFrom3(ids: seq<int>)
    requires ids == [1, 3, 5]
    ensures Filter(Books[3..], IdAmong(ids)) == [CrimeAndPunishment]
  {
    var p := IdAmong(ids);
    assert Filter(Books[3..], p) == [CrimeAndPunishment] by {
      assert Filter(Books[4..], p) == [CrimeAndPunishment] by {
        assert Filter(Books[5..], p) == [] by {
          SampleAcademicBooksWithIdsFrom6(ids);
          FilterStep(Books, 5, p);
        }
        FilterStep(Books, 4, p);
      }
      FilterStep(Books, 3, p);
    }
  }

  /** Selecting the ids 1, 3, 5 picks the books with those ids, in book-list order. */
  lemma SampleAcademicBooksWithIds(ids: seq<int>)
    requires ids == [1, 3, 5]
    ensures Filter(Books, IdAmong(ids)) == [WarAndPeace, EvgeniaOnegina, CrimeAndPunishment]
  {
    var p := IdAmong(ids);
    assert Filter(Books[0..], p) == [WarAndPeace, EvgeniaOnegina, CrimeAndPunishment] by {
      assert Filter(Books[1..], p) == [EvgeniaOnegina, CrimeAndPunishment] by {
        assert Filter(Books[2..], p) == [EvgeniaOnegina, CrimeAndPunishment] by {
          SampleAcademicBooksWithIdsFrom3(ids);
          FilterStep(Books, 2, p);
        }
        FilterStep(Books, 1, p);
      }
      FilterStep(Books, 0, p);
    }
    assert Books[0..] == Books;
  }

  /** The books the link table gives library 1. */
  lemma SampleAcademicBooks()
    ensures LinkedBooks(Books, Links, 1) == [WarAndPeace, EvgeniaOnegina, CrimeAndPunishment]
  {
    SampleAcademicBookIds();
    SampleAcademicBooksWithIds(LinkedBookIds(Links, 1));
  }

  lemma SampleAcademicHomeBooksFrom6()
    ensures Filter(Books[6..], AtHome(1)) == []
  {
    var p := AtHome(1);
    assert Filter(Books[6..], p) == [] by {
      assert Books[7..] == [];
      FilterStep(Books, 6, p);
    }
  }

  lemma SampleAcademicHomeBooksFrom3()
    ensures Filter(Books[3..], AtHome(1)) == []
  {
    var p := AtHome(1);
    assert Filter(Books[3..], p) == [] by {
      assert Filter(Books[4..], p) == [] by {
        assert Filter(Books[5..], p) == [] by {
          SampleAcademicHomeBooksFrom6();
          FilterStep(Books, 5, p);
        }
        FilterStep(Books, 4, p);
      }
      FilterStep(Books, 3, p);
    }
  }

  /** The books whose own home library is 1. */
  lemma SampleAcademicHomeBooks()
    ensures HomeBooks(Books, 1) == [WarAndPeace, EvgeniaOnegina]
  {
    var p := AtHome(1);
    assert Filter(Books[0..], p) == [WarAndPeace, EvgeniaOnegina] by {
      assert Filter(Books[1..], p) == [EvgeniaOnegina] by {
        assert Filter(Books[2..], p) == [EvgeniaOnegina] by {
          SampleAcademicHomeBooksFrom3();
          FilterStep(Books, 2, p);
        }
        FilterStep(Books, 1, p);
      }
      FilterStep(Books, 0, p);
    }
    assert Books[0..] == Books;
  }

  lemma SampleFictionRowsFrom6()
    ensures Filter(Links[6..], RowOfLibrary(2)) == [Links[8]]
  {
    var p := RowOfLibrary(2);
    assert Filter(Links[6..], p) == [Links[8]] by {
      assert Filter(Links[7..], p) == [Links[8]] by {
        assert Filter(Links[8..], p) == [Links[8]] by {
          assert Links[9..] == [];
          FilterStep(Links, 8, p);
        }
        FilterStep(Links, 7, p);
      }
      FilterStep(Links, 6, p);
    }
  }

  lemma SampleFictionRowsFrom3()
    ensures Filter(Links[3..], RowOfLibrary(2)) == [Links[3], Links[8]]
  {
    var p := RowOfLibrary(2);
    assert Filter(Links[3..], p) == [Links[3], Links[8]] by {
      assert Filter(Links[4..], p) == [Links[8]] by {
        assert Filter(Links[5..], p) == [Links[8]] by {
          SampleFictionRowsFrom6();
          FilterStep(Links, 5, p);
        }
        FilterStep(Links, 4, p);
      }
      FilterStep(Links, 3, p);
    }
  }

  /** The link rows of library 2. */
  lemma SampleFictionRows()
    ensures Filter(Links, RowOfLibrary(2)) == [Links[2], Links[3], Links[8]]
  {
    var p := RowOfLibrary(2);
    assert Filter(Links[0..], p) == [Links[2], Links[3], Links[8]] by {
      assert Filter(Links[1..], p) == [Links[2], Links[3], Links[8]] by {
        assert Filter(Links[2..], p) == [Links[2], Links[3], Links[8]] by {
          SampleFictionRowsFrom3();
          FilterStep(Links, 2, p);
        }
        FilterStep(Links, 1, p);
      }
      FilterStep(Links, 0, p);
    }
    assert Links[0..] == Links;
  }

  /** Library 2 is linked to the book ids 2, 5, 1. */
  lemma SampleFictionBookIds()
    ensures LinkedBookIds(Links, 2) == [2, 5, 1]
  {
    SampleFictionRows();
    assert Map([Links[2], Links[3], Links[8]], BookIdOf) == [2, 5, 1];
  }

  lemma SampleFictionBooksWithIdsFrom6(ids: seq<int>)
    requires ids == [2, 5, 1]
    ensures Filter(Books[6..], IdAmong(ids)) == []
  {
    var p := IdAmong(ids);
    assert Filter(Books[6..], p) == [] by {
      assert Books[7..] == [];
      FilterStep(Books, 6, p);
    }
  }

  lemma SampleFictionBooksWithIdsFrom3(ids: seq<int>)
    requires ids == [2, 5, 1]
    ensures Filter(Books[3..], IdAmong(ids)) == [CrimeAndPunishment]
  {
    var p := IdAmong(ids);
    assert Filter(Books[3..], p) == [CrimeAndPunishment] by {
      assert Filter(Books[4..], p) == [CrimeAndPunishment] by {
        assert Filter(Books[5..], p) == [] by {
          SampleFictionBooksWithIdsFrom6(ids);
          FilterStep(Books, 5, p);
        }
        FilterStep(Books, 4, p);
      }
      FilterStep(Books, 3, p);
    }
  }

  /** Selecting the ids 2, 5, 1 picks the books with those ids, in book-list order. */
  lemma SampleFictionBooksWithIds(ids: seq<int>)
    requires ids == [2, 5, 1]
    ensures Filter(Books, IdAmong(ids)) == [WarAndPeace, AnnaKarenina, CrimeAndPunishment]
  {
    var p := IdAmong(ids);
    assert Filter(Books[0..], p) == [WarAndPeace, AnnaKarenina, CrimeAndPunishment] by {
      assert Filter(Books[1..], p) == [AnnaKarenina, CrimeAndPunishment] by {
        assert Filter(Books[2..], p) == [CrimeAndPunishment] by {
          SampleFictionBooksWithIdsFrom3(ids);
          FilterStep(Books, 2, p);
        }
        FilterStep(Books, 1, p);
      }
      FilterStep(Books, 0, p);
    }
    assert Books[0..] == Books;
  }

  /** The books the link table gives library 2. */
  lemma SampleFictionBooks()
    ensures LinkedBooks(Books, Links, 2) == [WarAndPeace, AnnaKarenina, CrimeAndPunishment]
  {
    SampleFictionBookIds();
    SampleFictionBooksWithIds(LinkedBookIds(Links, 2));
  }

  lemma SampleFictionHomeBooksFrom6()
    ensures Filter(Books[6..], AtHome(2)) == []
  {
    var p := AtHome(2);
    assert Filter(Books[6..], p) == [] by {
      assert Books[7..] == [];
      FilterStep(Books, 6, p);
    }
  }

  lemma SampleFictionHomeBooksFrom3()
    ensures Filter(Books[3..], AtHome(2)) == [CrimeAndPunishment]
  {
    var p := AtHome(2);
    assert Filter(Books[3..], p) == [CrimeAndPunishment] by {
      assert Filter(Books[4..], p) == [CrimeAndPunishment] by {
        assert Filter(Books[5..], p) == [] by {
          SampleFictionHomeBooksFrom6();
          FilterStep(Books, 5, p);
        }
        FilterStep(Books, 4, p);
      }
      FilterStep(Books, 3, p);
    }
  }

  /** The books whose own home library is 2. */
  lemma SampleFictionHomeBooks()
    ensures HomeBooks(Books, 2) == [AnnaKarenina, CrimeAndPunishment]
  {
    var p := AtHome(2);
    assert Filter(Books[0..], p) == [AnnaKarenina, CrimeAndPunishment] by {
      assert Filter(Books[1..], p) == [AnnaKarenina, CrimeAndPunishment] by {
        assert Filter(Books[2..], p) == [CrimeAndPunishment] by {
          SampleFictionHomeBooksFrom3();
          FilterStep(Books, 2, p);
        }
        FilterStep(Books, 1, p);
      }
      FilterStep(Books, 0, p);
    }
    assert Books[0..] == Books;
  }

  lemma SampleCityRowsFrom6()
    ensures Filter(Links[6..], RowOfLibrary(3)) == []
  {
    var p := RowOfLibrary(3);
    assert Filter(Links[6..], p) == [] by {
      assert Filter(Links[7..], p) == [] by {
        assert Filter(Links[8..], p) == [] by {
          assert Links[9..] == [];
          FilterStep(Links, 8, p);
        }
        FilterStep(Links, 7, p);
      }
      FilterStep(Links, 6, p);
    }
  }

  lemma SampleCityRowsFrom3()
    ensures Filter(Links[3..], RowOfLibrary(3)) == [Links[4]]
  {
    var p := RowOfLibrary(3);
    assert Filter(Links[3..], p) == [Links[4]] by {
      assert Filter(Links[4..], p) == [Links[4]] by {
        assert Filter(Links[5..], p) == [] by {
          SampleCityRowsFrom6();
          FilterStep(Links, 5, p);
        }
        FilterStep(Links, 4, p);
      }
      FilterStep(Links, 3, p);
    }
  }

  /** The link rows of library 3. */
  lemma SampleCityRows()
    ensures Filter(Links, RowOfLibrary(3)) == [Links[4]]
  {
    var p := RowOfLibrary(3);
    assert Filter(Links[0..], p) == [Links[4]] by {
      assert Filter(Links[1..], p) == [Links[4]] by {
        assert Filter(Links[2..], p) == [Links[4]] by {
          SampleCityRowsFrom3();
          FilterStep(Links, 2, p);
        }
        FilterStep(Links, 1, p);
      }
      FilterStep(Links, 0, p);
    }
    assert Links[0..] == Links;
  }

  /** Library 3 is linked to the book ids 4. */
  lemma SampleCityBookIds()
    ensures LinkedBookIds(Links, 3) == [4]
  {
    SampleCityRows();
    assert Map([Links[4]], BookIdOf) == [4];
  }

  lemma SampleCityBooksWithIdsFrom6(ids: seq<int>)
    requires ids == [4]
    ensures Filter(Books[6..], IdAmong(ids)) == []
  {
    var p := IdAmong(ids);
    assert Filter(Books[6..], p) == [] by {
      assert Books[7..] == [];
      FilterStep(Books, 6, p);
    }
  }

  lemma SampleCityBooksWithIdsFrom3(ids: seq<int>)
    requires ids == [4]
    ensures Filter(Books[3..], IdAmong(ids)) == [MasterAndMargarita]
  {
    var p := IdAmong(ids);
    assert Filter(Books[3..], p) == [MasterAndMargarita] by {
      assert Filter(Books[4..], p) == [] by {
        assert Filter(Books[5..], p) == [] by {
          SampleCityBooksWithIdsFrom6(ids);
          FilterStep(Books, 5, p);
        }
        FilterStep(Books, 4, p);
      }
      FilterStep(Books, 3, p);
    }
  }

  /** Selecting the ids 4 picks the books with those ids, in book-list order. */
  lemma SampleCityBooksWithIds(ids: seq<int>)
    requires ids == [4]
    ensures Filter(Books, IdAmong(ids)) == [MasterAndMargarita]
  {
    var p := IdAmong(ids);
    assert Filter(Books[0..], p) == [MasterAndMargarita] by {
      assert Filter(Books[1..], p) == [MasterAndMargarita] by {
        assert Filter(Books[2..], p) == [MasterAndMargarita] by {
          SampleCityBooksWithIdsFrom3(ids);
          FilterStep(Books, 2, p);
        }
        FilterStep(Books, 1, p);
      }
      FilterStep(Books, 0, p);
    }
    assert Books[0..] == Books;
  }

  /** The books the link table gives library 3. */
  lemma SampleCityBooks()
    ensures LinkedBooks(Books, Links, 3) == [MasterAndMargarita]
  {
    SampleCityBookIds();
    SampleCityBooksWithIds(LinkedBookIds(Links, 3));
  }

  lemma SampleCityHomeBooksFrom6()
    ensures Filter(Books[6..], AtHome(3)) == []
  {
    var p := AtHome(3);
    assert Filter(Books[6..], p) == [] by {
      assert Books[7..] == [];
      FilterStep(Books, 6, p);
    }
  }

  lemma SampleCityHomeBooksFrom3()
    ensures Filter(Books[3..], AtHome(3)) == [MasterAndMargarita]
  {
    var p := AtHome(3);
    assert Filter(Books[3..], p) == [MasterAndMargarita] by {
      assert Filter(Books[4..], p) == [] by {
        assert Filter(Books[5..], p) == [] by {
          SampleCityHomeBooksFrom6();
          FilterStep(Books, 5, p);
        }
        FilterStep(Books, 4, p);
      }
      FilterStep(Books, 3, p);
    }
  }

  /** The books whose own home library is 3. */
  lemma SampleCityHomeBooks()
    ensures HomeBooks(Books, 3) == [MasterAndMargarita]
  {
    var p := AtHome(3);
    assert Filter(Books[0..], p) == [MasterAndMargarita] by {
      assert Filter(Books[1..], p) == [MasterAndMargarita] by {
        assert Filter(Books[2..], p) == [MasterAndMargarita] by {
          SampleCityHomeBooksFrom3();
          FilterStep(Books, 2, p);
        }
        FilterStep(Books, 1, p);
      }
      FilterStep(Books, 0, p);
    }
    assert Books[0..] == Books;
  }

  lemma SampleScienceRowsFrom6()
    ensures Filter(Links[6..], RowOfLibrary(4)) == [Links[6]]
  {
    var p := RowOfLibrary(4);
    assert Filter(Links[6..], p) == [Links[6]] by {
      assert Filter(Links[7..], p) == [] by {
        assert Filter(Links[8..], p) == [] by {
          assert Links[9..] == [];
          FilterStep(Links, 8, p);
        }
        FilterStep(Links, 7, p);
      }
      FilterStep(Links, 6, p);
    }
  }

  lemma SampleScienceRowsFrom3()
    ensures Filter(Links[3..], RowOfLibrary(4)) == [Links[5], Links[6]]
  {
    var p := RowOfLibrary(4);
    assert Filter(Links[3..], p) == [Links[5], Links[6]] by {
      assert Filter(Links[4..], p) == [Links[5], Links[6]] by {
        assert Filter(Links[5..], p) == [Links[5], Links[6]] by {
          SampleScienceRowsFrom6();
          FilterStep(Links, 5, p);
        }
        FilterStep(Links, 4, p);
      }
      FilterStep(Links, 3, p);
    }
  }

  /** The link rows of library 4. */
  lemma SampleScienceRows()
    ensures Filter(Links, RowOfLibrary(4)) == [Links[5], Links[6]]
  {
    var p := RowOfLibrary(4);
    assert Filter(Links[0..], p) == [Links[5], Links[6]] by {
      assert Filter(Links[1..], p) == [Links[5], Links[6]] by {
        assert Filter(Links[2..], p) == [Links[5], Links[6]] by {
          SampleScienceRowsFrom3();
          FilterStep(Links, 2, p);
        }
        FilterStep(Links, 1, p);
      }
      FilterStep(Links, 0, p);
    }
    assert Links[0..] == Links;
  }

  /** Library 4 is linked to the book ids 6, 7. */
  lemma SampleScienceBookIds()
    ensures LinkedBookIds(Links, 4) == [6, 7]
  {
    SampleScienceRows();
    assert Map([Links[5], Links[6]], BookIdOf) == [6, 7];
  }

  lemma SampleScienceBooksWithIdsFrom6(ids: seq<int>)
    requires ids == [6, 7]
    ensures Filter(Books[6..], IdAmong(ids)) == [OrganicChemistry]
  {
    var p := IdAmong(ids);
    assert Filter(Books[6..], p) == [OrganicChemistry] by {
      assert Books[7..] == [];
      FilterStep(Books, 6, p);
    }
  }

  lemma SampleScienceBooksWithIdsFrom3(ids: seq<int>)
    requires ids == [6, 7]
    ensures Filter(Books[3..], IdAmong(ids)) == [PhysicsForBeginners, OrganicChemistry]
  {
    var p := IdAmong(ids);
    assert Filter(Books[3..], p) == [PhysicsForBeginners, OrganicChemistry] by {
      assert Filter(Books[4..], p) == [PhysicsForBeginners, OrganicChemistry] by {
        assert Filter(Books[5..], p) == [PhysicsForBeginners, OrganicChemistry] by {
          SampleScienceBooksWithIdsFrom6(ids);
          FilterStep(Books, 5, p);
        }
        FilterStep(Books, 4, p);
      }
      FilterStep(Books, 3, p);
    }
  }

  /** Selecting the ids 6, 7 picks the books with those ids, in book-list order. */
  lemma SampleScienceBooksWithIds(ids: seq<int>)
    requires ids == [6, 7]
    ensures Filter(Books, IdAmong(ids)) == [PhysicsForBeginners, OrganicChemistry]
  {
    var p := IdAmong(ids);
    assert Filter(Books[0..], p) == [PhysicsForBeginners, OrganicChemistry] by {
      assert Filter(Books[1..], p) == [PhysicsForBeginners, OrganicChemistry] by {
        assert Filter(Books[2..], p) == [PhysicsForBeginners, OrganicChemistry] by {
          SampleScienceBooksWithIdsFrom3(ids);
          FilterStep(Books, 2, p);
        }
        FilterStep(Books, 1, p);
      }
      FilterStep(Books, 0, p);
    }
    assert Books[0..] == Books;
  }

  /** The books the link table gives library 4. */
  lemma SampleScienceBooks()
    ensures LinkedBooks(Books, Links, 4) == [PhysicsForBeginners, OrganicChemistry]
  {
    SampleScienceBookIds();
    SampleScienceBooksWithIds(LinkedBookIds(Links, 4));
  }

  lemma SampleScienceHomeBooksFrom6()
    ensures Filter(Books[6..], AtHome(4)) == [OrganicChemistry]
  {
    var p := AtHome(4);
    assert Filter(Books[6..], p) == [OrganicChemistry] by {
      assert Books[7..] == [];
      FilterStep(Books, 6, p);
    }
  }

  lemma SampleScienceHomeBooksFrom3()
    ensures Filter(Books[3..], AtHome(4)) == [PhysicsForBeginners, OrganicChemistry]
  {
    var p := AtHome(4);
    assert Filter(Books[3..], p) == [PhysicsForBeginners, OrganicChemistry] by {
      assert Filter(Books[4..], p) == [PhysicsForBeginners, OrganicChemistry] by {
        assert Filter(Books[5..], p) == [PhysicsForBeginners, OrganicChemistry] by {
          SampleScienceHomeBooksFrom6();
          FilterStep(Books, 5, p);
        }
        FilterStep(Books, 4, p);
      }
      FilterStep(Books, 3, p);
    }
  }

  /** The books whose own home library is 4. */
  lemma SampleScienceHomeBooks()
    ensures HomeBooks(Books, 4) == [PhysicsForBeginners, OrganicChemistry]
  {
    var p := AtHome(4);
    assert Filter(Books[0..], p) == [PhysicsForBeginners, OrganicChemistry] by {
      assert Filter(Books[1..], p) == [PhysicsForBeginners, OrganicChemistry] by {
        assert Filter(Books[2..], p) == [PhysicsForBeginners, OrganicChemistry] by {
          SampleScienceHomeBooksFrom3();
          FilterStep(Books, 2, p);
        }
        FilterStep(Books, 1, p);
      }
      FilterStep(Books, 0, p);
    }
    assert Books[0..] == Books;
  }
  /** The entry of each library under each grouping. */
  lemma SampleEntries()
    ensures EntryFor(Academic, [WarAndPeace, EvgeniaOnegina, CrimeAndPunishment]) == AcademicByLinks
    ensures EntryFor(FictionLending, [WarAndPeace, AnnaKarenina, CrimeAndPunishment]) == FictionByLinks
    ensures EntryFor(Academic, [WarAndPeace, EvgeniaOnegina]) == AcademicAtHome
    ensures EntryFor(FictionLending, [AnnaKarenina, CrimeAndPunishment]) == FictionAtHome
    ensures EntryFor(CityCentral, [MasterAndMargarita]) == CityEntry
    ensures EntryFor(ScienceLending, [PhysicsForBeginners, OrganicChemistry]) == ScienceEntry
  {
    assert TotalPages([CrimeAndPunishment]) == 672;
    assert TotalPages([OrganicChemistry]) == 540;
    assert TotalPages([MasterAndMargarita]) == 480;
    assert TotalPages([EvgeniaOnegina]) == 320;
    assert [EvgeniaOnegina, CrimeAndPunishment][1..] == [CrimeAndPunishment];
    assert [AnnaKarenina, CrimeAndPunishment][1..] == [CrimeAndPunishment];
    assert [PhysicsForBeginners, OrganicChemistry][1..] == [OrganicChemistry];
    assert [WarAndPeace, EvgeniaOnegina][1..] == [EvgeniaOnegina];
    assert TotalPages([WarAndPeace, EvgeniaOnegina, CrimeAndPunishment]) == 2217 by {
      assert [WarAndPeace, EvgeniaOnegina, CrimeAndPunishment][1..] == [EvgeniaOnegina, CrimeAndPunishment];
    }
    assert TotalPages([WarAndPeace, AnnaKarenina, CrimeAndPunishment]) == 2761 by {
      assert [WarAndPeace, AnnaKarenina, CrimeAndPunishment][1..] == [AnnaKarenina, CrimeAndPunishment];
    }
  }

  /** One iteration of the averages loop, for a library that has books. */
  lemma RowsStep(libs: seq<Library>, books: seq<Book>, k: nat, g: Grouping, bs: seq<Book>, prev: seq<AverageEntry>)
    requires k < |libs|
    requires AverageRows(libs[..k], books, g) == prev
    requires BooksOf(books, g, libs[k].id) == bs && bs != []
    ensures AverageRows(libs[..k + 1], books, g) == prev + [EntryFor(libs[k], bs)]
  {
    AverageRowsSnoc(libs[..k], libs[k], books, g);
    assert libs[..k + 1] == libs[..k] + [libs[k]];
  }

  /** The first two iterations of the averages loop. */
  lemma RowsFirstTwo(libs: seq<Library>, books: seq<Book>, g: Grouping, bs1: seq<Book>, bs2: seq<Book>)
    requires |libs| >= 2
    requires BooksOf(books, g, libs[0].id) == bs1 && bs1 != []
    requires BooksOf(books, g, libs[1].id) == bs2 && bs2 != []
    ensures AverageRows(libs[..2], books, g) == [EntryFor(libs[0], bs1), EntryFor(libs[1], bs2)]
  {
    assert AverageRows(libs[..1], books, g) == [EntryFor(libs[0], bs1)] by {
      assert libs[..0] == [];
      RowsStep(libs, books, 0, g, bs1, []);
    }
    RowsStep(libs, books, 1, g, bs2, [EntryFor(libs[0], bs1)]);
  }

  /** The averages loop over four libraries that all have books: one entry
      per library, in library order. */
  lemma RowsOfFour(libs: seq<Library>, books: seq<Book>, g: Grouping, bs1: seq<Book>, bs2: seq<Book>, bs3: seq<Book>, bs4: seq<Book>)
    requires |libs| == 4
    requires BooksOf(books, g, libs[0].id) == bs1 && bs1 != []
    requires BooksOf(books, g, libs[1].id) == bs2 && bs2 != []
    requires BooksOf(books, g, libs[2].id) == bs3 && bs3 != []
    requires BooksOf(books, g, libs[3].id) == bs4 && bs4 != []
    ensures AverageRows(libs, books, g)
         == [EntryFor(libs[0], bs1), EntryFor(libs[1], bs2), EntryFor(libs[2], bs3), EntryFor(libs[3], bs4)]
  {
    var r2 := [EntryFor(libs[0], bs1), EntryFor(libs[1], bs2)];
    var r3 := r2 + [EntryFor(libs[2], bs3)];
    assert AverageRows(libs[..3], books, g) == r3 by {
      RowsFirstTwo(libs, books, g, bs1, bs2);
      RowsStep(libs, books, 2, g, bs3, r2);
    }
    RowsStep(libs, books, 3, g, bs4, r3);
    assert libs[..4] == libs;
  }

  /** What each grouping gives each sample library. */
  lemma SampleBooksOfByLinkTable()
    ensures BooksOf(Books, ByLinkTable(Links), 1) == [WarAndPeace, EvgeniaOnegina, CrimeAndPunishment]
    ensures BooksOf(Books, ByLinkTable(Links), 2) == [WarAndPeace, AnnaKarenina, CrimeAndPunishment]
    ensures BooksOf(Books, ByLinkTable(Links), 3) == [MasterAndMargarita]
    ensures BooksOf(Books, ByLinkTable(Links), 4) == [PhysicsForBeginners, OrganicChemistry]
  {
    SampleAcademicBooks();
    SampleFictionBooks();
    SampleCityBooks();
    SampleScienceBooks();
  }

  lemma SampleBooksOfByHomeLibrary()
    ensures BooksOf(Books, ByHomeLibrary, 1) == [WarAndPeace, EvgeniaOnegina]
    ensures BooksOf(Books, ByHomeLibrary, 2) == [AnnaKarenina, CrimeAndPunishment]
    ensures BooksOf(Books, ByHomeLibrary, 3) == [MasterAndMargarita]
    ensures BooksOf(Books, ByHomeLibrary, 4) == [PhysicsForBeginners, OrganicChemistry]
  {
    SampleAcademicHomeBooks();
    SampleFictionHomeBooks();
    SampleCityHomeBooks();
    SampleScienceHomeBooks();
  }

  /** The rows RK2's averages loop builds on the sample data: every library
      has linked books, so each contributes an entry, in library order. */
  lemma SampleRowsByLinkTable()
    ensures AverageRows(Libraries, Books, ByLinkTable(Links)) == [AcademicByLinks, FictionByLinks, CityEntry, ScienceEntry]
  {
    SampleBooksOfByLinkTable();
    RowsOfFour(Libraries, Books, ByLinkTable(Links), [WarAndPeace, EvgeniaOnegina, CrimeAndPunishment],
      [WarAndPeace, AnnaKarenina, CrimeAndPunishment], [MasterAndMargarita], [PhysicsForBeginners, OrganicChemistry]);
    SampleEntries();
  }

  /** The rows RK1's averages loop builds on the sample data, grouping by
      each book's own library. */
  lemma SampleRowsByHomeLibrary()
    ensures AverageRows(Libraries, Books, ByHomeLibrary) == [AcademicAtHome, FictionAtHome, CityEntry, ScienceEntry]
  {
    SampleBooksOfByHomeLibrary();
    RowsOfFour(Libraries, Books, ByHomeLibrary, [WarAndPeace, EvgeniaOnegina],
      [AnnaKarenina, CrimeAndPunishment], [MasterAndMargarita], [PhysicsForBeginners, OrganicChemistry]);
    SampleEntries();
  }

  /** Sorting the four sample entries by average: each insertion passes the
      entries with smaller averages. */
  lemma SampleSortFour(a: AverageEntry, f: AverageEntry, c: AverageEntry, s: AverageEntry)
    requires s.average < c.average < a.average && c.average < f.average
    ensures SortBy([a, f, c, s], AverageOf) == if a.average <= f.average then [s, c, a, f] else [s, c, f, a]
  {
    var key := AverageOf;
    var e: seq<AverageEntry> := [];
    assert SortBy([s], key) == [s] by {
      assert [s] + e == [s];
      SortByCons(s, e, key);
      InsertByFront(s, e, key);
    }
    assert SortBy([c, s], key) == [s, c] by {
      assert [c] + [s] == [c, s];
      assert [s] + e == [s] && [c] + e == [c] && [s] + [c] == [s, c];
      SortByCons(c, [s], key);
      InsertByPast(c, s, e, key);
      InsertByFront(c, e, key);
    }
    assert SortBy([f, c, s], key) == [s, c, f] by {
      assert [f] + [c, s] == [f, c, s];
      assert [s] + [c] == [s, c] && [c] + e == [c] && [f] + e == [f] && [s] + ([c] + [f]) == [s, c, f];
      SortByCons(f, [c, s], key);
      InsertByPast(f, s, [c], key);
      InsertByPast(f, c, e, key);
      InsertByFront(f, e, key);
    }
    assert [a] + [f, c, s] == [a, f, c, s];
    assert [s] + [c, f] == [s, c, f] && [c] + [f] == [c, f] && [f] + e == [f];
    SortByCons(a, [f, c, s], key);
    InsertByPast(a, s, [c, f], key);
    InsertByPast(a, c, [f], key);
    if a.average <= f.average {
      InsertByFront(a, [f], key);
      assert [s] + ([c] + ([a] + [f])) == [s, c, a, f];
    } else {
      InsertByPast(a, f, e, key);
      InsertByFront(a, e, key);
      assert [s] + ([c] + ([f] + ([a] + e))) == [s, c, f, a];
    }
  }

  /** RK2's averages report on the sample data: four entries, ascending by
      average; library 1 has three books and average (1225 + 320 + 672) / 3. */
  lemma SampleReportByLinkTable()
    ensures AveragesReport(Libraries, Books, ByLinkTable(Links)) == [ScienceEntry, CityEntry, AcademicByLinks, FictionByLinks]
  {
    SampleRowsByLinkTable();
    SampleSortFour(AcademicByLinks, FictionByLinks, CityEntry, ScienceEntry);
  }

  /** RK1's averages report on the sample data: grouping by home library
      puts library 2 before library 1, the reverse of RK2's order. */
  lemma SampleReportByHomeLibrary()
    ensures AveragesReport(Libraries, Books, ByHomeLibrary) == [ScienceEntry, CityEntry, FictionAtHome, AcademicAtHome]
  {
    SampleRowsByHomeLibrary();
    SampleSortFour(AcademicAtHome, FictionAtHome, CityEntry, ScienceEntry);
  }
}
