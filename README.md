# Library queries, a de-duplicating iterator and figures, in Dafny

This project models the core of a set of Python coursework exercises:

- **The library system (RK2/library_system.py).** The records are `Library`, `Book` and `LibraryBook`, where `LibraryBook` is a many-to-many link table whose rows may repeat. The `LibrarySystem` class holds the three lists and answers these read-only queries:
  - books whose title ends with the small Cyrillic letter а;
  - the two-stage join `_get_books_by_library`;
  - per-library page averages, without libraries that have no books, stably sorted by average;
  - libraries whose name starts with the capital Cyrillic letter А, each paired with its books;
  - first-match lookups by id that answer `None` when nothing matches.

  `create_sample_data` is the fixture. The unit tests' expectations on it are proved as lemmas.
- **The same queries as a script (RK1/rk1.py)**, over the same literal data. It has the name lookups with the fallback "Неизвестно", query 1, query 2 and query 3. Query 2 differs from the library system: it groups books by each book's own `library_id` field, not through the link table.
- **The `Unique` iterator (Lab3/unique.py).** It yields each value the first time it appears and skips later repeats. With `ignore_case` it lower-cases items before comparing them.
- **`Rectangle` and `Square` (Lab2/lab_python_oop/)**, with their areas and figure-type names.

Layout:

| file | module | contents |
|---|---|---|
| `wrappers.dfy` | `Wrappers` | `Option` |
| `sequences.dfy` | `Sequences` | list comprehensions as `Filter` and `Map`, plus subsequences, first matches and first occurrences (`Dedup`) |
| `stable_sort.dfy` | `StableSort` | Python's `sorted(key=...)` as a stable insertion sort, proved sorted, a permutation and stable |
| `library_records.dfy` | `LibraryRecords` | the dataclasses and the shared query building blocks: the join, both groupings and the averages report |
| `sample_data.dfy` | `SampleData` | the literal libraries, books and link rows, and the query results on them |
| `library_system.dfy` | `LibrarySystem` | the `LibrarySystem` class and `create_sample_data` |
| `rk1.dfy` | `Rk1` | the script's queries |
| `unique.dfy` | `UniqueIterator` | the `Unique` class |
| `figures.dfy` | `LabPythonOop` | rectangles and squares |

Modelling choices:

- **LibrarySystem fields.** The three lists are assigned in the constructor and never changed afterwards, so they are `const` fields.
- **Query shape.** Comprehensions are functions. Queries that build a list with `append` in a `for` loop are methods with loops, proved equal to a specification function. Lookups with an early `return` inside a loop are methods too.
- **Unique state.** `Unique` is a class whose `pos` (how far the underlying iterator has advanced) and `uniqueItems` (the `unique_items` set) are updated in place.
- **Figures.** Rectangles and squares are values, because their fields are set once.
- **Averages** are exact `real` quotients.
- **Integers** are unbounded, as in Python.
- **Title test.** The docstring of `get_books_ending_with_a` speaks of a capital 'А', but the code tests the small letter 'а' (U+0430). The model follows the code. The library-name test uses the capital letter (U+0410), as the code does.
- **Fixed characters.** The suffix and prefix are the fixed characters the code uses, not parameters.

## Model

| member | source | states |
|---|---|---|
| LibraryRecords.EndsWith | RK2/library_system.py:42 | `str.endswith` with a one-character suffix: true exactly when the string is some string followed by that character |
| LibraryRecords.StartsWith | RK2/library_system.py:59 | `str.startswith` with a one-character prefix: true exactly when the string is that character followed by some string |
| LibraryRecords.LinkedBookIds | RK2/library_system.py:70 | an id is among the first-stage ids exactly when some link row pairs it with the library |
| LibraryRecords.LinkedBooks | RK2/library_system.py:68-71 | the join is a subsequence of `books` (book-list order kept) and holds exactly the books some link row pairs with the library |
| LibraryRecords.LinkedBooksMultiplicity | RK2/library_system.py:70-71 | a linked book occurs in the join exactly as often as in `books` and an unlinked one not at all, so repeated link rows never repeat a book |
| LibraryRecords.LinkedBooksIgnoreRepeatedRow | RK2/library_system.py:70-71 | adding a link row that is already present changes no library's books |
| LibraryRecords.LinkedBooksNoDup | RK2/library_system.py:71 | over distinct book records, the join lists no book twice |
| LibraryRecords.HomeBooks | RK1/rk1.py:77 | the books of a library by home library: a subsequence of `books` holding exactly the books whose `library_id` is that library |
| LibraryRecords.HomeBooksMultiplicity | RK1/rk1.py:77 | a book at home in the library occurs among its home books exactly as often as in `books`, any other book not at all, so the count at line 81 counts repeated records |
| LibraryRecords.TotalPagesAppend | RK2/library_system.py:50 | the page total of two lists joined is the sum of their totals |
| LibraryRecords.EntryFor | RK2/library_system.py:50-52 | a report tuple carries the library's name and the count of its books (positive), and its average times the count is the total of the pages |
| LibraryRecords.AverageRowsCount | RK2/library_system.py:47-52 | the unsorted list has one tuple per library that has books |
| LibraryRecords.AverageRowsSound | RK2/library_system.py:47-52 | every tuple is the tuple of some library that has books |
| LibraryRecords.AverageRowsComplete | RK2/library_system.py:47-52 | every library that has books contributes its tuple |
| LibraryRecords.AveragesReportSpec | RK2/library_system.py:55 | the sorted report is ordered by average, is a permutation of the loop's list, keeps library order among equal averages and has the same members |
| LibraryRecords.AveragesReportCount | RK2/library_system.py:46-55 | the report has one tuple per library that has books |
| LibraryRecords.AveragesReportSound | RK2/library_system.py:46-55 | every tuple of the report belongs to a library that has books |
| LibraryRecords.AveragesReportComplete | RK2/library_system.py:46-55 | every library that has books has its tuple in the report |
| StableSort.InsertBy | RK2/library_system.py:55 | one insertion step of the sort adds exactly one element |
| StableSort.SortBy | RK2/library_system.py:55 | the built-in `sorted` returns as many items as it is given; the three lemmas below give order, permutation and stability |
| StableSort.InsertBySorted | RK2/library_system.py:55 | inserting into a sorted list keeps it sorted |
| StableSort.InsertByPermutes | RK2/library_system.py:55 | inserting adds the element and loses nothing |
| StableSort.SortByPermutes | RK2/library_system.py:55 | `sorted` returns a permutation of its input |
| StableSort.SortBySorted | RK2/library_system.py:55 | `sorted(key=...)` returns a list ordered by the key |
| StableSort.SortByStable | RK2/library_system.py:55 | for each key value, the items with that key keep their input order |
| LibrarySystem.LibrarySystem.constructor | RK2/library_system.py:23-26 | the three lists are stored as given |
| LibrarySystem.LibrarySystem.GetAllLibraries | RK2/library_system.py:28-30 | returns the stored libraries unchanged |
| LibrarySystem.LibrarySystem.GetAllBooks | RK2/library_system.py:32-34 | returns the stored books unchanged |
| LibrarySystem.LibrarySystem.GetLibraryBooksRelations | RK2/library_system.py:36-38 | returns the stored link rows unchanged |
| LibrarySystem.LibrarySystem.BooksEndingWithA | RK2/library_system.py:40-42 | a subsequence of the books holding exactly the books whose title ends with 'а', each as often as in the book list |
| LibrarySystem.LibrarySystem.BooksByLibrary | RK2/library_system.py:68-71 | a subsequence of the books holding exactly the linked books, each as often as in the book list, whatever the number of link rows |
| LibrarySystem.LibrarySystem.LibrariesStartingWithA | RK2/library_system.py:59 | a subsequence of the libraries holding exactly those whose name starts with 'А', each as often as in the library list |
| LibrarySystem.LibrarySystem.GetLibraryAvgPages | RK2/library_system.py:44-55 | the loop and sort give the report: ordered by average, a permutation of the per-library tuples, stable, one tuple per library with books, each tuple the name/average/count of such a library, and no library with books missing |
| LibrarySystem.LibrarySystem.GetLibrariesStartingWithAWithBooks | RK2/library_system.py:57-66 | one pair per library starting with 'А', in order, each paired with that library's joined books (possibly none) |
| LibrarySystem.LibrarySystem.GetLibraryById | RK2/library_system.py:73-78 | `None` exactly when no library has the id; otherwise the first library with that id |
| LibrarySystem.LibrarySystem.GetBookById | RK2/library_system.py:80-85 | `None` exactly when no book has the id; otherwise the first book with that id |
| LibrarySystem.CreateSampleData | RK2/library_system.py:106-136 | a new system holding the sample libraries, books and link rows |
| LibrarySystem.SampleFilters | RK2/test_library_system.py:11-94 | on the sample data three books end with 'а' (Анна Каренина, Евгения Онегина, Мастер и Маргарита), three libraries start with 'А', and library 1 holds books 1, 3 and 5 |
| LibrarySystem.SampleAverages | RK2/test_library_system.py:32-57 | on the sample data the report has four tuples in ascending order, and library 1 has count 3 and average (1225 + 320 + 672) / 3 |
| LibrarySystem.SampleLookups | RK2/test_library_system.py:96-122 | id 1 finds "Академическая библиотека" and "Война и мир", as the tests expect; the case that book id 8 finds nothing is not among the tests and is added here to exercise the `None` path |
| SampleData.SampleEntries | RK2/test_library_system.py:44-51 | the tuple of each sample library, as name, exact average and count, under both groupings |
| SampleData.SampleAcademicBooks | RK2/test_library_system.py:84-94 | through the link table library 1 holds "Война и мир", "Евгения Онегина" and "Преступление и наказание" |
| SampleData.SampleReportByLinkTable | RK2/library_system.py:106-136 | the averages report on the sample data through the link table, as four concrete tuples |
| SampleData.SampleReportByHomeLibrary | RK1/rk1.py:75-83 | the averages report the script computes by home library on its literal data (lines 22-49), as four concrete tuples |
| Rk1.LibraryNameById | RK1/rk1.py:61 | the name of the first library with the id, or "Неизвестно" when there is none |
| Rk1.BookTitleById | RK1/rk1.py:62 | the title of the first book with the id, or "Неизвестно" when there is none |
| Rk1.LibraryIdsResolve | RK1/rk1.py:61 | on the script's data, each library id from 1 to 4 resolves to the name of the library at that position |
| Rk1.BookIdsResolve | RK1/rk1.py:62 | on the script's data, each book id from 1 to 7 resolves to the title of the book at that position |
| Rk1.LinkRowsResolve | RK1/rk1.py:60-62 | every link row of the data names an existing library and book, so the listing never falls back |
| Rk1.BooksEndingWithA | RK1/rk1.py:67 | a subsequence of the books holding exactly those whose title ends with 'а'; on the data, three books |
| Rk1.LibraryAvgPages | RK1/rk1.py:75-83 | grouping by each book's own `library_id`: the report is ordered by average, a permutation of the loop's tuples, stable, one tuple per library with home books, each tuple belongs to a library with home books, and none is missing |
| Rk1.HomeLibraryReport | RK1/rk1.py:75-83 | with each library's books taken as the books whose own `library_id` is its id, the sorted report is ordered by average, a permutation of the per-library tuples and stable, has one tuple per library with home books, and holds exactly the tuples of those libraries |
| Rk1.GroupingsDiffer | RK1/rk1.py:77 | on the sample data the script's report differs from the library system's, because the groupings differ |
| Rk1.LibrariesStartingWithA | RK1/rk1.py:92 | a subsequence of the libraries holding exactly those whose name starts with 'А'; on the data, libraries 1, 2 and 4 |
| Rk1.Query3Books | RK1/rk1.py:97-98 | the linked books listed under each of the three libraries of query 3, in book-list order |
| UniqueIterator.NormalizeAll | Lab3/unique.py:13 | each item is replaced by its lower-cased form when `ignore_case` is set, one for one and in order |
| UniqueIterator.NormalizeAllPlain | Lab3/unique.py:6-13 | without `ignore_case` the items are compared and yielded unchanged |
| UniqueIterator.Unique.constructor | Lab3/unique.py:4-8 | nothing consumed, the seen set empty, `ignore_case` and the lowering function as given |
| UniqueIterator.Unique.Default | Lab3/unique.py:6 | `ignore_case` defaults to false |
| UniqueIterator.Unique.EmittedAfterIsDedup | Lab3/unique.py:10-17 | the values yielded so far are the first occurrences, in order, of the normalized items consumed so far |
| UniqueIterator.Unique.Next | Lab3/unique.py:10-17 | a yielded value was not in the seen set and is added to it; the set grows by nothing else; it consumes items only up to and including the first unseen one, which is the normalized value it yields, every item skipped on the way having been seen; the end of iteration comes exactly when every remaining item was seen, with all items consumed; the seen set always equals the set of yielded values |
| UniqueIterator.Unique.Iter | Lab3/unique.py:19-20 | `__iter__` returns the iterator itself |
| UniqueIterator.Unique.ToList | Lab3/unique.py:24-25 | draining the iterator yields the first occurrences of the normalized items, in order |
| UniqueIterator.EmittedIsFirstOccurrences | Lab3/unique.py:10-17 | the output has no value twice, holds every normalized input value, and lists them in the order of their first occurrence |
| UniqueIterator.DemoIntegers | Lab3/unique.py:23-25 | [1, 1, 1, 1, 1, 2, 2, 2, 2, 2] gives [1, 2] |
| UniqueIterator.DemoLetters | Lab3/unique.py:31-33 | ['a', 'A', 'b', 'B', 'a', 'A', 'b', 'B'] gives ['a', 'A', 'b', 'B'] |
| UniqueIterator.DemoLettersIgnoreCase | Lab3/unique.py:35-36 | with `ignore_case` and a lowering that maps "A" to "a" and "B" to "b", the same data gives ['a', 'b'] |
| LabPythonOop.NewRectangle | Lab2/lab_python_oop/rectangle.py:12-16 | the width, height and colour are stored unchanged |
| LabPythonOop.NewSquare | Lab2/lab_python_oop/square.py:11-13 | the side is stored, and the width and the height both equal the side (a square's width and height are derived from its side, so no square has other dimensions) |
| LabPythonOop.FigureType | Lab2/lab_python_oop/rectangle.py:6-10 | a rectangle answers "Прямоугольник" and a square answers "Квадрат", each exactly for its own class |
| LabPythonOop.Area | Lab2/lab_python_oop/rectangle.py:18-19 | `square()`, shared by both classes; on any square it gives the side squared |
| LabPythonOop.RectangleArea | Lab2/lab_python_oop/rectangle.py:18-19 | the area is the width times the height |
| LabPythonOop.SquareArea | Lab2/lab_python_oop/square.py:13 | the inherited area of a square is its side squared, the area of the rectangle with that side twice |
| LabPythonOop.SquareTypeOverrides | Lab2/lab_python_oop/square.py:5-9 | a square's type overrides the rectangle's and differs from it |

## Left out

- Console output: `print_all_data` and `main` in RK2/library_system.py, the print loops of RK1/rk1.py, and the `:.1f` formatting of averages.
- The book-library lookup in RK1/rk1.py:69, with the fallback "Неизвестная библиотека", feeds only a print loop. It is the same first-match lookup as `Rk1.LibraryNameById` with another fallback string.
- Floating point: Python's `/` gives a float, while the model uses the exact rational quotient. Rounding is not modelled.
- `str.lower` is a library call. `Unique` takes the lowering function as a constructor parameter, so no property of Unicode case folding is used.
- The keyword-argument form of `Unique(items, **kwargs)` is not modelled. It is two constructors: one with `ignore_case` given, one with its default.
- `Unique` consumes the underlying iterator once, as an index into a fixed, finite sequence. Iterators whose items change while they are consumed are not modelled, and neither are infinite iterators: on an infinite input whose remaining values have all been seen, `__next__` never returns, while the model's loop ends because the input is finite.
- `gen_random` and the demo that uses it: the module is not part of this model and produces random numbers.
- Aliasing: the getters return the stored Python lists themselves, so a caller could mutate them. The model's lists are immutable values.
- `__repr__` of the figures is only string formatting. The colour is an opaque string, because `FigureColor`, `Figure` and `Circle` are not part of this model.
- Lab2/main.py (printing and an HTTP request), Lab3/sort.py (one call to the built-in `sorted`) and Lab4/mock_tests.py (a mocking demo over a module that is not part of this model).
- The unit tests run as a harness are not modelled. Their expectations on the sample data are the `Sample*` lemmas.
- Rk1.LibraryAvgPages: the averages loop takes the library and book lists as parameters rather than reading the module-level lists, so its contract holds for any data. `SampleData.SampleReportByHomeLibrary` gives its result on the script's data.
