/** The client-side data view of the shared `Table` component: a search over
    the columns, per-column filters, a sort on one key with an ascending /
    descending toggle, and pagination by slicing, driven by the component's
    state (`searchTerm`, `sortConfig`, `currentPage`, `filters`). */
module DataTable {
  import opened JsBuiltins

  /** A row of the table: each field's string form. */
  type Record = map<string, string>

  /** A column: a field it reads (`accessor`, absent or empty when it has
      none) and the text its `render` produces for a row. */
  datatype Column = Column(key: string, accessor: Option<string>, render: Record -> string)

  datatype Direction = Asc | Desc

  // ---------------------------------------------------------------------
  // Filtering
  // ---------------------------------------------------------------------

  /** `col.accessor ? row[col.accessor] : col.render(row)`; `None` is `undefined`. */
  function ColumnValue(row: Record, col: Column): Option<string> {
    if col.accessor.Some? && col.accessor.value != "" then
      (if col.accessor.value in row then Some(row[col.accessor.value]) else None)
    else Some(col.render(row))
  }

  /** The search predicate: some column's value contains the term, ignoring case. */
  predicate MatchesSearch(row: Record, columns: seq<Column>, term: string) {
    exists i :: 0 <= i < |columns| && HasText(ColumnValue(row, columns[i]), term)
  }

  /** `value?.toString().toLowerCase().includes(term.toLowerCase())`. */
  predicate HasText(value: Option<string>, term: string) {
    value.Some? && IncludesIgnoringCase(value.value, term)
  }

  /** One column filter: `row[key]?.toString().toLowerCase().includes(value.toLowerCase())`. */
  predicate CellContains(row: Record, key: string, value: string) {
    HasText(if key in row then Some(row[key]) else None, value)
  }

  /** The rows that pass the search, in their order. */
  function Searched(rows: seq<Record>, columns: seq<Column>, term: string): seq<Record> {
    if rows == [] then []
    else (if MatchesSearch(rows[0], columns, term) then [rows[0]] else []) + Searched(rows[1..], columns, term)
  }

  /** A row passes the filters named by `keys` when each of them is empty or found in its cell. */
  predicate PassesFilters(row: Record, filters: map<string, string>, keys: set<string>) {
    forall k :: k in keys && k in filters ==> filters[k] == "" || CellContains(row, k, filters[k])
  }

  /** The rows that pass the filters named by `keys`, in their order. */
  function Filtered(rows: seq<Record>, filters: map<string, string>, keys: set<string>): seq<Record> {
    if rows == [] then []
    else (if PassesFilters(rows[0], filters, keys) then [rows[0]] else []) + Filtered(rows[1..], filters, keys)
  }

  /** The rows that pass one column filter, in their order. */
  function FilteredOn(rows: seq<Record>, key: string, value: string): seq<Record> {
    if rows == [] then []
    else (if CellContains(rows[0], key, value) then [rows[0]] else []) + FilteredOn(rows[1..], key, value)
  }

  /** `filteredData`: the search (only when enabled and the term is non-empty),
      then every non-empty column filter. */
  function FilteredView(data: seq<Record>, columns: seq<Column>, searchable: bool, searchTerm: string,
                        filters: map<string, string>): seq<Record> {
    var searched := if searchTerm != "" && searchable then Searched(data, columns, searchTerm) else data;
    Filtered(searched, filters, filters.Keys)
  }

  /** Applying one more non-empty filter to the rows that passed some filters
      is the same as filtering once on all of them. */
  lemma {:induction false} FilteredOnStep(rows: seq<Record>, filters: map<string, string>, done: set<string>, k: string)
    requires k in filters && filters[k] != ""
    ensures FilteredOn(Filtered(rows, filters, done), k, filters[k]) == Filtered(rows, filters, done + {k})
  {
    if rows != [] {
      FilteredOnStep(rows[1..], filters, done, k);
      var row := rows[0];
      if PassesFilters(row, filters, done) && CellContains(row, k, filters[k]) {
        assert PassesFilters(row, filters, done + {k});
      }
      if !PassesFilters(row, filters, done) {
        var j :| j in done && j in filters && !(filters[j] == "" || CellContains(row, j, filters[j]));
        assert !PassesFilters(row, filters, done + {k});
      }
      if PassesFilters(row, filters, done) && !CellContains(row, k, filters[k]) {
        assert !PassesFilters(row, filters, done + {k});
      }
      var front := Filtered(rows, filters, done);
      if PassesFilters(row, filters, done) {
        assert front == [row] + Filtered(rows[1..], filters, done);
        assert front[1..] == Filtered(rows[1..], filters, done);
      } else {
        assert front == Filtered(rows[1..], filters, done);
      }
    }
  }

  /** An empty filter lets every row through. */
  lemma {:induction false} FilteredSkip(rows: seq<Record>, filters: map<string, string>, done: set<string>, k: string)
    requires k in filters && filters[k] == ""
    ensures Filtered(rows, filters, done) == Filtered(rows, filters, done + {k})
  {
    if rows != [] {
      FilteredSkip(rows[1..], filters, done, k);
      assert PassesFilters(rows[0], filters, done) == PassesFilters(rows[0], filters, done + {k});
    }
  }

  /** Filtering on no filter at all changes nothing. */
  lemma {:induction false} FilteredNone(rows: seq<Record>, filters: map<string, string>)
    ensures Filtered(rows, filters, {}) == rows
  {
    if rows != [] {
      FilteredNone(rows[1..], filters);
    }
  }

  /** `a` is `b` with some elements left out, the rest in the same order. */
  ghost predicate SubsequenceOf<T>(a: seq<T>, b: seq<T>)
    decreases |b|
  {
    || a == []
    || (b != [] && ((a[0] == b[0] && SubsequenceOf(a[1..], b[1..])) || SubsequenceOf(a, b[1..])))
  }

  lemma {:induction false} SubsequenceOfSelf<T>(a: seq<T>)
    ensures SubsequenceOf(a, a)
  {
    if a != [] {
      SubsequenceOfSelf(a[1..]);
    }
  }

  lemma {:induction false} SubsequenceTransitive<T>(a: seq<T>, b: seq<T>, c: seq<T>)
    requires SubsequenceOf(a, b) && SubsequenceOf(b, c)
    ensures SubsequenceOf(a, c)
    decreases |c|
  {
    if a != [] {
      if b[0] == c[0] && SubsequenceOf(b[1..], c[1..]) {
        if a[0] == b[0] && SubsequenceOf(a[1..], b[1..]) {
          SubsequenceTransitive(a[1..], b[1..], c[1..]);
        } else {
          SubsequenceTransitive(a, b[1..], c[1..]);
        }
      } else {
        SubsequenceTransitive(a, b, c[1..]);
      }
    }
  }

  /** The search keeps a row exactly when it matches, and keeps the order. */
  lemma {:induction false} SearchedKeeps(rows: seq<Record>, columns: seq<Column>, term: string)
    ensures SubsequenceOf(Searched(rows, columns, term), rows)
    ensures forall r :: r in Searched(rows, columns, term) <==> r in rows && MatchesSearch(r, columns, term)
  {
    if rows != [] {
      SearchedKeeps(rows[1..], columns, term);
      var rest := Searched(rows[1..], columns, term);
      if MatchesSearch(rows[0], columns, term) {
        assert ([rows[0]] + rest)[1..] == rest;
      } else {
        assert [] + rest == rest;
      }
      assert rows == [rows[0]] + rows[1..];
    }
  }

  /** The filters keep a row exactly when it passes all of them, and keep the order. */
  lemma {:induction false} FilteredKeeps(rows: seq<Record>, filters: map<string, string>, keys: set<string>)
    ensures SubsequenceOf(Filtered(rows, filters, keys), rows)
    ensures forall r :: r in Filtered(rows, filters, keys) <==> r in rows && PassesFilters(r, filters, keys)
  {
    if rows != [] {
      FilteredKeeps(rows[1..], filters, keys);
      var rest := Filtered(rows[1..], filters, keys);
      if PassesFilters(rows[0], filters, keys) {
        assert ([rows[0]] + rest)[1..] == rest;
      } else {
        assert [] + rest == rest;
      }
      assert rows == [rows[0]] + rows[1..];
    }
  }

  /** The search keeps every occurrence of a matching row and none of any other. */
  lemma {:induction false} SearchedCounts(rows: seq<Record>, columns: seq<Column>, term: string)
    ensures forall r ::
      multiset(Searched(rows, columns, term))[r] == if MatchesSearch(r, columns, term) then multiset(rows)[r] else 0
  {
    if rows != [] {
      SearchedCounts(rows[1..], columns, term);
      assert rows == [rows[0]] + rows[1..];
    }
  }

  /** The filters keep every occurrence of a passing row and none of any other. */
  lemma {:induction false} FilteredCounts(rows: seq<Record>, filters: map<string, string>, keys: set<string>)
    ensures forall r ::
      multiset(Filtered(rows, filters, keys))[r] == if PassesFilters(r, filters, keys) then multiset(rows)[r] else 0
  {
    if rows != [] {
      FilteredCounts(rows[1..], filters, keys);
      assert rows == [rows[0]] + rows[1..];
    }
  }

  /** A row that `filteredData` shows: it passes the search when the search
      is on, and every column filter. */
  predicate Shown(r: Record, columns: seq<Column>, searchable: bool, searchTerm: string,
                  filters: map<string, string>) {
    && (searchTerm != "" && searchable ==> MatchesSearch(r, columns, searchTerm))
    && PassesFilters(r, filters, filters.Keys)
  }

  /** `filteredData` is an order-preserving selection of `data`: a row is in
      it exactly when it is in `data`, passes the search when the search is
      on, and passes every column filter; such a row appears as often as in
      `data`, any other not at all. */
  lemma FilteredViewKeeps(data: seq<Record>, columns: seq<Column>, searchable: bool, searchTerm: string,
                          filters: map<string, string>)
    ensures SubsequenceOf(FilteredView(data, columns, searchable, searchTerm, filters), data)
    ensures forall r :: r in FilteredView(data, columns, searchable, searchTerm, filters) <==>
      r in data && Shown(r, columns, searchable, searchTerm, filters)
    ensures forall r ::
      multiset(FilteredView(data, columns, searchable, searchTerm, filters))[r]
        == if Shown(r, columns, searchable, searchTerm, filters) then multiset(data)[r] else 0
  {
    var searched := if searchTerm != "" && searchable then Searched(data, columns, searchTerm) else data;
    SearchedKeeps(data, columns, searchTerm);
    SearchedCounts(data, columns, searchTerm);
    SubsequenceOfSelf(data);
    FilteredKeeps(searched, filters, filters.Keys);
    FilteredCounts(searched, filters, filters.Keys);
    SubsequenceTransitive(Filtered(searched, filters, filters.Keys), searched, data);
  }

  // ---------------------------------------------------------------------
  // Sorting
  // ---------------------------------------------------------------------

  /** `row[key]` as the comparator sees it; a row without the field is ranked as the empty text. */
  function SortValue(row: Record, key: string): string {
    if key in row then row[key] else ""
  }

  /** The comparator of `sortedData`: -1, 0 or 1. */
  function Compare(a: Record, b: Record, key: string, dir: Direction): int {
    var x := SortValue(a, key);
    var y := SortValue(b, key);
    if StringLess(x, y) then (if dir == Asc then -1 else 1)
    else if StringLess(y, x) then (if dir == Asc then 1 else -1)
    else 0
  }

  lemma CompareAntisymmetric(a: Record, b: Record, key: string, dir: Direction)
    ensures Compare(a, b, key, dir) == -Compare(b, a, key, dir)
  {
    var x := SortValue(a, key);
    var y := SortValue(b, key);
    if StringLess(x, y) { StringLessAsymmetric(x, y); }
  }

  lemma CompareTransitive(a: Record, b: Record, c: Record, key: string, dir: Direction)
    requires Compare(a, b, key, dir) <= 0 && Compare(b, c, key, dir) <= 0
    ensures Compare(a, c, key, dir) <= 0
  {
    var x, y, z := SortValue(a, key), SortValue(b, key), SortValue(c, key);
    if x != y { StringLessTotal(x, y); }
    if y != z { StringLessTotal(y, z); }
    if x != z { StringLessTotal(x, z); }
    if StringLess(x, y) && StringLess(y, z) { StringLessTransitive(x, y, z); }
    if StringLess(z, y) && StringLess(y, x) { StringLessTransitive(z, y, x); }
    if StringLess(x, z) { StringLessAsymmetric(x, z); }
    if StringLess(z, x) { StringLessAsymmetric(z, x); }
    if StringLess(x, y) && StringLess(z, x) { StringLessTransitive(z, x, y); }
    if StringLess(y, z) && StringLess(x, y) { StringLessTransitive(x, y, z); }
    if StringLess(z, x) && StringLess(x, y) { StringLessTransitive(z, x, y); StringLessAsymmetric(z, y); }
    if StringLess(y, x) && StringLess(x, z) { StringLessTransitive(y, x, z); StringLessAsymmetric(y, z); }
  }

  /** Every pair of rows is in comparator order. */
  predicate SortedBy(rows: seq<Record>, key: string, dir: Direction) {
    forall i, j :: 0 <= i < j < |rows| ==> Compare(rows[i], rows[j], key, dir) <= 0
  }

  /** One step of a stable sort: `x` goes before the first row it does not follow. */
  function Insert(x: Record, rows: seq<Record>, key: string, dir: Direction): (r: seq<Record>)
    ensures multiset(r) == multiset(rows) + multiset{x}
  {
    if rows == [] || Compare(x, rows[0], key, dir) <= 0 then [x] + rows
    else
      assert rows == [rows[0]] + rows[1..];
      [rows[0]] + Insert(x, rows[1..], key, dir)
  }

  /** `[...rows].sort(comparator)`: a stable sort of a copy. */
  function Sort(rows: seq<Record>, key: string, dir: Direction): (r: seq<Record>)
    ensures multiset(r) == multiset(rows)
  {
    if rows == [] then []
    else
      assert rows == [rows[0]] + rows[1..];
      Insert(rows[0], Sort(rows[1..], key, dir), key, dir)
  }

  /** A row no later than every row of a sorted list can go in front of it. */
  lemma SortedCons(h: Record, rows: seq<Record>, key: string, dir: Direction)
    requires SortedBy(rows, key, dir)
    requires forall y :: y in rows ==> Compare(h, y, key, dir) <= 0
    ensures SortedBy([h] + rows, key, dir)
  {
    var r := [h] + rows;
    forall i, j | 0 <= i < j < |r| ensures Compare(r[i], r[j], key, dir) <= 0 {
      if i == 0 {
        assert r[j] == rows[j - 1] && r[j] in rows;
      } else {
        assert r[i] == rows[i - 1] && r[j] == rows[j - 1];
      }
    }
  }

  /** The rest of a sorted list is sorted and comes no earlier than its head. */
  lemma SortedTail(rows: seq<Record>, key: string, dir: Direction)
    requires rows != [] && SortedBy(rows, key, dir)
    ensures SortedBy(rows[1..], key, dir)
    ensures forall y :: y in rows[1..] ==> Compare(rows[0], y, key, dir) <= 0
  {
    var tail := rows[1..];
    forall i, j | 0 <= i < j < |tail| ensures Compare(tail[i], tail[j], key, dir) <= 0 {
      assert tail[i] == rows[i + 1] && tail[j] == rows[j + 1];
    }
    forall y | y in tail ensures Compare(rows[0], y, key, dir) <= 0 {
      var m :| 0 <= m < |tail| && tail[m] == y;
      assert rows[m + 1] == y;
    }
  }

  lemma {:induction false} InsertSorted(x: Record, rows: seq<Record>, key: string, dir: Direction)
    requires SortedBy(rows, key, dir)
    ensures SortedBy(Insert(x, rows, key, dir), key, dir)
  {
    if rows == [] || Compare(x, rows[0], key, dir) <= 0 {
      if rows != [] {
        SortedTail(rows, key, dir);
        forall y | y in rows ensures Compare(x, y, key, dir) <= 0 {
          if y != rows[0] {
            assert y in rows[1..] by { assert rows == [rows[0]] + rows[1..]; }
            CompareTransitive(x, rows[0], y, key, dir);
          }
        }
      }
      SortedCons(x, rows, key, dir);
    } else {
      CompareAntisymmetric(x, rows[0], key, dir);
      var tail := rows[1..];
      SortedTail(rows, key, dir);
      InsertSorted(x, tail, key, dir);
      var rest := Insert(x, tail, key, dir);
      forall y | y in rest ensures Compare(rows[0], y, key, dir) <= 0 {
        assert y in multiset(rest);
      }
      SortedCons(rows[0], rest, key, dir);
    }
  }

  lemma {:induction false} SortSorted(rows: seq<Record>, key: string, dir: Direction)
    ensures SortedBy(Sort(rows, key, dir), key, dir)
  {
    if rows != [] {
      SortSorted(rows[1..], key, dir);
      InsertSorted(rows[0], Sort(rows[1..], key, dir), key, dir);
    }
  }

  /** `sortedData`: the filtered rows unchanged when there is no sort key,
      otherwise a sorted copy. */
  function SortedView(rows: seq<Record>, key: Option<string>, dir: Direction): seq<Record> {
    if key.None? || key.value == "" then rows else Sort(rows, key.value, dir)
  }

  /** The sorted view is a permutation of its input, in comparator order when
      a key is set, and the input itself otherwise. */
  lemma SortedViewSpec(rows: seq<Record>, key: Option<string>, dir: Direction)
    ensures multiset(SortedView(rows, key, dir)) == multiset(rows)
    ensures key.Some? && key.value != "" ==> SortedBy(SortedView(rows, key, dir), key.value, dir)
    ensures key.None? || key.value == "" ==> SortedView(rows, key, dir) == rows
  {
    if key.Some? && key.value != "" {
      SortSorted(rows, key.value, dir);
    }
  }

  /** The next `sortConfig` after a click on the header of column `key`. */
  function NextSort(prevKey: Option<string>, prevDir: Direction, key: string): (Option<string>, Direction) {
    (Some(key), if prevKey == Some(key) && prevDir == Asc then Desc else Asc)
  }

  /** A click always selects the clicked key; the direction becomes descending
      only on a second click while ascending, and a third click returns to ascending. */
  lemma NextSortToggles(prevKey: Option<string>, prevDir: Direction, key: string)
    ensures NextSort(prevKey, prevDir, key).0 == Some(key)
    ensures NextSort(prevKey, prevDir, key).1 == Desc <==> prevKey == Some(key) && prevDir == Asc
    ensures var (k1, d1) := NextSort(prevKey, prevDir, key);
      var (k2, d2) := NextSort(k1, d1, key);
      d1 == Asc ==> d2 == Desc
    ensures var (k1, d1) := NextSort(prevKey, prevDir, key);
      var (k2, d2) := NextSort(k1, d1, key);
      d1 == Desc ==> d2 == Asc
  {
  }

  // ---------------------------------------------------------------------
  // Pagination
  // ---------------------------------------------------------------------

  /** `sortedData.slice((page - 1) * pageSize, (page - 1) * pageSize + pageSize)`. */
  function Page(rows: seq<Record>, page: int, pageSize: int): seq<Record> {
    var start := (page - 1) * pageSize;
    Slice(rows, start, start + pageSize)
  }

  /** `paginatedData`. */
  function PaginatedView(rows: seq<Record>, pagination: bool, page: int, pageSize: int): seq<Record> {
    if pagination then Page(rows, page, pageSize) else rows
  }

  /** With pagination off the table shows every sorted row; with it on, the
      rows of the current page: the run from `(page - 1) * pageSize`, at most
      `pageSize` long, cut at the end of the rows. */
  lemma PaginatedViewSpec(rows: seq<Record>, pagination: bool, page: int, pageSize: int)
    ensures !pagination ==> PaginatedView(rows, pagination, page, pageSize) == rows
    ensures pagination && pageSize > 0 && page >= 1 ==>
      && |PaginatedView(rows, pagination, page, pageSize)| <= pageSize
      && PaginatedView(rows, pagination, page, pageSize)
         == rows[Min((page - 1) * pageSize, |rows|)..Min(page * pageSize, |rows|)]
  {
    if pagination && pageSize > 0 && page >= 1 {
      PageSpec(rows, page, pageSize);
    }
  }

  /** `Math.ceil(n / pageSize)`. */
  function TotalPages(n: nat, pageSize: int): (r: nat)
    requires pageSize > 0
    ensures (r - 1) * pageSize < n <= r * pageSize
  {
    (n + pageSize - 1) / pageSize
  }

  function Min(a: int, b: int): int {
    if a <= b then a else b
  }

  /** Page `page` (counting from 1) is the run of rows from `(page - 1) * pageSize`,
      at most `pageSize` long, cut at the end of the rows. */
  lemma PageSpec(rows: seq<Record>, page: int, pageSize: int)
    requires pageSize > 0 && page >= 1
    ensures |Page(rows, page, pageSize)| <= pageSize
    ensures var start := Min((page - 1) * pageSize, |rows|);
      Page(rows, page, pageSize) == rows[start..Min(page * pageSize, |rows|)]
  {
    var start := (page - 1) * pageSize;
    assert start >= 0;
    assert start + pageSize == page * pageSize;
  }

  /** Pages 1 to `count`, one after the other. */
  function PagesUpTo(rows: seq<Record>, count: nat, pageSize: int): seq<Record> {
    if count == 0 then [] else PagesUpTo(rows, count - 1, pageSize) + Page(rows, count, pageSize)
  }

  lemma {:induction false} PagesUpToPrefix(rows: seq<Record>, count: nat, pageSize: int)
    requires pageSize > 0
    ensures PagesUpTo(rows, count, pageSize) == rows[..Min(count * pageSize, |rows|)]
  {
    if count > 0 {
      MultiplyMonotonic(0, count - 1, pageSize);
      MultiplyMonotonic(count - 1, count, pageSize);
      PagesUpToPrefix(rows, count - 1, pageSize);
      PageSpec(rows, count, pageSize);
      PrefixThenRun(PagesUpTo(rows, count - 1, pageSize), Page(rows, count, pageSize), rows,
                    Min((count - 1) * pageSize, |rows|), Min(count * pageSize, |rows|));
    }
  }

  lemma PrefixThenRun(front: seq<Record>, run: seq<Record>, rows: seq<Record>, a: int, b: int)
    requires 0 <= a <= b <= |rows|
    requires front == rows[..a] && run == rows[a..b]
    ensures front + run == rows[..b]
  {
  }

  /** Reading every page in turn gives back the whole sorted list. */
  lemma AllPages(rows: seq<Record>, pageSize: int)
    requires pageSize > 0
    ensures PagesUpTo(rows, TotalPages(|rows|, pageSize), pageSize) == rows
  {
    PagesUpToPrefix(rows, TotalPages(|rows|, pageSize), pageSize);
  }

  lemma MultiplyMonotonic(a: int, b: int, c: nat)
    requires a <= b
    ensures a * c <= b * c
  {
    assert b * c - a * c == (b - a) * c;
  }

  /** The footer "Showing `first` to `last` of `n` results" for page `page`. */
  function Footer(page: int, pageSize: int, n: nat): (int, int) {
    ((page - 1) * pageSize + 1, Min(page * pageSize, n))
  }

  /** On any page from 1 to the last, the footer names exactly the rows the
      page shows: it starts at the page's first row and counts its rows. */
  lemma FooterMatchesPage(rows: seq<Record>, page: int, pageSize: int)
    requires pageSize > 0 && 1 <= page <= TotalPages(|rows|, pageSize)
    ensures var (first, last) := Footer(page, pageSize, |rows|);
      && 1 <= first <= last <= |rows|
      && Page(rows, page, pageSize) == rows[first - 1..last]
  {
    PageSpec(rows, page, pageSize);
    var total := TotalPages(|rows|, pageSize);
    MultiplyMonotonic(page - 1, total - 1, pageSize);
    MultiplyMonotonic(0, page - 1, pageSize);
    assert page * pageSize == (page - 1) * pageSize + pageSize;
  }

  // ---------------------------------------------------------------------
  // The component's state
  // ---------------------------------------------------------------------

  class Table {
    const data: seq<Record>
    const columns: seq<Column>
    const searchable: bool
    const sortable: bool
    const pagination: bool
    const pageSize: int

    var searchTerm: string
    var sortKey: Option<string>
    var sortDirection: Direction
    var currentPage: int
    var filters: map<string, string>

    /** The state of a freshly mounted table. */
    constructor (data: seq<Record>, columns: seq<Column>, searchable: bool, sortable: bool,
                 pagination: bool, pageSize: int)
      requires pageSize > 0
      ensures this.data == data && this.columns == columns
      ensures this.searchable == searchable && this.sortable == sortable
      ensures this.pagination == pagination && this.pageSize == pageSize
      ensures searchTerm == "" && sortKey == None && sortDirection == Asc
      ensures currentPage == 1 && filters == map[]
    {
      this.data := data;
      this.columns := columns;
      this.searchable := searchable;
      this.sortable := sortable;
      this.pagination := pagination;
      this.pageSize := pageSize;
      searchTerm := "";
      sortKey := None;
      sortDirection := Asc;
      currentPage := 1;
      filters := map[];
    }

    function FilteredData(): seq<Record>
      reads this
    {
      FilteredView(data, columns, searchable, searchTerm, filters)
    }

    function SortedData(): seq<Record>
      reads this
    {
      SortedView(FilteredData(), sortKey, sortDirection)
    }

    function PaginatedData(): seq<Record>
      reads this
    {
      PaginatedView(SortedData(), pagination, currentPage, pageSize)
    }

    /** `filteredData` as the component computes it: the search, then one
        pass over the filter entries, each non-empty one narrowing the rows. */
    method ComputeFilteredData() returns (filtered: seq<Record>)
      ensures filtered == FilteredData()
    {
      filtered := data;
      if searchTerm != "" && searchable {
        filtered := Searched(filtered, columns, searchTerm);
      }
      ghost var searched := filtered;
      FilteredNone(searched, filters);
      var pending := filters.Keys;
      ghost var done: set<string> := {};
      while pending != {}
        invariant pending + done == filters.Keys && pending !! done
        invariant filtered == Filtered(searched, filters, done)
        decreases |pending|
      {
        var key :| key in pending;
        var value := filters[key];
        if value != "" {
          FilteredOnStep(searched, filters, done, key);
          filtered := FilteredOn(filtered, key, value);
        } else {
          FilteredSkip(searched, filters, done, key);
        }
        pending := pending - {key};
        done := done + {key};
      }
    }

    /** `handleSort`: nothing happens on a table that cannot sort. */
    method HandleSort(key: string)
      modifies this
      ensures !sortable ==> sortKey == old(sortKey) && sortDirection == old(sortDirection)
      ensures sortable ==> (sortKey, sortDirection) == NextSort(old(sortKey), old(sortDirection), key)
      ensures searchTerm == old(searchTerm) && currentPage == old(currentPage) && filters == old(filters)
    {
      if !sortable {
        return;
      }
      var next := NextSort(sortKey, sortDirection, key);
      sortKey, sortDirection := next.0, next.1;
    }

    /** `handleFilterChange`: sets one filter and goes back to the first page. */
    method HandleFilterChange(key: string, value: string)
      modifies this
      ensures filters == old(filters)[key := value]
      ensures currentPage == 1
      ensures searchTerm == old(searchTerm) && sortKey == old(sortKey) && sortDirection == old(sortDirection)
    {
      filters := filters[key := value];
      currentPage := 1;
    }

    /** `handleSearchChange`: sets the term and goes back to the first page. */
    method HandleSearchChange(value: string)
      modifies this
      ensures searchTerm == value
      ensures currentPage == 1
      ensures filters == old(filters) && sortKey == old(sortKey) && sortDirection == old(sortDirection)
    {
      searchTerm := value;
      currentPage := 1;
    }

    /** `handlePageChange`: moves to the given page and changes nothing else. */
    method HandlePageChange(page: int)
      modifies this
      ensures currentPage == page
      ensures searchTerm == old(searchTerm) && filters == old(filters)
      ensures sortKey == old(sortKey) && sortDirection == old(sortDirection)
    {
      currentPage := page;
    }
  }
}
