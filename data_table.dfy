/** The sample table page: search and beach-type filter, sort by one of five
    columns, pages of eight rows, the column-header sort toggle, the
    Previous/Next buttons and the beach-type options of the filter. */
module DataTable {
  import opened Lists
  import opened Text
  import opened Samples

  const PageSize: nat := 8
  const AllTypes: string := "all"

  // ---------------------------------------------------------------- filter

  /** A sample is shown when its lower-cased location or device id contains
      the lower-cased search term and the type filter is "all" or its type. */
  predicate Matches(s: Sample, term: string, filterType: string): (r: bool)
    ensures r <==> (Contains(Lower(s.location), Lower(term)) || Contains(Lower(s.deviceId), Lower(term)))
                   && (filterType == AllTypes || s.beachType == filterType)
  {
    var matchesSearch := Includes(Lower(s.location), Lower(term))
                         || Includes(Lower(s.deviceId), Lower(term));
    var matchesFilter := filterType == AllTypes || s.beachType == filterType;
    matchesSearch && matchesFilter
  }

  /** The `samples.filter(...)` step of the table pipeline. */
  function FilterSamples(samples: seq<Sample>, term: string, filterType: string): (r: seq<Sample>)
    ensures forall s :: s in r <==> s in samples && Matches(s, term, filterType)
    ensures forall s :: multiset(r)[s] ==
                        (if Matches(s, term, filterType) then multiset(samples)[s] else 0)
  {
    SelectCount(samples, s => Matches(s, term, filterType));
    Select(samples, s => Matches(s, term, filterType))
  }

  /** With an empty search term and the "all" filter every sample is kept,
      in order. */
  lemma EmptySearchKeepsAll(samples: seq<Sample>)
    ensures FilterSamples(samples, "", AllTypes) == samples
  {
    forall s | s in samples ensures Matches(s, "", AllTypes) {
      IncludesEmpty(Lower(s.location));
    }
    SelectKeepsAll(samples, s => Matches(s, "", AllTypes));
  }

  /** Filtering the filtered list again with the same parameters changes
      nothing. */
  lemma FilterIdempotent(samples: seq<Sample>, term: string, filterType: string)
    ensures FilterSamples(FilterSamples(samples, term, filterType), term, filterType)
         == FilterSamples(samples, term, filterType)
  {
    SelectIdempotent(samples, s => Matches(s, term, filterType));
  }

  // ------------------------------------------------------------ sort order

  datatype SortField = Location | Timestamp | GrainSize | Temperature | Humidity
  datatype Direction = Asc | Desc

  /** JavaScript's `<` on strings: lexicographic on characters. */
  predicate LexLess(a: string, b: string) {
    if |a| == 0 then |b| > 0
    else if |b| == 0 then false
    else if a[0] != b[0] then a[0] < b[0]
    else LexLess(a[1..], b[1..])
  }

  lemma {:induction false} LexIrreflexive(a: string)
    ensures !LexLess(a, a)
  {
    if |a| > 0 {
      LexIrreflexive(a[1..]);
    }
  }

  /** Two different strings are ordered one way or the other. */
  lemma {:induction false} LexTrichotomy(a: string, b: string)
    ensures a == b || LexLess(a, b) || LexLess(b, a)
  {
    if |a| > 0 && |b| > 0 && a[0] == b[0] {
      LexTrichotomy(a[1..], b[1..]);
      if a[1..] == b[1..] {
        assert a == [a[0]] + a[1..] && b == [b[0]] + b[1..];
      }
    }
  }

  lemma {:induction false} LexTransitive(a: string, b: string, c: string)
    requires LexLess(a, b) && LexLess(b, c)
    ensures LexLess(a, c)
  {
    if |a| > 0 && a[0] == b[0] && b[0] == c[0] {
      LexTransitive(a[1..], b[1..], c[1..]);
    }
  }

  /** The two samples hold the same value in the chosen column. */
  predicate SameKey(a: Sample, b: Sample, field: SortField) {
    match field
    case Location => a.location == b.location
    case Timestamp => a.timestamp == b.timestamp
    case GrainSize => a.grainSize == b.grainSize
    case Temperature => a.temperature == b.temperature
    case Humidity => a.humidity == b.humidity
  }

  /** `aVal > bVal` for the chosen column; timestamps compare as instants.
      Equal values are never greater. */
  predicate KeyGreater(a: Sample, b: Sample, field: SortField): (r: bool)
    ensures SameKey(a, b, field) ==> !r
  {
    LexIrreflexive(a.location);
    match field
    case Location => LexLess(b.location, a.location)
    case Timestamp => a.timestamp > b.timestamp
    case GrainSize => a.grainSize > b.grainSize
    case Temperature => a.temperature > b.temperature
    case Humidity => a.humidity > b.humidity
  }

  /** Of two samples, at most one holds the greater value. */
  lemma KeyGreaterAsymmetric(a: Sample, b: Sample, field: SortField)
    requires KeyGreater(a, b, field)
    ensures !KeyGreater(b, a, field)
  {
    if field == Location && LexLess(a.location, b.location) {
      LexTransitive(a.location, b.location, a.location);
      LexIrreflexive(a.location);
    }
  }

  /** The arrow function handed to `sort`: 1 puts `a` after `b` and -1 before
      it. It never answers 0, gives -1 both ways for equal values, and when it
      puts `a` after `b` it would put `b` before `a`. */
  function Comparator(a: Sample, b: Sample, field: SortField, dir: Direction): (c: int)
    ensures c == 1 || c == -1
    ensures SameKey(a, b, field) ==> c == -1
    ensures c == 1 && dir == Asc ==> !KeyGreater(b, a, field)
    ensures c == 1 && dir == Desc ==> !KeyGreater(a, b, field)
  {
    match dir
    case Asc =>
      if KeyGreater(a, b, field) then KeyGreaterAsymmetric(a, b, field); 1 else -1
    case Desc =>
      if KeyGreater(b, a, field) then KeyGreaterAsymmetric(b, a, field); 1 else -1
  }

  /** The comparator lets `a` stand before `b`: ascending unless `a`'s key is
      greater, descending unless it is smaller. Equal keys may stand either
      way round. */
  predicate MayPrecede(a: Sample, b: Sample, field: SortField, dir: Direction): (r: bool)
    ensures SameKey(a, b, field) ==> r
  {
    Comparator(a, b, field, dir) == -1
  }

  /** Any two samples can be put in some order. */
  lemma MayPrecedeTotal(a: Sample, b: Sample, field: SortField, dir: Direction)
    ensures MayPrecede(a, b, field, dir) || MayPrecede(b, a, field, dir)
  {
  }

  lemma MayPrecedeTransitive(a: Sample, b: Sample, c: Sample, field: SortField, dir: Direction)
    requires MayPrecede(a, b, field, dir) && MayPrecede(b, c, field, dir)
    ensures MayPrecede(a, c, field, dir)
  {
    if field == Location {
      var x, y, z := a.location, b.location, c.location;
      LexTrichotomy(x, y);
      LexTrichotomy(y, z);
      if dir == Asc && LexLess(z, x) {
        // x <= y <= z and z < x cannot all hold
        if LexLess(x, y) {
          if LexLess(y, z) { LexTransitive(x, y, z); LexTransitive(z, x, z); LexIrreflexive(z); }
          else { LexTransitive(z, x, y); }
        } else if LexLess(y, z) {
          LexTransitive(y, z, x);
        } else {
          LexIrreflexive(x);
        }
      } else if dir == Desc && LexLess(x, z) {
        if LexLess(y, x) {
          if LexLess(z, y) { LexTransitive(z, y, x); LexTransitive(x, z, x); LexIrreflexive(x); }
          else { LexTransitive(y, x, z); }
        } else if LexLess(z, y) {
          LexTransitive(x, z, y);
        } else {
          LexIrreflexive(x);
        }
      }
    }
  }

  /** Every earlier row may stand before every later one: non-decreasing
      keys for "asc", non-increasing for "desc". */
  ghost predicate SortedBy(rows: seq<Sample>, field: SortField, dir: Direction) {
    forall i, j :: 0 <= i < j < |rows| ==> MayPrecede(rows[i], rows[j], field, dir)
  }

  /** Sorted means key order outright: ascending, no row's key is greater
      than a later row's; descending, no later row's key is greater than an
      earlier row's. */
  lemma SortedByKeyOrder(rows: seq<Sample>, field: SortField, dir: Direction)
    ensures SortedBy(rows, field, dir) <==>
      forall i, j :: 0 <= i < j < |rows| ==>
        if dir == Asc then !KeyGreater(rows[i], rows[j], field) else !KeyGreater(rows[j], rows[i], field)
  {
  }

  /** `before` relates any two values one way or the other. */
  ghost predicate Total<T(!new)>(before: (T, T) -> bool) {
    forall x, y :: before(x, y) || before(y, x)
  }

  ghost predicate Transitive<T(!new)>(before: (T, T) -> bool) {
    forall x, y, z :: before(x, y) && before(y, z) ==> before(x, z)
  }

  /** Every earlier element may stand before every later one. */
  ghost predicate Ordered<T>(xs: seq<T>, before: (T, T) -> bool) {
    forall i, j :: 0 <= i < j < |xs| ==> before(xs[i], xs[j])
  }

  /** `Array.prototype.sort` with a comparator, in place: afterwards the
      array is a permutation of what it held and ordered by `before`, the
      comparator's "may stand first". Nothing is promised about the order of
      elements the comparator cannot tell apart. */
  method SortInPlace<T(!new)>(a: array<T>, before: (T, T) -> bool)
    requires Total(before) && Transitive(before)
    modifies a
    ensures Ordered(a[..], before)
    ensures multiset(a[..]) == old(multiset(a[..]))
  {
    var i := 1;
    while i < a.Length
      invariant a.Length == 0 || 1 <= i <= a.Length
      invariant Ordered(a[..if a.Length == 0 then 0 else i], before)
      invariant multiset(a[..]) == old(multiset(a[..]))
    {
      InsertLast(a, i, before);
      i := i + 1;
    }
  }

  /** One insertion step: with `a[..i]` ordered, moves `a[i]` left until it
      may stand where it is, leaving `a[..i + 1]` ordered. */
  method InsertLast<T(!new)>(a: array<T>, i: nat, before: (T, T) -> bool)
    requires Total(before) && Transitive(before)
    requires i < a.Length
    requires Ordered(a[..i], before)
    modifies a
    ensures Ordered(a[..i + 1], before)
    ensures multiset(a[..]) == old(multiset(a[..]))
  {
    var j := i;
    InsertStart(a[..], i, before);
    while j > 0 && !before(a[j - 1], a[j])
      invariant 0 <= j <= i
      invariant Inserting(a[..], j, i, before)
      invariant multiset(a[..]) == old(multiset(a[..]))
    {
      ghost var s := a[..];
      a[j - 1], a[j] := a[j], a[j - 1];
      assert a[..] == s[j - 1 := s[j]][j := s[j - 1]];
      InsertSwap(s, j, i, before);
      j := j - 1;
    }
    InsertDone(a[..], j, i, before);
  }

  /** Mid-insertion: the element at `j` is moving left; every other pair up
      to `i` is ordered, and it may stand before everything right of it. */
  ghost predicate Inserting<T>(s: seq<T>, j: nat, i: nat, before: (T, T) -> bool)
    requires j <= i < |s|
  {
    && (forall k, l :: 0 <= k < l <= i && k != j && l != j ==> before(s[k], s[l]))
    && (forall l :: j < l <= i ==> before(s[j], s[l]))
  }

  lemma InsertStart<T>(s: seq<T>, i: nat, before: (T, T) -> bool)
    requires i < |s| && Ordered(s[..i], before)
    ensures Inserting(s, i, i, before)
  {
    forall k, l | 0 <= k < l <= i && k != i && l != i ensures before(s[k], s[l]) {
      assert s[..i][k] == s[k] && s[..i][l] == s[l];
    }
  }

  /** Swapping the moving element with a left neighbour that may not stand
      before it keeps the insertion state, one place further left. */
  lemma InsertSwap<T(!new)>(s: seq<T>, j: nat, i: nat, before: (T, T) -> bool)
    requires Total(before) && Transitive(before)
    requires 0 < j <= i < |s| && Inserting(s, j, i, before)
    requires !before(s[j - 1], s[j])
    ensures Inserting(s[j - 1 := s[j]][j := s[j - 1]], j - 1, i, before)
  {
    var t := s[j - 1 := s[j]][j := s[j - 1]];
    assert before(s[j], s[j - 1]);
    forall k, l | 0 <= k < l <= i && k != j - 1 && l != j - 1 ensures before(t[k], t[l]) {
      if l == j {
        assert t[l] == s[j - 1];
      } else if k == j {
        assert t[k] == s[j - 1];
      }
    }
  }

  /** When the moving element may stand after its left neighbour (or has
      reached the front), `s[..i + 1]` is ordered. */
  lemma InsertDone<T(!new)>(s: seq<T>, j: nat, i: nat, before: (T, T) -> bool)
    requires Transitive(before)
    requires j <= i < |s| && Inserting(s, j, i, before)
    requires j == 0 || before(s[j - 1], s[j])
    ensures Ordered(s[..i + 1], before)
  {
    forall k, l | 0 <= k < l <= i ensures before(s[k], s[l]) {
      if l == j && k < j - 1 {
        assert before(s[k], s[j - 1]);
      }
    }
  }

  /** The table's comparator is a total, transitive "may stand first". */
  lemma ComparatorIsOrder(field: SortField, dir: Direction)
    ensures Total((x, y) => MayPrecede(x, y, field, dir))
    ensures Transitive((x, y) => MayPrecede(x, y, field, dir))
  {
    forall x, y ensures MayPrecede(x, y, field, dir) || MayPrecede(y, x, field, dir) {
      MayPrecedeTotal(x, y, field, dir);
    }
    forall x, y, z | MayPrecede(x, y, field, dir) && MayPrecede(y, z, field, dir)
      ensures MayPrecede(x, z, field, dir)
    {
      MayPrecedeTransitive(x, y, z, field, dir);
    }
  }

  /** `filteredAndSortedSamples`: the filtered copy, sorted. The sample list
      itself is a value and cannot change. */
  method FilterAndSort(samples: seq<Sample>, term: string, filterType: string,
                       field: SortField, dir: Direction) returns (rows: seq<Sample>)
    ensures multiset(rows) == multiset(FilterSamples(samples, term, filterType))
    ensures SortedBy(rows, field, dir)
    ensures |rows| == |FilterSamples(samples, term, filterType)|
  {
    var filtered := FilterSamples(samples, term, filterType);
    var a := new Sample[|filtered|](k requires 0 <= k < |filtered| => filtered[k]);
    assert a[..] == filtered;
    ComparatorIsOrder(field, dir);
    SortInPlace(a, (x, y) => MayPrecede(x, y, field, dir));
    rows := a[..];
    assert |rows| == |multiset(rows)| == |multiset(filtered)| == |filtered|;
  }

  // ------------------------------------------------------------ pagination

  /** `Math.ceil(n / 8)`: zero when nothing matches, no floor of one page. */
  function TotalPages(n: nat): (t: nat)
    ensures t * PageSize >= n
    ensures t > 0 ==> (t - 1) * PageSize < n
    ensures t == 0 <==> n == 0
  {
    (n + PageSize - 1) / PageSize
  }

  /** The index `Array.prototype.slice` uses for a bound `k`: a negative bound
      counts from the end, and both kinds are clamped to the length. */
  function SliceBound(k: int, len: nat): (b: nat)
    ensures b <= len
    ensures 0 <= k ==> b == Min(k, len)
    ensures k < 0 ==> b == Max(0, len + k)
  {
    if k < 0 then (if len + k < 0 then 0 else len + k)
    else if k > len then len else k
  }

  /** `s.slice(start, end)`. */
  function JsSlice<T>(s: seq<T>, start: int, end: int): (r: seq<T>)
    ensures |r| <= |s|
    ensures |r| == Max(0, SliceBound(end, |s|) - SliceBound(start, |s|))
    ensures forall k :: 0 <= k < |r| ==> r[k] == s[SliceBound(start, |s|) + k]
  {
    var from, to := SliceBound(start, |s|), SliceBound(end, |s|);
    if from < to then s[from..to] else []
  }

  /** `paginatedSamples`: the slice of eight rows at `(page - 1) * 8`. */
  function Page(rows: seq<Sample>, page: int): (r: seq<Sample>)
    ensures |r| <= PageSize
    ensures page >= 1 ==> |r| == if (page - 1) * PageSize >= |rows| then 0
                                 else Min(PageSize, |rows| - (page - 1) * PageSize)
    ensures page >= 1 ==> forall k :: 0 <= k < |r| ==> r[k] == rows[(page - 1) * PageSize + k]
    ensures page == 0 || page > TotalPages(|rows|) ==> r == []
  {
    var start := (page - 1) * PageSize;
    JsSlice(rows, start, start + PageSize)
  }

  function Min(a: int, b: int): int {
    if a <= b then a else b
  }

  function Max(a: int, b: int): int {
    if a >= b then a else b
  }

  /** Pages `page`, `page + 1`, ..., up to the last one, concatenated. */
  function PagesFrom(rows: seq<Sample>, page: nat): seq<Sample>
    decreases TotalPages(|rows|) - page + 1
  {
    if page == 0 || page > TotalPages(|rows|) then [] else Page(rows, page) + PagesFrom(rows, page + 1)
  }

  lemma {:induction false} PagesFromSuffix(rows: seq<Sample>, page: nat)
    requires 1 <= page
    ensures PagesFrom(rows, page) == rows[Min((page - 1) * PageSize, |rows|)..]
    decreases TotalPages(|rows|) - page + 1
  {
    if page <= TotalPages(|rows|) {
      var start, next := PagesFromStep(rows, page);
      PagesFromSuffix(rows, page + 1);
      assert rows[start..] == rows[start..next] + rows[next..];
    } else {
      PagesFromPastEnd(rows, page);
    }
  }

  /** An existing page is followed by the pages after it. */
  lemma PagesFromStep(rows: seq<Sample>, page: nat) returns (start: nat, next: nat)
    requires 1 <= page <= TotalPages(|rows|)
    ensures start == Min((page - 1) * PageSize, |rows|) && next == Min(((page + 1) - 1) * PageSize, |rows|)
    ensures start <= next <= |rows|
    ensures PagesFrom(rows, page) == rows[start..next] + PagesFrom(rows, page + 1)
  {
    start, next := PageIsSlice(rows, page);
  }

  /** Past the last page there is nothing left, and no row either. */
  lemma PagesFromPastEnd(rows: seq<Sample>, page: nat)
    requires TotalPages(|rows|) < page
    ensures PagesFrom(rows, page) == []
    ensures Min((page - 1) * PageSize, |rows|) == |rows|
  {
    var t := TotalPages(|rows|);
    assert (page - 1) * PageSize >= t * PageSize >= |rows| by {
      assert PageSize == 8;
    }
  }

  /** A page that exists is the slice from its first row to the start of the
      next page, or to the end. */
  lemma PageIsSlice(rows: seq<Sample>, page: nat) returns (start: nat, next: nat)
    requires 1 <= page <= TotalPages(|rows|)
    ensures start == (page - 1) * PageSize && next == Min(page * PageSize, |rows|)
    ensures start < next <= |rows|
    ensures Page(rows, page) == rows[start..next]
    ensures Min(page * PageSize, |rows|) == Min(((page + 1) - 1) * PageSize, |rows|)
  {
    start := (page - 1) * PageSize;
    next := Min(page * PageSize, |rows|);
    assert page * PageSize == start + PageSize;
  }

  /** Pages 1 to `TotalPages`, one after the other, give every sorted row
      exactly once and in order. */
  lemma PagesCoverRows(rows: seq<Sample>)
    ensures PagesFrom(rows, 1) == rows
  {
    PagesFromSuffix(rows, 1);
  }

  // -------------------------------------------------- beach-type vocabulary

  /** `[...new Set(samples.map(s => s.beachType))]`: the options of the type
      filter. */
  function BeachTypeOptions(samples: seq<Sample>): (r: seq<string>)
    ensures Distinct(r)
    ensures forall t :: t in r <==> t in BeachTypesOf(samples)
    ensures forall t :: t in r <==> exists s :: s in samples && s.beachType == t
    ensures forall i, j :: 0 <= i < j < |r| ==>
      FirstIndex(BeachTypesOf(samples), r[i]) < FirstIndex(BeachTypesOf(samples), r[j])
  {
    var types := BeachTypesOf(samples);
    DedupFirstSeenOrder(types);
    forall t ensures t in types <==> exists s :: s in samples && s.beachType == t {
      if t in types {
        var k :| 0 <= k < |types| && types[k] == t;
        assert samples[k] in samples;
      }
    }
    Dedup(types)
  }

  // ------------------------------------------------------------ view state

  /** The table page's state: the loaded samples and the view parameters. */
  class TableView {
    const samples: seq<Sample>
    var searchTerm: string
    var filterType: string
    var sortField: SortField
    var sortDirection: Direction
    var currentPage: nat

    /** Opens on page 1, newest first, with no search and every type. */
    constructor (samples: seq<Sample>)
      ensures this.samples == samples
      ensures searchTerm == "" && filterType == AllTypes
      ensures sortField == Timestamp && sortDirection == Desc
      ensures currentPage == 1
    {
      this.samples := samples;
      searchTerm := "";
      filterType := AllTypes;
      sortField := Timestamp;
      sortDirection := Desc;
      currentPage := 1;
    }

    /** The number of pages for the current search and filter. */
    function PageCount(): nat
      reads this
    {
      TotalPages(|FilterSamples(samples, searchTerm, filterType)|)
    }

    method SetSearchTerm(term: string)
      modifies this`searchTerm
      ensures searchTerm == term
    {
      searchTerm := term;
    }

    method SetFilterType(t: string)
      modifies this`filterType
      ensures filterType == t
    {
      filterType := t;
    }

    /** `handleSort`: the current column flips direction, another column
      becomes the sort column, ascending. */
    method HandleSort(field: SortField)
      modifies this`sortField, this`sortDirection
      ensures old(sortField) == field ==>
        sortField == field && sortDirection == (if old(sortDirection) == Asc then Desc else Asc)
      ensures old(sortField) != field ==> sortField == field && sortDirection == Asc
    {
      if sortField == field {
        sortDirection := if sortDirection == Asc then Desc else Asc;
      } else {
        sortField := field;
        sortDirection := Asc;
      }
    }

    /** The Previous button: `max(1, currentPage - 1)`. */
    method PreviousPage()
      modifies this`currentPage
      ensures currentPage == Max(1, old(currentPage) - 1)
      ensures currentPage >= 1
    {
      currentPage := Max(1, currentPage - 1);
    }

    /** The Next button: `min(totalPages, currentPage + 1)`, which is page 0
      when nothing matches. */
    method NextPage()
      modifies this`currentPage
      ensures currentPage == Min(PageCount(), old(currentPage) + 1)
      ensures currentPage <= PageCount()
      ensures PageCount() == 0 ==> currentPage == 0
    {
      currentPage := Min(PageCount(), currentPage + 1);
    }

    /** What the table renders: the filtered and sorted rows and the slice of
      them on the current page. */
    method VisibleRows() returns (sorted: seq<Sample>, rows: seq<Sample>)
      ensures multiset(sorted) == multiset(FilterSamples(samples, searchTerm, filterType))
      ensures SortedBy(sorted, sortField, sortDirection)
      ensures rows == Page(sorted, currentPage)
      ensures |rows| <= PageSize
      ensures currentPage > PageCount() ==> rows == []
    {
      sorted := FilterAndSort(samples, searchTerm, filterType, sortField, sortDirection);
      rows := Page(sorted, currentPage);
    }
  }
}
