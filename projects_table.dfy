/**
 * The project list of the dashboard (frontend/src/components/ProjectsTable.tsx):
 * a text search and four select filters over the projects, pages of 50 rows,
 * the "showing a - b" counters, and the page state that the buttons and the
 * filters update.  The component's state is a class; the projects it is given
 * are fixed for the life of the object.
 */
module ProjectsTable {
  import opened Wrappers
  import opened Text
  import opened Collections
  import MapboxMap

  /** The fields of a project the table reads. */
  datatype TableProject = TableProject(
    name: string,
    developer: Option<string>,
    commune: Option<string>,
    region: Option<string>,
    zona: Option<string>,
    projectStatus: Option<string>,
    propertyType: Option<string>,
    soldUnits: Option<real>,
    totalUnits: Option<real>)

  const ItemsPerPage: nat := 50

  /** The value `'all'` of a select: no filter. */
  const All: string := "all"

  datatype Selects = Selects(region: string, zona: string, status: string, propertyType: string)

  const NoSelects: Selects := Selects(All, All, All, All)

  datatype SelectKind = RegionSelect | ZonaSelect | StatusSelect | TypeSelect

  // ---------------------------------------------------------------------------
  // Filtering
  // ---------------------------------------------------------------------------

  /** `field?.toLowerCase().includes(search.toLowerCase())`: a `null` field never matches. */
  predicate FieldMatches(field: Option<string>, search: string) {
    field.Some? && Contains(Lower(field.value), Lower(search))
  }

  predicate MatchesSearch(p: TableProject, search: string) {
    FieldMatches(Some(p.name), search) || FieldMatches(p.developer, search) || FieldMatches(p.commune, search)
  }

  /** `filter === 'all' || field === filter`. */
  predicate SelectMatches(filter: string, field: Option<string>) {
    filter == All || field == Some(filter)
  }

  predicate Matches(p: TableProject, search: string, s: Selects) {
    MatchesSearch(p, search) &&
    SelectMatches(s.region, p.region) && SelectMatches(s.zona, p.zona) &&
    SelectMatches(s.status, p.projectStatus) && SelectMatches(s.propertyType, p.propertyType)
  }

  /** `filteredProjects`. */
  function Filtered(ps: seq<TableProject>, search: string, s: Selects): seq<TableProject> {
    Filter(ps, (p: TableProject) => Matches(p, search, s))
  }

  /** The empty string is in every string, so an empty search keeps every project and the selects decide. */
  lemma {:induction false} EmptySearchMatchesAll(p: TableProject)
    ensures MatchesSearch(p, "")
  {
    assert Lower("") == "";
    assert StartsWith(Lower(p.name), "");
  }

  /** With no select set and no search, every project is listed, in order. */
  lemma NoFiltersKeepAll(ps: seq<TableProject>)
    ensures Filtered(ps, "", NoSelects) == ps
  {
    forall i | 0 <= i < |ps|
      ensures Matches(ps[i], "", NoSelects)
    {
      EmptySearchMatchesAll(ps[i]);
    }
    FilterAll(ps, (p: TableProject) => Matches(p, "", NoSelects));
  }

  /** A listed project passes the search and every select; a project that does is listed. */
  lemma FilteredExact(ps: seq<TableProject>, search: string, s: Selects)
    ensures forall p :: p in Filtered(ps, search, s) <==> p in ps && Matches(p, search, s)
  {
    FilterIn(ps, (p: TableProject) => Matches(p, search, s));
  }

  // ---------------------------------------------------------------------------
  // Pagination
  // ---------------------------------------------------------------------------

  /** `Math.ceil(n / 50)`. */
  function TotalPages(n: nat): nat {
    (n + ItemsPerPage - 1) / ItemsPerPage
  }

  /** `Math.ceil`: the fewest pages of 50 that hold `n` items. */
  lemma TotalPagesCeil(n: nat)
    ensures (TotalPages(n) == 0) <==> n == 0
    ensures n <= TotalPages(n) * ItemsPerPage
    ensures n > 0 ==> (TotalPages(n) - 1) * ItemsPerPage < n
  {
  }

  function MinNat(a: nat, b: nat): nat {
    if a <= b then a else b
  }

  /** `Math.max(a, b)` with a lower bound that is a page number. */
  function MaxInt(a: int, b: nat): nat {
    if a >= b then a else b
  }

  /** `items.slice((page - 1) * 50, page * 50)`, with `slice`'s clamping to the length. */
  function PageSlice<T>(items: seq<T>, page: nat): seq<T>
    requires page >= 1
  {
    var lo := MinNat((page - 1) * ItemsPerPage, |items|);
    var hi := MinNat(page * ItemsPerPage, |items|);
    items[lo..hi]
  }

  /** A page holds at most 50 items: the ones at positions `(page - 1) * 50` on. */
  lemma PageSliceItems<T>(items: seq<T>, page: nat)
    requires page >= 1
    ensures |PageSlice(items, page)| <= ItemsPerPage
    ensures forall k :: 0 <= k < |PageSlice(items, page)| ==> PageSlice(items, page)[k] == items[(page - 1) * ItemsPerPage + k]
    ensures 1 <= page <= TotalPages(|items|) ==> PageSlice(items, page) != []
    ensures page < TotalPages(|items|) ==> |PageSlice(items, page)| == ItemsPerPage
  {
  }

  /** The pages from the first one to `last` put together. */
  function PagesUpTo<T>(items: seq<T>, last: nat): seq<T> {
    if last == 0 then [] else PagesUpTo(items, last - 1) + PageSlice(items, last)
  }

  /** The pages `1..TotalPages(n)` list every item once, in order. */
  lemma PagesCoverItems<T>(items: seq<T>)
    ensures PagesUpTo(items, TotalPages(|items|)) == items
  {
    PagesPrefix(items, TotalPages(|items|));
  }

  lemma {:induction false} PagesPrefix<T>(items: seq<T>, last: nat)
    requires last <= TotalPages(|items|)
    ensures PagesUpTo(items, last) == items[..MinNat(last * ItemsPerPage, |items|)]
  {
    if last > 0 {
      PagesPrefix(items, last - 1);
      var lo := MinNat((last - 1) * ItemsPerPage, |items|);
      var hi := MinNat(last * ItemsPerPage, |items|);
      assert items[..lo] + items[lo..hi] == items[..hi];
    }
  }

  /** `startItem`: 0 when nothing matches, else the position of the page's first row, counting from 1. */
  function StartItem(n: nat, page: nat): int {
    if n > 0 then (page - 1) * ItemsPerPage + 1 else 0
  }

  /** `endItem`: 0 when nothing matches, else the position of the page's last row. */
  function EndItem(n: nat, page: nat): int {
    if n > 0 then MinNat(page * ItemsPerPage, n) else 0
  }

  /** On a page that exists the counters name exactly the rows listed. */
  lemma CountersMatchPage<T>(items: seq<T>, page: nat)
    requires 1 <= page <= TotalPages(|items|)
    ensures 1 <= StartItem(|items|, page) <= EndItem(|items|, page) <= |items|
    ensures EndItem(|items|, page) - StartItem(|items|, page) + 1 == |PageSlice(items, page)|
  {
  }

  /** With nothing to show the counters are 0 - 0. */
  lemma CountersWhenEmpty(page: nat)
    ensures StartItem(0, page) == 0 && EndItem(0, page) == 0
  {
  }

  // ---------------------------------------------------------------------------
  // Select options and cells
  // ---------------------------------------------------------------------------

  predicate Present(v: Option<string>) {
    v.Some? && v.value != ""
  }

  function Value(v: Option<string>): string {
    if v.Some? then v.value else ""
  }

  /** `Array.from(new Set(values.filter(v => !!v))).sort()`. */
  function OptionList(values: seq<Option<string>>): seq<string> {
    Sort(Distinct(MapSeq(Filter(values, Present), Value)), LexLe)
  }

  lemma LexLePreorder()
    ensures TotalPreorder(LexLe)
  {
    forall a, b
      ensures LexLe(a, b) || LexLe(b, a)
    {
      LexLeTotal(a, b);
    }
    forall a, b, c | LexLe(a, b) && LexLe(b, c)
      ensures LexLe(a, c)
    {
      LexLeTransitive(a, b, c);
    }
  }

  /** The options are the distinct non-empty values, each once, in order. */
  lemma OptionListExact(values: seq<Option<string>>)
    ensures var opts := OptionList(values);
      Sorted(opts, LexLe) && NoDuplicates(opts) &&
      forall s :: s in opts <==> s != "" && Some(s) in values
  {
    var texts := PresentTexts(values);
    var d := Distinct(texts);
    LexLePreorder();
    SortSorted(d, LexLe);
    DistinctMembers(texts);
    PermutationNoDuplicates(d, Sort(d, LexLe));
    PresentTextsExact(values);
    assert forall s :: s in Sort(d, LexLe) <==> s in multiset(d);
  }

  function PresentTexts(values: seq<Option<string>>): seq<string> {
    MapSeq(Filter(values, Present), Value)
  }

  lemma PresentTextsExact(values: seq<Option<string>>)
    ensures forall s :: s in PresentTexts(values) <==> s != "" && Some(s) in values
  {
    var present := Filter(values, Present);
    var texts := PresentTexts(values);
    FilterIn(values, Present);
    forall s
      ensures s in texts <==> s != "" && Some(s) in values
    {
      if s in texts {
        var k :| 0 <= k < |texts| && texts[k] == s;
        assert present[k] in present;
      }
      if s != "" && Some(s) in values {
        assert Some(s) in present;
        var k :| 0 <= k < |present| && present[k] == Some(s);
        assert texts[k] == s;
      }
    }
  }

  datatype BadgeVariant = Success | Secondary | InfoBadge | WarningBadge

  /** `getStatusBadge`: no badge without a status; the four known statuses have their colour, any other is secondary. */
  function StatusBadge(status: Option<string>): Option<BadgeVariant> {
    if !Present(status) then None
    else if status.value == "EN VENTA" then Some(Success)
    else if status.value == "VENDIDO" then Some(Secondary)
    else if status.value == "EN CONSTRUCCION" then Some(InfoBadge)
    else if status.value == "TERMINADO" then Some(WarningBadge)
    else Some(Secondary)
  }

  /** A badge is drawn exactly for a present status, and each colour but the default belongs to one status. */
  lemma StatusBadgeMeaning(status: Option<string>)
    ensures StatusBadge(status).None? <==> !Present(status)
    ensures StatusBadge(status) == Some(Success) <==> status == Some("EN VENTA")
    ensures StatusBadge(status) == Some(InfoBadge) <==> status == Some("EN CONSTRUCCION")
    ensures StatusBadge(status) == Some(WarningBadge) <==> status == Some("TERMINADO")
    ensures Present(status) && status.value !in {"EN VENTA", "EN CONSTRUCCION", "TERMINADO"} ==> StatusBadge(status) == Some(Secondary)
  {
  }

  /** The table's `getSellThroughRate` is the map's: the same guard and the same rounding. */
  function SellThrough(p: TableProject): int {
    MapboxMap.SellThroughRate(p.soldUnits, p.totalUnits)
  }

  // ---------------------------------------------------------------------------
  // Component state
  // ---------------------------------------------------------------------------

  class TableState {
    const projects: seq<TableProject>
    var search: string
    var selects: Selects
    var currentPage: nat

    /** The projects shown under the current search and selects. */
    function Visible(): seq<TableProject>
      reads this
    {
      Filtered(projects, search, selects)
    }

    function Pages(): nat
      reads this
    {
      TotalPages(|Visible()|)
    }

    /** The rows on screen. */
    function Page(): seq<TableProject>
      reads this
      requires currentPage >= 1
    {
      PageSlice(Visible(), currentPage)
    }

    /** The page is at least 1 and never past the last page, or 1 when there is none. */
    ghost predicate Valid()
      reads this
    {
      1 <= currentPage && (currentPage == 1 || currentPage <= Pages())
    }

    constructor(projects: seq<TableProject>)
      ensures this.projects == projects && search == "" && selects == NoSelects && currentPage == 1
      ensures Visible() == projects && Valid()
    {
      this.projects := projects;
      search := "";
      selects := NoSelects;
      currentPage := 1;
      new;
      NoFiltersKeepAll(projects);
    }

    /** Typing in the search box: the text changes and the first page is shown. */
    method SetSearch(text: string)
      modifies this
      ensures search == text && selects == old(selects) && currentPage == 1 && Valid()
    {
      search := text;
      currentPage := 1;
    }

    /** Choosing a value in one select: only that select changes, and the first page is shown. */
    method SetSelect(kind: SelectKind, value: string)
      modifies this
      ensures search == old(search) && currentPage == 1 && Valid()
      ensures selects == match kind
        case RegionSelect => old(selects).(region := value)
        case ZonaSelect => old(selects).(zona := value)
        case StatusSelect => old(selects).(status := value)
        case TypeSelect => old(selects).(propertyType := value)
    {
      currentPage := 1;
      match kind
      case RegionSelect => selects := selects.(region := value);
      case ZonaSelect => selects := selects.(zona := value);
      case StatusSelect => selects := selects.(status := value);
      case TypeSelect => selects := selects.(propertyType := value);
    }

    /** "Anterior": disabled on page 1, otherwise `Math.max(prev - 1, 1)`. */
    method Previous()
      requires Valid()
      modifies this
      ensures search == old(search) && selects == old(selects) && Valid()
      ensures currentPage == if old(currentPage) == 1 then 1 else old(currentPage) - 1
    {
      if currentPage != 1 {
        currentPage := MaxInt(currentPage - 1, 1);
      }
    }

    /** "Siguiente": disabled on the last page, otherwise `Math.min(prev + 1, totalPages)`. */
    method Next()
      requires Valid()
      modifies this
      ensures search == old(search) && selects == old(selects) && Valid()
      ensures currentPage == if old(currentPage) >= Pages() then old(currentPage) else old(currentPage) + 1
    {
      var total := TotalPages(|Visible()|);
      if currentPage < total {
        currentPage := MinNat(currentPage + 1, total);
      }
    }
  }

  /** In a valid state the page on screen is empty only when nothing matches. */
  lemma PageShownWhenAny(t: TableState)
    requires t.Valid()
    ensures t.Page() == [] <==> t.Visible() == []
  {
    PageSliceItems(t.Visible(), t.currentPage);
    TotalPagesCeil(|t.Visible()|);
  }
}
