/**
 * The planet list of src/pages/landing/Landing.tsx. Two fetch hooks run side
 * by side, one for the current page and one for the debounced search text;
 * `isSearching` selects which of them the view shows, and the search effect
 * switches modes when the debounced text changes.
 */
module Landing {
  import opened Optional
  import Text
  import opened FetchHook

  datatype Planet = Planet(
    name: string, rotationPeriod: string, orbitalPeriod: string,
    climate: string, terrain: string, url: string)

  /** A listing response; either field may be missing from the payload. */
  datatype PlanetPage = PlanetPage(count: Option<nat>, results: Option<seq<Planet>>)

  const PageSize: nat := 10
  const PagePrefix := "/planets/?page="
  const SearchPrefix := "/planets/?search="
  const DetailPrefix := "/products/"

  /** `Math.ceil(count / 10)`: the fewest pages of ten that hold `count` items. */
  function PageCount(count: nat): (n: nat)
    ensures count == 0 <==> n == 0
    ensures count > 0 ==> (n - 1) * PageSize < count <= n * PageSize
  {
    (count + PageSize - 1) / PageSize
  }

  lemma PageCountOf95()
    ensures PageCount(95) == 10
  {
  }

  /** `data?.count || 0`: the page's count when there is one, 0 otherwise. */
  function TotalCount(d: Option<PlanetPage>): (n: nat)
    ensures d.Some? && d.value.count.Some? ==> n == d.value.count.value
    ensures n > 0 ==> d.Some? && d.value.count == Some(n)
  {
    if d.Some? && d.value.count.Some? then d.value.count.value else 0
  }

  /** `data?.results || []`: the page's planets when it has a list, none otherwise. */
  function Results(d: Option<PlanetPage>): (r: seq<Planet>)
    ensures d.Some? && d.value.results.Some? ==> r == d.value.results.value
    ensures r != [] ==> d.Some? && d.value.results == Some(r)
  {
    if d.Some? && d.value.results.Some? then d.value.results.value else []
  }

  /** What the page shows. */
  datatype ListView = ListView(
    loading: bool, error: string, planets: seq<Planet>,
    totalPages: nat, showPagination: bool)

  /**
   * The data source selection: loading, error and the items come from the
   * search state when searching and from the paginated state otherwise; a
   * search is shown as one page, and the pager appears only when browsing
   * more than one page.
   */
  function SelectView(isSearching: bool, paginated: FetchState<PlanetPage>, search: FetchState<PlanetPage>): (v: ListView)
    ensures isSearching ==> v.loading == search.loading && v.error == search.error && v.planets == Results(search.data)
    ensures !isSearching ==> v.loading == paginated.loading && v.error == paginated.error && v.planets == Results(paginated.data)
    ensures v.totalPages == if isSearching then 1 else PageCount(TotalCount(paginated.data))
    ensures v.showPagination <==> !isSearching && v.totalPages > 1
  {
    var active := if isSearching then search else paginated;
    var totalPages := if isSearching then 1 else PageCount(TotalCount(paginated.data));
    ListView(active.loading, active.error, Results(active.data), totalPages, !isSearching && totalPages > 1)
  }

  /** The pager is shown exactly when browsing and the listing counts more than one page of items. */
  lemma {:induction false} PagerShownIff(isSearching: bool, paginated: FetchState<PlanetPage>, search: FetchState<PlanetPage>)
    ensures SelectView(isSearching, paginated, search).showPagination
        <==> !isSearching && TotalCount(paginated.data) > PageSize
  {
    var count := TotalCount(paginated.data);
    var n := PageCount(count);
    if count > PageSize {
      assert n > 1;
    }
  }

  /** The address of the listing for `page`: the page number can be read back from behind the prefix. */
  function PageUrl(page: nat): (u: string)
    ensures |u| > |PagePrefix| && u[..|PagePrefix|] == PagePrefix
    ensures Text.IsDigits(u[|PagePrefix|..]) && Text.ParseNat(u[|PagePrefix|..]) == page
  {
    Text.NumberAfterPrefix(PagePrefix, page);
    PagePrefix + Text.NatToString(page)
  }

  /** The search address, or "" (no fetch) when the text is empty. */
  function SearchUrl(text: string): (u: string)
    ensures u == "" <==> text == ""
    ensures text != "" ==> u == SearchPrefix + text
  {
    if |text| > 0 then SearchPrefix + text else ""
  }

  /** Different pages have different addresses, so a page change always refetches. */
  lemma PageUrlInjective(a: nat, b: nat)
    ensures PageUrl(a) == PageUrl(b) <==> a == b
  {
    Text.PrefixCancel(PagePrefix, Text.NatToString(a), Text.NatToString(b));
    Text.NatToStringInjective(a, b);
  }

  /** Different search texts have different addresses. */
  lemma SearchUrlInjective(a: string, b: string)
    ensures SearchUrl(a) == SearchUrl(b) <==> a == b
  {
    Text.PrefixCancel(SearchPrefix, a, b);
  }

  /**
   * `extractPlanetId`: the last non-empty '/'-separated piece of the
   * address; there is none (JavaScript's `undefined`) when the address is
   * made of slashes only.
   */
  function ExtractPlanetId(url: string): (id: Option<string>)
    ensures id.Some? ==> id.value != "" && '/' !in id.value
    ensures id.None? <==> forall i | 0 <= i < |url| :: url[i] == '/'
  {
    Text.DropEmptySplitIsEmpty(url, '/');
    Text.SplitPiecesFree(url, '/');
    var parts := Text.DropEmpty(Text.Split(url, '/'));
    if |parts| == 0 then None
    else
      var last := parts[|parts| - 1];
      assert last in parts;
      Some(last)
  }

  /** A trailing slash does not change the id. */
  lemma {:induction false} ExtractIgnoresTrailingSlash(url: string)
    ensures ExtractPlanetId(url + "/") == ExtractPlanetId(url)
  {
    Text.SplitTrailingSep(url, '/');
    Text.DropEmptyAppend(Text.Split(url, '/'), [[]]);
    assert Text.DropEmpty([[]]) == [];
    assert Text.DropEmpty(Text.Split(url, '/')) + [] == Text.DropEmpty(Text.Split(url, '/'));
  }

  /** The id is recovered from a resource address of the form `<base>/<id>/`. */
  lemma {:induction false} ExtractFromResourceUrl(base: string, id: string)
    requires id != "" && '/' !in id
    ensures ExtractPlanetId(base + "/" + id + "/") == Some(id)
  {
    var u := base + "/" + id;
    assert u == base + ['/'] + id;
    Text.SplitAround(base, id, '/');
    Text.SplitWithoutSep(id, '/');
    Text.DropEmptyAppend(Text.Split(base, '/'), [id]);
    assert Text.DropEmpty([id]) == [id] by {
      assert [id][1..] == [];
    }
    ExtractIgnoresTrailingSlash(u);
  }

  /**
   * The route a row's click navigates to: one path segment under the
   * detail prefix, the planet's id when there is one ("undefined" when not).
   */
  function DetailPath(url: string): (p: string)
    ensures |p| > |DetailPrefix| && p[..|DetailPrefix|] == DetailPrefix && '/' !in p[|DetailPrefix|..]
    ensures ExtractPlanetId(url).Some? ==> p[|DetailPrefix|..] == ExtractPlanetId(url).value
    ensures ExtractPlanetId(url).None? ==> p[|DetailPrefix|..] == "undefined"
  {
    DetailPrefix + GetOr(ExtractPlanetId(url), "undefined")
  }

  lemma DetailPathOfResourceUrl(base: string, id: string)
    requires id != "" && '/' !in id
    ensures DetailPath(base + "/" + id + "/") == DetailPrefix + id
  {
    ExtractFromResourceUrl(base, id);
  }

  /** The list page: its two hooks and the state the search effect updates. */
  class ListPage {
    var page: nat
    var debouncedSearch: string
    var isSearching: bool
    const paginated: Hook<PlanetPage>
    const search: Hook<PlanetPage>

    /** Each hook is bound to the address its inputs give, and the mode follows the debounced text. */
    ghost predicate Valid()
      reads this, paginated, search
    {
      && paginated != search
      && paginated.url == PageUrl(page)
      && search.url == SearchUrl(debouncedSearch)
      && isSearching == (debouncedSearch != "")
    }

    function View(): ListView
      reads this, paginated, search
    {
      SelectView(isSearching, paginated.State(), search.State())
    }

    /** Mounting: page 1, no search, and the first page fetched. */
    constructor (firstPage: Outcome<PlanetPage>)
      ensures Valid() && fresh(paginated) && fresh(search)
      ensures page == 1 && debouncedSearch == "" && !isSearching
      ensures paginated.State() == Fetched(Initial(), firstPage)
      ensures search.State() == Initial()
    {
      page := 1;
      debouncedSearch := "";
      isSearching := false;
      paginated := new Hook(PageUrl(1), firstPage);
      search := new Hook.Idle();
    }

    /** `setPage(p)` from the pager: the listing is refetched when the page differs. */
    method ChangePage(p: nat, o: Outcome<PlanetPage>)
      requires Valid()
      modifies this, paginated
      ensures Valid()
      ensures page == p && debouncedSearch == old(debouncedSearch) && isSearching == old(isSearching)
      ensures paginated.State() == if p == old(page) then old(paginated.State()) else Fetched(old(paginated.State()), o)
      ensures search.State() == old(search.State())
    {
      PageUrlInjective(p, page);
      page := p;
      paginated.SetUrl(PageUrl(p), o);
    }

    /**
     * A new debounced search text. A non-empty one turns search mode on, and
     * the search hook then runs two fetches at once: the one its `[url]`
     * effect starts because the address changed, and `refetchSearch`. Both
     * start before either settles; `early` is the outcome that settles
     * first and `late` the one that settles last, whichever request each
     * belongs to. An empty text turns search mode off and resets the page
     * to 1, which refetches the listing (`pageOne`) when the page was
     * another.
     */
    method ChangeSearch(text: string, early: Outcome<PlanetPage>, late: Outcome<PlanetPage>, pageOne: Outcome<PlanetPage>)
      requires Valid()
      modifies this, paginated, search
      ensures Valid() && debouncedSearch == text
      ensures text == old(debouncedSearch) ==>
        page == old(page) && isSearching == old(isSearching)
        && paginated.State() == old(paginated.State()) && search.State() == old(search.State())
      ensures text != old(debouncedSearch) && text != "" ==>
        isSearching && page == old(page)
        && search.State() == Overlapped(old(search.State()), early, late)
        && paginated.State() == old(paginated.State())
      ensures text != old(debouncedSearch) && text == "" ==>
        !isSearching && page == 1
        && search.State() == old(search.State())
        && paginated.State() == if old(page) == 1 then old(paginated.State()) else Fetched(old(paginated.State()), pageOne)
    {
      if text == debouncedSearch {
        return;
      }
      SearchUrlInjective(text, debouncedSearch);
      debouncedSearch := text;
      var fetches := search.Rebind(SearchUrl(text));
      if |text| > 0 {
        isSearching := true;
        if fetches {
          search.Start();
        }
        search.Start();
        search.Settle(early);
        search.Settle(late);
      } else {
        isSearching := false;
        ChangePage(1, pageOne);
      }
    }

    /** After a change of search text that is not "", the view shows the search: settled, and without a pager. */
    lemma SearchViewSettled()
      requires Valid() && debouncedSearch != ""
      requires !search.loading
      ensures View().planets == Results(search.data)
      ensures !View().loading && !View().showPagination && View().totalPages == 1
    {
    }
  }
}
