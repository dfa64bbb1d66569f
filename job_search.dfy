/** The job search page: its filter object, the request parameters it
    derives from that object, the address-bar parameters it writes on a
    search, and the results area. */
module JobSearch {
  import opened Optional
  import opened FilterValues
  import opened Seqs
  import JobCard

  /** The keys of the filter object the page creates. */
  const FilterKeys: set<string> :=
    {"keyword", "location", "skills", "experienceLevel", "jobType", "salaryMin", "salaryMax"}

  /** Every facet at its empty value: no skills, no job types, and a blank
      experience level and salary range. */
  predicate FacetsCleared(f: Filters) {
    && Get(f, "skills") == List([])
    && Get(f, "jobType") == List([])
    && Get(f, "experienceLevel") == Str("")
    && Get(f, "salaryMin") == Str("")
    && Get(f, "salaryMax") == Str("")
  }

  function WithFacetsCleared(keyword: Value, location: Value): Filters {
    map[
      "keyword" := keyword, "location" := location,
      "skills" := List([]), "experienceLevel" := Str(""), "jobType" := List([]),
      "salaryMin" := Str(""), "salaryMax" := Str("")]
  }

  // ---------------------------------------------------------------- filter state

  /** The filter object at mount: keyword and location read from the address
      bar (`searchParams.get(key) || ''`), every facet empty. */
  function InitialFilters(urlKeyword: Option<string>, urlLocation: Option<string>): (f: Filters)
    ensures f.Keys == FilterKeys
    ensures f["keyword"] == Str(urlKeyword.GetOr(""))
    ensures f["location"] == Str(urlLocation.GetOr(""))
    ensures FacetsCleared(f)
  {
    WithFacetsCleared(Str(urlKeyword.GetOr("")), Str(urlLocation.GetOr("")))
  }

  /** `handleClearFilters`: keyword and location carried over as they are,
      every facet reset, and nothing else kept. */
  function ClearedFilters(f: Filters): (r: Filters)
    ensures r.Keys == FilterKeys
    ensures r["keyword"] == Get(f, "keyword") && r["location"] == Get(f, "location")
    ensures FacetsCleared(r)
  {
    WithFacetsCleared(Get(f, "keyword"), Get(f, "location"))
  }

  /** Clearing twice is clearing once. */
  lemma ClearIdempotent(f: Filters)
    ensures ClearedFilters(ClearedFilters(f)) == ClearedFilters(f)
  {
  }

  /** The filters a page starts with are already cleared. */
  lemma InitialIsCleared(urlKeyword: Option<string>, urlLocation: Option<string>)
    ensures ClearedFilters(InitialFilters(urlKeyword, urlLocation)) == InitialFilters(urlKeyword, urlLocation)
  {
  }

  /** The filter object after a search form submission: the form's keyword and
      location replace the old ones, every other key is kept. */
  function SearchedFilters(f: Filters, keyword: string, location: string): (r: Filters)
    ensures r.Keys == f.Keys + {"keyword", "location"}
    ensures r["keyword"] == Str(keyword) && r["location"] == Str(location)
    ensures forall k :: k in f && k != "keyword" && k != "location" ==> r[k] == f[k]
  {
    f["keyword" := Str(keyword)]["location" := Str(location)]
  }

  // ---------------------------------------------------------------- address bar

  /** Query parameters of the address, in order. */
  type UrlParams = seq<(string, string)>

  /** The parameters `handleSearch` writes: keyword, then location, each only
      when non-empty. */
  function SearchUrlParams(keyword: string, location: string): (p: UrlParams)
    ensures |p| <= 2
    ensures forall e :: e in p ==> e == ("keyword", keyword) || e == ("location", location)
    ensures ("keyword", keyword) in p <==> keyword != ""
    ensures ("location", location) in p <==> location != ""
  {
    (if keyword != "" then [("keyword", keyword)] else [])
      + (if location != "" then [("location", location)] else [])
  }

  /** `searchParams.get(key)`: the first value under `key`, or null. */
  function UrlGet(p: UrlParams, key: string): (r: Option<string>)
    ensures r.Some? <==> exists v :: (key, v) in p
    ensures r.Some? ==> (key, r.value) in p
  {
    if p == [] then None
    else if p[0].0 == key then
      assert (key, p[0].1) == p[0];
      Some(p[0].1)
    else
      var r := UrlGet(p[1..], key);
      assert forall e :: e in p <==> e == p[0] || e in p[1..] by { assert p == [p[0]] + p[1..]; }
      r
  }

  /** Loading the address a search wrote gives back the searched keyword and
      location, with every facet cleared. */
  lemma {:induction false} SearchUrlRoundTrip(f: Filters, keyword: string, location: string)
    ensures var p := SearchUrlParams(keyword, location);
            InitialFilters(UrlGet(p, "keyword"), UrlGet(p, "location"))
              == ClearedFilters(SearchedFilters(f, keyword, location))
  {
    var p := SearchUrlParams(keyword, location);
    if keyword != "" {
      assert p[0] == ("keyword", keyword);
    }
    if location != "" {
      assert p[|p| - 1] == ("location", location);
      assert UrlGet(p, "location") == Some(location) by {
        if keyword != "" { assert p[1..] == [("location", location)]; }
      }
    }
  }

  // ---------------------------------------------------------------- request parameters

  /** The first step of `fetchJobs`: the filter object with the two array
      facets joined by commas. `filters.skills.join` throws when either is
      not an array, and the page then falls back to its mock listings; that
      is `None` here. */
  function JoinedParams(f: Filters): (r: Option<Filters>)
    ensures r.Some? <==> Get(f, "skills").List? && Get(f, "jobType").List?
    ensures r.Some? ==>
              && r.value.Keys == f.Keys + {"skills", "jobType"}
              && r.value["skills"] == Str(Join(Get(f, "skills").items, ','))
              && r.value["jobType"] == Str(Join(Get(f, "jobType").items, ','))
              && forall k :: k in f && k != "skills" && k != "jobType" ==> r.value[k] == f[k]
  {
    var skills, types := Get(f, "skills"), Get(f, "jobType");
    if skills.List? && types.List? then
      Some(f["skills" := Str(Join(skills.items, ','))]["jobType" := Str(Join(types.items, ','))])
    else None
  }

  /** The parameters with every falsy value taken out. */
  function Stripped(p: Filters): (r: Filters)
    ensures forall k :: k in r <==> k in p && Truthy(p[k])
    ensures forall k :: k in r ==> r[k] == p[k] && Truthy(r[k])
  {
    map k | k in p && Truthy(p[k]) :: p[k]
  }

  /** The "remove empty values" loop of `fetchJobs`: it walks the keys and
      deletes each one whose value is falsy. */
  method StripEmpty(params: Filters) returns (r: Filters)
    ensures forall k :: k in r <==> k in params && Truthy(params[k])
    ensures forall k :: k in r ==> r[k] == params[k]
    ensures r == Stripped(params)
  {
    r := params;
    var keys := params.Keys;
    while keys != {}
      invariant keys <= params.Keys
      invariant forall k :: k in r <==> k in params && (k in keys || Truthy(params[k]))
      invariant forall k :: k in r ==> r[k] == params[k]
      decreases keys
    {
      var k :| k in keys;
      if !Truthy(r[k]) {
        r := r - {k};
      }
      keys := keys - {k};
    }
  }

  /** The parameters `fetchJobs` sends for a filter object, or `None` when
      building them throws. */
  function RequestParams(f: Filters): (r: Option<Filters>)
    ensures r.Some? <==> Get(f, "skills").List? && Get(f, "jobType").List?
    ensures r.Some? ==> r.value.Keys <= f.Keys + {"skills", "jobType"}
    ensures r.Some? ==> forall k :: k in r.value ==> Truthy(r.value[k])
  {
    match JoinedParams(f)
    case None => None
    case Some(p) => Some(Stripped(p))
  }

  /** No parameter is sent with a falsy value, and every key whose joined
      value is truthy is sent with that value. */
  lemma RequestHasNoEmptyValues(f: Filters)
    requires JoinedParams(f).Some?
    ensures var p, r := JoinedParams(f).value, RequestParams(f).value;
            && (forall k :: k in r ==> Truthy(r[k]))
            && (forall k :: k in p && Truthy(p[k]) ==> k in r && r[k] == p[k])
            && r.Keys <= p.Keys
  {
  }

  /** An array facet is sent, as its comma-joined elements, exactly when that
      string is non-empty, which is when the array is neither `[]` nor `['']`. */
  lemma FacetSentUnlessEmpty(f: Filters, facet: string)
    requires facet == "skills" || facet == "jobType"
    requires JoinedParams(f).Some?
    ensures var items, r := Get(f, facet).items, RequestParams(f).value;
            && (facet in r <==> !(items == [] || items == [""]))
            && (facet in r ==> r[facet] == Str(Join(items, ',')))
  {
    JoinIsEmpty(Get(f, facet).items, ',');
  }

  /** A salary bound of "0" typed into the sidebar is a non-empty string and
      therefore sent. */
  lemma ZeroSalaryBoundSent(f: Filters, bound: string)
    requires bound == "salaryMin" || bound == "salaryMax"
    requires JoinedParams(f).Some? && Get(f, bound) == Str("0")
    ensures bound in RequestParams(f).value && RequestParams(f).value[bound] == Str("0")
  {
  }

  /** After clearing, only a non-empty keyword and a non-empty location are
      sent. */
  lemma ClearedRequest(f: Filters)
    ensures RequestParams(ClearedFilters(f)).Some?
    ensures var r := RequestParams(ClearedFilters(f)).value;
            && r.Keys <= {"keyword", "location"}
            && ("keyword" in r <==> Truthy(Get(f, "keyword")))
            && ("location" in r <==> Truthy(Get(f, "location")))
  {
    var c := ClearedFilters(f);
    JoinIsEmpty([], ',');
    assert JoinedParams(c).value["skills"] == Str("");
    assert JoinedParams(c).value["jobType"] == Str("");
  }

  // ---------------------------------------------------------------- the page

  /** `jobsAPI.getJobs(params)` as the page sees it: a body whose `jobs` may
      be missing, or a failure. */
  datatype JobsResponse = JobsOk(jobs: Option<seq<JobCard.Job>>) | JobsFailed

  /** The listings on display: the server's, or the page's own mock set. */
  datatype Listing = Results(jobs: seq<JobCard.Job>) | MockJobs

  /** `response.data.jobs || mockJobs`, and the mock set on failure. */
  function ListingFor(response: JobsResponse): (l: Listing)
    ensures l.Results? <==> response.JobsOk? && response.jobs.Some?
    ensures l.Results? ==> l.jobs == response.jobs.value
  {
    match response
    case JobsOk(Some(jobs)) => Results(jobs)
    case _ => MockJobs
  }

  /** The results area: skeletons while loading, the "No jobs found" panel
      (with its Clear Filters button) for an empty result, the cards otherwise. */
  datatype ResultsView = Skeletons | NoJobsFound | JobCards(listing: Listing)

  function ResultsViewOf(loading: bool, listing: Listing): (v: ResultsView)
    ensures loading <==> v == Skeletons
    ensures v == NoJobsFound <==> !loading && listing == Results([])
    ensures v.JobCards? ==> v.listing == listing
  {
    if loading then Skeletons
    else if listing == Results([]) then NoJobsFound
    else JobCards(listing)
  }

  class JobSearchPage {
    var filters: Filters
    var searchParams: UrlParams
    var listing: Listing
    var loading: bool
    /** The parameter objects passed to the jobs API, in order. */
    ghost var requests: seq<Filters>

    /** Mounting the page at an address with query parameters `url`. */
    constructor (url: UrlParams)
      ensures filters == InitialFilters(UrlGet(url, "keyword"), UrlGet(url, "location"))
      ensures searchParams == url && listing == Results([]) && loading && requests == []
    {
      filters := InitialFilters(UrlGet(url, "keyword"), UrlGet(url, "location"));
      searchParams := url;
      listing := Results([]);
      loading := true;
      requests := [];
    }

    /** `fetchJobs`, with the API's answer passed in. */
    method FetchJobs(response: JobsResponse)
      modifies this
      ensures filters == old(filters) && searchParams == old(searchParams) && !loading
      ensures RequestParams(filters).Some? ==>
                requests == old(requests) + [RequestParams(filters).value] && listing == ListingFor(response)
      ensures RequestParams(filters).None? ==> requests == old(requests) && listing == MockJobs
    {
      loading := true;
      var joined := JoinedParams(filters);
      if joined.None? {
        listing := MockJobs;
      } else {
        var params := StripEmpty(joined.value);
        requests := requests + [params];
        listing := ListingFor(response);
      }
      loading := false;
    }

    /** `handleSearch` with the submitted form's keyword and location. */
    method Search(keyword: string, location: string)
      modifies this
      ensures filters == SearchedFilters(old(filters), keyword, location)
      ensures searchParams == SearchUrlParams(keyword, location)
      ensures listing == old(listing) && loading == old(loading) && requests == old(requests)
    {
      filters := SearchedFilters(filters, keyword, location);
      searchParams := SearchUrlParams(keyword, location);
    }

    /** `handleFiltersChange`: the sidebar hands over a whole new filter object. */
    method FiltersChange(newFilters: Filters)
      modifies this
      ensures filters == newFilters
      ensures searchParams == old(searchParams) && listing == old(listing)
      ensures loading == old(loading) && requests == old(requests)
    {
      filters := newFilters;
    }

    /** `handleClearFilters`. */
    method ClearFilters()
      modifies this
      ensures filters == ClearedFilters(old(filters))
      ensures searchParams == old(searchParams) && listing == old(listing)
      ensures loading == old(loading) && requests == old(requests)
    {
      filters := ClearedFilters(filters);
    }
  }
}
