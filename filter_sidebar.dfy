/** The filter sidebar of the job search page: a local copy of the filter
    object, the per-key change handler that also notifies the page, the
    skill and job-type toggles, and the "N filters active" note. */
module FilterSidebar {
  import opened Optional
  import opened FilterValues
  import opened Seqs
  import JobSearch

  // ---------------------------------------------------------------- toggles

  /** `handleSkillToggle`'s new list: a skill that is there is filtered out,
      one that is not is appended. Membership flips for `x` and for nothing
      else. */
  function Toggle(s: seq<string>, x: string): (r: seq<string>)
    ensures x in r <==> x !in s
    ensures forall y :: y != x ==> (y in r <==> y in s)
    ensures x !in s ==> r == s + [x]
    ensures x in s ==> r == RemoveAll(s, x)
    ensures NoDup(s) ==> NoDup(r)
  {
    if x in s then
      assert NoDup(s) ==> NoDup(RemoveAll(s, x)) by {
        if NoDup(s) { RemoveAllNoDup(s, x); }
      }
      RemoveAll(s, x)
    else
      assert NoDup(s) ==> NoDup(s + [x]) by {
        if NoDup(s) { NoDupAppend(s, x); }
      }
      s + [x]
  }

  /** Toggling an absent skill twice gives back exactly the list it started from. */
  lemma ToggleAbsentTwice(s: seq<string>, x: string)
    requires x !in s
    ensures Toggle(Toggle(s, x), x) == s
  {
    RemoveAllAppend(s, [x], x);
    assert RemoveAll([x], x) == [];
    assert s + [] == s;
  }

  /** Toggling a present skill twice keeps the same members but moves the
      skill to the end. */
  lemma TogglePresentTwice(s: seq<string>, x: string)
    requires x in s
    ensures Toggle(Toggle(s, x), x) == RemoveAll(s, x) + [x]
    ensures forall y :: y in Toggle(Toggle(s, x), x) <==> y in s
  {
  }

  /** So toggling twice is not the identity on the list itself. */
  lemma ToggleTwiceReorders()
    ensures Toggle(Toggle(["React", "Git"], "React"), "React") == ["Git", "React"]
  {
    assert "React" in ["React", "Git"];
    assert RemoveAll(["React", "Git"], "React") == ["Git"] by {
      assert ["React", "Git"][1..] == ["Git"];
      assert ["Git"][1..] == [];
    }
  }

  /** The job-type checkbox handler: checking appends the type, unchecking
      removes every occurrence; a missing list counts as empty. */
  function CheckedJobTypes(current: Value, jobType: string, checked: bool): (r: seq<string>)
    requires ArrayLike(current)
    ensures checked ==> r == ItemsOrEmpty(current) + [jobType]
    ensures !checked ==> jobType !in r && forall y :: y != jobType ==> (y in r <==> y in ItemsOrEmpty(current))
  {
    var types := ItemsOrEmpty(current);
    if checked then types + [jobType] else RemoveAll(types, jobType)
  }

  /** The box is drawn checked exactly when the type is in the list, so the
      change event carries the opposite state and the handler toggles. */
  lemma CheckboxIsToggle(current: Value, jobType: string, checked: bool)
    requires ArrayLike(current)
    requires checked == (jobType !in ItemsOrEmpty(current))
    ensures CheckedJobTypes(current, jobType, checked) == Toggle(ItemsOrEmpty(current), jobType)
  {
  }

  // ---------------------------------------------------------------- active filters

  /** `Object.values(filters).filter(v => v && v.length > 0).length` */
  function ActiveFilterCount(f: Filters): (n: nat)
    ensures n <= |f|
    ensures n == 0 <==> forall k :: k in f ==> !HasLength(f[k])
  {
    var active := set k | k in f && HasLength(f[k]);
    assert active <= f.Keys;
    SubsetCard(active, f.Keys);
    assert (exists k :: k in f && HasLength(f[k])) ==> |active| > 0 by {
      if exists k :: k in f && HasLength(f[k]) {
        var k :| k in f && HasLength(f[k]);
        assert k in active;
      }
    }
    |active|
  }

  lemma SubsetCard(a: set<string>, b: set<string>)
    requires a <= b
    ensures |a| <= |b|
  {
    if a != {} {
      var x :| x in a;
      SubsetCard(a - {x}, b - {x});
    }
  }

  /** The note under the sidebar, shown whenever the object has any key. */
  function ActiveFiltersNote(f: Filters): (note: Option<nat>)
    ensures note.Some? <==> |f| > 0
    ensures note.Some? ==> note.value == ActiveFilterCount(f)
  {
    if |f| > 0 then Some(ActiveFilterCount(f)) else None
  }

  /** On the page's own filter object, `handleClearFilters` leaves at most the
      keyword and the location active. The sidebar's note does not show this
      count: it counts the sidebar's copy, which a clear does not reach (see
      `StaleNoteAfterClear`). */
  lemma {:induction false} ClearedFiltersActiveCount(f: Filters)
    ensures ActiveFilterCount(JobSearch.ClearedFilters(f))
            == (if HasLength(Get(f, "keyword")) then 1 else 0)
             + (if HasLength(Get(f, "location")) then 1 else 0)
  {
    var c := JobSearch.ClearedFilters(f);
    var active := set k | k in c && HasLength(c[k]);
    var kw, loc := HasLength(Get(f, "keyword")), HasLength(Get(f, "location"));
    assert forall k :: k in c && k != "keyword" && k != "location" ==> !HasLength(c[k]) by {
      assert c.Keys == JobSearch.FilterKeys;
      assert JobSearch.FacetsCleared(c);
    }
    assert "keyword" != "location" by { assert "keyword"[0] != "location"[0]; }
    if kw && loc {
      assert active == {"keyword", "location"};
    } else if kw {
      assert active == {"keyword"};
    } else if loc {
      assert active == {"location"};
    } else {
      assert active == {};
    }
  }

  /** A filter object whose only active key is `k` counts one active filter. */
  lemma OneActive(f: Filters, k: string)
    requires k in f && HasLength(f[k])
    requires forall j :: j in f && j != k ==> !HasLength(f[j])
    ensures ActiveFilterCount(f) == 1
  {
    var active := set j | j in f && HasLength(f[j]);
    assert active == {k};
  }

  // ---------------------------------------------------------------- the component

  class Sidebar {
    /** `localFilters`, a copy taken from the page's filters at mount. */
    var localFilters: Filters
    /** The filter objects handed to `onFiltersChange`, in order. */
    ghost var sent: seq<Filters>
    /** How often "Clear All" called `onClearFilters`. */
    ghost var clearRequests: nat

    constructor (filters: Filters)
      ensures localFilters == filters && sent == [] && clearRequests == 0
    {
      localFilters := filters;
      sent := [];
      clearRequests := 0;
    }

    /** `handleFilterChange(key, value)`: one key overwritten, and the same
        object stored locally and sent to the page. */
    method FilterChange(key: string, value: Value)
      modifies this
      ensures localFilters == old(localFilters)[key := value]
      ensures forall k :: k != key ==> Get(localFilters, k) == Get(old(localFilters), k)
      ensures sent == old(sent) + [localFilters] && clearRequests == old(clearRequests)
    {
      localFilters := localFilters[key := value];
      sent := sent + [localFilters];
    }

    /** `handleSkillToggle(skill)`. */
    method SkillToggle(skill: string)
      requires ArrayLike(Get(localFilters, "skills"))
      modifies this
      ensures localFilters
              == old(localFilters)["skills" := List(Toggle(ItemsOrEmpty(Get(old(localFilters), "skills")), skill))]
      ensures sent == old(sent) + [localFilters] && clearRequests == old(clearRequests)
    {
      var current := ItemsOrEmpty(Get(localFilters, "skills"));
      FilterChange("skills", List(Toggle(current, skill)));
    }

    /** The job-type checkbox's change handler. */
    method JobTypeChange(jobType: string, checked: bool)
      requires ArrayLike(Get(localFilters, "jobType"))
      modifies this
      ensures localFilters
              == old(localFilters)["jobType" := List(CheckedJobTypes(Get(old(localFilters), "jobType"), jobType, checked))]
      ensures sent == old(sent) + [localFilters] && clearRequests == old(clearRequests)
    {
      FilterChange("jobType", List(CheckedJobTypes(Get(localFilters, "jobType"), jobType, checked)));
    }

    /** The "Clear All" button: it only asks the page to clear. */
    method ClearAll()
      modifies this
      ensures localFilters == old(localFilters) && sent == old(sent)
      ensures clearRequests == old(clearRequests) + 1
    {
      clearRequests := clearRequests + 1;
    }
  }

  /** The sidebar's `localFilters` is copied from the page once, at mount,
      and never follows the page afterwards. Mounted on a fresh page, a
      sidebar that selected "React" keeps it after the page's "Clear Filters",
      and its next change of any other filter hands "React" back to the page. */
  method StaleCopyAfterClear() returns (afterClear: Value, afterNextChange: Value)
    ensures afterClear == List([])
    ensures afterNextChange == List(["React"])
  {
    var page := new JobSearch.JobSearchPage([]);
    var sidebar := new Sidebar(page.filters);
    sidebar.SkillToggle("React");
    assert [] + ["React"] == ["React"];
    page.FiltersChange(sidebar.localFilters);
    page.ClearFilters();
    afterClear := Get(page.filters, "skills");
    sidebar.FilterChange("location", Str("New York"));
    page.FiltersChange(sidebar.localFilters);
    afterNextChange := Get(page.filters, "skills");
  }

  /** "Clear All" leaves the sidebar's note where it was. A sidebar on a fresh
      page that selected "React" still shows one active filter after the
      button and the page's clear, while the page's own filters have none. */
  method StaleNoteAfterClear() returns (sidebarNote: Option<nat>, pageActive: nat)
    ensures sidebarNote == Some(1)
    ensures pageActive == 0
  {
    var page := new JobSearch.JobSearchPage([]);
    var sidebar := new Sidebar(page.filters);
    sidebar.SkillToggle("React");
    assert [] + ["React"] == ["React"];
    page.FiltersChange(sidebar.localFilters);
    sidebar.ClearAll();
    page.ClearFilters();
    var local := sidebar.localFilters;
    assert "skills" in local && local["skills"] == List(["React"]);
    assert forall j :: j in local && j != "skills" ==> !HasLength(local[j]);
    OneActive(local, "skills");
    sidebarNote := ActiveFiltersNote(local);
    ClearedFiltersActiveCount(JobSearch.InitialFilters(None, None)["skills" := List(["React"])]);
    pageActive := ActiveFilterCount(page.filters);
  }
}
