/** The candidate's applications page: filtering by status tab, the count on
    every tab, the progress timeline of an application, and which of its
    views the page shows. */
module Applications {
  import opened Optional
  import opened Text
  import opened Session

  datatype JobSummary = JobSummary(id: string, title: string, companyName: string, location: string)

  /** An application as the server reports it; `status` is free text the
      page lower-cases before comparing. Dates are times in milliseconds. */
  datatype Application = Application(id: string, job: JobSummary, status: string, appliedDate: int, lastUpdated: int)

  const AllFilter := "all"

  /** The tab keys, in display order. */
  const TabKeys: seq<string> := ["all", "applied", "under review", "shortlisted", "rejected"]

  /** The predicate both `filteredApplications` and `getStatusCount` filter by. */
  predicate Matches(a: Application, filter: string) {
    filter == AllFilter || ToLower(a.status) == filter
  }

  /** `filteredApplications`: the applications whose lower-cased status is the
      filter, or all of them for 'all'. */
  function Filtered(apps: seq<Application>, filter: string): (r: seq<Application>)
    ensures filter == AllFilter ==> r == apps
    ensures forall a :: a in r <==> a in apps && Matches(a, filter)
    ensures multiset(r) <= multiset(apps)
    ensures |r| <= |apps|
  {
    if apps == [] then []
    else
      var rest := Filtered(apps[1..], filter);
      assert apps == [apps[0]] + apps[1..];
      if Matches(apps[0], filter) then [apps[0]] + rest else rest
  }

  /** Filtering distributes over concatenation: the kept applications stay
      in their original order. */
  lemma {:induction false} FilteredAppend(a: seq<Application>, b: seq<Application>, filter: string)
    ensures Filtered(a + b, filter) == Filtered(a, filter) + Filtered(b, filter)
  {
    if a == [] {
      assert a + b == b;
    } else {
      assert (a + b)[1..] == a[1..] + b;
      FilteredAppend(a[1..], b, filter);
    }
  }

  /** `getStatusCount(status)`. */
  function StatusCount(apps: seq<Application>, status: string): (n: nat)
    ensures n <= |apps|
    ensures n == 0 <==> forall a :: a in apps ==> !Matches(a, status)
  {
    if apps == [] then 0
    else (if Matches(apps[0], status) then 1 else 0) + StatusCount(apps[1..], status)
  }

  /** A tab's count is the length of the list that tab shows, and 'all'
      counts every application. */
  lemma {:induction false} StatusCountIsFilteredLength(apps: seq<Application>, status: string)
    ensures StatusCount(apps, status) == |Filtered(apps, status)|
    ensures StatusCount(apps, AllFilter) == |apps|
  {
    if apps != [] {
      StatusCountIsFilteredLength(apps[1..], status);
    }
  }

  /** The four status tabs never count an application twice, so together they
      count at most all applications. */
  lemma {:induction false} StatusTabsWithinTotal(apps: seq<Application>)
    ensures StatusCount(apps, "applied") + StatusCount(apps, "under review")
            + StatusCount(apps, "shortlisted") + StatusCount(apps, "rejected") <= |apps|
  {
    if apps != [] {
      StatusTabsWithinTotal(apps[1..]);
    }
  }

  // ---------------------------------------------------------------- one application

  /** The four dots of the progress timeline, lit or grey. */
  datatype Timeline = Timeline(applied: bool, underReview: bool, interview: bool, hired: bool)

  /** The timeline for a status: later stages are lit only for later
      statuses, so the lit dots always form a prefix. */
  function TimelineOf(status: string): (t: Timeline)
    ensures t.applied
    ensures t.hired ==> t.interview
    ensures t.interview ==> t.underReview
    ensures t.hired <==> ToLower(status) == "hired"
    ensures t.interview <==> ToLower(status) in {"shortlisted", "hired"}
    ensures t.underReview <==> ToLower(status) in {"under review", "shortlisted", "hired"}
  {
    var s := ToLower(status);
    Timeline(true, s in ["under review", "shortlisted", "hired"], s in ["shortlisted", "hired"], s == "hired")
  }

  /** The "Schedule Interview" button compares the status exactly, without
      lower-casing: it shows only for the status "shortlisted" itself.
      Whenever it shows, the timeline has the interview dot (and every dot
      before it) lit and the hired dot grey. */
  function ShowsScheduleInterview(a: Application): (shown: bool)
    ensures shown <==> a.status == "shortlisted"
    ensures shown ==> TimelineOf(a.status) == Timeline(true, true, true, false)
  {
    LowerOfLowercaseShortlisted();
    assert "shortlisted" != "hired" by { assert "shortlisted"[0] != "hired"[0]; }
    a.status == "shortlisted"
  }

  lemma LowerOfLowercaseShortlisted()
    ensures ToLower("shortlisted") == "shortlisted"
  {
    ToLowerKeepsLowercase("shortlisted");
  }

  /** The converse fails for a status in another case: "Shortlisted" lights the
      interview dot but shows no button. */
  lemma ScheduleIsCaseSensitive(a: Application)
    requires a.status == "Shortlisted"
    ensures TimelineOf(a.status).interview && !ShowsScheduleInterview(a)
  {
    LowerShortlisted();
    assert "Shortlisted" != "shortlisted" by { assert "Shortlisted"[0] != "shortlisted"[0]; }
  }

  lemma LowerShortlisted()
    ensures ToLower("Shortlisted") == "shortlisted"
  {
    var tail := "hortlisted";
    assert "Shortlisted" == ['S'] + tail;
    assert "shortlisted" == ['s'] + tail;
    ToLowerKeepsLowercase(tail);
    assert ToLower(['S'] + tail) == [LowerChar('S')] + ToLower(tail) by {
      assert (['S'] + tail)[1..] == tail;
    }
  }

  // ---------------------------------------------------------------- the page

  datatype View = AccessDenied | Loading | ApplicationList(items: seq<Application>) | EmptyState(title: string, message: string)

  /** The empty-state panel: a first-time heading and prompt under "all",
      and a heading and text naming the status under any other tab. */
  function EmptyStateFor(filter: string): (v: View)
    ensures v.EmptyState?
    ensures filter == AllFilter ==>
              v.title == "No applications yet" && v.message == "Start applying to jobs to see your applications here"
    ensures filter != AllFilter ==>
              v.title == "No " + filter + " applications"
              && v.message == "You don't have any " + filter + " applications at the moment"
  {
    if filter == AllFilter then
      EmptyState("No applications yet", "Start applying to jobs to see your applications here")
    else
      EmptyState("No " + filter + " applications", "You don't have any " + filter + " applications at the moment")
  }

  /** What the page renders: the candidate gate comes first, then the loading
      skeletons, then the filtered list or the empty state. */
  function ViewOf(user: Option<User>, loading: bool, apps: seq<Application>, filter: string): (v: View)
    ensures v == AccessDenied <==> !IsCandidate(user)
    ensures v == Loading <==> IsCandidate(user) && loading
    ensures v.ApplicationList? ==> v.items == Filtered(apps, filter) && v.items != []
    ensures v.EmptyState? <==> IsCandidate(user) && !loading && Filtered(apps, filter) == []
    ensures v.EmptyState? ==> v == EmptyStateFor(filter)
  {
    if !IsCandidate(user) then AccessDenied
    else if loading then Loading
    else
      var items := Filtered(apps, filter);
      if items != [] then ApplicationList(items) else EmptyStateFor(filter)
  }
}
