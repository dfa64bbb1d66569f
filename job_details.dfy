/** The job details page: loading one job with a built-in fallback, the
    apply flow and the apply control in the header. */
module JobDetails {
  import opened Optional
  import opened Session
  import opened JobCard

  /** A job as this page reads it; `hasApplied` is the server's flag, which
      may be missing. */
  datatype DetailedJob = DetailedJob(
    id: string,
    title: string,
    companyName: string,
    location: string,
    kind: string,
    experienceLevel: string,
    salaryMin: int,
    salaryMax: int,
    description: string,
    skills: seq<string>,
    benefits: seq<string>,
    postedDate: int,
    applicationDeadline: int,
    hasApplied: Option<bool>)

  /** The built-in job shown when the server has none: it carries the id of
      the route, was posted three days before `now` and closes thirty days
      after. */
  function MockJob(id: string, now: int): (j: DetailedJob)
    ensures j.id == id && j.hasApplied.None?
    ensures j.postedDate == now - 3 * MsPerDay && j.applicationDeadline == now + 30 * MsPerDay
    ensures j.postedDate < now < j.applicationDeadline
    ensures |j.skills| == 7 && |j.benefits| == 6
  {
    DetailedJob(id, "Senior Frontend Developer", "TechCorp Inc.", "San Francisco, CA", "Full-time", "Senior",
                120, 160, "We are looking for a skilled Senior Frontend Developer to join our growing team.",
                ["React", "JavaScript", "TypeScript", "CSS", "HTML", "Redux", "Git"],
                ["Competitive salary and equity package", "Health, dental, and vision insurance",
                 "Flexible work arrangements", "401(k) with company matching",
                 "Professional development budget", "Unlimited PTO policy"],
                now - 3 * MsPerDay, now + 30 * MsPerDay, None)
  }

  /** What `jobsAPI.getJob` came back with: a body (possibly empty) or an error. */
  datatype JobResponse = Fetched(data: Option<DetailedJob>) | FetchFailed

  /** The job after the fetch: the body, or the built-in job for an empty
      body and for an error. */
  function FetchedJob(id: string, now: int, response: JobResponse): (j: DetailedJob)
    ensures response.Fetched? && response.data.Some? ==> j == response.data.value
    ensures response.FetchFailed? || response.data.None? ==> j == MockJob(id, now)
  {
    if response.Fetched? && response.data.Some? then response.data.value else MockJob(id, now)
  }

  /** `hasApplied` after the fetch: the body's flag when it is set, false for
      an empty body, and the earlier value after an error. */
  function AppliedAfterFetch(before: bool, response: JobResponse): (applied: bool)
    ensures response.FetchFailed? ==> applied == before
    ensures response.Fetched? ==> (applied <==> response.data.Some? && response.data.value.hasApplied == Some(true))
  {
    match response
    case FetchFailed => before
    case Fetched(data) => if data.Some? then data.value.hasApplied.GetOr(false) else false
  }

  /** The three screens the page can show. */
  datatype DetailsView = Spinner | NotFound | Found(job: DetailedJob)

  function DetailsViewOf(loading: bool, job: Option<DetailedJob>): (v: DetailsView)
    ensures v == Spinner <==> loading
    ensures v == NotFound <==> !loading && job.None?
    ensures v.Found? ==> job == Some(v.job)
  {
    if loading then Spinner else if job.None? then NotFound else Found(job.value)
  }

  /** Whatever the server answers, the page that has loaded shows a job: the
      "Job Not Found" screen is never reached after a fetch. */
  lemma NotFoundUnreachable(id: string, now: int, response: JobResponse)
    ensures DetailsViewOf(false, Some(FetchedJob(id, now, response))) == Found(FetchedJob(id, now, response))
    ensures response.Fetched? && response.data.Some? ==> DetailsViewOf(false, Some(FetchedJob(id, now, response))).job.id == response.data.value.id
    ensures response.FetchFailed? || response.data.None? ==>
              DetailsViewOf(false, Some(FetchedJob(id, now, response))).job.id == id
  {
  }

  /** The control at the top right of the header. */
  datatype ApplyControl = NoControl | AppliedBadge | ApplyButton(disabled: bool, caption: string)

  /** Candidates who have not applied get the button, disabled and relabelled
      while a request is pending; candidates who have get the badge; no one
      else sees either. */
  function ApplyControlOf(user: Option<User>, hasApplied: bool, applying: bool): (c: ApplyControl)
    ensures c.ApplyButton? <==> IsCandidate(user) && !hasApplied
    ensures c == AppliedBadge <==> IsCandidate(user) && hasApplied
    ensures c == NoControl <==> !IsCandidate(user)
    ensures c.ApplyButton? ==> (c.disabled <==> applying)
    ensures c.ApplyButton? ==> c.caption == (if applying then "Applying..." else "Apply Now")
  {
    if !IsCandidate(user) then NoControl
    else if hasApplied then AppliedBadge
    else ApplyButton(applying, if applying then "Applying..." else "Apply Now")
  }

  const LoginPath := "/login"
  const CoverLetter := "Applied through CareerConnect platform"
  const RoleMessage := "Only candidates can apply for jobs"
  const AppliedMessage := "Application submitted successfully!"
  const ApplyFailedMessage := "Failed to submit application. Please try again."

  /** What the page did outside itself, in order: navigation, alerts and
      `jobsAPI.applyToJob` calls (with the value `applying` had while the call
      was pending). */
  datatype Effect = Navigate(path: string) | Alert(message: string) | ApplyCall(jobId: string, coverLetter: string, applying: bool)

  class JobDetailsPage {
    /** The `id` route parameter. */
    const id: string
    var job: Option<DetailedJob>
    var loading: bool
    var applying: bool
    var hasApplied: bool
    ghost var effects: seq<Effect>

    /** Between handler calls no request is pending, and every apply request
        went out for this page's job, with the fixed cover letter and the
        button disabled. */
    ghost predicate Valid()
      reads this
    {
      !applying
      && forall i :: 0 <= i < |effects| && effects[i].ApplyCall? ==>
           effects[i] == ApplyCall(id, CoverLetter, true)
    }

    constructor (routeId: string)
      ensures Valid()
      ensures id == routeId && job.None? && loading && !hasApplied && effects == []
    {
      id := routeId;
      job := None;
      loading := true;
      applying := false;
      hasApplied := false;
      effects := [];
    }

    /** `fetchJobDetails`, with the server's answer and the clock as
        parameters. */
    method Fetch(response: JobResponse, now: int)
      requires Valid()
      modifies this
      ensures Valid()
      ensures job == Some(FetchedJob(id, now, response)) && !loading
      ensures hasApplied == AppliedAfterFetch(old(hasApplied), response)
      ensures DetailsViewOf(loading, job).Found?
      ensures applying == old(applying) && effects == old(effects)
    {
      match response {
        case Fetched(data) =>
          job := Some(if data.Some? then data.value else MockJob(id, now));
          hasApplied := if data.Some? then data.value.hasApplied.GetOr(false) else false;
        case FetchFailed =>
          job := Some(MockJob(id, now));
      }
      loading := false;
    }

    /** `handleApply`, with the server's answer as a parameter. */
    method Apply(user: Option<User>, succeeded: bool)
      requires Valid()
      modifies this
      ensures Valid()
      ensures job == old(job) && loading == old(loading)
      ensures user.None? ==> effects == old(effects) + [Navigate(LoginPath)] && hasApplied == old(hasApplied)
      ensures user.Some? && !IsCandidate(user) ==>
                effects == old(effects) + [Alert(RoleMessage)] && hasApplied == old(hasApplied)
      ensures IsCandidate(user) && succeeded ==>
                effects == old(effects) + [ApplyCall(id, CoverLetter, true), Alert(AppliedMessage)] && hasApplied
      ensures IsCandidate(user) && !succeeded ==>
                effects == old(effects) + [ApplyCall(id, CoverLetter, true), Alert(ApplyFailedMessage)]
                && hasApplied == old(hasApplied)
      ensures old(hasApplied) ==> hasApplied
    {
      if user.None? {
        effects := effects + [Navigate(LoginPath)];
        return;
      }
      if user.value.role != CandidateRole {
        effects := effects + [Alert(RoleMessage)];
        return;
      }
      applying := true;
      effects := effects + [ApplyCall(id, CoverLetter, applying)];
      if succeeded {
        hasApplied := true;
        effects := effects + [Alert(AppliedMessage)];
      } else {
        effects := effects + [Alert(ApplyFailedMessage)];
      }
      applying := false;
    }
  }
}
