# CareerConnect client core in Dafny

CareerConnect is a job board. Its React client lets a visitor search and
filter job listings, read one job and apply to it. It lets a candidate
track their applications, edit their profile and upload a resume. This
project models the decision logic of seven client components:

- the job search page (`JobSearch.jsx`): the filter object, the request
  parameters built from it, the address-bar parameters and the results area;
- the filter sidebar (`JobFilterSidebar.jsx`): its local copy of the
  filters, skill and job-type toggling, and the active-filter count;
- the job card (`JobCard.jsx`): the salary label, the relative date, the
  skill chips, the description preview and the field defaults;
- the applications page (`Applications.jsx`): the status tabs and their
  counts, the progress timeline, the "Schedule Interview" button, the
  candidate gate and the empty state;
- the profile page (`Profile.jsx`): loading the form from the session
  user, single-field edits, the skill list and the merge with the skills
  parsed from a resume;
- the resume uploader (`ResumeUploader.jsx`): the type and size guard, the
  `uploading` and `dragActive` flags and which files reach the upload;
- the job details page (`JobDetails.jsx`): the fetch with its built-in
  fallback job, the apply flow and the apply control.

## How the model is built

- **Components become classes or functions.** A component whose handlers
  update its state is a `class`: each state variable is a field, and each
  handler is a `method` that states its new state. The network, `alert`
  and `navigate` are not called. A server answer is a parameter of the
  method. What the component did outside itself goes into a ghost log:
  requests sent, alerts shown, callbacks run and navigations.
- **Derived values are functions.** Request parameters, labels, counts and
  views are pure functions, with lemmas about them.
- **Filter values are JavaScript values.** A filter is a string, an array or
  `undefined`. Truthiness follows JavaScript: `''` is falsy and every array
  is truthy.
- **Times are integers.** A time is a count of milliseconds since the
  epoch. Operations that read "now" take it as a parameter.
- `Seqs` holds the sequence operations the components share:
  - `filter(y => y !== x)`;
  - `[...new Set(s)]`;
  - `join`, with the `split` that undoes it.
- `Text` holds the string operations: `trim`, ASCII lower-casing, and
  decimal printing of integers.

Two behaviours of the code are proved as written, although a user might
expect otherwise:

- **A salary bound of `"0"` is sent.** The sidebar's salary inputs hold
  strings, so `"0"` is truthy and survives the empty-value strip
  (`JobSearch.ZeroSalaryBoundSent`).
- **Toggling a selected skill twice reorders the list.** The skill keeps
  its membership but moves to the end (`FilterSidebar.ToggleTwiceReorders`).

Three more behaviours are proved:

- **The "Schedule Interview" button is case-sensitive.** It compares the
  raw status, while the tabs and the timeline lower-case it. A status
  `"Shortlisted"` lights the interview dot and shows no button
  (`Applications.ScheduleIsCaseSensitive`).
- **The sidebar's copy of the filters goes stale.** The sidebar copies the
  page's filters once, at mount. After the page's "Clear Filters", the
  sidebar's next change of any filter hands the old skill selection back to
  the page (`FilterSidebar.StaleCopyAfterClear`). Its "N filters active"
  note counts that copy, so "Clear All" leaves the note as it was
  (`FilterSidebar.StaleNoteAfterClear`).
- **A loaded job details page always has a job.** An error or an empty body
  yields the built-in job, so "Job Not Found" is never reached after the
  fetch (`JobDetails.NotFoundUnreachable`).


## Model

| member | source | states |
|---|---|---|
| JobSearch.InitialFilters | Client/src/pages/JobSearch.jsx:11-19 | the initial filter object has exactly the seven keys; keyword and location are the address-bar values or `''`; every facet is empty |
| JobSearch.ClearedFilters | Client/src/pages/JobSearch.jsx:70-81 | keyword and location are carried over verbatim, every facet is reset, and no other key survives |
| JobSearch.ClearIdempotent | Client/src/pages/JobSearch.jsx:70-81 | clearing twice equals clearing once |
| JobSearch.InitialIsCleared | Client/src/pages/JobSearch.jsx:11-19 | the initial filters are a fixed point of clearing |
| JobSearch.SearchedFilters | Client/src/pages/JobSearch.jsx:52-57 | a search replaces keyword and location with the form values and keeps every other key |
| JobSearch.SearchUrlParams | Client/src/pages/JobSearch.jsx:60-63 | the URL holds keyword iff it is non-empty and location iff it is non-empty, and nothing else |
| JobSearch.UrlGet | Client/src/pages/JobSearch.jsx:12-13 | `searchParams.get` finds a value exactly when the key is present, and the value found is stored under that key |
| JobSearch.SearchUrlRoundTrip | Client/src/pages/JobSearch.jsx:11-19 | remounting at the address a search wrote gives the searched keyword and location with every facet cleared |
| JobSearch.JoinedParams | Client/src/pages/JobSearch.jsx:28-32 | skills and jobType are replaced by their comma-joined strings, all other keys are kept; a non-array facet makes the step fail |
| JobSearch.StripEmpty | Client/src/pages/JobSearch.jsx:35-37 | the key loop keeps exactly the keys with truthy values, each with its value unchanged |
| JobSearch.Stripped | Client/src/pages/JobSearch.jsx:34-37 | exactly the keys with truthy values, each with its value |
| JobSearch.RequestParams | Client/src/pages/JobSearch.jsx:26-37 | parameters exist iff both facets are arrays; they hold only keys of the filters or the facets, and no falsy value |
| JobSearch.RequestHasNoEmptyValues | Client/src/pages/JobSearch.jsx:28-37 | no sent parameter is falsy, and every truthy parameter is sent unchanged |
| JobSearch.FacetSentUnlessEmpty | Client/src/pages/JobSearch.jsx:30-31 | an array facet is sent, as its joined string, iff it is neither `[]` nor `['']` |
| Seqs.JoinIsEmpty | Client/src/pages/JobSearch.jsx:30-31 | the joined string is empty iff the array is `[]` or `['']` |
| Seqs.Join | Client/src/pages/JobSearch.jsx:30-31 | the joined string starts with the first element and ends with the last, with room for a separator between neighbours |
| Seqs.SplitField | Client/src/pages/JobSearch.jsx:30-31 | text without a separator splits into itself alone |
| Seqs.SplitJoin | Client/src/pages/JobSearch.jsx:30-31 | a joined facet splits back into its elements when none of them contains the separator |
| JobSearch.ZeroSalaryBoundSent | Client/src/pages/JobSearch.jsx:35-37 | a salary bound `"0"` is truthy and is therefore sent |
| JobSearch.ClearedRequest | Client/src/pages/JobSearch.jsx:70-81 | after a clear, only a non-empty keyword and a non-empty location are sent |
| JobSearch.ListingFor | Client/src/pages/JobSearch.jsx:39-44 | the listing is the response's jobs, or the mock listings when the body has none or the request fails |
| JobSearch.ResultsViewOf | Client/src/pages/JobSearch.jsx:182-217 | loading shows skeletons; otherwise a non-empty listing shows cards and an empty one shows "No jobs found" |
| JobSearch.JobSearchPage.constructor | Client/src/pages/JobSearch.jsx:8-19 | the page mounts with the initial filters read from the address, loading, with no request sent |
| JobSearch.JobSearchPage.FetchJobs | Client/src/pages/JobSearch.jsx:25-47 | one request with the stripped parameters goes out, or none when joining fails; loading ends false; the filters are untouched |
| JobSearch.JobSearchPage.Search | Client/src/pages/JobSearch.jsx:49-64 | the filters become the searched filters and the address becomes the search parameters |
| JobSearch.JobSearchPage.FiltersChange | Client/src/pages/JobSearch.jsx:66-68 | the page takes the sidebar's object as its filters |
| JobSearch.JobSearchPage.ClearFilters | Client/src/pages/JobSearch.jsx:70-81 | the filters become the cleared filters and nothing else changes |
| FilterSidebar.Toggle | Client/src/components/JobFilterSidebar.jsx:12-18 | the toggled skill's membership flips, other skills keep theirs; an absent skill is appended at the end, a present one is filtered out with the rest kept in order; "no duplicates" is preserved |
| Seqs.RemoveAll | Client/src/components/JobFilterSidebar.jsx:15 | filtering out a value removes every occurrence, keeps every other element with its multiplicity |
| Seqs.RemoveAllNoDup | Client/src/components/JobFilterSidebar.jsx:15 | filtering a duplicate-free list leaves it duplicate-free |
| Seqs.RemoveAllAppend | Client/src/components/JobFilterSidebar.jsx:15 | filtering distributes over concatenation, so surviving elements keep their order |
| FilterSidebar.ToggleAbsentTwice | Client/src/components/JobFilterSidebar.jsx:13-16 | toggling an absent skill twice gives back the exact list |
| FilterSidebar.TogglePresentTwice | Client/src/components/JobFilterSidebar.jsx:13-16 | toggling a present skill twice keeps the same members but moves the skill to the end |
| FilterSidebar.ToggleTwiceReorders | Client/src/components/JobFilterSidebar.jsx:13-16 | a concrete list on which double toggling is not the identity |
| FilterSidebar.CheckedJobTypes | Client/src/components/JobFilterSidebar.jsx:88-92 | checking appends the type to the list (a missing list reads as `[]`); unchecking removes every occurrence and keeps the other types |
| FilterSidebar.CheckboxIsToggle | Client/src/components/JobFilterSidebar.jsx:86-92 | since the box is drawn checked iff the type is listed, a click is exactly a toggle |
| FilterSidebar.ActiveFilterCount | Client/src/components/JobFilterSidebar.jsx:151 | the count never exceeds the number of keys, and it is 0 iff no value is truthy with a positive length |
| FilterSidebar.ActiveFiltersNote | Client/src/components/JobFilterSidebar.jsx:148-151 | the note shows iff the object has a key, and then it shows the active count |
| FilterSidebar.ClearedFiltersActiveCount | Client/src/pages/JobSearch.jsx:70-81 | on the page's own filters, a clear leaves as many active filters as there are non-empty values among keyword and location |
| FilterSidebar.Sidebar.constructor | Client/src/components/JobFilterSidebar.jsx:4 | the local copy is the page's filters at mount |
| FilterSidebar.Sidebar.FilterChange | Client/src/components/JobFilterSidebar.jsx:6-10 | exactly one key is overwritten, and the same object is stored locally and sent to the page |
| FilterSidebar.Sidebar.SkillToggle | Client/src/components/JobFilterSidebar.jsx:12-18 | the skills entry becomes the toggled list and is sent |
| FilterSidebar.Sidebar.JobTypeChange | Client/src/components/JobFilterSidebar.jsx:87-93 | the jobType entry becomes the checked or unchecked list and is sent |
| FilterSidebar.Sidebar.ClearAll | Client/src/components/JobFilterSidebar.jsx:32-37 | "Clear All" only asks the page to clear; the local copy stays |
| FilterSidebar.StaleCopyAfterClear | Client/src/components/JobFilterSidebar.jsx:4-10 | on a fresh page, a skill the sidebar selected is cleared by the page and comes back with the sidebar's next change |
| FilterSidebar.StaleNoteAfterClear | Client/src/components/JobFilterSidebar.jsx:30-36 | after "Clear All" and the page's clear, the sidebar's note still counts one active filter while the page's filters count none |
| FilterSidebar.OneActive | Client/src/components/JobFilterSidebar.jsx:151 | a filter object with a single non-empty value counts one active filter |
| JobCard.FormatSalary | Client/src/components/JobCard.jsx:5-10 | the label for each of the four combinations of shown and missing bounds (0 counts as missing) |
| JobCard.SalaryLabelDeterminesBounds | Client/src/components/JobCard.jsx:5-10 | two equal labels come from the same shown bounds with the same values, so no two salary ranges share a label |
| JobCard.DiffDays | Client/src/components/JobCard.jsx:15-16 | the day count is the ceiling of the absolute difference in days |
| JobCard.DiffDaysSymmetric | Client/src/components/JobCard.jsx:15-16 | the day count does not depend on which time is later |
| JobCard.DiffDaysWhole | Client/src/components/JobCard.jsx:15-16 | times a whole number n of days apart give n |
| JobCard.AgeOf | Client/src/components/JobCard.jsx:18-21 | exactly 1 day is "1 day"; under 7 is days (0 included); under 30 is ceil(n/7) weeks; otherwise ceil(n/30) months |
| JobCard.AgeLabel | Client/src/components/JobCard.jsx:18-21 | the text starts with a digit, and only the one-day bucket reads "1 day ago" |
| JobCard.AgeLabelSuffix | Client/src/components/JobCard.jsx:18-21 | every bucket's text ends in " ago" |
| JobCard.FormatDate | Client/src/components/JobCard.jsx:12-22 | the label starts with a digit, and is "1 day ago" iff the two times are more than zero and at most one day apart |
| JobCard.FormatDateSuffix | Client/src/components/JobCard.jsx:12-22 | every label ends in " ago" |
| JobCard.FormatDateSymmetric | Client/src/components/JobCard.jsx:14 | the label does not depend on which time is later |
| JobCard.FormatDateWhole | Client/src/components/JobCard.jsx:12-22 | a date exactly n days before now gets the label of age n |
| JobCard.FormatDateExamples | Client/src/components/JobCard.jsx:12-22 | the labels for 1, 3 and 0 days: "1 day ago", "3 days ago", "0 days ago" |
| JobCard.FormatDateLongerExamples | Client/src/components/JobCard.jsx:12-22 | the labels for 10, 40 and 7 days: "2 weeks ago", "2 months ago", "1 weeks ago" |
| JobCard.SkillChips | Client/src/components/JobCard.jsx:53-65 | at most the first four skills, in order; there is a "+k more" chip iff there are more than four, with k the surplus |
| JobCard.MoreLabel | Client/src/components/JobCard.jsx:63 | a plus sign, the digits of the surplus, and " more" |
| JobCard.MoreLabelInjective | Client/src/components/JobCard.jsx:63 | different surpluses give different chips |
| JobCard.DescriptionPreview | Client/src/components/JobCard.jsx:48 | the preview is the first 150 characters of the description (all of it when shorter, `''` when missing) followed by `...` |
| JobCard.CompanyLabel | Client/src/components/JobCard.jsx:29 | the company name, or 'Company Name' when there is none |
| JobCard.MetaLabels | Client/src/components/JobCard.jsx:74-80 | the job type and the experience level, each replaced by its own fallback when missing or empty; neither is blank |
| Applications.Filtered | Client/src/pages/Applications.jsx:75-78 | 'all' keeps the whole list; any other filter keeps exactly the applications whose lower-cased status equals it |
| Applications.FilteredAppend | Client/src/pages/Applications.jsx:75-78 | filtering distributes over concatenation, so the original order is kept |
| Applications.StatusCountIsFilteredLength | Client/src/pages/Applications.jsx:80-84 | a tab's count is the length of that tab's list, and the 'all' count is the total |
| Applications.StatusCount | Client/src/pages/Applications.jsx:80-84 | a tab counts at most all applications, and counts zero iff no application matches it |
| Applications.StatusTabsWithinTotal | Client/src/pages/Applications.jsx:80-84 | the four status tabs together count at most every application |
| Applications.TimelineOf | Client/src/pages/Applications.jsx:204-235 | "Applied" is always lit, "Hired" implies "Interview", "Interview" implies "Under Review", each for the listed lower-cased statuses |
| Applications.ShowsScheduleInterview | Client/src/pages/Applications.jsx:195-199 | the button shows iff the raw status is "shortlisted", and then the timeline lights every dot up to the interview and leaves "Hired" grey |
| Applications.ScheduleIsCaseSensitive | Client/src/pages/Applications.jsx:195-199 | status "Shortlisted" lights the interview dot but shows no button |
| Applications.EmptyStateFor | Client/src/pages/Applications.jsx:244-251 | the first-time heading and prompt for 'all'; for another tab a heading and text that name the status |
| Applications.ViewOf | Client/src/pages/Applications.jsx:94-103 | Access Denied iff the user is missing or not a candidate; then loading; then the filtered list when it is non-empty, else the empty state |
| Profile.FromUser | Client/src/pages/Profile.jsx:24-33 | every missing user field becomes `''` or `[]`, and every present one is taken as is |
| Profile.WithField | Client/src/pages/Profile.jsx:37-42 | an input change sets exactly the named field and keeps every other field |
| Profile.WithFieldLaws | Client/src/pages/Profile.jsx:37-42 | typing the old value back restores the profile; of two edits to a field only the last counts |
| Profile.WithSkillAdded | Client/src/pages/Profile.jsx:44-52 | the trimmed input is appended iff it is non-empty and not yet present, and "no duplicates" is preserved |
| Profile.AddSkillIdempotent | Client/src/pages/Profile.jsx:44-52 | adding the same trimmed skill again changes nothing |
| Profile.RemoveUndoesAdd | Client/src/pages/Profile.jsx:54-59 | removing a skill just added gives back the list before it |
| Profile.RemoveKeepsOrder | Client/src/pages/Profile.jsx:54-59 | removal drops every copy of the skill and keeps the rest in order |
| Profile.Merged | Client/src/pages/Profile.jsx:80 | the merged skills have no duplicates, contain exactly the previous and the parsed skills, and start with the de-duplicated previous list |
| Seqs.Dedup | Client/src/pages/Profile.jsx:80 | the set spread has no duplicates, the same members as its input, and is no longer |
| Seqs.DedupAppendPresent | Client/src/pages/Profile.jsx:80 | appending only present elements to a duplicate-free list adds nothing |
| Seqs.DedupPrefix | Client/src/pages/Profile.jsx:80 | de-duplicating a longer list only appends to the de-duplication of its prefix |
| Profile.MergeIdempotent | Client/src/pages/Profile.jsx:80 | merging the same parsed skills a second time changes nothing |
| Profile.MergeWithoutSkills | Client/src/pages/Profile.jsx:80 | missing parsed skills leave a duplicate-free list unchanged |
| Profile.AfterResumeUpload | Client/src/pages/Profile.jsx:75-85 | only skills change, and only when the resume has parsed data |
| Profile.ProfilePage.constructor | Client/src/pages/Profile.jsx:8-20 | the empty form, not editing, not loading, an empty skill input |
| Profile.ProfilePage.LoadFromUser | Client/src/pages/Profile.jsx:22-35 | a present user replaces the form; a missing one leaves it |
| Profile.ProfilePage.InputChange | Client/src/pages/Profile.jsx:37-42 | the profile becomes the one-field edit of the old profile |
| Profile.ProfilePage.SetNewSkill | Client/src/pages/Profile.jsx:219-220 | the skill input takes the typed value; the profile is untouched |
| Profile.ProfilePage.AddSkill | Client/src/pages/Profile.jsx:44-52 | an accepted skill is appended and the input cleared; otherwise nothing changes, the input included |
| Profile.ProfilePage.RemoveSkill | Client/src/pages/Profile.jsx:54-59 | the skill is gone afterwards; all else is unchanged |
| Profile.ProfilePage.ResumeUploadSuccess | Client/src/pages/Profile.jsx:75-85 | skills are merged when parsed data is present, and the success alert is shown in every case |
| Profile.ProfilePage.ToggleEditing | Client/src/pages/Profile.jsx:109-114 | the header button flips edit mode and nothing else |
| Profile.ProfilePage.CancelEditing | Client/src/pages/Profile.jsx:297-302 | the lower "Cancel" button leaves edit mode and keeps the unsaved edits; nothing else changes |
| Profile.ProfilePage.Save | Client/src/pages/Profile.jsx:61-73 | the profile is sent while loading is on; loading ends off; only success leaves edit mode; each outcome has its alert |
| Profile.ShowsForm | Client/src/pages/Profile.jsx:87-96 | the form shows iff the user is present and a candidate |
| ResumeUploader.Check | Client/src/components/ResumeUploader.jsx:10-21 | missing file, then wrong type, then more than 5 MiB are rejected in that order; anything else is accepted |
| ResumeUploader.CheckBoundaries | Client/src/components/ResumeUploader.jsx:12-21 | exactly 5 MiB is accepted, one byte more is not, and an oversize file of the wrong type gets the type message |
| ResumeUploader.CheckMonotoneInSize | Client/src/components/ResumeUploader.jsx:18-21 | a smaller file of the same type is accepted whenever a larger one is |
| ResumeUploader.UploadEvents | Client/src/components/ResumeUploader.jsx:9-36 | no file does nothing; each rejection shows its alert and nothing else; an accepted file is posted, then the callback gets the server's data on success, or the failure alert is shown |
| ResumeUploader.FirstFile | Client/src/components/ResumeUploader.jsx:53-61 | only the first file is handed over, and only when there is one |
| ResumeUploader.DragActiveAfter | Client/src/components/ResumeUploader.jsx:41-45 | enter and over set the flag, leave clears it, any other type keeps it |
| ResumeUploader.DragIdempotent | Client/src/components/ResumeUploader.jsx:41-45 | repeating a drag event changes nothing more |
| ResumeUploader.ShownParsedSkills | Client/src/components/ResumeUploader.jsx:133-141 | the panel lists the first six parsed skills, and shows the section whenever a skills list exists |
| ResumeUploader.ExperienceLine | Client/src/components/ResumeUploader.jsx:145-148 | nothing without a number; a bare "0" for zero; otherwise the "N years" block with the number's decimal digits |
| ResumeUploader.Uploader.constructor | Client/src/components/ResumeUploader.jsx:5-6 | not uploading and no highlight |
| ResumeUploader.Uploader.HandleFileUpload | Client/src/components/ResumeUploader.jsx:9-36 | the events are those of `UploadEvents`; the post goes out with `uploading` true, and `uploading` is false afterwards |
| ResumeUploader.Uploader.HandleDrag | Client/src/components/ResumeUploader.jsx:38-46 | the flag follows `DragActiveAfter`; nothing else changes |
| ResumeUploader.Uploader.HandleDrop | Client/src/components/ResumeUploader.jsx:48-56 | the drop always clears the flag, and the first dropped file, if any, goes through the upload |
| ResumeUploader.Uploader.HandleFileSelect | Client/src/components/ResumeUploader.jsx:58-62 | the first selected file, if any, goes through the upload; the flag is untouched |
| JobDetails.MockJob | Client/src/pages/JobDetails.jsx:61-110 | the fallback job carries the route id, was posted three days ago and closes in thirty |
| JobDetails.FetchedJob | Client/src/pages/JobDetails.jsx:23-28 | the job is the response body, or the fallback job for an empty body or an error |
| JobDetails.AppliedAfterFetch | Client/src/pages/JobDetails.jsx:25-28 | hasApplied is true iff the body's flag is set; it is false for an empty body and unchanged after an error |
| JobDetails.DetailsViewOf | Client/src/pages/JobDetails.jsx:112-131 | a spinner while loading, "Job Not Found" iff loaded without a job, else the job |
| JobDetails.NotFoundUnreachable | Client/src/pages/JobDetails.jsx:120 | after any fetch the page shows a job: the body's job, or the built-in one with the route id after an error or an empty body |
| JobDetails.ApplyControlOf | Client/src/pages/JobDetails.jsx:179-191 | candidates who have not applied get the button (disabled and "Applying..." while pending), candidates who have get the badge, and no one else gets either |
| JobDetails.JobDetailsPage.constructor | Client/src/pages/JobDetails.jsx:11-14 | no job, loading, not applying, not applied |
| JobDetails.JobDetailsPage.Fetch | Client/src/pages/JobDetails.jsx:20-32 | afterwards a job is always set and loading is off; hasApplied follows `AppliedAfterFetch` |
| JobDetails.JobDetailsPage.Apply | Client/src/pages/JobDetails.jsx:34-58 | no user navigates to /login; a non-candidate gets an alert; otherwise the apply call goes out while applying, success sets hasApplied, failure leaves it; applying ends false |
| Text.Trim | Client/src/pages/Profile.jsx:45 | the result is a slice of the input with only whitespace cut from both ends, and it has no leading or trailing whitespace |
| Text.ToLower | Client/src/pages/Applications.jsx:77 | the same length, each letter lower-cased |
| Text.IntToString | Client/src/components/JobCard.jsx:7-9 | decimal printing yields a non-empty string without `k`, space or `+` |
| Text.IntToStringInjective | Client/src/components/JobCard.jsx:7-9 | different integers print differently |
| Text.NatToString | Client/src/components/JobCard.jsx:63 | a non-empty string of decimal digits with no leading zero |
| Text.OrElse | Client/src/components/JobCard.jsx:29 | `v \|\| fallback`: the string when it is present and non-empty, the fallback otherwise |
| FilterValues.Truthy | Client/src/pages/JobSearch.jsx:35 | a value is truthy iff it is neither the empty string nor `undefined`, so every array is truthy |
| FilterValues.HasLength | Client/src/components/JobFilterSidebar.jsx:151 | `v && v.length > 0` holds iff the value is neither `''`, `undefined` nor `[]`, and implies truthiness |
| Session.IsCandidate | Client/src/pages/Applications.jsx:94 | only a present user can be a candidate |
| Text.TrimIdempotent | Client/src/pages/Profile.jsx:45-48 | trimming an already trimmed string changes nothing |

## Left out

- The API client module (`api.jsx`), the router (`App.jsx`), the navigation
  bar and the landing page are not part of this model. Their calls appear as
  parameters and ghost logs.
- Network requests, their timing and the order in which concurrent answers
  arrive are not modelled. Each handler runs to completion with its answer
  given; two overlapping uploads, applies or searches cannot be expressed.
- React's re-render batching and the `useEffect` re-fetch on each filter
  change are not modelled. `FetchJobs` is a method the caller invokes.
- The mock job lists and the built-in job's long texts are not modelled.
  `JobDetails.MockJob` keeps its identity, dates and list sizes, and its
  description is shortened.
- `fetchApplications` and the page's mock applications are not modelled:
  the applications list is an input of `Applications.ViewOf`.
- The sort selector and the pagination buttons of the search page are not
  modelled, because they have no behaviour in the code.
- The "N Jobs Found" heading is not modelled.
- `toLocaleDateString` rendering is not modelled, because it depends on
  the locale.
- Text.ToLower: maps only `A`–`Z`; JavaScript's `toLowerCase` also maps
  non-ASCII letters.
- JobCard.DescriptionPreview: counts characters, while JavaScript's
  `substring` counts UTF-16 code units.
- JobCard.FormatSalary: salaries are integers. Fractional bounds and
  JavaScript's number printing are not modelled.
- JobCard.DiffDays: works on integer milliseconds; a date string that does
  not parse (`NaN`) is not modelled.
- ResumeUploader.Check: takes the MIME type as given; the `accept`
  attribute of the file input, which only filters the browser's dialog, is
  not modelled.
- Profile.Merged: takes the parsed skills as a list or as missing; a
  non-array truthy `skills` value, which spreading would take apart, is not
  modelled.
- Profile.ProfilePage.ResumeUploadSuccess: the resume data is always
  present; an upload answer without a body, which would make the handler
  throw, is not modelled.
- Profile: the experience and education panels and their empty states
  only display data and are not modelled.
- JobDetails: splitting the description into paragraphs and rendering the
  benefit list are not modelled, because they only display data.
