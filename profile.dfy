/** The candidate's profile page: the editable form loaded from the session
    user, the skill list (add, remove, merge with the skills parsed from an
    uploaded resume) and the save action. */
module Profile {
  import opened Optional
  import opened Seqs
  import opened Text
  import opened Session
  import opened ResumeUploader

  /** The `profile` state object. */
  datatype ProfileData = ProfileData(
    name: string,
    email: string,
    location: string,
    phone: string,
    skills: seq<string>,
    education: seq<Entry>,
    experience: seq<Entry>,
    bio: string)

  /** The state before the user arrives. */
  const EmptyProfile := ProfileData("", "", "", "", [], [], [], "")

  /** The form loaded from the session user: every missing field becomes
      `''` or `[]`, every present one is taken as it is. */
  function FromUser(user: User): (p: ProfileData)
    ensures p.name == user.name.GetOr("") && p.email == user.email.GetOr("")
    ensures p.location == user.location.GetOr("") && p.phone == user.phone.GetOr("")
    ensures p.bio == user.bio.GetOr("")
    ensures p.skills == user.skills.GetOr([])
    ensures p.education == user.education.GetOr([]) && p.experience == user.experience.GetOr([])
    ensures (user.name.None? && user.email.None? && user.location.None? && user.phone.None? && user.bio.None?
             && user.skills.None? && user.education.None? && user.experience.None?) ==> p == EmptyProfile
  {
    ProfileData(OrElse(user.name, ""), OrElse(user.email, ""), OrElse(user.location, ""),
                OrElse(user.phone, ""), user.skills.GetOr([]), user.education.GetOr([]),
                user.experience.GetOr([]), OrElse(user.bio, ""))
  }

  // ---------------------------------------------------------------- single-field edit

  /** The `name` attributes of the form's text inputs. */
  datatype Field = Name | Email | Location | Phone | Bio

  function FieldValue(p: ProfileData, f: Field): string {
    match f
    case Name => p.name
    case Email => p.email
    case Location => p.location
    case Phone => p.phone
    case Bio => p.bio
  }

  /** `{ ...profile, [name]: value }`: the named field takes the value and
      every other field, the lists included, stays. */
  function WithField(p: ProfileData, f: Field, v: string): (r: ProfileData)
    ensures FieldValue(r, f) == v
    ensures forall g :: g != f ==> FieldValue(r, g) == FieldValue(p, g)
    ensures r.skills == p.skills && r.education == p.education && r.experience == p.experience
  {
    match f
    case Name => p.(name := v)
    case Email => p.(email := v)
    case Location => p.(location := v)
    case Phone => p.(phone := v)
    case Bio => p.(bio := v)
  }

  /** The five fields and the three lists determine the profile. */
  lemma ProfileExtensionality(p: ProfileData, q: ProfileData)
    requires forall g :: FieldValue(p, g) == FieldValue(q, g)
    requires p.skills == q.skills && p.education == q.education && p.experience == q.experience
    ensures p == q
  {
    assert FieldValue(p, Name) == FieldValue(q, Name) && FieldValue(p, Email) == FieldValue(q, Email);
    assert FieldValue(p, Location) == FieldValue(q, Location) && FieldValue(p, Phone) == FieldValue(q, Phone);
    assert FieldValue(p, Bio) == FieldValue(q, Bio);
  }

  /** Typing the old value back restores the profile, and of two edits to
      the same field only the last counts. */
  lemma {:induction false} WithFieldLaws(p: ProfileData, f: Field, v: string, w: string)
    ensures WithField(WithField(p, f, v), f, FieldValue(p, f)) == p
    ensures WithField(WithField(p, f, v), f, w) == WithField(p, f, w)
  {
    ProfileExtensionality(WithField(WithField(p, f, v), f, FieldValue(p, f)), p);
    ProfileExtensionality(WithField(WithField(p, f, v), f, w), WithField(p, f, w));
  }

  // ---------------------------------------------------------------- the skill list

  /** `handleAddSkill`'s guard: a non-blank input whose trimmed text is not
      yet a skill. */
  predicate SkillAccepted(skills: seq<string>, input: string) {
    Trim(input) != "" && Trim(input) !in skills
  }

  /** The skills after "Add": the trimmed input appended when accepted, the
      list unchanged otherwise. */
  function WithSkillAdded(skills: seq<string>, input: string): (r: seq<string>)
    ensures SkillAccepted(skills, input) ==> r == skills + [Trim(input)]
    ensures !SkillAccepted(skills, input) ==> r == skills
    ensures forall y :: y in r <==> y in skills || (y == Trim(input) && y != "")
    ensures NoDup(skills) ==> NoDup(r)
  {
    if SkillAccepted(skills, input) then
      assert NoDup(skills) ==> NoDup(skills + [Trim(input)]) by {
        if NoDup(skills) { NoDupAppend(skills, Trim(input)); }
      }
      skills + [Trim(input)]
    else skills
  }

  /** Pressing "Add" again with the same input changes nothing, whatever
      spacing surrounds it. */
  lemma AddSkillIdempotent(skills: seq<string>, input: string, padded: string)
    requires Trim(padded) == Trim(input)
    ensures WithSkillAdded(WithSkillAdded(skills, input), padded) == WithSkillAdded(skills, input)
  {
  }

  /** Removing the skill just added gives back the list before it. */
  lemma RemoveUndoesAdd(skills: seq<string>, input: string)
    requires SkillAccepted(skills, input)
    ensures RemoveAll(WithSkillAdded(skills, input), Trim(input)) == skills
  {
    var t := Trim(input);
    RemoveAllAppend(skills, [t], t);
    RemoveSingle(t);
  }

  /** Removal drops every copy of the skill and keeps the rest in order:
      a skill before the removed one stays before it. */
  lemma RemoveKeepsOrder(before: seq<string>, after: seq<string>, skill: string)
    ensures RemoveAll(before + [skill] + after, skill) == RemoveAll(before, skill) + RemoveAll(after, skill)
  {
    var upTo := before + [skill];
    RemoveAllAppend(upTo, after, skill);
    RemoveAllAppend(before, [skill], skill);
    RemoveSingle(skill);
  }

  lemma RemoveSingle(skill: string)
    ensures RemoveAll([skill], skill) == []
  {
    assert [skill][1..] == [];
  }

  /** `[...new Set([...prev, ...(parsed || [])])]`. */
  function Merged(prev: seq<string>, parsed: Option<seq<string>>): (r: seq<string>)
    ensures NoDup(r)
    ensures forall y :: y in r <==> y in prev || y in parsed.GetOr([])
    ensures |Dedup(prev)| <= |r| && r[..|Dedup(prev)|] == Dedup(prev)
    ensures NoDup(prev) ==> |prev| <= |r| && r[..|prev|] == prev
  {
    var all := prev + parsed.GetOr([]);
    DedupPrefix(prev, parsed.GetOr([]));
    assert NoDup(prev) ==> Dedup(prev) == prev by {
      if NoDup(prev) { DedupOfNoDup(prev); }
    }
    Dedup(all)
  }

  /** Uploading a resume that parses to the same skills a second time
      changes nothing more. */
  lemma MergeIdempotent(prev: seq<string>, parsed: Option<seq<string>>)
    ensures Merged(Merged(prev, parsed), parsed) == Merged(prev, parsed)
  {
    var r := Merged(prev, parsed);
    DedupAppendPresent(r, parsed.GetOr([]));
  }

  /** A resume without a skills list leaves a duplicate-free list as it is. */
  lemma MergeWithoutSkills(prev: seq<string>)
    requires NoDup(prev)
    ensures Merged(prev, None) == prev
  {
    assert prev + [] == prev;
    DedupOfNoDup(prev);
  }

  /** The profile after `onUploadSuccess(resumeData)`: only `skills` can
      change, and only when the resume has parsed data. */
  function AfterResumeUpload(p: ProfileData, resume: ResumeData): (r: ProfileData)
    ensures resume.parsedData.None? ==> r == p
    ensures resume.parsedData.Some? ==> r == p.(skills := Merged(p.skills, resume.parsedData.value.skills))
  {
    if resume.parsedData.Some? then p.(skills := Merged(p.skills, resume.parsedData.value.skills)) else p
  }

  // ---------------------------------------------------------------- the page

  const UploadedMessage := "Resume uploaded successfully!"
  const SavedMessage := "Profile updated successfully!"
  const SaveFailedMessage := "Failed to update profile. Please try again."

  /** A `profileAPI.updateProfile` call, with the value `loading` had while it
      was pending. */
  datatype SaveRequest = SaveRequest(sent: ProfileData, loading: bool)

  class ProfilePage {
    var profile: ProfileData
    var newSkill: string
    var editing: bool
    var loading: bool
    /** The alerts shown, in order. */
    ghost var alerts: seq<string>
    /** The profiles sent to the server, in order. */
    ghost var saves: seq<SaveRequest>

    constructor ()
      ensures profile == EmptyProfile && newSkill == "" && !editing && !loading
      ensures alerts == [] && saves == []
    {
      profile := EmptyProfile;
      newSkill := "";
      editing := false;
      loading := false;
      alerts := [];
      saves := [];
    }

    /** The effect that runs when `user` changes: a present user replaces the
        whole form, a missing one leaves it. */
    method LoadFromUser(user: Option<User>)
      modifies this
      ensures user.Some? ==> profile == FromUser(user.value)
      ensures user.None? ==> profile == old(profile)
      ensures newSkill == old(newSkill) && editing == old(editing) && loading == old(loading)
      ensures alerts == old(alerts) && saves == old(saves)
    {
      if user.Some? {
        profile := FromUser(user.value);
      }
    }

    /** `handleInputChange`. */
    method InputChange(f: Field, value: string)
      modifies this
      ensures profile == WithField(old(profile), f, value)
      ensures newSkill == old(newSkill) && editing == old(editing) && loading == old(loading)
      ensures alerts == old(alerts) && saves == old(saves)
    {
      profile := WithField(profile, f, value);
    }

    /** The skill input's `onChange`. */
    method SetNewSkill(value: string)
      modifies this
      ensures newSkill == value && profile == old(profile)
      ensures editing == old(editing) && loading == old(loading)
      ensures alerts == old(alerts) && saves == old(saves)
    {
      newSkill := value;
    }

    /** `handleAddSkill`: an accepted skill is appended and the input
        cleared; otherwise nothing changes, the input included. */
    method AddSkill()
      modifies this
      ensures profile == old(profile).(skills := WithSkillAdded(old(profile).skills, old(newSkill)))
      ensures SkillAccepted(old(profile).skills, old(newSkill)) ==> newSkill == ""
      ensures !SkillAccepted(old(profile).skills, old(newSkill)) ==> newSkill == old(newSkill) && profile == old(profile)
      ensures NoDup(old(profile).skills) ==> NoDup(profile.skills)
      ensures editing == old(editing) && loading == old(loading)
      ensures alerts == old(alerts) && saves == old(saves)
    {
      var added := WithSkillAdded(profile.skills, newSkill);
      if SkillAccepted(profile.skills, newSkill) {
        profile := profile.(skills := added);
        newSkill := "";
      } else {
        assert profile.(skills := added) == profile;
      }
    }

    /** `handleRemoveSkill(skill)`. */
    method RemoveSkill(skill: string)
      modifies this
      ensures profile == old(profile).(skills := RemoveAll(old(profile).skills, skill))
      ensures skill !in profile.skills
      ensures newSkill == old(newSkill) && editing == old(editing) && loading == old(loading)
      ensures alerts == old(alerts) && saves == old(saves)
    {
      profile := profile.(skills := RemoveAll(profile.skills, skill));
    }

    /** `handleResumeUploadSuccess(resumeData)`: the merge and the alert; the
        alert shows even when there was nothing to merge. */
    method ResumeUploadSuccess(resume: ResumeData)
      modifies this
      ensures profile == AfterResumeUpload(old(profile), resume)
      ensures alerts == old(alerts) + [UploadedMessage]
      ensures newSkill == old(newSkill) && editing == old(editing) && loading == old(loading)
      ensures saves == old(saves)
    {
      if resume.parsedData.Some? {
        profile := profile.(skills := Merged(profile.skills, resume.parsedData.value.skills));
      }
      alerts := alerts + [UploadedMessage];
    }

    /** The "Edit Profile" / "Cancel" button in the header. */
    method ToggleEditing()
      modifies this
      ensures editing == !old(editing) && profile == old(profile) && newSkill == old(newSkill)
      ensures loading == old(loading) && alerts == old(alerts) && saves == old(saves)
    {
      editing := !editing;
    }

    /** The "Cancel" button under the form: it leaves edit mode and keeps
        the edited, unsaved profile as it is; nothing is reverted. */
    method CancelEditing()
      modifies this
      ensures !editing && profile == old(profile) && newSkill == old(newSkill)
      ensures loading == old(loading) && alerts == old(alerts) && saves == old(saves)
    {
      editing := false;
    }

    /** `handleSave`, with the server's answer as a parameter: `loading` is
        on while the request is pending and off afterwards; only a success
        leaves edit mode. */
    method Save(succeeded: bool)
      requires !loading
      modifies this
      ensures !loading && profile == old(profile) && newSkill == old(newSkill)
      ensures saves == old(saves) + [SaveRequest(old(profile), true)]
      ensures succeeded ==> !editing && alerts == old(alerts) + [SavedMessage]
      ensures !succeeded ==> editing == old(editing) && alerts == old(alerts) + [SaveFailedMessage]
    {
      loading := true;
      saves := saves + [SaveRequest(profile, loading)];
      if succeeded {
        editing := false;
        alerts := alerts + [SavedMessage];
      } else {
        alerts := alerts + [SaveFailedMessage];
      }
      loading := false;
    }
  }

  /** The candidate gate the page shares with the applications page. */
  function ShowsForm(user: Option<User>): (shown: bool)
    ensures shown <==> user.Some? && user.value.role == CandidateRole
  {
    IsCandidate(user)
  }
}
