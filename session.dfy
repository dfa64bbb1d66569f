/** The signed-in user as the pages read it from the authentication context. */
module Session {
  import opened Optional

  /** A work-experience or education entry, displayed but never edited here. */
  datatype Entry = Entry(heading: string, place: string, period: string, details: string)

  /** The user object; every field the pages read may be missing. */
  datatype User = User(
    role: string,
    name: Option<string>,
    email: Option<string>,
    location: Option<string>,
    phone: Option<string>,
    bio: Option<string>,
    skills: Option<seq<string>>,
    education: Option<seq<Entry>>,
    experience: Option<seq<Entry>>)

  const CandidateRole := "candidate"

  /** `user && user.role === 'candidate'`: the gate of the candidate-only pages
      and of the apply action. */
  predicate IsCandidate(user: Option<User>)
    ensures IsCandidate(user) ==> user.Some?
  {
    user.Some? && user.value.role == CandidateRole
  }
}
