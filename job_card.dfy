/** The summary card of a job listing: the salary label, how long ago the
    job was posted, the skill chips, the description preview and the
    defaults for missing fields. */
module JobCard {
  import opened Optional
  import opened Text

  datatype Company = Company(name: Option<string>)

  /** A listing as the server (or the mock data) delivers it. Salaries are
      numbers in thousands; `createdAt` is a time in milliseconds. */
  datatype Job = Job(
    id: string,
    title: string,
    company: Option<Company>,
    location: string,
    description: Option<string>,
    skills: Option<seq<string>>,
    jobType: Option<string>,
    experienceLevel: Option<string>,
    salaryMin: Option<int>,
    salaryMax: Option<int>,
    createdAt: int)

  // ---------------------------------------------------------------- salary

  /** A bound takes part in the label when it is a truthy number: present and
      not 0. */
  predicate Shown(bound: Option<int>) {
    bound.Some? && bound.value != 0
  }

  const NotDisclosed := "Salary not disclosed"

  /** `formatSalary(min, max)`: the label offered for each combination of
      shown bounds. */
  function FormatSalary(min: Option<int>, max: Option<int>): (caption: string)
    ensures !Shown(min) && !Shown(max) ==> caption == NotDisclosed
    ensures Shown(min) && Shown(max) ==>
              caption == "$" + IntToString(min.value) + "k - $" + IntToString(max.value) + "k"
    ensures Shown(min) && !Shown(max) ==> caption == "$" + IntToString(min.value) + "k+"
    ensures !Shown(min) && Shown(max) ==> caption == "Up to $" + IntToString(max.value) + "k"
  {
    if !Shown(min) && !Shown(max) then NotDisclosed
    else if Shown(min) && Shown(max) then "$" + IntToString(min.value) + "k - $" + IntToString(max.value) + "k"
    else if Shown(min) then "$" + IntToString(min.value) + "k+"
    else "Up to $" + IntToString(max.value) + "k"
  }

  /** The position of the first `c` in `s`. */
  function FirstIndex(s: string, c: char): (i: nat)
    requires c in s
    ensures i < |s| && s[i] == c
  {
    if s[0] == c then 0 else FirstIndex(s[1..], c) + 1
  }

  lemma {:induction false} FirstIndexAfter(x: string, c: char, y: string)
    requires c !in x
    ensures FirstIndex(x + [c] + y, c) == |x|
  {
    if x != [] {
      assert (x + [c] + y)[1..] == x[1..] + [c] + y;
      FirstIndexAfter(x[1..], c, y);
    }
  }

  /** Two strings that both continue after their first `c` agree on what
      comes before and after it. */
  lemma CutAtFirst(x: string, y: string, x': string, y': string, c: char)
    requires c !in x && c !in x'
    requires x + [c] + y == x' + [c] + y'
    ensures x == x' && y == y'
  {
    var s := x + [c] + y;
    FirstIndexAfter(x, c, y);
    FirstIndexAfter(x', c, y');
    assert x == s[..|x|] && x' == s[..|x'|];
    assert y == s[|x| + 1..] && y' == s[|x'| + 1..];
  }

  /** The label determines which bounds are shown and their values. */
  lemma SalaryLabelDeterminesBounds(min: Option<int>, max: Option<int>, min': Option<int>, max': Option<int>)
    requires FormatSalary(min, max) == FormatSalary(min', max')
    ensures Shown(min) == Shown(min') && Shown(max) == Shown(max')
    ensures Shown(min) ==> min.value == min'.value
    ensures Shown(max) ==> max.value == max'.value
  {
    var caption := FormatSalary(min, max);
    assert caption[0] == (if Shown(min) then '$' else if Shown(max) then 'U' else 'S');
    assert caption[0] == (if Shown(min') then '$' else if Shown(max') then 'U' else 'S');
    if Shown(min) {
      LowerBoundLabel(min.value, max, min'.value, max');
    } else if Shown(max) {
      var c, d := IntToString(max.value), IntToString(max'.value);
      assert caption[7..|caption| - 1] == c;
      assert caption[7..|caption| - 1] == d;
      IntToStringInjective(max.value, max'.value);
    }
  }

  /** What follows the lower bound's `k` in a label that starts with one. */
  function AfterLowerBound(max: Option<int>): string {
    if Shown(max) then " - $" + IntToString(max.value) + "k" else "+"
  }

  lemma LowerBoundShape(a: int, max: Option<int>)
    requires a != 0
    ensures FormatSalary(Some(a), max) == ("$" + IntToString(a)) + ['k'] + AfterLowerBound(max)
  {
    var x := "$" + IntToString(a);
    if Shown(max) {
      var y := IntToString(max.value);
      assert "k - $" == ['k'] + " - $";
      assert x + "k - $" + y + "k" == x + ['k'] + (" - $" + y + "k");
    } else {
      assert "k+" == ['k'] + "+";
      assert x + "k+" == x + ['k'] + "+";
    }
  }

  /** The two labels that start with a lower bound. */
  lemma LowerBoundLabel(a: int, max: Option<int>, b: int, max': Option<int>)
    requires a != 0 && b != 0
    requires FormatSalary(Some(a), max) == FormatSalary(Some(b), max')
    ensures a == b && Shown(max) == Shown(max')
    ensures Shown(max) ==> max.value == max'.value
  {
    var sa, sb := IntToString(a), IntToString(b);
    var restA, restB := AfterLowerBound(max), AfterLowerBound(max');
    LowerBoundShape(a, max);
    LowerBoundShape(b, max');
    CutAtFirst("$" + sa, restA, "$" + sb, restB, 'k');
    assert ("$" + sa)[1..] == sa && ("$" + sb)[1..] == sb;
    IntToStringInjective(a, b);
    assert restA[0] == restB[0];
    if Shown(max) {
      var c, d := IntToString(max.value), IntToString(max'.value);
      assert restA[4..|restA| - 1] == c;
      assert restB[4..|restB| - 1] == d;
      IntToStringInjective(max.value, max'.value);
    }
  }

  // ---------------------------------------------------------------- posting age

  const MsPerDay := 1000 * 60 * 60 * 24

  function Abs(x: int): nat {
    if x < 0 then -x else x
  }

  /** `Math.ceil(Math.abs(now - date) / (1000 * 60 * 60 * 24))` on integer
      millisecond times: the least number of whole days that covers the
      distance between the two times. */
  function DiffDays(now: int, date: int): (days: nat)
    ensures Abs(now - date) <= days * MsPerDay
    ensures days > 0 ==> (days - 1) * MsPerDay < Abs(now - date)
  {
    (Abs(now - date) + MsPerDay - 1) / MsPerDay
  }

  /** The day count does not depend on which of the two times is later. */
  lemma DiffDaysSymmetric(now: int, date: int)
    ensures DiffDays(now, date) == DiffDays(date, now)
  {
  }

  /** A whole number of days apart gives exactly that number. */
  lemma DiffDaysWhole(now: int, n: nat)
    ensures DiffDays(now, now - n * MsPerDay) == n
  {
    var d := DiffDays(now, now - n * MsPerDay);
    assert Abs(now - (now - n * MsPerDay)) == n * MsPerDay;
  }

  /** The bucket a day count falls into. */
  datatype Age = OneDay | Days(n: nat) | Weeks(n: nat) | Months(n: nat)

  function CeilDiv(a: nat, b: nat): nat
    requires b > 0
  {
    (a + b - 1) / b
  }

  /** The bucketing of `formatDate`: exactly one day, under a week, under
      thirty days, and otherwise months. */
  function AgeOf(days: nat): (age: Age)
    ensures age == OneDay <==> days == 1
    ensures age.Days? <==> days < 7 && days != 1
    ensures age.Days? ==> age.n == days
    ensures age.Weeks? <==> 7 <= days < 30
    ensures age.Weeks? ==> 1 <= age.n <= 5 && (age.n - 1) * 7 < days <= age.n * 7
    ensures age.Months? <==> 30 <= days
    ensures age.Months? ==> 1 <= age.n && (age.n - 1) * 30 < days <= age.n * 30
  {
    if days == 1 then OneDay
    else if days < 7 then Days(days)
    else if days < 30 then Weeks(CeilDiv(days, 7))
    else Months(CeilDiv(days, 30))
  }

  /** The text for a bucket: a number and a unit, then " ago"
      (`AgeLabelSuffix`); only the one-day bucket reads "1 day ago". */
  function AgeLabel(age: Age): (caption: string)
    ensures |caption| > 4 && IsDigit(caption[0])
    ensures caption == "1 day ago" <==> age == OneDay
  {
    match age
    case OneDay => "1 day ago"
    case Days(n) => NatToString(n) + " days ago"
    case Weeks(n) => NatToString(n) + " weeks ago"
    case Months(n) => NatToString(n) + " months ago"
  }

  /** Every bucket's text ends in " ago". */
  lemma AgeLabelSuffix(age: Age)
    ensures AgeLabel(age)[|AgeLabel(age)| - 4..] == " ago"
  {
  }

  /** `formatDate(createdAt)` with the current time passed in: a number and
      a unit followed by " ago" (`FormatDateSuffix`), where "1 day ago" stands
      for a distance of more than nothing and at most one day. */
  function FormatDate(now: int, date: int): (caption: string)
    ensures |caption| > 4 && IsDigit(caption[0])
    ensures caption == "1 day ago" <==> 0 < Abs(now - date) <= MsPerDay
  {
    AgeLabel(AgeOf(DiffDays(now, date)))
  }

  lemma FormatDateSuffix(now: int, date: int)
    ensures FormatDate(now, date)[|FormatDate(now, date)| - 4..] == " ago"
  {
    AgeLabelSuffix(AgeOf(DiffDays(now, date)));
  }

  /** The label does not depend on which of the two times is later. */
  lemma FormatDateSymmetric(now: int, date: int)
    ensures FormatDate(now, date) == FormatDate(date, now)
  {
    DiffDaysSymmetric(now, date);
  }

  /** A time a whole number of days back is labelled by that number's bucket. */
  lemma FormatDateWhole(now: int, n: nat)
    ensures FormatDate(now, now - n * MsPerDay) == AgeLabel(AgeOf(n))
  {
    DiffDaysWhole(now, n);
  }

  /** The worked examples of the relative-date rule under a week: one and
      three days back, and the same instant. */
  lemma FormatDateExamples(now: int)
    ensures FormatDate(now, now - 1 * MsPerDay) == "1 day ago"
    ensures FormatDate(now, now - 3 * MsPerDay) == "3 days ago"
    ensures FormatDate(now, now) == "0 days ago"
  {
    FormatDateWhole(now, 1);
    FormatDateWhole(now, 3);
    FormatDateWhole(now, 0);
    assert now - 0 * MsPerDay == now;
  }

  /** The worked examples in weeks and months: ten and forty days back, and a
      full week (which reads "1 weeks ago"). */
  lemma FormatDateLongerExamples(now: int)
    ensures FormatDate(now, now - 10 * MsPerDay) == "2 weeks ago"
    ensures FormatDate(now, now - 40 * MsPerDay) == "2 months ago"
    ensures FormatDate(now, now - 7 * MsPerDay) == "1 weeks ago"
  {
    FormatDateWhole(now, 10);
    FormatDateWhole(now, 40);
    FormatDateWhole(now, 7);
    LongerLabels();
  }

  lemma LongerLabels()
    ensures AgeLabel(AgeOf(10)) == "2 weeks ago"
    ensures AgeLabel(AgeOf(40)) == "2 months ago"
    ensures AgeLabel(AgeOf(7)) == "1 weeks ago"
  {
    LongerBuckets();
    assert NatToString(2) == "2" && NatToString(1) == "1";
    assert AgeLabel(Weeks(2)) == "2" + " weeks ago";
    assert AgeLabel(Months(2)) == "2" + " months ago";
    assert AgeLabel(Weeks(1)) == "1" + " weeks ago";
  }

  lemma LongerBuckets()
    ensures AgeOf(10) == Weeks(2) && AgeOf(40) == Months(2) && AgeOf(7) == Weeks(1)
  {
    assert CeilDiv(10, 7) == 2 && CeilDiv(40, 30) == 2 && CeilDiv(7, 7) == 1;
  }

  // ---------------------------------------------------------------- skills and text

  const MaxChips := 4

  /** The chips a card shows and the size of its "+k more" chip, if any. */
  datatype Chips = Chips(shown: seq<string>, more: Option<nat>)

  /** `job.skills?.slice(0, 4)` and `job.skills?.length > 4`. */
  function SkillChips(skills: Option<seq<string>>): (c: Chips)
    ensures var all := skills.GetOr([]);
            && |c.shown| == (if |all| < MaxChips then |all| else MaxChips)
            && c.shown == all[..|c.shown|]
            && (c.more.Some? <==> |all| > MaxChips)
            && (c.more.Some? ==> |c.shown| + c.more.value == |all|)
            && (c.more.None? ==> c.shown == all)
  {
    match skills
    case None => Chips([], None)
    case Some(all) =>
      if |all| > MaxChips then Chips(all[..MaxChips], Some(|all| - MaxChips))
      else Chips(all, None)
  }

  /** The "+k more" chip: a plus sign, the digits of `k`, and " more". */
  function MoreLabel(k: nat): (caption: string)
    ensures |caption| > 6 && caption[0] == '+' && caption[|caption| - 5..] == " more"
    ensures caption[1..|caption| - 5] == NatToString(k)
  {
    "+" + NatToString(k) + " more"
  }

  /** Different counts give different chips. */
  lemma MoreLabelInjective(k: nat, k': nat)
    requires MoreLabel(k) == MoreLabel(k')
    ensures k == k'
  {
    NatToStringInjective(k, k');
  }

  const PreviewLength := 150

  /** `{job.description?.substring(0, 150)}...`: at most the first 150
      characters, always followed by an ellipsis. */
  function DescriptionPreview(description: Option<string>): (r: string)
    ensures var text := description.GetOr("");
            && |r| == (if |text| < PreviewLength then |text| else PreviewLength) + 3
            && r[..|r| - 3] == text[..|r| - 3]
            && r[|r| - 3..] == "..."
            && (|text| <= PreviewLength ==> r == text + "...")
  {
    var text := description.GetOr("");
    var cut := if |text| < PreviewLength then text else text[..PreviewLength];
    cut + "..."
  }

  /** `job.company?.name || 'Company Name'` */
  function CompanyLabel(company: Option<Company>): (r: string)
    ensures r != ""
    ensures company.Some? && company.value.name.Some? && company.value.name.value != "" ==>
              r == company.value.name.value
    ensures company.None? || company.value.name.None? || company.value.name.value == "" ==>
              r == "Company Name"
  {
    OrElse(if company.Some? then company.value.name else None, "Company Name")
  }

  /** The two labels of the card's footer, `job.type || 'Full-time'` and
      `job.experienceLevel || 'Mid-level'`: each is the job's value when it is
      a non-empty string and its own fallback otherwise, so neither is blank. */
  function MetaLabels(jobType: Option<string>, level: Option<string>): (labels: (string, string))
    ensures labels.0 != "" && labels.1 != ""
    ensures jobType.Some? && jobType.value != "" ==> labels.0 == jobType.value
    ensures jobType.None? || jobType.value == "" ==> labels.0 == "Full-time"
    ensures level.Some? && level.value != "" ==> labels.1 == level.value
    ensures level.None? || level.value == "" ==> labels.1 == "Mid-level"
  {
    (OrElse(jobType, "Full-time"), OrElse(level, "Mid-level"))
  }
}
