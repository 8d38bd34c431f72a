/**
 * The Vacancy model of api/models.py: its fields and defaults, the salary
 * line and the display label, the writable input of the vacancy serializers,
 * and the title search of the vacancy list.
 */
module Vacancies {
  import opened Wrappers
  import opened Accounts

  type VacancyId = nat

  datatype EmploymentType = FullTime | PartTime | Contract | Internship | Fifo | Volunteer
  datatype WorkFormat = OnSite | Remote | Hybrid | Shift
  datatype Experience = NoExperience | OneToThree | ThreeToSix | SixPlus

  /**
   * Salary amounts are held in minor units (hundredths). A DecimalField with
   * max_digits=12 and decimal_places=2 holds at most 12 digits, so every
   * accepted amount lies strictly between -10^12 and 10^12 minor units.
   */
  const AmountBound: int := 1_000_000_000_000
  const DefaultCurrency: string := "TJS"
  /** Largest value a PositiveIntegerField accepts. */
  const MaxViews: int := 2147483647
  const UnknownCompany: string := "Unknown Company"

  /** A stored vacancy. `createdAt` and `updatedAt` are logical clock readings. */
  datatype Vacancy = Vacancy(
    title: string,
    company: string,
    location: string,
    description: string,
    responsibilities: string,
    requirements: string,
    salaryFrom: Option<int>,
    salaryTo: Option<int>,
    currency: string,
    showSalary: bool,
    employmentType: EmploymentType,
    workFormat: WorkFormat,
    experience: Experience,
    isActive: bool,
    views: nat,
    createdAt: nat,
    updatedAt: nat,
    author: UserId)

  /**
   * The fields a client may write (VacancyCreateSerializer's whitelist). A
   * `None` is a field the request omits; `Some(None)` is a salary sent as
   * null. Author, views and timestamps are not part of it.
   */
  datatype VacancyFields = VacancyFields(
    title: string,
    location: string,
    description: string,
    employmentType: EmploymentType,
    workFormat: WorkFormat,
    company: Option<string>,
    responsibilities: Option<string>,
    requirements: Option<string>,
    salaryFrom: Option<Option<int>>,
    salaryTo: Option<Option<int>>,
    currency: Option<string>,
    showSalary: Option<bool>,
    experience: Option<Experience>,
    isActive: Option<bool>)

  predicate AmountValid(a: Option<Option<int>>) {
    a.Some? && a.value.Some? ==> -AmountBound < a.value.value < AmountBound
  }

  /** Serializer validation of the writable fields (required, non-blank and length limits). */
  predicate FieldsValid(f: VacancyFields) {
    && 0 < |f.title| <= 200
    && 0 < |f.location| <= 150
    && 0 < |f.description|
    && (f.company.Some? ==> |f.company.value| <= 200)
    && (f.currency.Some? ==> 0 < |f.currency.value| <= 10)
    && AmountValid(f.salaryFrom)
    && AmountValid(f.salaryTo)
  }

  /** A `views` value sent on update must fit a PositiveIntegerField. */
  predicate ViewsValid(views: Option<int>) {
    views.Some? ==> 0 <= views.value <= MaxViews
  }

  /** The model's defaults for a vacancy by `author` stamped `now`, before any field is written. */
  function Blank(author: UserId, now: nat): Vacancy {
    Vacancy("", "", "", "", "", "", None, None, DefaultCurrency, true,
            FullTime, OnSite, NoExperience, true, 0, now, now, author)
  }

  /**
   * Saving the serializer's fields onto `v` at time `now`: every field sent
   * replaces the stored one, every optional field omitted keeps it, and
   * `updated_at` is refreshed; author, views and creation time are not
   * writable and stay as they are.
   */
  function Merge(v: Vacancy, f: VacancyFields, now: nat): (r: Vacancy)
    ensures r.author == v.author && r.views == v.views && r.createdAt == v.createdAt
    ensures r.updatedAt == now
    ensures r.title == f.title && r.location == f.location && r.description == f.description
    ensures r.employmentType == f.employmentType && r.workFormat == f.workFormat
    ensures r.company == (if f.company.Some? then f.company.value else v.company)
    ensures r.responsibilities == (if f.responsibilities.Some? then f.responsibilities.value else v.responsibilities)
    ensures r.requirements == (if f.requirements.Some? then f.requirements.value else v.requirements)
    ensures r.salaryFrom == (if f.salaryFrom.Some? then f.salaryFrom.value else v.salaryFrom)
    ensures r.salaryTo == (if f.salaryTo.Some? then f.salaryTo.value else v.salaryTo)
    ensures r.currency == (if f.currency.Some? then f.currency.value else v.currency)
    ensures r.showSalary == (if f.showSalary.Some? then f.showSalary.value else v.showSalary)
    ensures r.isActive == (if f.isActive.Some? then f.isActive.value else v.isActive)
    ensures r.experience == (if f.experience.Some? then f.experience.value else v.experience)
  {
    v.(title := f.title,
       location := f.location,
       description := f.description,
       employmentType := f.employmentType,
       workFormat := f.workFormat,
       company := f.company.GetOr(v.company),
       responsibilities := f.responsibilities.GetOr(v.responsibilities),
       requirements := f.requirements.GetOr(v.requirements),
       salaryFrom := f.salaryFrom.GetOr(v.salaryFrom),
       salaryTo := f.salaryTo.GetOr(v.salaryTo),
       currency := f.currency.GetOr(v.currency),
       showSalary := f.showSalary.GetOr(v.showSalary),
       experience := f.experience.GetOr(v.experience),
       isActive := f.isActive.GetOr(v.isActive),
       updatedAt := now)
  }

  /** The vacancy created from `f` by `author`: model defaults where `f` is silent, no views yet. */
  function NewVacancy(f: VacancyFields, author: UserId, now: nat): (v: Vacancy)
    ensures v.author == author && v.views == 0
    ensures v.createdAt == now && v.updatedAt == now
    ensures v.title == f.title && v.location == f.location && v.description == f.description
    ensures v.employmentType == f.employmentType && v.workFormat == f.workFormat
    ensures f.company.Some? ==> v.company == f.company.value
    ensures f.responsibilities.Some? ==> v.responsibilities == f.responsibilities.value
    ensures f.requirements.Some? ==> v.requirements == f.requirements.value
    ensures f.salaryFrom.Some? ==> v.salaryFrom == f.salaryFrom.value
    ensures f.salaryTo.Some? ==> v.salaryTo == f.salaryTo.value
    ensures f.currency.Some? ==> v.currency == f.currency.value
    ensures f.showSalary.Some? ==> v.showSalary == f.showSalary.value
    ensures f.isActive.Some? ==> v.isActive == f.isActive.value
    ensures f.experience.Some? ==> v.experience == f.experience.value
    ensures f.responsibilities.None? ==> v.responsibilities == ""
    ensures f.requirements.None? ==> v.requirements == ""
    ensures f.currency.None? ==> v.currency == DefaultCurrency
    ensures f.showSalary.None? ==> v.showSalary
    ensures f.isActive.None? ==> v.isActive
    ensures f.experience.None? ==> v.experience == NoExperience
    ensures f.company.None? ==> v.company == ""
    ensures f.salaryFrom.None? ==> v.salaryFrom.None?
    ensures f.salaryTo.None? ==> v.salaryTo.None?
  {
    Merge(Blank(author, now), f, now)
  }

  /** An update through the full vacancy serializer, which also exposes `views` as writable. */
  function Edited(v: Vacancy, f: VacancyFields, views: Option<int>, now: nat): (r: Vacancy)
    requires ViewsValid(views)
    ensures r.author == v.author && r.createdAt == v.createdAt && r.updatedAt == now
    ensures r.views == (if views.Some? then views.value else v.views)
    ensures r == Merge(v, f, now).(views := r.views)
    ensures r.title == f.title
  {
    var m := Merge(v, f, now);
    if views.Some? then m.(views := views.value) else m
  }

  /**
   * The cascade of deleting user `u` on the vacancies (on_delete=CASCADE on
   * `author`): exactly the vacancies `u` wrote are removed.
   */
  function DropAuthor(vs: map<VacancyId, Vacancy>, u: UserId): (r: map<VacancyId, Vacancy>)
    ensures forall v :: v in r <==> v in vs && vs[v].author != u
    ensures forall v :: v in r ==> r[v] == vs[v]
  {
    map v | v in vs && vs[v].author != u :: vs[v]
  }

  // ----- salary_display -----

  /**
   * The salary line shown for a vacancy. `Range` renders "<from> – <to> <currency>",
   * `FromOnly` the "от <from> <currency>" form and `UpToOnly` the "до <to> <currency>" form.
   */
  datatype SalaryText =
    | ByAgreement
    | Range(low: int, high: int, currency: string)
    | FromOnly(low: int, currency: string)
    | UpToOnly(high: int, currency: string)
    | NotSpecified

  /** Python truthiness of a nullable decimal: null and zero are both false. */
  predicate Truthy(a: Option<int>) {
    a.Some? && a.value != 0
  }

  function SalaryDisplay(v: Vacancy): (r: SalaryText)
    ensures !v.showSalary ==> r == ByAgreement
    ensures v.showSalary ==> (r.Range? <==> Truthy(v.salaryFrom) && Truthy(v.salaryTo))
    ensures v.showSalary ==> (r.FromOnly? <==> Truthy(v.salaryFrom) && !Truthy(v.salaryTo))
    ensures v.showSalary ==> (r.UpToOnly? <==> !Truthy(v.salaryFrom) && Truthy(v.salaryTo))
    ensures v.showSalary ==> (r.NotSpecified? <==> !Truthy(v.salaryFrom) && !Truthy(v.salaryTo))
    ensures (r.Range? || r.FromOnly?) ==> r.low == v.salaryFrom.value && r.currency == v.currency
    ensures (r.Range? || r.UpToOnly?) ==> r.high == v.salaryTo.value && r.currency == v.currency
  {
    if !v.showSalary then ByAgreement
    else if Truthy(v.salaryFrom) && Truthy(v.salaryTo) then Range(v.salaryFrom.value, v.salaryTo.value, v.currency)
    else if Truthy(v.salaryFrom) then FromOnly(v.salaryFrom.value, v.currency)
    else if Truthy(v.salaryTo) then UpToOnly(v.salaryTo.value, v.currency)
    else NotSpecified
  }

  /** With the salary hidden, the amounts play no part. */
  lemma HiddenSalaryIgnoresAmounts(v: Vacancy, low: Option<int>, high: Option<int>)
    requires !v.showSalary
    ensures SalaryDisplay(v.(salaryFrom := low, salaryTo := high)) == SalaryDisplay(v) == ByAgreement
  {
  }

  /** An amount of zero is displayed exactly as a missing amount. */
  lemma ZeroAmountIsAbsent(v: Vacancy)
    ensures SalaryDisplay(v.(salaryFrom := Some(0))) == SalaryDisplay(v.(salaryFrom := None))
    ensures SalaryDisplay(v.(salaryTo := Some(0))) == SalaryDisplay(v.(salaryTo := None))
  {
  }

  // ----- __str__ -----

  function CompanyOrUnknown(company: string): (r: string)
    ensures company != "" ==> r == company
    ensures company == "" ==> r == UnknownCompany
  {
    if company != "" then company else UnknownCompany
  }

  /** The label "<title> в <company>"; a blank company reads "Unknown Company". */
  function Label(v: Vacancy): (s: string)
    ensures |s| == |v.title| + 3 + |CompanyOrUnknown(v.company)|
    ensures s[..|v.title|] == v.title
    ensures s[|v.title|..|v.title| + 3] == " в "
    ensures s[|v.title| + 3..] == CompanyOrUnknown(v.company)
  {
    v.title + " в " + CompanyOrUnknown(v.company)
  }

  // ----- the vacancy list: order and title search -----

  /**
   * ASCII case folding, the case-insensitivity of SQLite's LIKE match, which
   * folds the letters A-Z only.
   */
  function LowerChar(c: char): char {
    if 'A' <= c <= 'Z' then (c as int + 32) as char else c
  }

  function Fold(s: string): (r: string)
    ensures |r| == |s|
    ensures forall i :: 0 <= i < |s| ==> r[i] == LowerChar(s[i])
  {
    seq(|s|, i requires 0 <= i < |s| => LowerChar(s[i]))
  }

  /** `t` occurs in `s` starting at position `i`. */
  predicate OccursAt(s: string, t: string, i: int) {
    0 <= i <= |s| - |t| && s[i..i + |t|] == t
  }

  /** `t` occurs somewhere inside `s`. */
  predicate Contains(s: string, t: string) {
    exists i :: 0 <= i <= |s| - |t| && OccursAt(s, t, i)
  }

  /** `title__icontains=t`. */
  predicate TitleMatches(title: string, t: string) {
    Contains(Fold(title), Fold(t))
  }

  lemma FoldIdempotent(s: string)
    ensures Fold(Fold(s)) == Fold(s)
  {
  }

  /** The match does not depend on the case of either side. */
  lemma TitleMatchIgnoresCase(title: string, t: string)
    ensures TitleMatches(Fold(title), t) == TitleMatches(title, t)
    ensures TitleMatches(title, Fold(t)) == TitleMatches(title, t)
  {
    FoldIdempotent(title);
    FoldIdempotent(t);
  }

  predicate Descending(s: seq<VacancyId>) {
    forall i, j :: 0 <= i < j < |s| ==> s[i] > s[j]
  }

  /**
   * The ids of `vs` below `n`, newest first. Ids are handed out in creation
   * order, so descending ids are descending creation times.
   */
  function NewestFirst(vs: map<VacancyId, Vacancy>, n: nat): (r: seq<VacancyId>)
    ensures forall i :: 0 <= i < |r| ==> r[i] in vs && r[i] < n
    ensures forall id :: id in vs && id < n ==> id in r
    ensures Descending(r)
    decreases n
  {
    if n == 0 then []
    else if n - 1 in vs then [n - 1] + NewestFirst(vs, n - 1)
    else NewestFirst(vs, n - 1)
  }

  /** The `qs.filter(title__icontains=t)` step: keeps, in order, the listed vacancies whose title matches. */
  function TitleFilter(qs: seq<VacancyId>, vs: map<VacancyId, Vacancy>, t: string): (r: seq<VacancyId>)
    requires forall i :: 0 <= i < |qs| ==> qs[i] in vs
    ensures forall i :: 0 <= i < |r| ==> r[i] in qs && TitleMatches(vs[r[i]].title, t)
    ensures forall id :: id in qs && TitleMatches(vs[id].title, t) ==> id in r
    ensures Descending(qs) ==> Descending(r)
  {
    if qs == [] then []
    else
      var rest := TitleFilter(qs[1..], vs, t);
      if TitleMatches(vs[qs[0]].title, t) then [qs[0]] + rest else rest
  }

  /** A query parameter that Python treats as true: present and non-empty. */
  predicate Given(t: Option<string>) {
    t.Some? && t.value != ""
  }

  /**
   * `VacancyListCreateView.get_queryset` without the date filter: every
   * vacancy, newest first, narrowed by title only when `t` is given and
   * non-empty.
   */
  function ListQuery(vs: map<VacancyId, Vacancy>, n: nat, t: Option<string>): (r: seq<VacancyId>)
    ensures forall i :: 0 <= i < |r| ==> r[i] in vs && r[i] < n
    ensures forall id :: id in r <==> id in vs && id < n && (Given(t) ==> TitleMatches(vs[id].title, t.value))
    ensures Descending(r)
  {
    var qs := NewestFirst(vs, n);
    if Given(t) then TitleFilter(qs, vs, t.value) else qs
  }
}
