/**
 * The Application model of api/models.py: the status machine, the
 * `mark_*` primitives, and the effect of deleting the records it refers to.
 */
module Applications {
  import opened Wrappers
  import opened Accounts
  import opened Vacancies
  import opened Resumes

  type ApplicationId = nat

  /** The declared status choices. */
  datatype Status = Pending | Reviewed | Accepted | Rejected

  /** The value stored in the `status` column for each choice. */
  function StatusName(s: Status): string {
    match s
    case Pending => "pending"
    case Reviewed => "reviewed"
    case Accepted => "accepted"
    case Rejected => "rejected"
  }

  /** Reads a stored `status` value back; only the four declared values are statuses. */
  function ParseStatus(s: string): (r: Option<Status>)
    ensures r.Some? <==> s in {"pending", "reviewed", "accepted", "rejected"}
    ensures r.Some? ==> StatusName(r.value) == s
  {
    if s == "pending" then Some(Pending)
    else if s == "reviewed" then Some(Reviewed)
    else if s == "accepted" then Some(Accepted)
    else if s == "rejected" then Some(Rejected)
    else None
  }

  lemma StatusNameRoundTrip(s: Status)
    ensures ParseStatus(StatusName(s)) == Some(s)
  {
  }

  /** What an employer can do to an application: `mark_reviewed`, `mark_accepted`, `mark_rejected`. */
  datatype Action = Review | Accept | Reject

  /** The status each action sets; none of them sets `Pending`. */
  function Target(act: Action): (s: Status)
    ensures s != Pending
  {
    match act
    case Review => Reviewed
    case Accept => Accepted
    case Reject => Rejected
  }

  /** Different actions set different statuses. */
  lemma TargetInjective(a: Action, b: Action)
    requires Target(a) == Target(b)
    ensures a == b
  {
  }

  datatype Application = Application(
    applicant: UserId,
    vacancy: VacancyId,
    resume: Option<ResumeId>,
    coverLetter: string,
    status: Status,
    appliedAt: nat,
    updatedAt: nat)

  /** A freshly saved application: status `pending`, both timestamps `now`. */
  function NewApplication(applicant: UserId, vacancy: VacancyId, resume: Option<ResumeId>,
                          coverLetter: string, now: nat): (a: Application)
    ensures a.status == Pending
    ensures a.applicant == applicant && a.vacancy == vacancy && a.resume == resume
    ensures a.coverLetter == coverLetter
    ensures a.appliedAt == now && a.updatedAt == now
  {
    Application(applicant, vacancy, resume, coverLetter, Pending, now, now)
  }

  /**
   * `mark_*`: the status becomes the action's target whatever it was, and
   * `save(update_fields=["status", "updated_at"])` refreshes `updated_at`;
   * every other field is as before.
   */
  function Marked(a: Application, act: Action, now: nat): (r: Application)
    ensures r.status == Target(act) && r.status != Pending
    ensures r.updatedAt == now
    ensures r.(status := a.status, updatedAt := a.updatedAt) == a
  {
    a.(status := Target(act), updatedAt := now)
  }

  /** Repeating an action changes nothing but the timestamp. */
  lemma MarkedIdempotent(a: Application, act: Action, t1: nat, t2: nat)
    ensures Marked(Marked(a, act, t1), act, t2) == Marked(a, act, t2)
  {
  }

  /** The status after a sequence of actions, from `s`. */
  function Run(s: Status, acts: seq<Action>): Status
    decreases |acts|
  {
    if acts == [] then s else Run(Target(acts[0]), acts[1..])
  }

  /** After at least one action the status is the last action's target: transitions are unordered. */
  lemma {:induction false} RunEndsAtLast(s: Status, acts: seq<Action>)
    requires acts != []
    ensures Run(s, acts) == Target(acts[|acts| - 1])
    decreases |acts|
  {
    if |acts| > 1 {
      RunEndsAtLast(Target(acts[0]), acts[1..]);
    }
  }

  /** An application that has left `pending` never returns to it. */
  lemma {:induction false} RunNeverReopens(s: Status, acts: seq<Action>)
    requires s != Pending || acts != []
    ensures Run(s, acts) != Pending
    decreases |acts|
  {
    if acts != [] {
      RunNeverReopens(Target(acts[0]), acts[1..]);
    }
  }

  /**
   * How the stored applications may change from one state of the store to
   * the next: surviving records keep applicant, vacancy, cover letter and
   * application time and do not go back to `pending`; new records are
   * `pending`.
   */
  ghost predicate Evolves(before: map<ApplicationId, Application>, after: map<ApplicationId, Application>) {
    && (forall id :: id in before && id in after ==>
          && after[id].applicant == before[id].applicant
          && after[id].vacancy == before[id].vacancy
          && after[id].coverLetter == before[id].coverLetter
          && after[id].appliedAt == before[id].appliedAt
          && (before[id].status != Pending ==> after[id].status != Pending))
    && (forall id :: id in after && id !in before ==> after[id].status == Pending)
  }

  /**
   * The cascade of deleting the applicants in `users` and the vacancies in
   * `vs`: exactly the applications sent by one of them or sent to one of
   * them are removed, the rest are unchanged.
   */
  function Drop(apps: map<ApplicationId, Application>, users: set<UserId>, vs: set<VacancyId>)
    : (r: map<ApplicationId, Application>)
    ensures forall id :: id in r <==> id in apps && apps[id].applicant !in users && apps[id].vacancy !in vs
    ensures forall id :: id in r ==> r[id] == apps[id]
  {
    map id | id in apps && apps[id].applicant !in users && apps[id].vacancy !in vs :: apps[id]
  }

  /** Applicant `u` has applied to vacancy `v`: the pair the unique (applicant, vacancy) constraint guards. */
  predicate HasApplied(apps: map<ApplicationId, Application>, u: UserId, v: VacancyId) {
    exists id :: id in apps && apps[id].applicant == u && apps[id].vacancy == v
  }

  /**
   * The effect of deleting the resumes in `rs` (on_delete=SET_NULL): every
   * application stays, those that referred to a deleted resume now refer to
   * none, and nothing else changes.
   */
  function Detach(apps: map<ApplicationId, Application>, rs: set<ResumeId>)
    : (r: map<ApplicationId, Application>)
    ensures r.Keys == apps.Keys
    ensures forall id :: id in r ==> r[id].resume.Some? ==> r[id].resume.value !in rs
    ensures forall id :: id in r && apps[id].resume.Some? && apps[id].resume.value in rs ==> r[id].resume.None?
    ensures forall id :: id in r ==> r[id] == apps[id].(resume := r[id].resume)
    ensures forall id :: id in r && (apps[id].resume.None? || apps[id].resume.value !in rs) ==> r[id] == apps[id]
  {
    map id | id in apps ::
      if apps[id].resume.Some? && apps[id].resume.value in rs then apps[id].(resume := None) else apps[id]
  }

  /** Deleting a resume changes no application's status and removes none. */
  lemma DetachEvolves(apps: map<ApplicationId, Application>, rs: set<ResumeId>)
    ensures Evolves(apps, Detach(apps, rs))
    ensures |Detach(apps, rs)| == |apps|
  {
    assert Detach(apps, rs).Keys == apps.Keys;
  }

  /** A cascade removes applications and changes none that it keeps. */
  lemma DropEvolves(apps: map<ApplicationId, Application>, users: set<UserId>, vs: set<VacancyId>)
    ensures Evolves(apps, Drop(apps, users, vs))
    ensures forall id :: id in Drop(apps, users, vs) ==> Drop(apps, users, vs)[id] == apps[id]
  {
  }

  /** Deleting a user both removes and detaches; what is left still keeps its history. */
  lemma DropDetachEvolves(apps: map<ApplicationId, Application>, users: set<UserId>, vs: set<VacancyId>,
                          rs: set<ResumeId>)
    ensures Evolves(apps, Detach(Drop(apps, users, vs), rs))
  {
  }

  /** Saving a new application adds a `pending` record and touches no other. */
  lemma AddEvolves(apps: map<ApplicationId, Application>, id: ApplicationId, a: Application)
    requires id !in apps && a.status == Pending
    ensures Evolves(apps, apps[id := a])
  {
  }

  /** A transition keeps the record's history and leaves it out of `pending`. */
  lemma MarkEvolves(apps: map<ApplicationId, Application>, id: ApplicationId, act: Action, now: nat)
    requires id in apps
    ensures Evolves(apps, apps[id := Marked(apps[id], act, now)])
    ensures apps[id := Marked(apps[id], act, now)][id].status != Pending
  {
  }
}
