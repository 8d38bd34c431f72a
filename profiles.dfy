/**
 * What `UserProfileView.get` returns: the seeker profile for a seeker, the
 * employer profile (with the applications received) for anyone else.
 */
module Profiles {
  import opened Wrappers
  import opened Accounts
  import opened Vacancies
  import opened Resumes
  import opened Applications

  /** The record ids a profile shows. */
  datatype Profile =
    | SeekerProfile(user: UserId, resume: Option<ResumeId>)
    | EmployerProfile(user: UserId, vacancies: set<VacancyId>, applications: set<ApplicationId>)

  /** The vacancies whose author is `e` (the `vacancies` related name). */
  function Authored(vs: map<VacancyId, Vacancy>, e: UserId): (r: set<VacancyId>)
    ensures forall v :: v in r <==> v in vs && vs[v].author == e
  {
    set v | v in vs && vs[v].author == e
  }

  /** `EmployerProfileSerializer.get_applications`: `Application.objects.filter(vacancy__author=e)`. */
  function Received(apps: map<ApplicationId, Application>, vs: map<VacancyId, Vacancy>, e: UserId)
    : (r: set<ApplicationId>)
    ensures forall a :: a in r <==> a in apps && apps[a].vacancy in vs && vs[apps[a].vacancy].author == e
  {
    set a | a in apps && apps[a].vacancy in vs && vs[apps[a].vacancy].author == e
  }

  /**
   * Every application whose vacancy exists is received by exactly one
   * employer, the vacancy's author; received applications are those sent to
   * the employer's own vacancies.
   */
  lemma ReceivedByAuthorOnly(apps: map<ApplicationId, Application>, vs: map<VacancyId, Vacancy>,
                             a: ApplicationId, e: UserId)
    requires a in apps && apps[a].vacancy in vs
    ensures a in Received(apps, vs, e) <==> e == vs[apps[a].vacancy].author
    ensures a in Received(apps, vs, e) <==> apps[a].vacancy in Authored(vs, e)
  {
  }

  /**
   * The profile of user `u` with record `user`; `n` bounds the resume ids.
   * The choice depends on the role alone.
   */
  function ProfileOf(u: UserId, user: User, vs: map<VacancyId, Vacancy>, rs: map<ResumeId, Resume>,
                     apps: map<ApplicationId, Application>, n: nat): (p: Profile)
    ensures p.user == u
    ensures p.SeekerProfile? <==> user.role == Seeker
    ensures p.SeekerProfile? && p.resume.Some? ==> p.resume.value in rs && rs[p.resume.value].user == u
    ensures p.SeekerProfile? && p.resume.None? ==> forall r :: r in rs && r < n ==> rs[r].user != u
    ensures p.EmployerProfile? ==> (forall v :: v in p.vacancies <==> v in vs && vs[v].author == u)
    ensures p.EmployerProfile? ==>
              (forall a :: a in p.applications <==> a in apps && apps[a].vacancy in vs && vs[apps[a].vacancy].author == u)
  {
    if user.role == Seeker then SeekerProfile(u, FindResume(rs, u, n))
    else EmployerProfile(u, Authored(vs, u), Received(apps, vs, u))
  }
}
