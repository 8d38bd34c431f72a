/**
 * The database constraints of the job board, stated over the contents of the
 * tables, and the proofs that each write the views perform keeps them:
 * foreign keys resolve, (applicant, vacancy) and (user, vacancy) are unique,
 * a user has at most one resume, and the role checks of the views leave
 * every vacancy written by an employer and every resume and application
 * owned by a seeker.
 */
module Integrity {
  import opened Accounts
  import opened Vacancies
  import opened Resumes
  import opened Applications
  import opened Favorites
  import opened Profiles

  /** Keys below the next primary key. */
  ghost predicate UsersOk(users: map<UserId, User>, next: nat) {
    forall u :: u in users ==> u < next
  }

  /** Authors exist and are employers; ids follow creation order. */
  ghost predicate VacanciesOk(vacancies: map<VacancyId, Vacancy>, users: map<UserId, User>, next: nat, clock: nat) {
    && (forall v :: v in vacancies ==>
          && v < next
          && vacancies[v].createdAt < clock
          && vacancies[v].author in users
          && users[vacancies[v].author].role == Employer)
    && (forall v, w :: v in vacancies && w in vacancies && v < w ==>
          vacancies[v].createdAt < vacancies[w].createdAt)
  }

  /** Owners exist and are seekers; one resume per user (the one-to-one `user`). */
  ghost predicate ResumesOk(resumes: map<ResumeId, Resume>, users: map<UserId, User>, next: nat) {
    && (forall r :: r in resumes ==>
          && r < next
          && resumes[r].user in users
          && users[resumes[r].user].role == Seeker)
    && (forall r, s :: r in resumes && s in resumes && resumes[r].user == resumes[s].user ==> r == s)
  }

  /** References resolve, applicants are seekers, and (applicant, vacancy) is unique. */
  ghost predicate ApplicationsOk(apps: map<ApplicationId, Application>, users: map<UserId, User>,
                                 vacancies: map<VacancyId, Vacancy>, resumes: map<ResumeId, Resume>,
                                 next: nat, clock: nat) {
    && (forall a :: a in apps ==>
          && a < next
          && apps[a].applicant in users
          && users[apps[a].applicant].role == Seeker
          && apps[a].vacancy in vacancies
          && (apps[a].resume.Some? ==> apps[a].resume.value in resumes)
          && apps[a].appliedAt <= apps[a].updatedAt < clock)
    && (forall a, b ::
          (a in apps && b in apps && apps[a].applicant == apps[b].applicant && apps[a].vacancy == apps[b].vacancy)
          ==> a == b)
  }

  /** References resolve and (user, vacancy) is unique. */
  ghost predicate FavoritesOk(favs: map<FavoriteId, Favorite>, users: map<UserId, User>,
                              vacancies: map<VacancyId, Vacancy>, next: nat) {
    && (forall f :: f in favs ==> f < next && favs[f].user in users && favs[f].vacancy in vacancies)
    && (forall f, g ::
          (f in favs && g in favs && favs[f].user == favs[g].user && favs[f].vacancy == favs[g].vacancy)
          ==> f == g)
  }

  /** The contents of all tables, with the next primary key of each and the clock. */
  datatype Tables = Tables(
    users: map<UserId, User>,
    vacancies: map<VacancyId, Vacancy>,
    resumes: map<ResumeId, Resume>,
    applications: map<ApplicationId, Application>,
    favorites: map<FavoriteId, Favorite>,
    nextUser: nat,
    nextVacancy: nat,
    nextResume: nat,
    nextApplication: nat,
    nextFavorite: nat,
    clock: nat)

  ghost predicate Consistent(t: Tables) {
    && UsersOk(t.users, t.nextUser)
    && VacanciesOk(t.vacancies, t.users, t.nextVacancy, t.clock)
    && ResumesOk(t.resumes, t.users, t.nextResume)
    && ApplicationsOk(t.applications, t.users, t.vacancies, t.resumes, t.nextApplication, t.clock)
    && FavoritesOk(t.favorites, t.users, t.vacancies, t.nextFavorite)
  }

  // ----- users and companies -----

  lemma AddUserKeeps(t: Tables, t': Tables, user: User)
    requires Consistent(t)
    requires t' == t.(users := t.users[t.nextUser := user], nextUser := t.nextUser + 1)
    ensures Consistent(t')
  {
    assert t.nextUser !in t.users;
  }

  lemma DetachCompanyKeeps(t: Tables, t': Tables, c: CompanyId)
    requires Consistent(t)
    requires t' == t.(users := DetachCompany(t.users, c))
    ensures Consistent(t')
  {
  }

  lemma DropUserKeepsVacancies(vacancies: map<VacancyId, Vacancy>, users: map<UserId, User>,
                               next: nat, clock: nat, u: UserId)
    requires VacanciesOk(vacancies, users, next, clock)
    ensures VacanciesOk(DropAuthor(vacancies, u), users - {u}, next, clock)
  {
  }

  lemma DropUserKeepsResumes(resumes: map<ResumeId, Resume>, users: map<UserId, User>, next: nat, u: UserId)
    requires ResumesOk(resumes, users, next)
    ensures ResumesOk(DropOwner(resumes, u), users - {u}, next)
  {
  }

  lemma DropUserKeepsApplications(apps: map<ApplicationId, Application>, users: map<UserId, User>,
                                  vacancies: map<VacancyId, Vacancy>, resumes: map<ResumeId, Resume>,
                                  next: nat, clock: nat, u: UserId)
    requires ApplicationsOk(apps, users, vacancies, resumes, next, clock)
    ensures ApplicationsOk(Detach(Applications.Drop(apps, {u}, Authored(vacancies, u)), OwnedBy(resumes, u)),
                           users - {u}, DropAuthor(vacancies, u), DropOwner(resumes, u), next, clock)
  {
  }

  lemma DropUserKeepsFavorites(favs: map<FavoriteId, Favorite>, users: map<UserId, User>,
                               vacancies: map<VacancyId, Vacancy>, next: nat, u: UserId)
    requires FavoritesOk(favs, users, vacancies, next)
    ensures FavoritesOk(Favorites.Drop(favs, {u}, Authored(vacancies, u)), users - {u}, DropAuthor(vacancies, u), next)
  {
  }

  /** Deleting a user with its cascades leaves no reference to it and keeps every constraint. */
  lemma DropUserKeeps(t: Tables, t': Tables, u: UserId)
    requires Consistent(t)
    requires t' == t.(users := t.users - {u},
                      vacancies := DropAuthor(t.vacancies, u),
                      resumes := DropOwner(t.resumes, u),
                      applications := Detach(Applications.Drop(t.applications, {u}, Authored(t.vacancies, u)),
                                             OwnedBy(t.resumes, u)),
                      favorites := Favorites.Drop(t.favorites, {u}, Authored(t.vacancies, u)))
    ensures Consistent(t')
  {
    DropUserKeepsVacancies(t.vacancies, t.users, t.nextVacancy, t.clock, u);
    DropUserKeepsResumes(t.resumes, t.users, t.nextResume, u);
    DropUserKeepsApplications(t.applications, t.users, t.vacancies, t.resumes, t.nextApplication, t.clock, u);
    DropUserKeepsFavorites(t.favorites, t.users, t.vacancies, t.nextFavorite, u);
  }

  // ----- vacancies -----

  lemma AddVacancyKeeps(t: Tables, t': Tables, v: Vacancy)
    requires Consistent(t)
    requires v.author in t.users && t.users[v.author].role == Employer && v.createdAt == t.clock
    requires t' == t.(vacancies := t.vacancies[t.nextVacancy := v], nextVacancy := t.nextVacancy + 1,
                      clock := t.clock + 1)
    ensures Consistent(t')
  {
    assert t.nextVacancy !in t.vacancies;
  }

  /** Rewriting a vacancy in place, keeping its author and creation time, possibly advancing the clock. */
  lemma ReplaceVacancyKeeps(t: Tables, t': Tables, id: VacancyId, v: Vacancy, clock': nat)
    requires Consistent(t)
    requires id in t.vacancies && v.author == t.vacancies[id].author && v.createdAt == t.vacancies[id].createdAt
    requires t.clock <= clock'
    requires t' == t.(vacancies := t.vacancies[id := v], clock := clock')
    ensures Consistent(t')
  {
  }

  lemma DropVacancyKeepsApplications(apps: map<ApplicationId, Application>, users: map<UserId, User>,
                                     vacancies: map<VacancyId, Vacancy>, resumes: map<ResumeId, Resume>,
                                     next: nat, clock: nat, id: VacancyId)
    requires ApplicationsOk(apps, users, vacancies, resumes, next, clock)
    ensures ApplicationsOk(Applications.Drop(apps, {}, {id}), users, vacancies - {id}, resumes, next, clock)
  {
  }

  lemma DropVacancyKeepsFavorites(favs: map<FavoriteId, Favorite>, users: map<UserId, User>,
                                  vacancies: map<VacancyId, Vacancy>, next: nat, id: VacancyId)
    requires FavoritesOk(favs, users, vacancies, next)
    ensures FavoritesOk(Favorites.Drop(favs, {}, {id}), users, vacancies - {id}, next)
  {
  }

  lemma DropVacancyKeeps(t: Tables, t': Tables, id: VacancyId)
    requires Consistent(t)
    requires t' == t.(vacancies := t.vacancies - {id},
                      applications := Applications.Drop(t.applications, {}, {id}),
                      favorites := Favorites.Drop(t.favorites, {}, {id}))
    ensures Consistent(t')
  {
    DropVacancyKeepsApplications(t.applications, t.users, t.vacancies, t.resumes, t.nextApplication, t.clock, id);
    DropVacancyKeepsFavorites(t.favorites, t.users, t.vacancies, t.nextFavorite, id);
  }

  // ----- resumes -----

  lemma AddResumeKeeps(t: Tables, t': Tables, r: Resume)
    requires Consistent(t)
    requires r.user in t.users && t.users[r.user].role == Seeker
    requires forall id :: id in t.resumes ==> t.resumes[id].user != r.user
    requires t' == t.(resumes := t.resumes[t.nextResume := r], nextResume := t.nextResume + 1)
    ensures Consistent(t')
  {
    assert t.nextResume !in t.resumes;
  }

  lemma ReplaceResumeKeeps(t: Tables, t': Tables, id: ResumeId, r: Resume)
    requires Consistent(t)
    requires id in t.resumes && r.user == t.resumes[id].user
    requires t' == t.(resumes := t.resumes[id := r])
    ensures Consistent(t')
  {
  }

  lemma DropResumeKeepsApplications(apps: map<ApplicationId, Application>, users: map<UserId, User>,
                                    vacancies: map<VacancyId, Vacancy>, resumes: map<ResumeId, Resume>,
                                    next: nat, clock: nat, id: ResumeId)
    requires ApplicationsOk(apps, users, vacancies, resumes, next, clock)
    ensures ApplicationsOk(Detach(apps, {id}), users, vacancies, resumes - {id}, next, clock)
  {
  }

  lemma DropResumeKeeps(t: Tables, t': Tables, id: ResumeId)
    requires Consistent(t)
    requires t' == t.(resumes := t.resumes - {id}, applications := Detach(t.applications, {id}))
    ensures Consistent(t')
  {
    DropResumeKeepsApplications(t.applications, t.users, t.vacancies, t.resumes, t.nextApplication, t.clock, id);
  }

  // ----- applications and favourites -----

  lemma AddApplicationKeeps(t: Tables, t': Tables, a: Application)
    requires Consistent(t)
    requires a.applicant in t.users && t.users[a.applicant].role == Seeker && a.vacancy in t.vacancies
    requires a.resume.Some? ==> a.resume.value in t.resumes
    requires a.appliedAt == a.updatedAt == t.clock
    requires forall id :: id in t.applications ==>
               !(t.applications[id].applicant == a.applicant && t.applications[id].vacancy == a.vacancy)
    requires t' == t.(applications := t.applications[t.nextApplication := a],
                      nextApplication := t.nextApplication + 1, clock := t.clock + 1)
    ensures Consistent(t')
  {
    assert t.nextApplication !in t.applications;
  }

  lemma MarkKeeps(t: Tables, t': Tables, id: ApplicationId, act: Action)
    requires Consistent(t)
    requires id in t.applications
    requires t' == t.(applications := t.applications[id := Marked(t.applications[id], act, t.clock)],
                      clock := t.clock + 1)
    ensures Consistent(t')
  {
  }

  lemma AddFavoriteKeeps(t: Tables, t': Tables, f: Favorite)
    requires Consistent(t)
    requires f.user in t.users && f.vacancy in t.vacancies
    requires !IsFavorited(t.favorites, f.user, f.vacancy)
    requires t' == t.(favorites := t.favorites[t.nextFavorite := f], nextFavorite := t.nextFavorite + 1,
                      clock := t.clock + 1)
    ensures Consistent(t')
  {
    assert t.nextFavorite !in t.favorites;
  }
}
