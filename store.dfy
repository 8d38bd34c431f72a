/**
 * The record store behind the job board's views: users, vacancies, resumes,
 * applications and favourites, the database constraints that hold between
 * them, and the guarded operations of api/views.py.
 *
 * Every request that changes the store comes from an authenticated user
 * (the views' IsAuthenticatedOrReadOnly permission turns anonymous writes
 * away before any of the code modelled here runs), so the acting user is
 * an existing user id. Wall-clock timestamps are readings of `clock`, which
 * every write that stamps a record advances.
 */
module Board {
  import opened Wrappers
  import opened Accounts
  import opened Vacancies
  import opened Resumes
  import opened Applications
  import opened Favorites
  import opened Profiles
  import opened Integrity

  /** The application creation input: ApplicationCreateSerializer's two writable fields. */
  datatype ApplicationInput = ApplicationInput(resumeId: Option<ResumeId>, coverLetter: Option<string>)

  class Store {
    var users: map<UserId, User>
    var vacancies: map<VacancyId, Vacancy>
    var resumes: map<ResumeId, Resume>
    var applications: map<ApplicationId, Application>
    var favorites: map<FavoriteId, Favorite>
    // the next primary key of each table
    var nextUser: nat
    var nextVacancy: nat
    var nextResume: nat
    var nextApplication: nat
    var nextFavorite: nat
    var clock: nat

    /** The store's fields, as the value the constraints are stated over. */
    ghost function Tables(): Integrity.Tables
      reads this
    {
      Integrity.Tables(users, vacancies, resumes, applications, favorites,
                       nextUser, nextVacancy, nextResume, nextApplication, nextFavorite, clock)
    }

    ghost predicate Valid()
      reads this
    {
      Consistent(Tables())
    }

    constructor ()
      ensures Valid()
      ensures users == map[] && vacancies == map[] && resumes == map[]
      ensures applications == map[] && favorites == map[]
    {
      users, vacancies, resumes, applications, favorites := map[], map[], map[], map[], map[];
      nextUser, nextVacancy, nextResume, nextApplication, nextFavorite := 0, 0, 0, 0, 0;
      clock := 0;
    }

    // ----- users and companies -----

    /** Saving a new user: the role defaults to seeker and the company may be null. */
    method CreateUser(role: Option<Role>, company: Option<CompanyId>) returns (id: UserId)
      requires Valid()
      modifies this`users, this`nextUser
      ensures Valid()
      ensures id == old(nextUser) && id !in old(users)
      ensures users == old(users)[id := NewUser(role, company)]
    {
      ghost var t := Tables();
      id := nextUser;
      users := users[id := NewUser(role, company)];
      nextUser := nextUser + 1;
      AddUserKeeps(t, Tables(), NewUser(role, company));
    }

    /**
     * Deleting user `u` and everything that cascades from it: the vacancies
     * `u` wrote together with their applications and favourites, the resume
     * of `u` (applications of others that attached it keep a null resume),
     * the applications `u` sent and the favourites of `u`.
     */
    method DeleteUser(u: UserId)
      requires Valid() && u in users
      modifies this`users, this`vacancies, this`resumes, this`applications, this`favorites
      ensures Valid()
      ensures users == old(users) - {u}
      ensures vacancies == DropAuthor(old(vacancies), u)
      ensures resumes == DropOwner(old(resumes), u)
      ensures applications ==
                Detach(Applications.Drop(old(applications), {u}, Authored(old(vacancies), u)), OwnedBy(old(resumes), u))
      ensures favorites == Favorites.Drop(old(favorites), {u}, Authored(old(vacancies), u))
      ensures Evolves(old(applications), applications)
    {
      ghost var t := Tables();
      DropDetachEvolves(applications, {u}, Authored(vacancies, u), OwnedBy(resumes, u));
      var mine := Authored(vacancies, u);
      var own := OwnedBy(resumes, u);
      applications := Detach(Applications.Drop(applications, {u}, mine), own);
      favorites := Favorites.Drop(favorites, {u}, mine);
      resumes := DropOwner(resumes, u);
      vacancies := DropAuthor(vacancies, u);
      users := users - {u};
      DropUserKeeps(t, Tables(), u);
    }

    /** Deleting company `c`: its employees stay, with a null company. */
    method DeleteCompany(c: CompanyId)
      requires Valid()
      modifies this`users
      ensures Valid()
      ensures users == DetachCompany(old(users), c)
    {
      ghost var t := Tables();
      users := DetachCompany(users, c);
      DetachCompanyKeeps(t, Tables(), c);
    }

    // ----- vacancies -----

    /** `VacancyListCreateView` POST: validation, then the employer-only check, then the save. */
    method CreateVacancy(actor: UserId, f: VacancyFields) returns (res: Result<VacancyId>)
      requires Valid() && actor in users
      modifies this`vacancies, this`nextVacancy, this`clock
      ensures Valid()
      ensures res == (if !FieldsValid(f) then Err(Invalid)
                      else if old(users)[actor].role != Employer then Err(PermissionDenied)
                      else Ok(old(nextVacancy)))
      ensures res.Err? ==> unchanged(this)
      ensures res.Ok? ==> res.value !in old(vacancies)
                          && vacancies == old(vacancies)[res.value := NewVacancy(f, actor, old(clock))]
    {
      if !FieldsValid(f) {
        return Err(Invalid);
      }
      if users[actor].role != Employer {
        return Err(PermissionDenied);
      }
      ghost var t := Tables();
      var id := nextVacancy;
      vacancies := vacancies[id := NewVacancy(f, actor, clock)];
      nextVacancy := nextVacancy + 1;
      clock := clock + 1;
      AddVacancyKeeps(t, Tables(), NewVacancy(f, actor, t.clock));
      res := Ok(id);
    }

    /** `Vacancy.increment_views`: one more view, and nothing else changes (not even `updated_at`). */
    method IncrementViews(id: VacancyId)
      requires Valid() && id in vacancies
      modifies this`vacancies
      ensures Valid()
      ensures vacancies == old(vacancies)[id := old(vacancies)[id].(views := old(vacancies)[id].views + 1)]
    {
      ghost var t := Tables();
      vacancies := vacancies[id := vacancies[id].(views := vacancies[id].views + 1)];
      ReplaceVacancyKeeps(t, Tables(), id, vacancies[id], clock);
    }

    /** `VacancyRetrieveUpdateDeleteView.retrieve`: open to anyone; the view is counted before the answer. */
    method RetrieveVacancy(id: VacancyId) returns (res: Result<Vacancy>)
      requires Valid()
      modifies this`vacancies
      ensures Valid()
      ensures id !in old(vacancies) ==> res == Err(NotFound) && unchanged(this)
      ensures id in old(vacancies) ==>
                && vacancies == old(vacancies)[id := old(vacancies)[id].(views := old(vacancies)[id].views + 1)]
                && res == Ok(vacancies[id])
    {
      if id !in vacancies {
        return Err(NotFound);
      }
      IncrementViews(id);
      res := Ok(vacancies[id]);
    }

    /**
     * Updating vacancy `id`: the lookup, then serializer validation, then the
     * author-only check, then the save.
     */
    method UpdateVacancy(actor: UserId, id: VacancyId, f: VacancyFields, views: Option<int>)
      returns (res: Result<()>)
      requires Valid() && actor in users
      modifies this`vacancies, this`clock
      ensures Valid()
      ensures res == (if id !in old(vacancies) then Err(NotFound)
                      else if !FieldsValid(f) || !ViewsValid(views) then Err(Invalid)
                      else if old(vacancies)[id].author != actor then Err(PermissionDenied)
                      else Ok(()))
      ensures res.Err? ==> unchanged(this)
      ensures res.Ok? ==> vacancies == old(vacancies)[id := Edited(old(vacancies)[id], f, views, old(clock))]
    {
      if id !in vacancies {
        return Err(NotFound);
      }
      if !FieldsValid(f) || !ViewsValid(views) {
        return Err(Invalid);
      }
      if vacancies[id].author != actor {
        return Err(PermissionDenied);
      }
      ghost var t := Tables();
      vacancies := vacancies[id := Edited(vacancies[id], f, views, clock)];
      clock := clock + 1;
      ReplaceVacancyKeeps(t, Tables(), id, vacancies[id], clock);
      res := Ok(());
    }

    /** Deleting vacancy `id`: author only; its applications and favourites go with it. */
    method DeleteVacancy(actor: UserId, id: VacancyId) returns (res: Result<()>)
      requires Valid() && actor in users
      modifies this`vacancies, this`applications, this`favorites
      ensures Valid()
      ensures res == (if id !in old(vacancies) then Err(NotFound)
                      else if old(vacancies)[id].author != actor then Err(PermissionDenied)
                      else Ok(()))
      ensures res.Err? ==> unchanged(this)
      ensures res.Ok? ==> && vacancies == old(vacancies) - {id}
                          && applications == Applications.Drop(old(applications), {}, {id})
                          && favorites == Favorites.Drop(old(favorites), {}, {id})
      ensures Evolves(old(applications), applications)
    {
      if id !in vacancies {
        return Err(NotFound);
      }
      if vacancies[id].author != actor {
        return Err(PermissionDenied);
      }
      ghost var t := Tables();
      DropEvolves(applications, {}, {id});
      applications := Applications.Drop(applications, {}, {id});
      favorites := Favorites.Drop(favorites, {}, {id});
      vacancies := vacancies - {id};
      DropVacancyKeeps(t, Tables(), id);
      res := Ok(());
    }

    /**
     * `VacancyListCreateView.get_queryset` without the date filter: exactly
     * the vacancies whose title contains `t` ignoring case (all of them when
     * `t` is absent or empty), newest first.
     */
    function VacancyList(t: Option<string>): (r: seq<VacancyId>)
      reads this
      requires Valid()
      ensures forall id :: id in r <==> id in vacancies && (Given(t) ==> TitleMatches(vacancies[id].title, t.value))
      ensures forall i, j :: 0 <= i < j < |r| ==>
                r[i] in vacancies && r[j] in vacancies && vacancies[r[i]].createdAt > vacancies[r[j]].createdAt
    {
      ListQuery(vacancies, nextVacancy, t)
    }

    // ----- resumes -----

    /**
     * `ResumeListCreateView` POST: validation, then the seeker-only check,
     * then the save; a second resume for the same user is refused by the
     * one-to-one constraint. The reading serializer has no `file` field, so
     * the new resume has no file.
     */
    method CreateResume(actor: UserId, fullName: string) returns (res: Result<ResumeId>)
      requires Valid() && actor in users
      modifies this`resumes, this`nextResume
      ensures Valid()
      ensures res == (if !FullNameValid(fullName) then Err(Invalid)
                      else if old(users)[actor].role != Seeker then Err(PermissionDenied)
                      else if HasResume(old(resumes), actor) then Err(Conflict)
                      else Ok(old(nextResume)))
      ensures res.Err? ==> unchanged(this)
      ensures res.Ok? ==> res.value !in old(resumes)
                          && resumes == old(resumes)[res.value := Resume(actor, fullName, "")]
    {
      if !FullNameValid(fullName) {
        return Err(Invalid);
      }
      if users[actor].role != Seeker {
        return Err(PermissionDenied);
      }
      if HasResume(resumes, actor) {
        return Err(Conflict);
      }
      ghost var t := Tables();
      var id := nextResume;
      resumes := resumes[id := Resume(actor, fullName, "")];
      nextResume := nextResume + 1;
      AddResumeKeeps(t, Tables(), Resume(actor, fullName, ""));
      res := Ok(id);
    }

    /** Updating resume `id`: the lookup, then validation, then the owner-only check, then the save. */
    method UpdateResume(actor: UserId, id: ResumeId, fullName: string) returns (res: Result<()>)
      requires Valid() && actor in users
      modifies this`resumes
      ensures Valid()
      ensures res == (if id !in old(resumes) then Err(NotFound)
                      else if !FullNameValid(fullName) then Err(Invalid)
                      else if old(resumes)[id].user != actor then Err(PermissionDenied)
                      else Ok(()))
      ensures res.Err? ==> unchanged(this)
      ensures res.Ok? ==> resumes == old(resumes)[id := old(resumes)[id].(fullName := fullName)]
    {
      if id !in resumes {
        return Err(NotFound);
      }
      if !FullNameValid(fullName) {
        return Err(Invalid);
      }
      if resumes[id].user != actor {
        return Err(PermissionDenied);
      }
      ghost var t := Tables();
      resumes := resumes[id := resumes[id].(fullName := fullName)];
      ReplaceResumeKeeps(t, Tables(), id, resumes[id]);
      res := Ok(());
    }

    /** Deleting resume `id`: owner only; applications that attached it stay, with a null resume. */
    method DeleteResume(actor: UserId, id: ResumeId) returns (res: Result<()>)
      requires Valid() && actor in users
      modifies this`resumes, this`applications
      ensures Valid()
      ensures res == (if id !in old(resumes) then Err(NotFound)
                      else if old(resumes)[id].user != actor then Err(PermissionDenied)
                      else Ok(()))
      ensures res.Err? ==> unchanged(this)
      ensures res.Ok? ==> resumes == old(resumes) - {id} && applications == Detach(old(applications), {id})
      ensures applications.Keys == old(applications).Keys
      ensures Evolves(old(applications), applications)
    {
      if id !in resumes {
        return Err(NotFound);
      }
      if resumes[id].user != actor {
        return Err(PermissionDenied);
      }
      ghost var t := Tables();
      DetachEvolves(applications, {id});
      applications := Detach(applications, {id});
      resumes := resumes - {id};
      DropResumeKeeps(t, Tables(), id);
      res := Ok(());
    }

    // ----- applications -----

    /**
     * `ApplicationCreateView` POST: serializer validation (an attached
     * resume must exist, any existing resume will do), then the seeker-only
     * check, then the vacancy lookup, then the save with the requester as
     * applicant; a second application for the same pair is refused by the
     * unique (applicant, vacancy) constraint.
     */
    method CreateApplication(actor: UserId, vacancyId: VacancyId, input: ApplicationInput)
      returns (res: Result<ApplicationId>)
      requires Valid() && actor in users
      modifies this`applications, this`nextApplication, this`clock
      ensures Valid()
      ensures res == (if input.resumeId.Some? && input.resumeId.value !in old(resumes) then Err(Invalid)
                      else if old(users)[actor].role != Seeker then Err(PermissionDenied)
                      else if vacancyId !in old(vacancies) then Err(NotFound)
                      else if HasApplied(old(applications), actor, vacancyId) then Err(Conflict)
                      else Ok(old(nextApplication)))
      ensures res.Err? ==> unchanged(this)
      ensures res.Ok? ==>
                && res.value !in old(applications)
                && applications == old(applications)[res.value :=
                     NewApplication(actor, vacancyId, input.resumeId, input.coverLetter.GetOr(""), old(clock))]
      ensures Evolves(old(applications), applications)
    {
      if input.resumeId.Some? && input.resumeId.value !in resumes {
        return Err(Invalid);
      }
      if users[actor].role != Seeker {
        return Err(PermissionDenied);
      }
      if vacancyId !in vacancies {
        return Err(NotFound);
      }
      if HasApplied(applications, actor, vacancyId) {
        return Err(Conflict);
      }
      ghost var t := Tables();
      var id := nextApplication;
      var a := NewApplication(actor, vacancyId, input.resumeId, input.coverLetter.GetOr(""), clock);
      AddEvolves(applications, id, a);
      applications := applications[id := a];
      nextApplication := nextApplication + 1;
      clock := clock + 1;
      AddApplicationKeeps(t, Tables(), a);
      res := Ok(id);
    }

    /** The common step of `mark_reviewed`, `mark_accepted` and `mark_rejected`. */
    method Mark(id: ApplicationId, act: Action)
      requires Valid() && id in applications
      modifies this`applications, this`clock
      ensures Valid()
      ensures applications == old(applications)[id := Marked(old(applications)[id], act, old(clock))]
      ensures Evolves(old(applications), applications)
    {
      ghost var t := Tables();
      MarkEvolves(applications, id, act, clock);
      applications := applications[id := Marked(applications[id], act, clock)];
      clock := clock + 1;
      MarkKeeps(t, Tables(), id, act);
    }

    /** `Application.mark_reviewed`. */
    method MarkReviewed(id: ApplicationId)
      requires Valid() && id in applications
      modifies this`applications, this`clock
      ensures Valid()
      ensures applications == old(applications)[id := old(applications)[id].(status := Reviewed, updatedAt := old(clock))]
      ensures Evolves(old(applications), applications)
    {
      Mark(id, Review);
    }

    /** `Application.mark_accepted`. */
    method MarkAccepted(id: ApplicationId)
      requires Valid() && id in applications
      modifies this`applications, this`clock
      ensures Valid()
      ensures applications == old(applications)[id := old(applications)[id].(status := Accepted, updatedAt := old(clock))]
      ensures Evolves(old(applications), applications)
    {
      Mark(id, Accept);
    }

    /** `Application.mark_rejected`. */
    method MarkRejected(id: ApplicationId)
      requires Valid() && id in applications
      modifies this`applications, this`clock
      ensures Valid()
      ensures applications == old(applications)[id := old(applications)[id].(status := Rejected, updatedAt := old(clock))]
      ensures Evolves(old(applications), applications)
    {
      Mark(id, Reject);
    }

    // ----- favourites -----

    /**
     * Saving a favourite through FavoriteVacancySerializer: `vacancy_id` must
     * name an existing vacancy, and a second favourite for the same pair is
     * refused by the unique (user, vacancy) constraint.
     */
    method AddFavorite(actor: UserId, vacancyId: VacancyId) returns (res: Result<FavoriteId>)
      requires Valid() && actor in users
      modifies this`favorites, this`nextFavorite, this`clock
      ensures Valid()
      ensures res == (if vacancyId !in old(vacancies) then Err(Invalid)
                      else if IsFavorited(old(favorites), actor, vacancyId) then Err(Conflict)
                      else Ok(old(nextFavorite)))
      ensures res.Err? ==> unchanged(this)
      ensures res.Ok? ==> res.value !in old(favorites)
                          && favorites == old(favorites)[res.value := Favorite(actor, vacancyId, old(clock))]
      ensures vacancyId in vacancies ==> IsFavorited(favorites, actor, vacancyId)
    {
      if vacancyId !in vacancies {
        return Err(Invalid);
      }
      if IsFavorited(favorites, actor, vacancyId) {
        return Err(Conflict);
      }
      ghost var t := Tables();
      var id := nextFavorite;
      favorites := favorites[id := Favorite(actor, vacancyId, clock)];
      assert favorites[id].user == actor && favorites[id].vacancy == vacancyId;
      nextFavorite := nextFavorite + 1;
      clock := clock + 1;
      AddFavoriteKeeps(t, Tables(), Favorite(actor, vacancyId, t.clock));
      res := Ok(id);
    }

    // ----- the profile -----

    /**
     * `UserProfileView.get` for user `u`: the seeker profile iff `u` is a
     * seeker, with the resume of `u` or null; otherwise the employer profile,
     * listing the vacancies `u` wrote and exactly the applications sent to them.
     */
    function UserProfile(u: UserId): (p: Profile)
      reads this
      requires Valid() && u in users
      ensures p.user == u
      ensures p.SeekerProfile? <==> users[u].role == Seeker
      ensures p.SeekerProfile? ==> (p.resume.Some? <==> HasResume(resumes, u))
      ensures p.SeekerProfile? && p.resume.Some? ==> p.resume.value in resumes && resumes[p.resume.value].user == u
      ensures p.EmployerProfile? ==> p.vacancies == Authored(vacancies, u)
      ensures p.EmployerProfile? ==>
                forall a :: a in p.applications <==> a in applications && vacancies[applications[a].vacancy].author == u
    {
      ProfileOf(u, users[u], vacancies, resumes, applications, nextResume)
    }
  }
}
