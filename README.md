# Job board record store

A Dafny model of the data layer and the authorization rules of a Django job board. The board has:

- users, each either a job seeker or an employer, optionally belonging to a company;
- vacancies, which employers publish;
- resumes, one per seeker;
- applications, which seekers send to vacancies and which move through a small status machine;
- favourites, which are bookmarks of vacancies.

The model follows the code in four parts:

- **Records and their pure helpers** (`Accounts`, `Vacancies`, `Resumes`, `Applications`, `Favorites`, `Profiles`). These are:
  - the role choices and their default;
  - the vacancy defaults, the salary line and the display label;
  - title search ignoring ASCII letter case, and newest-first listing;
  - the resume's `file_url`;
  - the application status machine;
  - the effect of every cascade on each table;
  - the employer profile's set of received applications.
- **The database constraints** (`Integrity`). `Consistent` states that:
  - primary keys are issued in order;
  - every foreign key resolves;
  - `(applicant, vacancy)` and `(user, vacancy)` are unique;
  - every user has at most one resume;
  - vacancy ids follow creation order.

  `Consistent` also records that vacancies are written by employers, and that resumes and applications belong to seekers. No database constraint enforces these three facts. They follow from the role checks of the views and from the fact that no modelled operation changes a role. One lemma per kind of write proves that the write keeps `Consistent`.
- **The store** (`Board.Store`), a class whose map fields the view methods change in place. Each method makes its checks in the same order as the Django REST framework request cycle:
  - create: serializer validation, then the role check in `perform_create`, then the lookup, then the save;
  - update: `get_object`, then validation, then the author or owner check in `perform_update`, then the save;
  - delete: `get_object`, then the author or owner check in `perform_destroy`, then the cascade.

  Each method states the exact error it returns (`PermissionDenied`, `NotFound`, `Invalid`, `Conflict`). A refused request leaves the store unchanged. A successful one produces the new state as a function of the old one. Every method keeps `Valid()`. The methods that touch applications also keep `Evolves`: surviving applications keep their applicant, vacancy, cover letter and application time, and never return to `pending`.
- **Timestamps** (`auto_now`, `auto_now_add`) are readings of a logical `clock`. Every write that stamps a record advances the clock.

Two behaviours follow the code rather than the board's intended design:

- The resume attached to an application is whatever the client sends in `resume_id`. It may be any existing resume, or none. The code does not attach the applicant's own resume automatically.
- No view checks for a duplicate application. The unique `(applicant, vacancy)` constraint refuses it when the record is saved. The model returns `Conflict` and leaves the store unchanged.

## Model

| member | source | states |
|---|---|---|
| Accounts.ParseRole | accounts/models.py:5-8 | exactly the strings `seeker` and `employer` are roles, and each reads back to the name it came from |
| Accounts.RoleNameRoundTrip | accounts/models.py:5-8 | every role's stored name parses back to that role |
| Accounts.NewUser | accounts/models.py:10-11 | a user created without a role is a seeker; a given role and an optional company are kept |
| Accounts.DetachCompany | accounts/models.py:11 | deleting a company removes no user, changes no role, sets the company of each of its employees to null, and leaves the other users untouched |
| Vacancies.Merge | api/serializers.py:7-25 | every whitelisted field that is sent replaces the stored value and every omitted one keeps it; author, views and creation time stay, and `updated_at` is refreshed |
| Vacancies.NewVacancy | api/models.py:39-50 | a created vacancy has the requester as author and 0 views; every field that is sent is stored as sent, and an omitted field takes the model default (currency TJS, salary shown, active, no experience, blank texts, null salaries) |
| Vacancies.Edited | api/serializers.py:27-54 | an update through the full serializer is the merge of the sent fields, except that it can also set `views`; author and creation time are kept |
| Vacancies.DropAuthor | api/models.py:51 | deleting a user removes exactly the vacancies they wrote and leaves the rest unchanged |
| Vacancies.SalaryDisplay | api/models.py:69-78 | a hidden salary reads "by agreement"; otherwise a range iff both amounts are truthy, "from" iff only the lower one is, "up to" iff only the upper one is, "not specified" iff neither is, with the amounts and currency taken from the record |
| Vacancies.HiddenSalaryIgnoresAmounts | api/models.py:70-71 | with the salary hidden, changing the amounts changes nothing |
| Vacancies.ZeroAmountIsAbsent | api/models.py:72-77 | an amount of zero is displayed exactly like a missing amount |
| Vacancies.CompanyOrUnknown | api/models.py:62 | a blank company is named "Unknown Company", and any other company is kept |
| Vacancies.Label | api/models.py:61-63 | the label is the title, then " в ", then the company name or its substitute |
| Vacancies.TitleMatches | api/views.py:55 | `title__icontains`: the search text, with ASCII letters folded to lower case, occurs in the folded title |
| Vacancies.TitleMatchIgnoresCase | api/views.py:55 | the title match does not depend on the ASCII letter case of the title or of the search text |
| Vacancies.NewestFirst | api/views.py:43 | lists every vacancy exactly once, in strictly descending id order |
| Vacancies.TitleFilter | api/views.py:54-55 | keeps exactly the listed vacancies whose title contains the text, ignoring ASCII case; a newest-first input gives a newest-first result |
| Vacancies.FieldsValid | api/models.py:30-39 | the serializer's validation of vacancy input: title of 1 to 200 characters, location of 1 to 150, a non-empty description, a company of at most 200, a currency of 1 to 10, and amounts that fit `max_digits=12` |
| Vacancies.ViewsValid | api/models.py:47 | a `views` value sent on update must lie between 0 and 2147483647 |
| Vacancies.ListQuery | api/views.py:51-56 | the list holds exactly the vacancies matching `t` (ignoring ASCII case) when `t` is present and non-empty, and every vacancy otherwise, newest first |
| Resumes.FullNameValid | api/models.py:83 | a resume's full name must have 1 to 200 characters |
| Resumes.FileUrl | api/models.py:97-101 | `file_url` is null exactly when the resume has no file, and otherwise is the media URL followed by the stored file name |
| Resumes.HasResume | api/models.py:82 | the user owns at least one stored resume |
| Resumes.DropOwner | api/models.py:82 | deleting a user removes exactly their resumes and leaves the rest unchanged |
| Resumes.FindResume | api/models.py:82 | finds a resume of the user if one exists, and returns null only when none does |
| Applications.ParseStatus | api/models.py:106-111 | exactly the four declared names are statuses, and each reads back to its name |
| Applications.StatusNameRoundTrip | api/models.py:106-111 | every status's stored name parses back to that status |
| Applications.Target | api/models.py:134-144 | no transition leads to `pending` |
| Applications.TargetInjective | api/models.py:134-144 | the three transitions lead to three different statuses |
| Applications.NewApplication | api/models.py:113-121 | a new application is `pending`, with the given applicant, vacancy, resume and cover letter, and both timestamps set to now |
| Applications.Marked | api/models.py:134-144 | a transition sets the named status from any status and refreshes `updated_at`; every other field is unchanged |
| Applications.MarkedIdempotent | api/models.py:134-144 | applying the same transition twice equals applying it once, at the later time |
| Applications.RunEndsAtLast | api/models.py:134-144 | after any sequence of transitions, the status is the target of the last one |
| Applications.RunNeverReopens | api/models.py:118 | once an application has left `pending`, no sequence of transitions brings it back |
| Applications.Drop | api/models.py:113-114 | deleting users or vacancies removes exactly the applications sent by those users or sent to those vacancies, and leaves the rest unchanged |
| Applications.Detach | api/models.py:115 | deleting resumes keeps every application, sets to null exactly the references to the deleted resumes, and changes nothing else |
| Applications.HasApplied | api/models.py:124 | some stored application links that applicant and that vacancy |
| Applications.DetachEvolves | api/models.py:115 | deleting a resume keeps the number of applications and every application's history |
| Applications.DropEvolves | api/models.py:113-114 | a cascade only removes applications: every survivor is unchanged, so it keeps its history and is not reopened |
| Applications.DropDetachEvolves | api/models.py:113-115 | deleting a user both removes and detaches applications, and the survivors keep their history |
| Applications.AddEvolves | api/models.py:118 | saving a new application adds a `pending` record and changes no other |
| Applications.MarkEvolves | api/models.py:134-144 | a transition keeps the application's applicant, vacancy, cover letter and application time, and leaves it out of `pending` |
| Favorites.Drop | api/models.py:147-148 | deleting users or vacancies removes exactly their favourites and leaves the rest unchanged |
| Favorites.IsFavorited | api/models.py:160-162 | `is_favorited(user, vacancy)`: some stored favourite links that user and that vacancy |
| Favorites.DropForgets | api/models.py:160-162 | after the cascade `is_favorited` is false for a deleted user or vacancy, and unchanged for every other pair |
| Profiles.Authored | api/serializers.py:113 | the employer's vacancies are exactly those they wrote |
| Profiles.Received | api/serializers.py:120-122 | the employer's applications are exactly those sent to vacancies they wrote |
| Profiles.ReceivedByAuthorOnly | api/serializers.py:120-122 | an application is received by an employer iff that employer wrote its vacancy, so it is received by exactly one employer |
| Profiles.ProfileOf | api/views.py:33-39 | the seeker profile iff the role is seeker, with the user's resume or null; otherwise the employer profile with their vacancies and received applications |
| Integrity.Consistent | api/models.py:113-124 | the tables' constraints: keys below the next key, every foreign key of applications, vacancies, resumes and favourites resolves, unique `(applicant, vacancy)`, unique `(user, vacancy)` and one resume per user, plus the role facts the views maintain |
| Integrity.AddUserKeeps | accounts/models.py:4-11 | creating a user keeps every constraint |
| Integrity.DetachCompanyKeeps | accounts/models.py:11 | deleting a company keeps every constraint |
| Integrity.DropUserKeeps | api/models.py:113-115 | deleting a user together with all of its cascades leaves no dangling reference and keeps every constraint |
| Integrity.AddVacancyKeeps | api/views.py:67-70 | a new vacancy by an employer, stamped now, keeps every constraint, including id order equal to creation order |
| Integrity.ReplaceVacancyKeeps | api/views.py:83-87 | rewriting a vacancy that keeps its author and creation time keeps every constraint |
| Integrity.DropVacancyKeeps | api/models.py:114 | deleting a vacancy with its applications and favourites keeps every constraint |
| Integrity.AddResumeKeeps | api/models.py:82 | a seeker's first resume keeps every constraint, including one resume per user |
| Integrity.ReplaceResumeKeeps | api/views.py:118-122 | rewriting a resume for the same owner keeps every constraint |
| Integrity.DropResumeKeeps | api/models.py:115 | deleting a resume and nulling the references to it keeps every constraint |
| Integrity.AddApplicationKeeps | api/models.py:124 | a seeker's application to an existing vacancy, for a pair not yet applied for, keeps every constraint, including the unique pair |
| Integrity.MarkKeeps | api/models.py:134-144 | a transition keeps every constraint |
| Integrity.AddFavoriteKeeps | api/models.py:152 | a favourite of an existing vacancy, for a pair not yet saved, keeps every constraint, including the unique pair |
| Board.Store.Valid | api/models.py:113-124 | the store's fields satisfy `Consistent` |
| Board.Store.constructor | api/models.py:6-162 | the empty store satisfies every constraint |
| Board.Store.CreateUser | accounts/models.py:10-11 | adds exactly the new user, under a fresh id, and keeps the constraints |
| Board.Store.DeleteUser | api/models.py:51 | removes the user, their vacancies with those vacancies' applications and favourites, their resume (nulling it in others' applications), their applications and their favourites, and nothing else |
| Board.Store.DeleteCompany | accounts/models.py:11 | sets the deleted company's employees' company to null and deletes nobody |
| Board.Store.CreateVacancy | api/views.py:67-70 | invalid input is refused first, then a non-employer gets PermissionDenied with the store unchanged; otherwise the vacancy is added under a fresh id with the requester as author and 0 views |
| Board.Store.IncrementViews | api/models.py:65-67 | the view count rises by exactly one and nothing else changes |
| Board.Store.RetrieveVacancy | api/views.py:77-81 | a missing vacancy gives NotFound; otherwise the count rises by one before the record is returned, and the returned record shows the new count |
| Board.Store.UpdateVacancy | api/views.py:83-87 | NotFound, then Invalid, then PermissionDenied for anyone but the author, each leaving the store unchanged; otherwise the record becomes the merge of the input |
| Board.Store.DeleteVacancy | api/views.py:89-92 | NotFound, then PermissionDenied for anyone but the author, each leaving the store unchanged; otherwise the vacancy and exactly its applications and favourites are removed |
| Board.Store.VacancyList | api/views.py:51-56 | the listed vacancies are exactly those matching the search text (ignoring ASCII case), with strictly decreasing creation times |
| Board.Store.CreateResume | api/views.py:107-110 | Invalid, then PermissionDenied for a non-seeker, then Conflict for a second resume, each leaving the store unchanged; otherwise adds a resume owned by the requester, with no file |
| Board.Store.UpdateResume | api/views.py:118-122 | NotFound, then Invalid, then PermissionDenied for anyone but the owner; otherwise only the full name changes |
| Board.Store.DeleteResume | api/views.py:124-127 | NotFound, then PermissionDenied for anyone but the owner; otherwise the resume is removed and every application keeps existing with the reference nulled |
| Board.Store.CreateApplication | api/views.py:134-138 | a missing `resume_id` target gives Invalid, then a non-seeker gets PermissionDenied before the vacancy lookup, then NotFound, then Conflict for a repeated pair, each leaving the store unchanged; otherwise a `pending` application from the requester to that vacancy is added |
| Board.Store.Mark | api/models.py:134-144 | exactly one application changes, to the transition's target status with a fresh `updated_at` |
| Board.Store.MarkReviewed | api/models.py:134-136 | the application becomes `reviewed`, whatever its status was |
| Board.Store.MarkAccepted | api/models.py:138-140 | the application becomes `accepted`, whatever its status was |
| Board.Store.MarkRejected | api/models.py:142-144 | the application becomes `rejected`, whatever its status was |
| Board.Store.AddFavorite | api/serializers.py:170-172 | a `vacancy_id` naming no vacancy gives Invalid, a repeated pair gives Conflict, each leaving the store unchanged; otherwise the favourite is added, and afterwards the pair is favourited |
| Board.Store.UserProfile | api/views.py:33-39 | the seeker profile iff the user is a seeker, holding their resume iff they have one; otherwise the employer profile, with exactly the vacancies the user wrote and exactly the applications sent to them |

## Left out

- Authentication, tokens and logins (accounts/views.py, accounts/tokens.py): the acting user is a parameter and is assumed to be an existing, authenticated user. Anonymous writes are refused by `IsAuthenticatedOrReadOnly` before any modelled code runs.
- The application list view, the accept, reject and review views, and the favourite views, which the URL table imports: they are not defined in api/views.py. The `mark_*` methods carry no ownership guard, and none is added.
- Favourites: only the saving of a favourite is modelled. There is no toggle or removal to model, and the default `-added_at` ordering of favourite lists is not modelled.
- Companies: the Company model and serializer are not part of this model. A company is only an id that users may reference. Its list, create and detail views are left out.
- The resume list (api/views.py:96-105) filters on `is_active` and `skills`. Neither field exists on `Resume`, and the list is not modelled. As written, api/views.py cannot be imported: `from .models import Company` at api/views.py:6 fails first, because api/models.py defines no `Company`, and the serializer imports at api/views.py:14-23 name `CompanyWithVacanciesSerializer`, which api/serializers.py does not define. Were those imports fixed, the class attribute `queryset` at api/views.py:96 would fail next, since Django resolves the field names of a `filter` eagerly. So no view of api/views.py can be served. The `Board.Store` methods, `Board.Store.CreateResume` included, model the views as they are evidently intended to work.
- The admin configuration, the migrations and the URL routing table.
- The date filter `d` of the vacancy list, which parses dates with `strptime` and compares calendar components.
- File uploads: the file name is kept, the extension validator is not modelled, and the storage backend's media URL is a parameter of `FileUrl`.
- The title search folds ASCII letters only, as SQLite's `LIKE` does. On a database that also folds other scripts, such as PostgreSQL's `UPPER(..) LIKE UPPER(..)`, a Cyrillic title would match a search in the other case; the model does not capture that.
- `show_salary` and `is_active` take their model defaults when omitted only for JSON request bodies. For form-encoded requests the serializer reads an omitted boolean as false, and that case is not modelled.
- The employer profile lists its vacancies as a set of ids, so the `-created_at` ordering of `user.vacancies` (api/models.py:56) is not modelled there.
- Salary amounts are integers in minor units. Decimal formatting is not modelled: `SalaryDisplay` returns which form is shown, together with its amounts and currency.
- Serializer validation is reduced to required, non-blank and length checks and to the amount bound of `max_digits=12`. Leading and trailing whitespace is not trimmed, and `PATCH` partial updates are not modelled (an update sends the required fields).
- Role strings outside the two declared choices cannot be represented. The profile view would give such a user the employer profile.
- Board.Store.IncrementViews: the view count is unbounded, so it does not model the database's 32-bit column limit. The atomic `F("views") + 1` update is a sequential `+1`, because concurrent requests are not modelled.
- Board.Store.CreateApplication, Board.Store.CreateResume and Board.Store.AddFavorite: a uniqueness violation is modelled as `Conflict`. The code does not catch the resulting database `IntegrityError`, so the client sees a server error.
- Resumes.FileUrl: the URL is modelled as the media URL followed by the raw file name. The percent-encoding of the name and the URL joining that the storage backend applies are not modelled.
- Wall-clock times are a logical counter. Only their order is modelled.
