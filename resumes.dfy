/** The Resume model of api/models.py: one resume per user, a full name and an uploaded file. */
module Resumes {
  import opened Wrappers
  import opened Accounts

  type ResumeId = nat

  /** `file` is the stored file name; the empty name is a FileField with no file. */
  datatype Resume = Resume(user: UserId, fullName: string, file: string)

  /** Serializer validation of `full_name`: required, non-blank, at most 200 characters. */
  predicate FullNameValid(name: string) {
    0 < |name| <= 200
  }

  /**
   * The exposed `file_url`: null exactly when there is no file, otherwise the
   * storage URL, which the storage backend forms from its media URL `mediaUrl`
   * and the file name.
   */
  function FileUrl(r: Resume, mediaUrl: string): (url: Option<string>)
    ensures url.None? <==> r.file == ""
    ensures url.Some? ==> url.value == mediaUrl + r.file
  {
    if r.file != "" then Some(mediaUrl + r.file) else None
  }

  /** The resumes of user `u`; at most one where resumes are unique per user. */
  function OwnedBy(rs: map<ResumeId, Resume>, u: UserId): (r: set<ResumeId>)
    ensures forall id :: id in r <==> id in rs && rs[id].user == u
  {
    set id | id in rs && rs[id].user == u
  }

  /** User `u` has a resume (the reverse one-to-one accessor `user.resume` is not empty). */
  predicate HasResume(rs: map<ResumeId, Resume>, u: UserId) {
    OwnedBy(rs, u) != {}
  }

  /** The cascade of deleting user `u` on the resumes (on_delete=CASCADE on `user`). */
  function DropOwner(rs: map<ResumeId, Resume>, u: UserId): (r: map<ResumeId, Resume>)
    ensures forall id :: id in r <==> id in rs && rs[id].user != u
    ensures forall id :: id in r ==> r[id] == rs[id]
  {
    map id | id in rs && rs[id].user != u :: rs[id]
  }

  /**
   * The reverse one-to-one accessor `user.resume`, searching the ids below
   * `n`: the resume of `u` if there is one, null otherwise.
   */
  function FindResume(rs: map<ResumeId, Resume>, u: UserId, n: nat): (r: Option<ResumeId>)
    ensures r.Some? ==> r.value in rs && r.value < n && rs[r.value].user == u
    ensures r.None? ==> forall id :: id in rs && id < n ==> rs[id].user != u
    decreases n
  {
    if n == 0 then None
    else if n - 1 in rs && rs[n - 1].user == u then Some(n - 1)
    else FindResume(rs, u, n - 1)
  }
}
