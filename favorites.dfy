/** The FavoriteVacancy model of api/models.py: a user's bookmark of a vacancy. */
module Favorites {
  import opened Accounts
  import opened Vacancies

  type FavoriteId = nat

  datatype Favorite = Favorite(user: UserId, vacancy: VacancyId, addedAt: nat)

  /** `FavoriteVacancy.is_favorited(user, vacancy)`: some stored favourite links the two. */
  predicate IsFavorited(favs: map<FavoriteId, Favorite>, u: UserId, v: VacancyId) {
    exists id :: id in favs && favs[id].user == u && favs[id].vacancy == v
  }

  /**
   * The cascade of deleting the users in `users` and the vacancies in `vs`:
   * exactly the favourites of one of those users or of one of those
   * vacancies are removed, the rest are unchanged.
   */
  function Drop(favs: map<FavoriteId, Favorite>, users: set<UserId>, vs: set<VacancyId>)
    : (r: map<FavoriteId, Favorite>)
    ensures forall id :: id in r <==> id in favs && favs[id].user !in users && favs[id].vacancy !in vs
    ensures forall id :: id in r ==> r[id] == favs[id]
  {
    map id | id in favs && favs[id].user !in users && favs[id].vacancy !in vs :: favs[id]
  }

  /** After the cascade no favourite of a deleted vacancy is left, and the others are still favourites. */
  lemma DropForgets(favs: map<FavoriteId, Favorite>, users: set<UserId>, vs: set<VacancyId>,
                    u: UserId, v: VacancyId)
    ensures (u in users || v in vs) ==> !IsFavorited(Drop(favs, users, vs), u, v)
    ensures (u !in users && v !in vs) ==> (IsFavorited(Drop(favs, users, vs), u, v) <==> IsFavorited(favs, u, v))
  {
    if u !in users && v !in vs && IsFavorited(favs, u, v) {
      var id :| id in favs && favs[id].user == u && favs[id].vacancy == v;
      assert id in Drop(favs, users, vs);
    }
  }
}
