/** The favourite mirror of app.js: the optimistic flip of one shop id, and the
    per-user favourite sets held by the store (`users/{uid}/favorites`). */
module Favorites {
  import opened Catalog
  import opened Submissions

  /** One toggle of `shopId`: removed when present, added when absent. */
  function Flip(favs: set<ShopId>, shopId: ShopId): (r: set<ShopId>)
    ensures shopId in r <==> shopId !in favs
    ensures forall x :: x != shopId ==> (x in r <==> x in favs)
  {
    if shopId in favs then favs - {shopId} else favs + {shopId}
  }

  /** Two toggles of the same id give back the set they started from. */
  lemma FlipTwice(favs: set<ShopId>, shopId: ShopId)
    ensures Flip(Flip(favs, shopId), shopId) == favs
  {
  }

  /** The ids stored under `users/{uid}/favorites`; a user without documents has none. */
  function FavoritesOf(store: map<Uid, set<ShopId>>, uid: Uid): set<ShopId> {
    if uid in store then store[uid] else {}
  }
}
