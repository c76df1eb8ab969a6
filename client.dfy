/** The module-level state of app.js and the operations that change it: the
    signed-in user, the last-submit timestamp kept in local storage, the in-memory
    favourite set, and in-memory stand-ins for the `shops`, `submissions` and
    `users/{uid}/favorites` collections. The clock, the id the store gives a new
    document, server timestamps and whether each remote write succeeds are
    parameters. */
module Client {
  import opened Wrappers
  import opened Keys
  import opened Catalog
  import opened Submissions
  import opened Favorites

  /** What the client's own writes keep true of the submission store: every record's
      keys match its fields, and nobody has more than the limit pending. */
  ghost predicate StoreInvariant(subs: map<SubmissionId, Submission>) {
    && (forall id :: id in subs ==> KeysMatch(subs[id]))
    && (forall u :: PendingCount(subs, u) <= PENDING_LIMIT_PER_USER)
  }

  /** Adding a pending record of a user who was under the limit keeps the invariant. */
  lemma AddKeepsInvariant(subs: map<SubmissionId, Submission>, id: SubmissionId, rec: Submission)
    requires StoreInvariant(subs) && id !in subs
    requires KeysMatch(rec) && PendingCount(subs, rec.submittedByUid) < PENDING_LIMIT_PER_USER
    ensures StoreInvariant(subs[id := rec])
  {
    var after := subs[id := rec];
    forall u
      ensures PendingCount(after, u) <= PENDING_LIMIT_PER_USER
    {
      PendingCountInsert(subs, id, rec, u);
    }
  }

  /** What `submitNewShop` leaves behind once its guards have given the verdict `v`:
      a refusal or a failed write changes neither the store (`subs0` stays `subs`) nor
      the cooldown timestamp (`ts0` stays `ts`); an accepted submission whose write
      succeeds adds exactly the verdict's record under `newId` and only then moves
      the timestamp to `now`. */
  predicate SubmitEffect(
    v: Result<Submission, Error>, writeOk: bool, newId: SubmissionId, now: int,
    subs0: map<SubmissionId, Submission>, ts0: int,
    subs: map<SubmissionId, Submission>, ts: int, r: Result<SubmissionId, Error>)
  {
    match v
    case Err(e) => r == Err(e) && subs == subs0 && ts == ts0
    case Ok(rec) =>
      if writeOk then r == Ok(newId) && subs == subs0[newId := rec] && ts == now
      else r == Err(WriteFailed) && subs == subs0 && ts == ts0
  }

  class App {
    var currentUser: Option<Uid>
    var lastSubmitTs: int
    var favSet: set<ShopId>
    var shops: seq<Row>
    var submissions: map<SubmissionId, Submission>
    var favorites: map<Uid, set<ShopId>>

    /** A fresh page: nobody signed in, an empty favourite set, and the stored
        timestamp read as `Number(localStorage.getItem(...) || "0")`. */
    constructor (catalog: seq<Row>, subs: map<SubmissionId, Submission>,
                 favStore: map<Uid, set<ShopId>>, storedTs: Option<int>)
      ensures currentUser == None && favSet == {}
      ensures shops == catalog && submissions == subs && favorites == favStore
      ensures lastSubmitTs == storedTs.GetOr(0)
    {
      currentUser := None;
      lastSubmitTs := storedTs.GetOr(0);
      favSet := {};
      shops := catalog;
      submissions := subs;
      favorites := favStore;
    }

    // -------------------------------------------------------------------------
    // Favourites
    // -------------------------------------------------------------------------

    /** `startWatchFavorites`: without a user the mirror is emptied; with one, the
        mirror keeps its value until the subscription delivers a snapshot. */
    method StartWatchFavorites()
      modifies this`favSet
      ensures currentUser.None? ==> favSet == {}
      ensures currentUser.Some? ==> favSet == old(favSet)
    {
      if currentUser.None? {
        favSet := {};
      }
    }

    /** The snapshot callback: the mirror is replaced wholesale by the ids of the
        delivered documents. */
    method OnFavoritesSnapshot(docIds: seq<ShopId>)
      modifies this`favSet
      ensures forall x :: x in favSet <==> x in docIds
    {
      favSet := set x | x in docIds;
    }

    /** The snapshot callback when the delivered documents are the signed-in user's
        stored favourites: the mirror becomes exactly that stored set. */
    method OnOwnFavoritesSnapshot()
      requires currentUser.Some?
      modifies this`favSet
      ensures favSet == FavoritesOf(favorites, currentUser.value)
    {
      favSet := FavoritesOf(favorites, currentUser.value);
    }

    /** The `onAuthStateChanged` handler: records the user and restarts the watch. */
    method OnAuthStateChanged(user: Option<Uid>)
      modifies this`currentUser, this`favSet
      ensures currentUser == user
      ensures user.None? ==> favSet == {}
      ensures user.Some? ==> favSet == old(favSet)
    {
      currentUser := user;
      StartWatchFavorites();
    }

    /** `toggleFav`: without a user nothing changes. Otherwise the id is flipped in the
        mirror at once; the remote document is written (deleted when the id was in the
        mirror, created when it was not), and when that write fails the flip is undone,
        leaving exactly the set from before the toggle. */
    method ToggleFav(shopId: ShopId, writeOk: bool) returns (o: Outcome<Error>)
      modifies this`favSet, this`favorites
      ensures currentUser.None? ==>
        o == Fail(LoginRequired) && favSet == old(favSet) && favorites == old(favorites)
      ensures currentUser.Some? && !writeOk ==>
        o == Fail(WriteFailed) && favSet == old(favSet) && favorites == old(favorites)
      ensures currentUser.Some? && writeOk ==>
        && o == Pass
        && favSet == Flip(old(favSet), shopId)
        && favorites == old(favorites)[currentUser.value :=
             if shopId in old(favSet) then FavoritesOf(old(favorites), currentUser.value) - {shopId}
             else FavoritesOf(old(favorites), currentUser.value) + {shopId}]
      // a mirror that agreed with the stored favourites still agrees, whether or not the write succeeded
      ensures currentUser.Some? && old(favSet) == FavoritesOf(old(favorites), currentUser.value) ==>
        favSet == FavoritesOf(favorites, currentUser.value)
    {
      if currentUser.None? {
        return Fail(LoginRequired);
      }
      var uid := currentUser.value;
      var existed := shopId in favSet;

      // optimistic update
      if existed {
        favSet := favSet - {shopId};
      } else {
        favSet := favSet + {shopId};
      }

      if writeOk {
        if existed {
          favorites := favorites[uid := FavoritesOf(favorites, uid) - {shopId}];
        } else {
          favorites := favorites[uid := FavoritesOf(favorites, uid) + {shopId}];
        }
        o := Pass;
      } else {
        // roll back
        if existed {
          favSet := favSet + {shopId};
        } else {
          favSet := favSet - {shopId};
        }
        o := Fail(WriteFailed);
      }
    }

    /** `fetchFavorites`: for each favourite document of the user, the shop stored
        under that id, skipping ids with no shop; nothing without a user. */
    method FetchFavorites() returns (results: seq<Row>)
      ensures currentUser.None? ==> results == []
      ensures currentUser.Some? ==> forall r :: r in results <==>
        r.id in FavoritesOf(favorites, currentUser.value) && LookupShop(shops, r.id) == Some(r.shop)
      ensures forall i, j :: 0 <= i < j < |results| ==> results[i].id != results[j].id
    {
      if currentUser.None? {
        return [];
      }
      var docs := FavoritesOf(favorites, currentUser.value);
      var remaining := docs;
      results := [];
      while remaining != {}
        invariant remaining <= docs
        invariant forall r :: r in results <==>
          r.id in docs - remaining && LookupShop(shops, r.id) == Some(r.shop)
        invariant forall i, j :: 0 <= i < j < |results| ==> results[i].id != results[j].id
        decreases remaining
      {
        var shopId :| shopId in remaining;
        var sdoc := LookupShop(shops, shopId);
        if sdoc.Some? {
          results := results + [Row(shopId, sdoc.value)];
        }
        remaining := remaining - {shopId};
      }
    }

    // -------------------------------------------------------------------------
    // Submissions
    // -------------------------------------------------------------------------

    /** `submitNewShop(model)` at client time `now`; `newId` is the id the store
        assigns to the added document and `t` its server timestamp. */
    method SubmitNewShop(model: Candidate, now: int, newId: SubmissionId, t: Stamp, writeOk: bool)
      returns (r: Result<SubmissionId, Error>)
      requires newId !in submissions
      modifies this`submissions, this`lastSubmitTs
      ensures old(StoreInvariant(submissions)) ==> StoreInvariant(submissions)
      ensures SubmitEffect(SubmitVerdict(old(lastSubmitTs), now, currentUser, old(submissions), shops, model, t),
                           writeOk, newId, now, old(submissions), old(lastSubmitTs), submissions, lastSubmitTs, r)
    {
      var v := SubmitVerdict(lastSubmitTs, now, currentUser, submissions, shops, model, t);
      match v
      case Err(e) =>
        r := Err(e);
      case Ok(rec) =>
        r := AddAndStamp(rec, now, newId, writeOk);
    }

    /** The last two steps of `submitNewShop`: the record is added under `newId`, and
        only once that write has succeeded is the cooldown timestamp moved to `now`. */
    method AddAndStamp(rec: Submission, now: int, newId: SubmissionId, writeOk: bool)
      returns (r: Result<SubmissionId, Error>)
      requires newId !in submissions
      modifies this`submissions, this`lastSubmitTs
      // a record with matching keys, from a user under the limit, keeps the store invariant
      ensures old(StoreInvariant(submissions)) && KeysMatch(rec)
              && PendingCount(old(submissions), rec.submittedByUid) < PENDING_LIMIT_PER_USER
              ==> StoreInvariant(submissions)
      ensures SubmitEffect(Ok(rec), writeOk, newId, now, old(submissions), old(lastSubmitTs),
                           submissions, lastSubmitTs, r)
    {
      if !writeOk {
        return Err(WriteFailed);
      }
      if StoreInvariant(submissions) && KeysMatch(rec)
         && PendingCount(submissions, rec.submittedByUid) < PENDING_LIMIT_PER_USER {
        AddKeepsInvariant(submissions, newId, rec);
      }
      submissions := submissions[newId := rec];
      lastSubmitTs := now;
      r := Ok(newId);
    }

    /** The send button: a blank name or address is refused before anything else;
        otherwise the submission proceeds. */
    method Send(model: Candidate, now: int, newId: SubmissionId, t: Stamp, writeOk: bool)
      returns (r: Result<SubmissionId, Error>)
      requires newId !in submissions
      modifies this`submissions, this`lastSubmitTs
      ensures old(StoreInvariant(submissions)) ==> StoreInvariant(submissions)
      ensures !RequiredFieldsPresent(model) ==>
        r == Err(MissingRequired) && submissions == old(submissions) && lastSubmitTs == old(lastSubmitTs)
      ensures RequiredFieldsPresent(model) ==>
        SubmitEffect(SubmitVerdict(old(lastSubmitTs), now, currentUser, old(submissions), shops, model, t),
                     writeOk, newId, now, old(submissions), old(lastSubmitTs), submissions, lastSubmitTs, r)
    {
      if !RequiredFieldsPresent(model) {
        return Err(MissingRequired);
      }
      r := SubmitNewShop(model, now, newId, t, writeOk);
    }

    /** `updateSubmission(id, patch)`: a missing record, a caller who is not its
        signed-in owner, or a record no longer pending is refused with nothing
        written; otherwise the patch is merged in when the write succeeds. */
    method UpdateSubmission(id: SubmissionId, patch: Patch, t: Stamp, writeOk: bool)
      returns (o: Outcome<Error>)
      modifies this`submissions
      ensures old(StoreInvariant(submissions)) ==> StoreInvariant(submissions)
      ensures id !in old(submissions) ==> o == Fail(NotFound) && submissions == old(submissions)
      ensures id in old(submissions) ==>
        var c := OwnerPendingCheck(currentUser, old(submissions)[id]);
        && (c.Fail? ==> o == c && submissions == old(submissions))
        && (c.Pass? && !writeOk ==> o == Fail(WriteFailed) && submissions == old(submissions))
        && (c.Pass? && writeOk ==>
              o == Pass && submissions == old(submissions)[id := Merge(old(submissions)[id], patch, t)])
    {
      if id !in submissions {
        return Fail(NotFound);
      }
      var data := submissions[id];
      var c := OwnerPendingCheck(currentUser, data);
      if c.Fail? {
        return c;
      }
      var next := Merge(data, patch, t);
      if !writeOk {
        return Fail(WriteFailed);
      }
      submissions := submissions[id := next];
      o := Pass;

      if old(StoreInvariant(submissions)) {
        forall u
          ensures PendingCount(submissions, u) <= PENDING_LIMIT_PER_USER
        {
          PendingCountReplace(old(submissions), id, next, u);
        }
      }
    }

    /** `deleteSubmission(id)`: a missing record is a silent no-op; a caller who is not
        its signed-in owner, or a record no longer pending, is refused; otherwise that
        one record is removed when the delete succeeds. */
    method DeleteSubmission(id: SubmissionId, writeOk: bool) returns (o: Outcome<Error>)
      modifies this`submissions
      ensures old(StoreInvariant(submissions)) ==> StoreInvariant(submissions)
      ensures id !in old(submissions) ==> o == Pass && submissions == old(submissions)
      ensures id in old(submissions) ==>
        var c := OwnerPendingCheck(currentUser, old(submissions)[id]);
        && (c.Fail? ==> o == c && submissions == old(submissions))
        && (c.Pass? && !writeOk ==> o == Fail(WriteFailed) && submissions == old(submissions))
        && (c.Pass? && writeOk ==> o == Pass && submissions == old(submissions) - {id})
    {
      if id !in submissions {
        return Pass;
      }
      var c := OwnerPendingCheck(currentUser, submissions[id]);
      if c.Fail? {
        return c;
      }
      if !writeOk {
        return Fail(WriteFailed);
      }
      submissions := submissions - {id};
      o := Pass;

      if old(StoreInvariant(submissions)) {
        forall u
          ensures PendingCount(submissions, u) <= PENDING_LIMIT_PER_USER
        {
          PendingCountRemove(old(submissions), id, u);
        }
      }
    }
  }
}
