/** Whole-session runs of the client: an accepted submission followed too soon by
    another, a near-duplicate name in the same prefecture, and a favourite toggled on
    and off again. */
module Scenarios {
  import opened Wrappers
  import opened Keys
  import opened Catalog
  import opened Submissions
  import opened Favorites
  import opened Client

  /** A submission ten seconds after the last accepted one is refused with a
      fifty-second wait, and writes nothing. */
  method SubmitTenSecondsLater(app: App, model: Candidate, last: int, newId: SubmissionId, t: Stamp)
    returns (r: Result<SubmissionId, Error>)
    requires app.lastSubmitTs == last && newId !in app.submissions
    modifies app
    ensures r == Err(RateLimited(50))
    ensures app.submissions == old(app.submissions) && app.lastSubmitTs == last
  {
    CooldownRefuses(last, last + 10000, app.currentUser, app.submissions, app.shops, model, t);
    RetryAfterExamples();
    r := app.SubmitNewShop(model, last + 10000, newId, t, true);
  }

  /** An accepted submission followed ten seconds later by another: the second is
      refused with a fifty-second wait, and only the first record is added. */
  method ResubmitAfterTenSeconds(
    app: App, first: Candidate, second: Candidate, now: int,
    id1: SubmissionId, id2: SubmissionId, t1: Stamp, t2: Stamp)
    returns (r1: Result<SubmissionId, Error>, r2: Result<SubmissionId, Error>)
    requires id1 !in app.submissions && id2 !in app.submissions && id1 != id2
    modifies app
    ensures r1.Ok? ==> id1 in app.submissions && app.submissions[id1].status == Pending
    ensures r1.Ok? ==> r2 == Err(RateLimited(50)) && app.lastSubmitTs == now
    ensures r1.Ok? ==> app.submissions == old(app.submissions)[id1 := app.submissions[id1]]
  {
    r1 := app.SubmitNewShop(first, now, id1, t1, true);
    if r1.Ok? {
      r2 := SubmitTenSecondsLater(app, second, now, id2, t2);
    } else {
      r2 := app.SubmitNewShop(second, now + 10000, id2, t2, true);
    }
  }

  /** "Udon Taro" and "udon taro" have the same key. */
  lemma UdonTaroKeys()
    ensures NormalizeKey(Some("Udon Taro")) == NormalizeKey(Some("udon taro"))
  {
    var rest1, rest2 := "don Taro", "aro";
    assert "Udon Taro" == "" + ['U'] + rest1;
    KeyIgnoresCase("", 'U', rest1);
    assert "" + [LowerChar('U')] + rest1 == "udon " + ['T'] + rest2;
    KeyIgnoresCase("udon ", 'T', rest2);
    assert "udon " + [LowerChar('T')] + rest2 == "udon taro";
  }

  /** With "Udon Taro" published in Fukuoka, a user under quota and past the cooldown
      who proposes "udon taro" at another address is told it is a duplicate. */
  lemma SameNameOtherAddress(
    last: int, now: int, uid: Uid, subs: map<SubmissionId, Submission>,
    catalog: seq<Row>, existingId: ShopId, existingAddress: Option<string>, t: Stamp)
    requires now - last >= SUBMIT_COOLDOWN_MS
    requires PendingCount(subs, uid) < PENDING_LIMIT_PER_USER
    requires Row(existingId, Shop("Fukuoka", "Udon Taro", existingAddress, None, PUBLISHED)) in catalog
    ensures var v := SubmitVerdict(last, now, Some(uid), subs, catalog,
                                   Candidate("Fukuoka", "udon taro", "999 Other St", ""), t);
      v.Err? && v.error.Duplicate?
  {
    var model := Candidate("Fukuoka", "udon taro", "999 Other St", "");
    var existing := Row(existingId, Shop("Fukuoka", "Udon Taro", existingAddress, None, PUBLISHED));
    UdonTaroKeys();
    assert IsPublishedIn(existing, model.pref);
    assert IsDuplicate(existing, NormalizeKey(Some(model.name)), NormalizeKey(Some(model.address)));
    SubmitGuardOrder(last, now, Some(uid), subs, catalog, model, t);
  }

  /** Favouriting a shop and un-favouriting it again, both writes succeeding, leaves
      the mirror as it was and the shop absent from the user's stored favourites. */
  method ToggleTwice(app: App, shopId: ShopId) returns (o1: Outcome<Error>, o2: Outcome<Error>)
    requires app.currentUser.Some? && shopId !in app.favSet
    modifies app
    ensures o1 == Pass && o2 == Pass && app.currentUser == old(app.currentUser)
    ensures app.favSet == old(app.favSet)
    ensures shopId !in FavoritesOf(app.favorites, app.currentUser.value)
  {
    o1 := app.ToggleFav(shopId, true);
    o2 := app.ToggleFav(shopId, true);
    FlipTwice(old(app.favSet), shopId);
  }
}
