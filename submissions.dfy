/** Submissions of new shops in app.js: the stored record, the client-side cooldown,
    the pending quota, the order in which `submitNewShop` runs its guards, and the
    owner checks and merge of `updateSubmission` / `deleteSubmission`. */
module Submissions {
  import opened Wrappers
  import opened Keys
  import opened Catalog

  type Uid = string
  type SubmissionId = string

  /** A server timestamp, kept opaque. */
  type Stamp = int

  datatype Status = Pending | Approved | Rejected

  /** A document of the `submissions` collection (e-mail and user-agent fields left out). */
  datatype Submission = Submission(
    pref: string, name: string, address: string, note: string,
    nameKey: string, addrKey: string,
    status: Status, submittedByUid: Uid,
    createdAt: Stamp, updatedAt: Stamp)

  /** The form model of the "new shop" view. */
  datatype Candidate = Candidate(pref: string, name: string, address: string, note: string)

  /** The fields an owner may change; `None` leaves the stored value in place. */
  datatype Patch = Patch(name: Option<string>, address: Option<string>, note: Option<string>)

  /** What a guard or a store call reports to the user. */
  datatype Error =
    | RateLimited(retryAfterSeconds: int)
    | LoginRequired
    | QuotaExceeded
    | Duplicate(existing: Row)
    | MissingRequired
    | NotFound
    | Forbidden
    | NotPending
    | WriteFailed

  const SUBMIT_COOLDOWN_MS: int := 60 * 1000
  const PENDING_LIMIT_PER_USER: nat := 10

  /** The stored keys agree with the stored name and address. */
  predicate KeysMatch(s: Submission) {
    s.nameKey == NormalizeKey(Some(s.name)) && s.addrKey == NormalizeKey(Some(s.address))
  }

  // ---------------------------------------------------------------------------
  // Cooldown
  // ---------------------------------------------------------------------------

  /** `Math.ceil((SUBMIT_COOLDOWN_MS - elapsed) / 1000)`: the remaining wait rounded
      up to whole seconds, which is at least one. */
  function RetryAfterSeconds(elapsed: int): (sec: int)
    requires elapsed < SUBMIT_COOLDOWN_MS
    ensures sec >= 1
    ensures (sec - 1) * 1000 < SUBMIT_COOLDOWN_MS - elapsed <= sec * 1000
  {
    (SUBMIT_COOLDOWN_MS - elapsed + 999) / 1000
  }

  /** Ten seconds after an accepted submission the user is told to wait 50 seconds;
      one millisecond later it is still 50, and at 59.001 seconds it is 1. */
  lemma RetryAfterExamples()
    ensures RetryAfterSeconds(10000) == 50
    ensures RetryAfterSeconds(10001) == 50
    ensures RetryAfterSeconds(59001) == 1
    ensures RetryAfterSeconds(0) == 60
  {
  }

  // ---------------------------------------------------------------------------
  // Pending quota
  // ---------------------------------------------------------------------------

  /** The submissions of `uid` that are still pending. */
  function PendingIds(subs: map<SubmissionId, Submission>, uid: Uid): set<SubmissionId> {
    set id | id in subs && subs[id].submittedByUid == uid && subs[id].status == Pending
  }

  function PendingCount(subs: map<SubmissionId, Submission>, uid: Uid): nat {
    |PendingIds(subs, uid)|
  }

  /** The size of a query result capped by `limit(n)`. */
  function CappedSize(count: nat, n: nat): (size: nat)
    ensures size <= n && size <= count
    ensures size == count || size == n
  {
    if count < n then count else n
  }

  /** `hasPendingQuota`: true without a user, otherwise true exactly when the user
      has fewer than `PENDING_LIMIT_PER_USER` pending submissions, even though the
      query reads at most that many. */
  function HasPendingQuota(user: Option<Uid>, subs: map<SubmissionId, Submission>): (ok: bool)
    ensures ok <==> user.None? || PendingCount(subs, user.value) < PENDING_LIMIT_PER_USER
  {
    match user
    case None => true
    case Some(uid) =>
      CappedSize(PendingCount(subs, uid), PENDING_LIMIT_PER_USER) < PENDING_LIMIT_PER_USER
  }

  /** Adding a record changes only its owner's pending count, and that by one at most. */
  lemma PendingCountInsert(subs: map<SubmissionId, Submission>, id: SubmissionId, rec: Submission, uid: Uid)
    requires id !in subs
    ensures PendingCount(subs[id := rec], uid)
         == PendingCount(subs, uid) + (if rec.submittedByUid == uid && rec.status == Pending then 1 else 0)
  {
    if rec.submittedByUid == uid && rec.status == Pending {
      assert PendingIds(subs[id := rec], uid) == PendingIds(subs, uid) + {id};
    } else {
      assert PendingIds(subs[id := rec], uid) == PendingIds(subs, uid);
    }
  }

  /** Replacing a record by one with the same owner and status keeps every pending count. */
  lemma PendingCountReplace(subs: map<SubmissionId, Submission>, id: SubmissionId, rec: Submission, uid: Uid)
    requires id in subs
    requires rec.submittedByUid == subs[id].submittedByUid && rec.status == subs[id].status
    ensures PendingCount(subs[id := rec], uid) == PendingCount(subs, uid)
  {
    assert PendingIds(subs[id := rec], uid) == PendingIds(subs, uid);
  }

  /** Removing a record never raises a pending count. */
  lemma PendingCountRemove(subs: map<SubmissionId, Submission>, id: SubmissionId, uid: Uid)
    ensures PendingCount(subs - {id}, uid) <= PendingCount(subs, uid)
  {
    assert PendingIds(subs - {id}, uid) <= PendingIds(subs, uid);
    SubsetCard(PendingIds(subs - {id}, uid), PendingIds(subs, uid));
  }

  lemma {:induction false} SubsetCard(a: set<SubmissionId>, b: set<SubmissionId>)
    requires a <= b
    ensures |a| <= |b|
  {
    if a != {} {
      var x :| x in a;
      SubsetCard(a - {x}, b - {x});
    }
  }

  // ---------------------------------------------------------------------------
  // submitNewShop
  // ---------------------------------------------------------------------------

  /** The send handler's check: name and address must not be blank after trimming. */
  function RequiredFieldsPresent(model: Candidate): (ok: bool)
    ensures ok <==> !Blank(model.name) && !Blank(model.address)
  {
    Normalize(Some(model.name)) != "" && Normalize(Some(model.address)) != ""
  }

  /** The payload `submitNewShop` writes: trimmed fields, keys of the raw input, status
      pending, the submitter's uid, both timestamps set to the write time. */
  function NewSubmission(model: Candidate, uid: Uid, t: Stamp): (s: Submission)
    ensures s.status == Pending && s.submittedByUid == uid
    ensures s.pref == Normalize(Some(model.pref)) && s.name == Normalize(Some(model.name))
    ensures s.address == Normalize(Some(model.address)) && s.note == Normalize(Some(model.note))
    ensures s.createdAt == t && s.updatedAt == t
    ensures KeysMatch(s)
    ensures s.nameKey == NormalizeKey(Some(model.name)) && s.addrKey == NormalizeKey(Some(model.address))
  {
    KeyOfNormalized(Some(model.name));
    KeyOfNormalized(Some(model.address));
    Submission(
      Normalize(Some(model.pref)), Normalize(Some(model.name)),
      Normalize(Some(model.address)), Normalize(Some(model.note)),
      NormalizeKey(Some(model.name)), NormalizeKey(Some(model.address)),
      Pending, uid, t, t)
  }

  /** The guards of `submitNewShop`, in source order; the first that fails decides.
      `Ok` carries the record to write, which is a pending record of the signed-in
      user, who was under the limit. */
  function SubmitVerdict(
    last: int, now: int, user: Option<Uid>,
    subs: map<SubmissionId, Submission>, catalog: seq<Row>,
    model: Candidate, t: Stamp): (v: Result<Submission, Error>)
    ensures v.Ok? ==> (user.Some? && v.value.status == Pending && v.value.submittedByUid == user.value
                       && KeysMatch(v.value) && PendingCount(subs, user.value) < PENDING_LIMIT_PER_USER)
  {
    if now - last < SUBMIT_COOLDOWN_MS then Err(RateLimited(RetryAfterSeconds(now - last)))
    else if user.None? then Err(LoginRequired)
    else if !HasPendingQuota(user, subs) then Err(QuotaExceeded)
    else match CheckDuplicate(catalog, model.pref, model.name, model.address)
      case Some(dup) => Err(Duplicate(dup))
      case None => Ok(NewSubmission(model, user.value, t))
  }

  /** What each guard of `submitNewShop` decides, and that a later guard is reached
      only when every earlier one passed. */
  lemma SubmitGuardOrder(
    last: int, now: int, user: Option<Uid>,
    subs: map<SubmissionId, Submission>, catalog: seq<Row>,
    model: Candidate, t: Stamp)
    // the cooldown is checked first and wins over every other guard
    ensures var v := SubmitVerdict(last, now, user, subs, catalog, model, t);
      now - last < SUBMIT_COOLDOWN_MS <==> v.Err? && v.error.RateLimited?
    ensures var v := SubmitVerdict(last, now, user, subs, catalog, model, t);
      v.Err? && v.error.RateLimited? ==> v.error.retryAfterSeconds == RetryAfterSeconds(now - last)
    // then the login
    ensures var v := SubmitVerdict(last, now, user, subs, catalog, model, t);
      v == Err(LoginRequired) <==> now - last >= SUBMIT_COOLDOWN_MS && user.None?
    // then the quota, on the uncapped pending count
    ensures var v := SubmitVerdict(last, now, user, subs, catalog, model, t);
      v == Err(QuotaExceeded) <==>
        now - last >= SUBMIT_COOLDOWN_MS && user.Some? && PendingCount(subs, user.value) >= PENDING_LIMIT_PER_USER
    // then the duplicate check, which refuses exactly the candidates with a published
    // same-prefecture match and reports one such shop
    ensures var v := SubmitVerdict(last, now, user, subs, catalog, model, t);
      v.Err? && v.error.Duplicate? ==>
        && now - last >= SUBMIT_COOLDOWN_MS && user.Some?
        && PendingCount(subs, user.value) < PENDING_LIMIT_PER_USER
        && v.error.existing in catalog && IsPublishedIn(v.error.existing, model.pref)
        && IsDuplicate(v.error.existing, NormalizeKey(Some(model.name)), NormalizeKey(Some(model.address)))
    ensures var v := SubmitVerdict(last, now, user, subs, catalog, model, t);
      (v.Err? && v.error.Duplicate?) <==>
        && now - last >= SUBMIT_COOLDOWN_MS && user.Some?
        && PendingCount(subs, user.value) < PENDING_LIMIT_PER_USER
        && DuplicateExists(catalog, model.pref, NormalizeKey(Some(model.name)), NormalizeKey(Some(model.address)))
    // accepted exactly when every guard passes, with the record of the raw input
    ensures var v := SubmitVerdict(last, now, user, subs, catalog, model, t);
      v.Ok? <==>
        && now - last >= SUBMIT_COOLDOWN_MS && user.Some?
        && PendingCount(subs, user.value) < PENDING_LIMIT_PER_USER
        && !DuplicateExists(catalog, model.pref, NormalizeKey(Some(model.name)), NormalizeKey(Some(model.address)))
    ensures var v := SubmitVerdict(last, now, user, subs, catalog, model, t);
      v.Ok? ==> v.value == NewSubmission(model, user.value, t)
  {
  }

  /** Within the cooldown the verdict is the rate-limit refusal, whatever the other
      inputs are. */
  lemma CooldownRefuses(
    last: int, now: int, user: Option<Uid>,
    subs: map<SubmissionId, Submission>, catalog: seq<Row>,
    model: Candidate, t: Stamp)
    requires now - last < SUBMIT_COOLDOWN_MS
    ensures SubmitVerdict(last, now, user, subs, catalog, model, t) == Err(RateLimited(RetryAfterSeconds(now - last)))
  {
  }

  /** With exactly the limit pending, a further submission is refused for quota; with
      one fewer it passes the quota guard. */
  lemma QuotaBoundary(
    last: int, now: int, uid: Uid,
    subs: map<SubmissionId, Submission>, catalog: seq<Row>, model: Candidate, t: Stamp)
    requires now - last >= SUBMIT_COOLDOWN_MS
    ensures PendingCount(subs, uid) == PENDING_LIMIT_PER_USER ==>
      SubmitVerdict(last, now, Some(uid), subs, catalog, model, t) == Err(QuotaExceeded)
    ensures PendingCount(subs, uid) == PENDING_LIMIT_PER_USER - 1 ==>
      SubmitVerdict(last, now, Some(uid), subs, catalog, model, t) != Err(QuotaExceeded)
  {
  }

  // ---------------------------------------------------------------------------
  // updateSubmission / deleteSubmission
  // ---------------------------------------------------------------------------

  /** The owner and state checks shared by edit and delete: the caller must be the
      signed-in owner, and the record must still be pending. */
  function OwnerPendingCheck(user: Option<Uid>, rec: Submission): (o: Outcome<Error>)
    ensures o == Pass <==> user == Some(rec.submittedByUid) && rec.status == Pending
    ensures o == Fail(Forbidden) <==> user != Some(rec.submittedByUid)
    ensures o.Fail? ==> o.error == Forbidden || o.error == NotPending
  {
    if user.None? || rec.submittedByUid != user.value then Fail(Forbidden)
    else if rec.status != Pending then Fail(NotPending)
    else Pass
  }

  /** The merge-write of `updateSubmission`: patched fields replace stored ones, the
      keys are recomputed from the resulting name and address, and status, owner,
      prefecture and creation time are kept. */
  function Merge(data: Submission, patch: Patch, t: Stamp): (next: Submission)
    ensures next.status == data.status && next.submittedByUid == data.submittedByUid
    ensures next.pref == data.pref && next.createdAt == data.createdAt && next.updatedAt == t
    ensures next.name == patch.name.GetOr(data.name)
    ensures next.address == patch.address.GetOr(data.address)
    ensures next.note == patch.note.GetOr(data.note)
    ensures KeysMatch(next)
  {
    var name := patch.name.GetOr(data.name);
    var address := patch.address.GetOr(data.address);
    data.(name := name, address := address, note := patch.note.GetOr(data.note),
          nameKey := NormalizeKey(Some(name)), addrKey := NormalizeKey(Some(address)),
          updatedAt := t)
  }
}
