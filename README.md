# Shop directory client core, in Dafny

This project models the core of `app.js`, the browser client of a directory of udon
shops. Users browse published shops by prefecture, keep a personal list of
favourites, and propose new shops for moderation. The model covers:

- **Keys** (`keys.dfy`). `normalize` trims a value. `normalizeKey` builds the
  duplicate-detection key. It deletes every JavaScript `\s` character, maps the
  full-width letters and digits `Ａ-Ｚ ａ-ｚ ０-９` down by 0xFEE0 to ASCII, and lower-cases
  the result.
- **Catalog** (`catalog.dfy`). This covers three reads of the published catalogue:
  - the prefecture query and keyword filter of `fetchShopsByPref`;
  - the first-match duplicate search of `checkDuplicate`;
  - the point read of a shop used by `fetchFavorites`.
- **Submissions** (`submissions.dfy`). This covers:
  - the stored submission record;
  - the 60-second client cooldown and its rounded-up retry seconds;
  - the pending quota of 10, counted through a query capped at 10;
  - the guard order of `submitNewShop`: cooldown, then login, then quota, then duplicate;
  - the owner and pending checks and the merge-write shared by `updateSubmission` and
    `deleteSubmission`.
- **Favorites** (`favorites.dfy`). This covers the flip of one shop id and the
  per-user favourite sets held by the store.
- **Client** (`client.dfy`). The class `App` holds the module-level state of the
  page. Its fields are:
  - the signed-in user;
  - the last-submit timestamp from local storage;
  - the in-memory favourite set;
  - in-memory stand-ins for the `shops`, `submissions` and `users/{uid}/favorites`
    collections.

  Its methods are the state-changing operations, with their error paths. They are
  the auth handler, `startWatchFavorites` and its snapshot callback, `toggleFav` with
  its optimistic update and rollback, the loop of `fetchFavorites`, `submitNewShop`,
  the send handler's required-field check, `updateSubmission` and `deleteSubmission`.
  The store may hold any records. Each method that writes it keeps one invariant
  whenever it held before: every record's keys match its name and address, and no
  user has more than 10 records pending.
- **Scenarios** (`scenarios.dfy`). These are whole-session runs:
  - a resubmission ten seconds after an accepted one is told to wait 50 seconds;
  - "udon taro" is refused as a duplicate of a published "Udon Taro";
  - favouriting and then un-favouriting a shop restores the mirror.

The following are parameters rather than modelled: the clock (`now`), the server
timestamp (`t`), the id the store assigns to a new document (`newId`, required to be
unused), and whether each remote write succeeds (`writeOk`). A failed write is
reported as `WriteFailed`.

## Model

| member | source | states |
|---|---|---|
| Keys.TrimStart | app.js:92 | removes exactly a blank prefix, and what remains does not start with whitespace |
| Keys.TrimEnd | app.js:92 | removes exactly a blank suffix, and what remains does not end with whitespace |
| Keys.Normalize | app.js:92 | a missing value gives ""; the result is empty exactly when the input is blank; otherwise it begins and ends with non-whitespace; the input is a blank prefix, then the result, then a blank suffix |
| Keys.NormalizeIdempotent | app.js:92 | trimming twice is trimming once |
| Keys.RemoveSpaces | app.js:96 | the result holds no `\s` character and is no longer than the input |
| Keys.RemoveSpacesKeeps | app.js:96 | only whitespace is deleted: every other character occurs in the result exactly as often as in the input |
| Keys.Narrow | app.js:97 | 'Ａ'-'Ｚ', 'ａ'-'ｚ' and '０'-'９' become the ASCII letter or digit at the same position of 'A'-'Z', 'a'-'z' and '0'-'9' (a shift of 0xFEE0); every other character is kept; no result is full-width |
| Keys.NarrowWidth | app.js:97 | every character is narrowed in place, and the length is kept |
| Keys.LowerChar | app.js:98 | 'A'-'Z' become the letter at the same position of 'a'-'z'; every other character is kept; no result is an upper-case ASCII letter |
| Keys.LowerCase | app.js:98 | every character is lowered in place by `LowerChar`, and the length is kept |
| Keys.NormalizeKey | app.js:93-99 | a missing value gives ""; every key has no whitespace, no full-width letter or digit, and no upper-case ASCII letter |
| Keys.KeyAppend | app.js:93-99 | the key of a concatenation is the concatenation of the keys |
| Keys.KeyOfKey | app.js:93-99 | a string already in key form is its own key |
| Keys.KeyIdempotent | app.js:93-99 | normalising a key again changes nothing |
| Keys.KeyOfBlank | app.js:93-99 | a blank value has the empty key |
| Keys.KeyIgnoresSpace | app.js:96 | inserting one whitespace character anywhere does not change the key |
| Keys.KeyIgnoresWidth | app.js:97 | replacing a full-width letter or digit by its ASCII form does not change the key |
| Keys.KeyIgnoresCase | app.js:98 | replacing an upper-case ASCII letter by its lower-case form does not change the key |
| Keys.KeyOfNormalized | app.js:92-99 | the key of the trimmed value is the key of the raw value, so the stored keys agree with the stored trimmed fields |
| Keys.RemoveSpacesOfSpaced | app.js:96 | a string with a space before every character and one at the end loses exactly those spaces |
| Keys.NarrowWidthOfNarrow | app.js:97 | a string with no full-width letter or digit is left as it is |
| Keys.KeyExamples | app.js:93-99 | "ＡＢＣ　１２３" (with an ideographic space), "abc123" and " A b C 1 2 3 " all have the key "abc123" |
| Catalog.Filter | app.js:111-115 | keeps exactly the rows satisfying the predicate, and only rows of the input |
| Catalog.FilterAppend | app.js:111-115 | filtering keeps the input's order and every copy: filtering two halves and joining the results is filtering the whole |
| Catalog.ContainsWitness | app.js:114 | when `includes` answers true, the keyword occurs at some position |
| Catalog.ContainsFrom | app.js:114 | an occurrence at any position makes `includes` answer true |
| Catalog.KeywordFilter | app.js:110-115 | an empty keyword keeps every row; any other keeps exactly the rows whose lower-cased name+address+note contains the lower-cased keyword; no row is invented |
| Catalog.KeywordIgnoresCase | app.js:112 | a keyword and its lower-cased form select the same rows |
| Catalog.ShopsByPref | app.js:104-115 | exactly the published rows of the prefecture that pass the keyword filter, drawn from the catalogue |
| Catalog.FindDuplicate | app.js:204-206 | a reported row is in the list and has the candidate's name key or address key; no row is reported exactly when none matches; the reported row is the first that matches |
| Catalog.CheckDuplicate | app.js:199-208 | a reported shop is a published shop of the same prefecture whose name key or address key is the candidate's; none is reported exactly when no such shop exists |
| Catalog.LookupShop | app.js:163-164 | a shop is found only when a row with that id holds it; nothing is found exactly when no row has that id |
| Submissions.RetryAfterSeconds | app.js:216 | the remaining wait rounded up to whole seconds; at least 1 |
| Submissions.RetryAfterExamples | app.js:216 | 10 s after the last accepted submission the wait is 50 s; it is still 50 s at 10.001 s, 1 s at 59.001 s, and 60 s at once |
| Submissions.CappedSize | app.js:193-196 | a result capped at `n` has size at most `n` and at most the true count, and equals one of them |
| Submissions.HasPendingQuota | app.js:188-197 | true without a user; otherwise true exactly when the user's uncapped pending count is below 10 |
| Submissions.PendingCountInsert | app.js:251 | adding a record raises only its owner's pending count, and that by one when it is pending |
| Submissions.PendingCountReplace | app.js:281 | a merge that keeps owner and status keeps every pending count |
| Submissions.PendingCountRemove | app.js:292 | deleting a record never raises a pending count |
| Submissions.RequiredFieldsPresent | app.js:499-501 | the form passes exactly when neither name nor address is blank |
| Submissions.NewSubmission | app.js:236-249 | the payload holds the trimmed prefecture, name, address and note, the keys of the raw name and address (which equal the keys of the trimmed ones), status pending and the submitter's uid; both timestamps are the write time |
| Submissions.SubmitVerdict | app.js:210-234 | an accepted submission carries a pending record of the signed-in user, with matching keys, from a user who was under the quota |
| Submissions.SubmitGuardOrder | app.js:214-234 | the cooldown refuses exactly when less than 60 s have passed, with the rounded-up retry seconds; the login guard refuses exactly when the cooldown passed and nobody is signed in; the quota guard refuses exactly when both passed and 10 or more are pending; the duplicate guard refuses exactly when the first three passed and a published same-prefecture shop matches a key, and the refusal carries such a match; acceptance happens exactly when every guard passes, with the payload of the raw input |
| Submissions.CooldownRefuses | app.js:214-217 | within the 60-second cooldown the verdict is the rate-limit refusal with the rounded-up retry seconds, whatever the other inputs are |
| Submissions.QuotaBoundary | app.js:188-228 | with exactly 10 pending the submission is refused for quota; with 9 it passes the quota guard |
| Submissions.OwnerPendingCheck | app.js:273-274 | the same checks open `deleteSubmission` (app.js lines 290-291); passes exactly for the signed-in owner of a pending record; refuses as forbidden exactly when the caller is not the signed-in owner; otherwise refuses as not pending |
| Submissions.Merge | app.js:275-281 | patched fields replace stored ones and absent ones are kept; the keys are recomputed from the resulting name and address; status, owner, prefecture and creation time are untouched; the update time is the write time |
| Favorites.Flip | app.js:144 | the toggled id changes membership and every other id keeps it |
| Favorites.FlipTwice | app.js:144-152 | two flips of the same id restore the set, which is also what the rollback does |
| Client.AddKeepsInvariant | app.js:236-251 | adding a pending record with matching keys, for a user under the limit, keeps the store invariant |
| Client.App.constructor | app.js:183-185 | nobody is signed in, the favourite set is empty, the stores are the given ones (of any content), and the stored timestamp defaults to 0 |
| Client.App.StartWatchFavorites | app.js:127-130 | without a user the mirror becomes empty; with one it is left for the snapshot to fill |
| Client.App.OnFavoritesSnapshot | app.js:131-135 | the mirror is replaced by exactly the ids of the snapshot |
| Client.App.OnOwnFavoritesSnapshot | app.js:130-132 | a snapshot of the signed-in user's stored favourites makes the mirror equal to exactly that stored set |
| Client.App.OnAuthStateChanged | app.js:67-72 | records the user and restarts the favourite watch |
| Client.App.ToggleFav | app.js:138-156 | without a user nothing changes; after a successful write the id is flipped in the mirror, and the user's stored set loses the id when it was a favourite and gains it otherwise; after a failed write the mirror and the store are exactly as before; a mirror that agreed with the stored set still agrees afterwards |
| Client.App.FetchFavorites | app.js:158-168 | nothing without a user; otherwise exactly the shops stored under the user's favourite ids, skipping ids with no shop, each id at most once |
| Client.App.SubmitNewShop | app.js:210-253 | the result and the new state are those `SubmitEffect` gives for the verdict of `SubmitVerdict` on the state before the call: a refusal or a failed write leaves the store and the cooldown timestamp unchanged; an accepted submission whose write succeeds adds exactly the verdict's record under the new id and sets the timestamp to `now`; a store invariant that held before still holds |
| Client.App.AddAndStamp | app.js:251-252 | a failed write changes nothing; a successful one adds exactly the given record under the new id and only then sets the timestamp to `now`; a record with matching keys from a user under the limit keeps a store invariant that held before |
| Client.App.Send | app.js:496-510 | a blank name or address is refused before any guard runs, changing nothing; otherwise it behaves as `SubmitNewShop`; a store invariant that held before still holds |
| Client.App.UpdateSubmission | app.js:268-282 | a missing record is not found; a caller who is not the signed-in owner is forbidden; a record that is not pending is refused; otherwise a successful write replaces exactly that record by its merge; nothing changes on refusal or failure; a store invariant that held before still holds |
| Client.App.DeleteSubmission | app.js:285-293 | a missing record is a silent success; the same owner and pending checks as editing; otherwise a successful delete removes exactly that record; a store invariant that held before still holds |
| Scenarios.SubmitTenSecondsLater | app.js:214-217 | a submission ten seconds after the last accepted one is refused with a 50-second wait and changes neither the store nor the timestamp |
| Scenarios.ResubmitAfterTenSeconds | app.js:210-253 | after an accepted submission, one ten seconds later is refused with a 50-second wait, and only the first record is added |
| Scenarios.UdonTaroKeys | app.js:93-99 | "Udon Taro" and "udon taro" share a key |
| Scenarios.SameNameOtherAddress | app.js:231-234 | with "Udon Taro" published in Fukuoka, "udon taro" at another address is refused as a duplicate |
| Scenarios.ToggleTwice | app.js:138-156 | favouriting and un-favouriting a shop with both writes succeeding restores the mirror and leaves the shop out of the stored set |

## Left out

- The DOM, tabs, `alert`/`prompt`/`confirm` and every `render*` function are UI. Where the source shows an alert, the model returns an error value.
- The Firebase SDK is not modelled: network transport, `signInWithPopup`, `serverTimestamp`, and the `onSnapshot` unsubscribe handle (`favUnsub`). The stores are in-memory values, and a snapshot is delivered by calling `OnFavoritesSnapshot`.
- Store reads are assumed to succeed. A failing `getDocs`/`getDoc` only propagates an exception in the source.
- The catalogue is a sequence of rows in store order rather than a map, because `checkDuplicate` returns the first match of an ordered list.
- Catalog.ShopsByPref: the final `localeCompare` sort by name is left out, because its order depends on the locale. The contract therefore states membership, not order. `checkDuplicate` runs `find` on that sorted list, so the source reports the first duplicate in name order. The model reports the first in store order, and both report some matching published shop.
- Client.App.FetchFavorites: the final sort by name is left out for the same reason. Favourite ids are taken from a set in no particular order.
- Keys.LowerCase folds only ASCII letters. JavaScript's `toLowerCase` also folds other scripts, which the model does not represent.
- `normalizeKey` and `trim` are modelled on strings and on a missing value. Other JavaScript values that `(str || "")` would coerce are not modelled, such as a number or `false`.
- A stored shop's missing name is the empty string in the model. The source's keyword text would read `undefined` there.
- Local storage errors are not modelled. A stored timestamp that `Number` cannot parse gives `NaN` in the source, which switches the cooldown off. The model reads the stored value as an integer, or 0 when it is absent.
- Submissions.RetryAfterSeconds uses integer arithmetic. It agrees with the source's floating-point `Math.ceil` for integer millisecond timestamps.
- The `submittedByEmail` and `userAgent` payload fields are not modelled.
- `fetchMySubmissions` and `mapsLinkFromAddress` are not modelled: one is a store-side ordered query and the other a URL helper.
- Moderator approval and rejection are not modelled, because that code is not in `app.js`.
- The store invariant (keys match, at most 10 pending per user) is preserved only by the sequential runs modelled here. Two sends in flight at 9 pending can both pass `hasPendingQuota` and leave 11, and other clients can write any record. So no operation assumes the invariant, and each only keeps it when it already held.
- Interleaved in-flight toggles and asynchronous snapshot delivery are concurrency and are not modelled. Each method runs to completion, with its remote write as one step.
