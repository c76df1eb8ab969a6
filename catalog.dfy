/** The published-shop catalogue as app.js reads it: the prefecture query with its
    keyword filter (`fetchShopsByPref`), the duplicate search (`checkDuplicate`) and
    the point read of one shop (`getDoc` in `fetchFavorites`). */
module Catalog {
  import opened Wrappers
  import opened Keys

  type ShopId = string

  /** The fields of a document of the `shops` collection that the core reads. */
  datatype Shop = Shop(pref: string, name: string, address: Option<string>, note: Option<string>, status: string)

  /** `{ id: d.id, ...d.data() }`: a document together with its identifier. */
  datatype Row = Row(id: ShopId, shop: Shop)

  const PUBLISHED: string := "published"

  /** Keeps, in order, the elements that satisfy `p`. */
  function Filter(p: Row -> bool, s: seq<Row>): (r: seq<Row>)
    ensures forall x :: x in r <==> x in s && p(x)
    ensures multiset(r) <= multiset(s)
  {
    if s == [] then []
    else
      assert s == [s[0]] + s[1..];
      if p(s[0]) then [s[0]] + Filter(p, s[1..]) else Filter(p, s[1..])
  }

  /** Filtering keeps the input's order and every copy: filtering two halves and
      joining the results is filtering the whole. */
  lemma {:induction false} FilterAppend(p: Row -> bool, a: seq<Row>, b: seq<Row>)
    ensures Filter(p, a + b) == Filter(p, a) + Filter(p, b)
  {
    if a == [] {
      assert a + b == b;
    } else {
      assert (a + b)[0] == a[0];
      assert (a + b)[1..] == a[1..] + b;
      FilterAppend(p, a[1..], b);
    }
  }

  /** `String.prototype.includes`: `t` occurs somewhere in `s`. */
  predicate Contains(s: string, t: string)
  {
    t <= s || (s != [] && Contains(s[1..], t))
  }

  /** An occurrence found by `includes` is a real one. */
  lemma {:induction false} ContainsWitness(s: string, t: string) returns (k: nat)
    requires Contains(s, t)
    ensures k <= |s| && t <= s[k..]
  {
    if t <= s {
      k := 0;
    } else {
      var k' := ContainsWitness(s[1..], t);
      assert s[1..][k'..] == s[k' + 1..];
      k := k' + 1;
    }
  }

  /** `includes` finds every occurrence. */
  lemma {:induction false} ContainsFrom(s: string, t: string, k: nat)
    requires k <= |s| && t <= s[k..]
    ensures Contains(s, t)
  {
    if k > 0 {
      assert s[1..][k - 1..] == s[k..];
      ContainsFrom(s[1..], t, k - 1);
    }
  }

  /** `r.shop.status == "published"` and `r.shop.pref == pref`: the store query. */
  predicate IsPublishedIn(r: Row, pref: string) {
    r.shop.pref == pref && r.shop.status == PUBLISHED
  }

  /** The text searched by the keyword: `name + (address ?? "") + (note ?? "")`. */
  function SearchText(r: Row): string {
    r.shop.name + OrEmpty(r.shop.address) + OrEmpty(r.shop.note)
  }

  /** The row's lower-cased search text contains the lower-cased keyword `ql`. */
  predicate Matches(r: Row, ql: string) {
    Contains(LowerCase(SearchText(r)), ql)
  }

  /** The `rows.filter` step: an empty keyword keeps every row, any other keeps the
      rows whose lower-cased text contains the lower-cased keyword. */
  function KeywordFilter(rows: seq<Row>, keyword: string): (res: seq<Row>)
    ensures keyword == "" ==> res == rows
    ensures forall r :: r in res <==> r in rows && (keyword == "" || Matches(r, LowerCase(keyword)))
    ensures multiset(res) <= multiset(rows)
  {
    if keyword == "" then rows
    else
      var ql := LowerCase(keyword);
      Filter((r: Row) => Matches(r, ql), rows)
  }

  /** `fetchShopsByPref(pref, keyword)` without its final sort: the published rows
      of `pref`, in store order, narrowed by the keyword. */
  function ShopsByPref(catalog: seq<Row>, pref: string, keyword: string): (res: seq<Row>)
    ensures forall r :: r in res <==>
      r in catalog && IsPublishedIn(r, pref) && (keyword == "" || Matches(r, LowerCase(keyword)))
    ensures multiset(res) <= multiset(catalog)
  {
    var rows := Filter((r: Row) => IsPublishedIn(r, pref), catalog);
    KeywordFilter(rows, keyword)
  }

  /** The keyword is compared case-insensitively: a keyword and its lower-cased form
      select the same rows. */
  lemma {:induction false} KeywordIgnoresCase(rows: seq<Row>, keyword: string)
    ensures KeywordFilter(rows, keyword) == KeywordFilter(rows, LowerCase(keyword))
  {
    var lk := LowerCase(keyword);
    assert LowerCase(lk) == lk;
    assert keyword == "" <==> lk == "";
  }

  /** The predicate of `checkDuplicate`'s `find`: same name key or same address key. */
  predicate IsDuplicate(r: Row, keyName: string, keyAddr: string) {
    NormalizeKey(Some(r.shop.name)) == keyName || NormalizeKey(r.shop.address) == keyAddr
  }

  /** `rows.find(...)`: the first row that duplicates the candidate keys. */
  function FindDuplicate(rows: seq<Row>, keyName: string, keyAddr: string): (res: Option<Row>)
    ensures res.Some? ==> res.value in rows && IsDuplicate(res.value, keyName, keyAddr)
    ensures res.None? <==> forall r :: r in rows ==> !IsDuplicate(r, keyName, keyAddr)
    ensures res.Some? ==> exists i :: (0 <= i < |rows| && rows[i] == res.value
                                       && forall j :: 0 <= j < i ==> !IsDuplicate(rows[j], keyName, keyAddr))
  {
    if rows == [] then None
    else if IsDuplicate(rows[0], keyName, keyAddr) then Some(rows[0])
    else
      var res := FindDuplicate(rows[1..], keyName, keyAddr);
      assert res.Some? ==> exists i :: (0 <= i < |rows| && rows[i] == res.value
                                         && forall j :: 0 <= j < i ==> !IsDuplicate(rows[j], keyName, keyAddr)) by {
        if res.Some? {
          var i :| 0 <= i < |rows[1..]| && rows[1..][i] == res.value
            && forall j :: 0 <= j < i ==> !IsDuplicate(rows[1..][j], keyName, keyAddr);
          assert rows[i + 1] == res.value;
          assert forall j :: 0 <= j < i + 1 ==> !IsDuplicate(rows[j], keyName, keyAddr) by {
            forall j | 0 <= j < i + 1 ensures !IsDuplicate(rows[j], keyName, keyAddr) {
              if j > 0 {
                assert rows[j] == rows[1..][j - 1];
              }
            }
          }
        }
      }
      res
  }

  /** Some published row of `pref` in the catalogue has the candidate's name key or address key. */
  predicate DuplicateExists(catalog: seq<Row>, pref: string, keyName: string, keyAddr: string) {
    exists r :: r in catalog && IsPublishedIn(r, pref) && IsDuplicate(r, keyName, keyAddr)
  }

  /** `checkDuplicate(pref, name, address)`: a published shop of the same prefecture
      whose normalised name or address equals the candidate's, and none exactly when
      there is no such shop. */
  function CheckDuplicate(catalog: seq<Row>, pref: string, name: string, address: string): (res: Option<Row>)
    ensures res.Some? ==> (res.value in catalog && IsPublishedIn(res.value, pref)
                           && IsDuplicate(res.value, NormalizeKey(Some(name)), NormalizeKey(Some(address))))
    ensures res.None? <==> !DuplicateExists(catalog, pref, NormalizeKey(Some(name)), NormalizeKey(Some(address)))
  {
    var rows := ShopsByPref(catalog, pref, "");
    FindDuplicate(rows, NormalizeKey(Some(name)), NormalizeKey(Some(address)))
  }

  /** `getDoc(doc(db, "shops", id))`: the shop stored under `id`, if any. */
  function LookupShop(catalog: seq<Row>, id: ShopId): (res: Option<Shop>)
    ensures res.Some? ==> Row(id, res.value) in catalog
    ensures res.None? <==> forall r :: r in catalog ==> r.id != id
  {
    if catalog == [] then None
    else if catalog[0].id == id then Some(catalog[0].shop)
    else LookupShop(catalog[1..], id)
  }
}
