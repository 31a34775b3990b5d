/** The `urls` document collection as the route handlers use it: a sequence
    of Link records in insertion order, queried by exact equality on the
    short code. `findOne` and `update` without `multi` act on the FIRST
    record whose short code matches; `remove(query, 1)` is read as doing
    the same, deleting the first match only. */
module LinkStore {
  import opened Normalizer

  datatype Option<T> = None | Some(value: T)

  datatype Link = Link(shortURL: string, longURL: string)

  predicate HasCode(s: seq<Link>, id: string) {
    exists k :: 0 <= k < |s| && s[k].shortURL == id
  }

  /** `i` is the position of the first record whose short code is `id`. */
  predicate IsFirstMatch(s: seq<Link>, id: string, i: nat) {
    i < |s| && s[i].shortURL == id && forall k :: 0 <= k < i ==> s[k].shortURL != id
  }

  /** Every stored long URL carries a recognised scheme. */
  predicate AllSchemed(s: seq<Link>) {
    forall k :: 0 <= k < |s| ==> HasScheme(s[k].longURL)
  }

  /** The position of the record `findOne({shortURL: id})` returns. */
  function FirstIndex(s: seq<Link>, id: string): (r: Option<nat>)
    ensures r.None? <==> !HasCode(s, id)
    ensures r.Some? ==> IsFirstMatch(s, id, r.value)
  {
    if s == [] then None
    else if s[0].shortURL == id then Some(0)
    else
      match FirstIndex(s[1..], id)
      case None =>
        assert forall k :: 1 <= k < |s| ==> s[k] == s[1..][k - 1];
        None
      case Some(i) =>
        assert forall k :: 1 <= k <= i + 1 ==> s[k] == s[1..][k - 1];
        Some(i + 1)
  }

  /** `findOne({shortURL: id})`: the first matching record, or nothing. */
  function FindOne(s: seq<Link>, id: string): (r: Option<Link>)
    ensures r.None? <==> !HasCode(s, id)
    ensures r.Some? ==> r.value.shortURL == id && exists i: nat :: IsFirstMatch(s, id, i) && r.value == s[i]
  {
    match FirstIndex(s, id)
    case None => None
    case Some(i) => Some(s[i])
  }

  /** `update({shortURL: id}, {$set: {longURL: v}})`: only the first match
      has its long URL replaced; no match leaves the collection as it was. */
  function UpdateFirst(s: seq<Link>, id: string, v: string): (r: seq<Link>)
    ensures FirstIndex(s, id).None? ==> r == s
    ensures FirstIndex(s, id).Some? ==>
              var i := FirstIndex(s, id).value; r == s[i := s[i].(longURL := v)]
  {
    if s == [] then []
    else if s[0].shortURL == id then [s[0].(longURL := v)] + s[1..]
    else [s[0]] + UpdateFirst(s[1..], id, v)
  }

  /** `remove({shortURL: id}, 1)`, read as deleting the first match only;
      no match leaves the collection as it was. */
  function RemoveFirst(s: seq<Link>, id: string): (r: seq<Link>)
    ensures FirstIndex(s, id).None? ==> r == s
    ensures FirstIndex(s, id).Some? ==>
              var i := FirstIndex(s, id).value; r == s[..i] + s[i + 1..]
  {
    if s == [] then []
    else if s[0].shortURL == id then s[1..]
    else [s[0]] + RemoveFirst(s[1..], id)
  }

  /** The number of records carrying the short code `id`. */
  function Count(s: seq<Link>, id: string): (n: nat)
    ensures n <= |s|
    ensures n == 0 <==> !HasCode(s, id)
  {
    if s == [] then 0
    else
      assert forall k :: 1 <= k < |s| ==> s[k] == s[1..][k - 1];
      (if s[0].shortURL == id then 1 else 0) + Count(s[1..], id)
  }

  // ---------------------------------------------------------------------
  // Lookup after each kind of store write

  /** The first match is unique, so FirstIndex finds any position that is one. */
  lemma FirstIndexIs(s: seq<Link>, id: string, i: nat)
    requires IsFirstMatch(s, id, i)
    ensures FirstIndex(s, id) == Some(i)
  {
    assert s[i].shortURL == id;
  }

  /** Lookups see only the short codes, position by position. */
  lemma FirstIndexOnCodes(s: seq<Link>, t: seq<Link>, id: string)
    requires |s| == |t| && forall k :: 0 <= k < |s| ==> s[k].shortURL == t[k].shortURL
    ensures FirstIndex(s, id) == FirstIndex(t, id)
  {
    match FirstIndex(s, id)
    case Some(i) => FirstIndexIs(t, id, i);
    case None =>
      assert forall k :: 0 <= k < |t| ==> t[k].shortURL == s[k].shortURL;
  }

  /** `insertOne` appends, so a code already present keeps resolving to its old
      record and a fresh code resolves to the new record. */
  lemma FindAfterInsert(s: seq<Link>, l: Link, id: string)
    ensures HasCode(s, id) ==> FindOne(s + [l], id) == FindOne(s, id)
    ensures !HasCode(s, id) && l.shortURL == id ==> FindOne(s + [l], id) == Some(l)
    ensures !HasCode(s, id) && l.shortURL != id ==> FindOne(s + [l], id) == None
  {
    var t := s + [l];
    match FirstIndex(s, id)
    case Some(i) =>
      assert t[i] == s[i];
      FirstIndexIs(t, id, i);
    case None =>
      if l.shortURL == id {
        assert t[|s|] == l;
        assert forall k :: 0 <= k < |s| ==> t[k] == s[k];
        FirstIndexIs(t, id, |s|);
      } else {
        assert forall k :: 0 <= k < |t| ==> t[k].shortURL != id by {
          forall k | 0 <= k < |t| ensures t[k].shortURL != id {
            if k < |s| { assert t[k] == s[k]; }
          }
        }
      }
  }

  /** After `update`, the edited code resolves to the new long URL under the
      same short code. */
  lemma FindAfterUpdate(s: seq<Link>, id: string, v: string)
    ensures FindOne(UpdateFirst(s, id, v), id) == if HasCode(s, id) then Some(Link(id, v)) else None
  {
    if FirstIndex(s, id).Some? {
      var i := FirstIndex(s, id).value;
      FirstIndexIs(UpdateFirst(s, id, v), id, i);
    }
  }

  /** After `update`, every other code resolves as before. */
  lemma FindOtherAfterUpdate(s: seq<Link>, id: string, v: string, other: string)
    requires other != id
    ensures FindOne(UpdateFirst(s, id, v), other) == FindOne(s, other)
  {
    var r := UpdateFirst(s, id, v);
    if FirstIndex(s, id).Some? {
      var i := FirstIndex(s, id).value;
      FirstIndexOnCodes(s, r, other);
      if FirstIndex(s, other).Some? {
        assert FirstIndex(s, other).value != i;
      }
    }
  }

  /** A first record with another code is skipped by the lookup. */
  lemma FindOneTail(s: seq<Link>, id: string)
    requires s != [] && s[0].shortURL != id
    ensures FindOne(s, id) == FindOne(s[1..], id)
  {
    assert forall k :: 1 <= k < |s| ==> s[k] == s[1..][k - 1];
  }

  /** After `remove(query, 1)`, every other code resolves as before. */
  lemma {:induction false} FindOtherAfterRemove(s: seq<Link>, id: string, other: string)
    requires other != id
    ensures FindOne(RemoveFirst(s, id), other) == FindOne(s, other)
  {
    if s != [] {
      var r := RemoveFirst(s, id);
      if s[0].shortURL == id {
        FindOneTail(s, other);
      } else if s[0].shortURL == other {
        FirstIndexIs(s, other, 0);
        FirstIndexIs(r, other, 0);
      } else {
        FindOtherAfterRemove(s[1..], id, other);
        FindOneTail(s, other);
        FindOneTail(r, other);
        assert r[1..] == RemoveFirst(s[1..], id);
      }
    }
  }

  /** `remove(query, 1)` takes away exactly one record carrying the code. */
  lemma {:induction false} CountAfterRemove(s: seq<Link>, id: string)
    requires HasCode(s, id)
    ensures Count(RemoveFirst(s, id), id) == Count(s, id) - 1
  {
    if s[0].shortURL != id {
      var k :| 0 <= k < |s| && s[k].shortURL == id;
      assert s[1..][k - 1].shortURL == id;
      CountAfterRemove(s[1..], id);
      assert ([s[0]] + RemoveFirst(s[1..], id))[1..] == RemoveFirst(s[1..], id);
    }
  }

  /** Deleting a code that was stored at most once leaves it unresolvable. */
  lemma FindAfterRemove(s: seq<Link>, id: string)
    requires Count(s, id) <= 1
    ensures FindOne(RemoveFirst(s, id), id) == None
  {
    if HasCode(s, id) { CountAfterRemove(s, id); }
  }

  /** With a duplicated code, the second record shows through after a delete. */
  lemma DuplicateSurvivesRemove()
    ensures var s := [Link("abc", "http://a"), Link("abc", "http://b")];
            FindOne(RemoveFirst(s, "abc"), "abc") == Some(Link("abc", "http://b"))
  {
    var s := [Link("abc", "http://a"), Link("abc", "http://b")];
    assert RemoveFirst(s, "abc") == [Link("abc", "http://b")];
    FirstIndexIs([Link("abc", "http://b")], "abc", 0);
  }

  /** With a duplicated code, a new record is shadowed by the older one. */
  lemma DuplicateShadowsInsert()
    ensures var s := [Link("abc", "http://a")];
            FindOne(s + [Link("abc", "http://b")], "abc") == Some(Link("abc", "http://a"))
  {
    FirstIndexIs([Link("abc", "http://a"), Link("abc", "http://b")], "abc", 0);
  }

  // ---------------------------------------------------------------------
  // Every stored long URL carries a scheme

  lemma SchemedAfterInsert(s: seq<Link>, l: Link)
    requires AllSchemed(s) && HasScheme(l.longURL)
    ensures AllSchemed(s + [l])
  {
    assert forall k :: 0 <= k < |s| ==> (s + [l])[k] == s[k];
  }

  lemma SchemedAfterUpdate(s: seq<Link>, id: string, v: string)
    requires AllSchemed(s) && HasScheme(v)
    ensures AllSchemed(UpdateFirst(s, id, v))
  {
  }

  lemma SchemedAfterRemove(s: seq<Link>, id: string)
    requires AllSchemed(s)
    ensures AllSchemed(RemoveFirst(s, id))
  {
    if FirstIndex(s, id).Some? {
      var i := FirstIndex(s, id).value;
      var r := RemoveFirst(s, id);
      assert forall k :: 0 <= k < i ==> r[k] == s[k];
      assert forall k :: i <= k < |r| ==> r[k] == s[k + 1];
    }
  }
}
