/**
 The observable semantics of the MongoDB collection operations the handlers call:
 find with an equality filter, sort, limit, findOne, insertOne, updateOne with `$set`
 (with or without upsert) and deleteOne. A collection is a sequence of documents in
 natural (insertion) order.
 */
module Tables {
  import opened Wrappers
  import opened Values

  /** The query documents the handlers build: `{ _id: id }` and `{ name: value }`. */
  datatype Selector = ById(id: Id) | ByField(name: string, value: Value)

  /** Equality match; `{ name: null }` also matches a document that lacks the field. */
  predicate Matches(d: Doc, q: Selector)
  {
    match q
    case ById(id) => d.id == id
    case ByField(name, v) => Key(d, name) == v
  }

  function Ids(t: seq<Doc>): set<Id>
  {
    set d | d in t :: d.id
  }

  /** The unique index MongoDB keeps on `_id` in every collection. */
  predicate UniqueIds(t: seq<Doc>)
  {
    forall i, j :: 0 <= i < j < |t| ==> t[i].id != t[j].id
  }

  /** The position of the first document, in natural order, that the query matches. */
  function FirstMatch(t: seq<Doc>, q: Selector): (r: Option<nat>)
    ensures r.Some? ==> r.value < |t| && Matches(t[r.value], q)
    ensures r.Some? ==> forall k :: 0 <= k < r.value ==> !Matches(t[k], q)
    ensures r.None? ==> forall k :: 0 <= k < |t| ==> !Matches(t[k], q)
  {
    if t == [] then None
    else if Matches(t[0], q) then Some(0)
    else match FirstMatch(t[1..], q)
      case None => None
      case Some(k) => Some(k + 1)
  }

  /** `findOne(query)`: the first matching document, or null when none matches. */
  function FindOne(t: seq<Doc>, q: Selector): (r: Option<Doc>)
    ensures r.Some? ==> r.value in t && Matches(r.value, q)
    ensures r.None? <==> forall d :: d in t ==> !Matches(d, q)
  {
    match FirstMatch(t, q)
    case None => None
    case Some(k) => Some(t[k])
  }

  /** `find(query)` without a sort: the matching documents, in natural order. */
  function Filter(t: seq<Doc>, q: Selector): (r: seq<Doc>)
    ensures |r| <= |t|
    ensures forall d :: d in r ==> Matches(d, q)
    ensures forall d :: multiset(r)[d] == if Matches(d, q) then multiset(t)[d] else 0
  {
    if t == [] then []
    else
      assert t == [t[0]] + t[1..];
      (if Matches(t[0], q) then [t[0]] else []) + Filter(t[1..], q)
  }

  /** Sorted for `sort({ name: -1 })`: each document's key is at least every later one's. */
  predicate SortedDesc(s: seq<Doc>, name: string)
  {
    forall i, j :: 0 <= i < j < |s| ==> ValueLe(Key(s[j], name), Key(s[i], name))
  }

  /** Every document of `s` has a key at most `v`. */
  predicate AllAtMost(s: seq<Doc>, name: string, v: Value)
  {
    forall i :: 0 <= i < |s| ==> ValueLe(Key(s[i], name), v)
  }

  lemma PrependSorted(x: Doc, s: seq<Doc>, name: string)
    requires SortedDesc(s, name) && AllAtMost(s, name, Key(x, name))
    ensures SortedDesc([x] + s, name)
  {
    var r := [x] + s;
    forall i, j | 0 <= i < j < |r| ensures ValueLe(Key(r[j], name), Key(r[i], name)) {
      assert r[j] == s[j - 1];
      if i > 0 { assert r[i] == s[i - 1]; }
    }
  }

  lemma AllAtMostOfSorted(s: seq<Doc>, name: string)
    requires SortedDesc(s, name) && s != []
    ensures AllAtMost(s[1..], name, Key(s[0], name))
  {
    forall i | 0 <= i < |s[1..]| ensures ValueLe(Key(s[1..][i], name), Key(s[0], name)) {
      assert s[1..][i] == s[i + 1];
    }
  }

  lemma AllAtMostOfMultiset(r: seq<Doc>, s: seq<Doc>, name: string, v: Value)
    requires AllAtMost(s, name, v)
    requires multiset(r) <= multiset(s)
    ensures AllAtMost(r, name, v)
  {
    forall i | 0 <= i < |r| ensures ValueLe(Key(r[i], name), v) {
      assert r[i] in multiset(r);
      var j :| 0 <= j < |s| && s[j] == r[i];
    }
  }

  function InsertDesc(x: Doc, s: seq<Doc>, name: string): (r: seq<Doc>)
    requires SortedDesc(s, name)
    ensures SortedDesc(r, name)
    ensures multiset(r) == multiset(s) + multiset{x}
  {
    if s == [] then [x]
    else if ValueLe(Key(s[0], name), Key(x, name)) then
      assert AllAtMost(s, name, Key(x, name)) by {
        forall j | 0 <= j < |s| ensures ValueLe(Key(s[j], name), Key(x, name)) {
          if j > 0 { ValueLeTransitive(Key(s[j], name), Key(s[0], name), Key(x, name)); }
        }
      }
      PrependSorted(x, s, name);
      [x] + s
    else
      assert s == [s[0]] + s[1..];
      var rest := InsertDesc(x, s[1..], name);
      AllAtMostOfSorted(s, name);
      ValueLeTotal(Key(s[0], name), Key(x, name));
      assert AllAtMost(s[1..] + [x], name, Key(s[0], name));
      AllAtMostOfMultiset(rest, s[1..] + [x], name, Key(s[0], name));
      PrependSorted(s[0], rest, name);
      [s[0]] + rest
  }

  /**
   `sort({ name: -1 })`: the same documents, in descending order of `name`. The order
   among equal keys is not something MongoDB promises, and no contract here fixes it.
   */
  function SortDesc(s: seq<Doc>, name: string): (r: seq<Doc>)
    ensures SortedDesc(r, name)
    ensures multiset(r) == multiset(s)
  {
    if s == [] then []
    else
      assert s == [s[0]] + s[1..];
      InsertDesc(s[0], SortDesc(s[1..], name), name)
  }

  /** `limit(n)` for a positive n (MongoDB reads `limit(0)` as no limit): the first n documents. */
  function Limit(s: seq<Doc>, n: nat): (r: seq<Doc>)
    requires n > 0
    ensures |r| == if |s| <= n then |s| else n
    ensures r == s[..|r|]
    ensures multiset(r) <= multiset(s)
  {
    if |s| <= n then s
    else
      assert s == s[..n] + s[n..];
      s[..n]
  }

  /** A document a limit leaves out of a descending sort has a key at most that of each one it keeps. */
  lemma {:induction false} LimitOmitsNoLarger(s: seq<Doc>, name: string, n: nat, x: Doc, y: Doc)
    requires n > 0 && SortedDesc(s, name)
    requires x in Limit(s, n) && y in s && y !in Limit(s, n)
    ensures ValueLe(Key(y, name), Key(x, name))
  {
    var r := Limit(s, n);
    var i :| 0 <= i < |r| && r[i] == x;
    var j :| 0 <= j < |s| && s[j] == y;
    assert r[i] == s[i];
    if j < |r| {
      assert r[j] == s[j];
    }
  }

  /** What a write reports back, as the driver's result objects do. */
  datatype WriteResult =
    | InsertResult(insertedId: Id)
    | DuplicateKey(key: Id)
    | UpdateResult(matchedCount: nat, modifiedCount: nat, upsertedId: Option<Id>)
    | DeleteResult(deletedCount: nat)

  /** A collection after a write, and the write's result. */
  datatype Write = Write(table: seq<Doc>, result: WriteResult)

  /** `insertOne(body)` where the driver assigned `id`; an `_id` already present is refused. */
  function InsertOne(t: seq<Doc>, id: Id, body: Fields): (r: Write)
    ensures r.result.InsertResult? <==> id !in Ids(t)
    ensures r.result.InsertResult? ==> r.result.insertedId == id && r.table == t + [Doc(id, body)]
    ensures !r.result.InsertResult? ==> r.result == DuplicateKey(id) && r.table == t
    ensures UniqueIds(t) ==> UniqueIds(r.table)
    ensures id !in Ids(t) ==> FindOne(r.table, ById(id)) == Some(Doc(id, body))
  {
    if id in Ids(t) then Write(t, DuplicateKey(id))
    else
      assert (t + [Doc(id, body)])[|t|] == Doc(id, body);
      Write(t + [Doc(id, body)], InsertResult(id))
  }

  /** The fields an upsert takes from the equality query itself. */
  function Seed(q: Selector): Fields
  {
    if q.ByField? && q.name != "_id" then map[q.name := q.value] else map[]
  }

  /**
   `updateOne(query, { $set: change }, { upsert })`: merges `change` into the first match; with
   no match, inserts a document made of the query's equality fields and `change` when
   `upsert` holds (its `_id` the queried one, or `newId` from the driver) and otherwise
   changes nothing. `modifiedCount` is 0 when the merge leaves the document as it was.
   */
  function UpdateOne(t: seq<Doc>, q: Selector, change: Fields, upsert: bool, newId: Id): (r: Write)
    ensures |t| <= |r.table| <= |t| + 1
    ensures r.result.UpdateResult? || r.result.DuplicateKey?
    ensures r.result.DuplicateKey? ==> r.table == t
    ensures UniqueIds(t) ==> UniqueIds(r.table)
    ensures forall k :: 0 <= k < |t| && FirstMatch(t, q) != Some(k) ==> r.table[k] == t[k]
    ensures |r.table| == |t| + 1 ==> upsert && FirstMatch(t, q).None? && r.result.upsertedId.Some?
    ensures !upsert ==> |r.table| == |t|
    ensures FirstMatch(t, q).Some? ==>
      var k := FirstMatch(t, q).value;
      && r.table == t[k := Doc(t[k].id, t[k].fields + change)]
      && r.result.UpdateResult? && r.result.matchedCount == 1 && r.result.upsertedId == None
    ensures FirstMatch(t, q).None? && upsert && !r.result.DuplicateKey? ==>
      && r.result.upsertedId.Some?
      && r.table == t + [Doc(r.result.upsertedId.value, Seed(q) + change)]
      && r.result.upsertedId.value == (if q.ById? then q.id else newId)
    ensures FirstMatch(t, q).None? && !upsert ==> r == Write(t, UpdateResult(0, 0, None))
    ensures r.result.DuplicateKey? <==>
      FirstMatch(t, q).None? && upsert && (if q.ById? then q.id else newId) in Ids(t)
  {
    match FirstMatch(t, q)
    case Some(k) =>
      var merged := Doc(t[k].id, t[k].fields + change);
      Write(t[k := merged], UpdateResult(1, if merged == t[k] then 0 else 1, None))
    case None =>
      if !upsert then Write(t, UpdateResult(0, 0, None))
      else
        var id := if q.ById? then q.id else newId;
        if id in Ids(t) then Write(t, DuplicateKey(id))
        else
          assert forall i :: 0 <= i < |t| ==> t[i] in t;
          Write(t + [Doc(id, Seed(q) + change)], UpdateResult(0, 0, Some(id)))
  }

  /** `deleteOne(query)`: removes the first match, if any. */
  function DeleteOne(t: seq<Doc>, q: Selector): (r: Write)
    ensures r.result.DeleteResult? && r.result.deletedCount <= 1
    ensures |r.table| == |t| - r.result.deletedCount
    ensures r.result.deletedCount == 1 <==> exists d :: d in t && Matches(d, q)
    ensures r.result.deletedCount == 0 ==> r.table == t
    ensures r.result.deletedCount == 1 ==>
      exists k :: 0 <= k < |t| && Matches(t[k], q) && r.table == t[..k] + t[k + 1..]
  {
    match FirstMatch(t, q)
    case None => Write(t, DeleteResult(0))
    case Some(k) => Write(t[..k] + t[k + 1..], DeleteResult(1))
  }

  lemma FirstMatchById(t: seq<Doc>, id: Id)
    ensures FirstMatch(t, ById(id)).Some? <==> id in Ids(t)
  {
    if id in Ids(t) {
      var d :| d in t && d.id == id;
      var k :| 0 <= k < |t| && t[k] == d;
      assert Matches(t[k], ById(id));
    }
  }

  /** A write that leaves positions before `k` alone and puts `id` at `k` moves the first match. */
  lemma FirstMatchAfterWrite(t: seq<Doc>, t': seq<Doc>, id: Id, k: nat)
    requires k < |t'| && t'[k].id == id && |t| <= |t'|
    requires forall i :: 0 <= i < k ==> i < |t| && t'[i] == t[i] && t[i].id != id
    ensures FirstMatch(t', ById(id)) == Some(k)
  {
    assert Matches(t'[k], ById(id));
  }

  /**
   `updateOne({ _id: id }, { $set: change }, { upsert })`: the document with that id ends up
   with `change` merged into its fields; without a match it is inserted under that id when
   `upsert` holds and nothing changes otherwise. Every other position keeps its document.
   */
  lemma {:induction false} UpdateByIdEffect(t: seq<Doc>, id: Id, change: Fields, upsert: bool, newId: Id)
    ensures var r := UpdateOne(t, ById(id), change, upsert, newId);
      && (id in Ids(t) ==>
            && |r.table| == |t|
            && r.result.UpdateResult? && r.result.matchedCount == 1 && r.result.upsertedId == None
            && FindOne(r.table, ById(id)) == Some(Doc(id, FindOne(t, ById(id)).value.fields + change)))
      && (id !in Ids(t) && upsert ==>
            r == Write(t + [Doc(id, change)], UpdateResult(0, 0, Some(id))))
      && (id !in Ids(t) && !upsert ==> r == Write(t, UpdateResult(0, 0, None)))
      && forall k :: 0 <= k < |t| && t[k].id != id ==> r.table[k] == t[k]
  {
    var r := UpdateOne(t, ById(id), change, upsert, newId);
    FirstMatchById(t, id);
    match FirstMatch(t, ById(id))
    case Some(k) =>
      FirstMatchAfterWrite(t, r.table, id, k);
    case None =>
      assert Seed(ById(id)) == map[];
      assert Seed(ById(id)) + change == change;
  }

  /** Applying the same `$set` by id a second time changes nothing and reports no modification. */
  lemma {:induction false} UpdateByIdIdempotent(t: seq<Doc>, id: Id, change: Fields, upsert: bool, n1: Id, n2: Id)
    ensures var t1 := UpdateOne(t, ById(id), change, upsert, n1).table;
      var r2 := UpdateOne(t1, ById(id), change, upsert, n2);
      && r2.table == t1
      && (id in Ids(t1) ==> r2.result == UpdateResult(1, 0, None))
  {
    var t1 := UpdateOne(t, ById(id), change, upsert, n1).table;
    FirstMatchById(t, id);
    FirstMatchById(t1, id);
    match FirstMatch(t, ById(id))
    case Some(k) =>
      FirstMatchAfterWrite(t, t1, id, k);
      var m := t[k].fields + change;
      assert m + change == m;
      assert t1[k := Doc(id, t1[k].fields + change)] == t1;
    case None =>
      if upsert {
        FirstMatchAfterWrite(t, t1, id, |t|);
        assert Seed(ById(id)) + change == change;
        assert change + change == change;
        assert t1[|t| := Doc(id, t1[|t|].fields + change)] == t1;
      }
  }

  /**
   After `updateOne(query, { $set: change }, { upsert: true })`, unless the insert it
   needs is refused as a duplicate `_id`, the document the query finds carries every
   field of `change` (given that `change` does not rewrite the queried field).
   */
  lemma {:induction false} UpsertEstablishes(t: seq<Doc>, q: Selector, change: Fields, newId: Id)
    requires q.ByField? ==> q.name != "_id" && (q.name in change ==> change[q.name] == q.value)
    ensures var r := UpdateOne(t, q, change, true, newId);
      !r.result.DuplicateKey? ==>
        && FindOne(r.table, q).Some?
        && forall f :: f in change ==>
             f in FindOne(r.table, q).value.fields && FindOne(r.table, q).value.fields[f] == change[f]
  {
    var r := UpdateOne(t, q, change, true, newId);
    if !r.result.DuplicateKey? {
      match FirstMatch(t, q)
      case Some(k) =>
        var d := Doc(t[k].id, t[k].fields + change);
        assert r.table[k] == d;
        assert Matches(d, q) by {
          if q.ByField? && q.name in change {
            assert Key(d, q.name) == change[q.name];
          } else if q.ByField? {
            assert Key(d, q.name) == Key(t[k], q.name);
          }
        }
        FirstMatchPreserved(t, r.table, q, k);
      case None =>
        var id := if q.ById? then q.id else newId;
        var d := Doc(id, Seed(q) + change);
        assert r.table == t + [d];
        assert Matches(d, q);
        FirstMatchPreserved(t, r.table, q, |t|);
    }
  }

  lemma FirstMatchPreserved(t: seq<Doc>, t': seq<Doc>, q: Selector, k: nat)
    requires k < |t'| && Matches(t'[k], q) && k <= |t|
    requires forall i :: 0 <= i < k ==> t'[i] == t[i] && !Matches(t[i], q)
    ensures FirstMatch(t', q) == Some(k)
  {
  }

  lemma IdsRemoveAt(t: seq<Doc>, k: nat)
    requires UniqueIds(t) && k < |t|
    ensures UniqueIds(t[..k] + t[k + 1..])
    ensures Ids(t[..k] + t[k + 1..]) == Ids(t) - {t[k].id}
  {
    var t' := t[..k] + t[k + 1..];
    assert forall i :: 0 <= i < |t'| ==> t'[i] == t[if i < k then i else i + 1];
    forall x | x in Ids(t') ensures x in Ids(t) - {t[k].id} {
      var d :| d in t' && d.id == x;
      var i :| 0 <= i < |t'| && t'[i] == d;
      assert t[if i < k then i else i + 1] == d;
    }
    forall x | x in Ids(t) - {t[k].id} ensures x in Ids(t') {
      var d :| d in t && d.id == x;
      var i :| 0 <= i < |t| && t[i] == d;
      assert t'[if i < k then i else i - 1] == d;
    }
  }

  /** Deleting by id under the unique `_id` index removes exactly that id from the collection. */
  lemma {:induction false} DeleteByIdRemovesId(t: seq<Doc>, id: Id)
    requires UniqueIds(t)
    ensures var r := DeleteOne(t, ById(id));
      && UniqueIds(r.table)
      && Ids(r.table) == Ids(t) - {id}
      && r.result.deletedCount == (if id in Ids(t) then 1 else 0)
  {
    FirstMatchById(t, id);
    match FirstMatch(t, ById(id))
    case None =>
    case Some(k) =>
      IdsRemoveAt(t, k);
  }

  /**
   Upsert matters only when nothing matches: with a match, `updateOne` with and without
   upsert makes the same write; without one, the non-upsert form leaves the collection alone.
   */
  lemma {:induction false} UpsertOnlyWithoutMatch(t: seq<Doc>, q: Selector, change: Fields, newId: Id)
    ensures FindOne(t, q).Some? ==> UpdateOne(t, q, change, false, newId) == UpdateOne(t, q, change, true, newId)
    ensures FindOne(t, q).None? ==> UpdateOne(t, q, change, false, newId) == Write(t, UpdateResult(0, 0, None))
  {
    match FirstMatch(t, q)
    case Some(k) =>
    case None =>
      assert FindOne(t, q).None?;
  }
}
