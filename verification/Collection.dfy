/** The id-keyed collection that app/klf200/nodes.go and app/klf200/scenes.go both keep: a slice
    whose elements are replaced in place by id or appended. */
module Collection {
  import opened Bytes

  datatype Entry<+T> = Entry(id: int, value: T)

  // ---------- Specification ----------

  predicate HasId<T>(items: seq<Entry<T>>, id: int) {
    exists i :: 0 <= i < |items| && items[i].id == id
  }

  predicate UniqueIds<T>(items: seq<Entry<T>>) {
    forall i, j :: 0 <= i < j < |items| ==> items[i].id != items[j].id
  }

  /** Position of the first entry with an id, or the length. */
  function IndexOf<T>(items: seq<Entry<T>>, id: int): (i: nat)
    ensures i <= |items|
    ensures forall j :: 0 <= j < i ==> items[j].id != id
    ensures i < |items| ==> items[i].id == id
  {
    if items == [] || items[0].id == id then 0 else
      var i := IndexOf(items[1..], id);
      assert forall j :: 0 < j < i + 1 ==> items[j] == items[1..][j - 1];
      i + 1
  }

  function Upsert<T>(items: seq<Entry<T>>, e: Entry<T>): (r: seq<Entry<T>>) {
    var i := IndexOf(items, e.id);
    if i < |items| then items[i := e] else items + [e]
  }

  function Lookup<T>(items: seq<Entry<T>>, id: int): Option<T> {
    var i := IndexOf(items, id);
    if i < |items| then Some(items[i].value) else None
  }

  /** All entries added in turn to an empty collection. */
  function Build<T>(entries: seq<Entry<T>>): seq<Entry<T>> {
    if entries == [] then [] else Upsert(Build(entries[..|entries| - 1]), entries[|entries| - 1])
  }

  // ---------- The collection ----------

  class Items<T> {
    var items: seq<Entry<T>>

    constructor ()
      ensures items == []
    {
      items := [];
    }

    method Add(e: Entry<T>)
      modifies this
      ensures items == Upsert(old(items), e)
    {
      for i := 0 to |items|
        invariant items == old(items)
        invariant forall j :: 0 <= j < i ==> items[j].id != e.id
      {
        if items[i].id == e.id {
          items := items[i := e];
          return;
        }
      }
      items := items + [e];
    }

    method ByID(id: int) returns (r: Option<T>)
      ensures r == Lookup(items, id)
    {
      for i := 0 to |items|
        invariant forall j :: 0 <= j < i ==> items[j].id != id
      {
        if items[i].id == id {
          return Some(items[i].value);
        }
      }
      r := None;
    }

    method Clear()
      modifies this
      ensures items == []
    {
      items := [];
    }

    /** Clear, then add every entry in turn: what LoadNodes and Scenes.Load do with their results. */
    method Reload(entries: seq<Entry<T>>)
      modifies this
      ensures items == Build(entries)
    {
      Clear();
      for i := 0 to |entries|
        invariant items == Build(entries[..i])
      {
        assert entries[..i + 1][..i] == entries[..i];
        Add(entries[i]);
      }
      assert entries[..|entries|] == entries;
    }
  }

  // ---------- Agreement with a map ----------

  /** The map a collection stands for. */
  ghost function AsMap<T>(items: seq<Entry<T>>): map<int, T> {
    map id | id in (set i | 0 <= i < |items| :: items[i].id) :: items[IndexOf(items, id)].value
  }

  /** The defining property of IndexOf. */
  lemma IndexIs<T>(items: seq<Entry<T>>, id: int, at: nat)
    requires at <= |items| && forall j :: 0 <= j < at ==> items[j].id != id
    requires at < |items| ==> items[at].id == id
    ensures IndexOf(items, id) == at
  {
    var i := IndexOf(items, id);
    assert i >= at;
  }

  lemma UpsertLookup<T>(items: seq<Entry<T>>, e: Entry<T>, id: int)
    ensures Lookup(Upsert(items, e), id) == if id == e.id then Some(e.value) else Lookup(items, id)
  {
    var r, at, i := Upsert(items, e), IndexOf(items, e.id), IndexOf(items, id);
    hide IndexOf;
    if id == e.id {
      IndexIs(r, id, at);
    } else {
      IndexIs(r, id, if i < |items| then i else |r|);
    }
  }

  lemma UpsertUnique<T>(items: seq<Entry<T>>, e: Entry<T>)
    requires UniqueIds(items)
    ensures UniqueIds(Upsert(items, e))
    ensures forall i :: 0 <= i < |items| ==> Upsert(items, e)[i].id == items[i].id
    ensures |Upsert(items, e)| == |items| + if HasId(items, e.id) then 0 else 1
  {
    hide IndexOf;
  }

  /** With unique ids, adding is map update, looking up is map lookup, ids stay unique, and no other
      entry moves. */
  lemma UpsertIsMapUpdate<T>(items: seq<Entry<T>>, e: Entry<T>)
    requires UniqueIds(items)
    ensures var r := Upsert(items, e);
            && UniqueIds(r) && AsMap(r) == AsMap(items)[e.id := e.value]
            && (forall i :: 0 <= i < |items| ==> r[i] == if items[i].id == e.id then e else items[i])
            && |r| == |items| + if HasId(items, e.id) then 0 else 1
  {
    UpsertUnique(items, e);
    var r := Upsert(items, e);
    forall id: int
      ensures id in AsMap(r) <==> id in AsMap(items)[e.id := e.value]
      ensures id in AsMap(r) ==> AsMap(r)[id] == AsMap(items)[e.id := e.value][id]
    {
      UpsertLookup(items, e, id);
      MapIsLookup(r, id);
      MapIsLookup(items, id);
    }
  }

  lemma MapIsLookup<T>(items: seq<Entry<T>>, id: int)
    ensures id in AsMap(items) <==> Lookup(items, id).Some?
    ensures id in AsMap(items) ==> Lookup(items, id) == Some(AsMap(items)[id])
  {
  }

  // ---------- What a reload builds ----------

  /** Entry j is the last one of entries with its id. */
  predicate IsLast<T>(entries: seq<Entry<T>>, j: nat)
    requires j < |entries|
  {
    forall k :: j < k < |entries| ==> entries[k].id != entries[j].id
  }

  /** The collection built from a list: unique ids, exactly the ids of the list, each with its last
      value, in the order in which the ids were first seen. */
  ghost predicate IsDigest<T>(r: seq<Entry<T>>, entries: seq<Entry<T>>) {
    && UniqueIds(r)
    && (forall id :: HasId(r, id) <==> HasId(entries, id))
    && (forall i :: 0 <= i < |r| ==> exists j :: 0 <= j < |entries| && entries[j] == r[i] && IsLast(entries, j))
    && (forall i, j :: 0 <= i < j < |r| ==> IndexOf(entries, r[i].id) < IndexOf(entries, r[j].id))
  }

  lemma {:induction false} BuildIsDigest<T>(entries: seq<Entry<T>>)
    ensures IsDigest(Build(entries), entries)
  {
    if entries != [] {
      var n := |entries| - 1;
      var before, e := entries[..n], entries[n];
      BuildIsDigest(before);
      assert entries == before + [e];
      DigestStep(Build(before), before, e);
    }
  }

  lemma DigestStep<T>(items: seq<Entry<T>>, before: seq<Entry<T>>, e: Entry<T>)
    requires IsDigest(items, before)
    ensures IsDigest(Upsert(items, e), before + [e])
  {
    var r, all := Upsert(items, e), before + [e];
    UpsertUnique(items, e);
    hide Upsert, IndexOf, HasId, IsLast, UniqueIds;
    forall id
      ensures HasId(r, id) <==> HasId(all, id)
    {
      StillHas(items, e, id);
      AppendHas(before, e, id);
    }
    forall i | 0 <= i < |r|
      ensures exists j :: 0 <= j < |all| && all[j] == r[i] && IsLast(all, j)
    {
      var j := LastOf(items, before, e, i);
    }
    forall i, j | 0 <= i < j < |r|
      ensures IndexOf(all, r[i].id) < IndexOf(all, r[j].id)
    {
      InOrder(items, before, e, i, j);
    }
  }

  lemma AppendHas<T>(before: seq<Entry<T>>, e: Entry<T>, id: int)
    ensures HasId(before + [e], id) <==> HasId(before, id) || id == e.id
  {
    var all := before + [e];
    if i :| 0 <= i < |before| && before[i].id == id {
      assert all[i].id == id;
    }
    assert all[|before|].id == e.id;
  }

  lemma LastOf<T>(items: seq<Entry<T>>, before: seq<Entry<T>>, e: Entry<T>, i: nat) returns (j: nat)
    requires IsDigest(items, before) && i < |Upsert(items, e)|
    ensures var all := before + [e]; j < |all| && all[j] == Upsert(items, e)[i] && IsLast(all, j)
  {
    hide IndexOf;
    var r := Upsert(items, e);
    if r[i].id == e.id {
      UpsertUnique(items, e);
      j := |before|;
    } else {
      assert r[i] == items[i];
      var k :| 0 <= k < |before| && before[k] == r[i] && IsLast(before, k);
      j := k;
    }
  }

  lemma InOrder<T>(items: seq<Entry<T>>, before: seq<Entry<T>>, e: Entry<T>, i: nat, j: nat)
    requires IsDigest(items, before) && i < j < |Upsert(items, e)|
    ensures var r, all := Upsert(items, e), before + [e]; IndexOf(all, r[i].id) < IndexOf(all, r[j].id)
  {
    hide IndexOf, IsLast;
    var r := Upsert(items, e);
    UpsertUnique(items, e);
    FirstSeen(before, e, r[i].id);
    FirstSeen(before, e, r[j].id);
    assert HasId(items, items[i].id);
    if j < |items| {
      assert HasId(items, items[j].id);
    } else {
      assert r[j] == e && !HasId(items, e.id);
    }
  }

  lemma StillHas<T>(items: seq<Entry<T>>, e: Entry<T>, id: int)
    ensures HasId(Upsert(items, e), id) <==> HasId(items, id) || id == e.id
  {
    var r := Upsert(items, e);
    hide IndexOf;
    if i :| 0 <= i < |items| && items[i].id == id {
      assert r[i].id == id;
    }
    if id == e.id {
      assert r[IndexOf(items, e.id)].id == id;
    }
    if i :| 0 <= i < |r| && r[i].id == id {
      assert i < |items| ==> items[i].id == r[i].id;
    }
  }

  lemma FirstSeen<T>(before: seq<Entry<T>>, e: Entry<T>, id: int)
    ensures HasId(before, id) ==> IndexOf(before + [e], id) == IndexOf(before, id) < |before|
    ensures !HasId(before, id) ==> IndexOf(before + [e], id) >= |before|
  {
    var all := before + [e];
    hide IndexOf;
    if HasId(before, id) {
      IndexIs(all, id, IndexOf(before, id));
    } else {
      assert forall i :: 0 <= i < |before| ==> all[i] == before[i] && before[i].id != id;
    }
  }

  /** A digest is determined by the list: Build is the only one. */
  lemma DigestUnique<T>(r: seq<Entry<T>>, s: seq<Entry<T>>, entries: seq<Entry<T>>)
    requires IsDigest(r, entries) && IsDigest(s, entries)
    ensures r == s
  {
    NotLonger(r, s, entries);
    NotLonger(s, r, entries);
    DigestPrefix(r, s, entries, |r|);
    assert r[..|r|] == r && s[..|s|] == s;
  }

  lemma NotLonger<T>(r: seq<Entry<T>>, s: seq<Entry<T>>, entries: seq<Entry<T>>)
    requires IsDigest(r, entries) && IsDigest(s, entries)
    ensures |s| <= |r|
  {
    if |r| < |s| {
      DigestPrefix(r, s, entries, |r|);
      assert r[..|r|] == r;
      hide IsLast, IndexOf, HasId;
      NewToPrefix(s, |r|);
    }
  }

  lemma NewToPrefix<T>(s: seq<Entry<T>>, n: nat)
    requires UniqueIds(s) && n < |s|
    ensures HasId(s, s[n].id) && !HasId(s[..n], s[n].id)
  {
  }

  lemma {:induction false} DigestPrefix<T>(r: seq<Entry<T>>, s: seq<Entry<T>>, entries: seq<Entry<T>>, n: nat)
    requires IsDigest(r, entries) && IsDigest(s, entries)
    requires n <= |r| && n <= |s|
    ensures r[..n] == s[..n]
  {
    hide IndexOf;
    if n > 0 {
      DigestPrefix(r, s, entries, n - 1);
      NotLater(r, s, entries, n - 1);
      NotLater(s, r, entries, n - 1);
      assert IndexOf(entries, r[n - 1].id) == IndexOf(entries, s[n - 1].id);
      SameEntry(r[n - 1], s[n - 1], entries);
      assert r[..n] == r[..n - 1] + [r[n - 1]];
      assert s[..n] == s[..n - 1] + [s[n - 1]];
    }
  }

  /** After a common prefix, the next id of r was seen no later than the next id of s. */
  lemma NotLater<T>(r: seq<Entry<T>>, s: seq<Entry<T>>, entries: seq<Entry<T>>, n: nat)
    requires IsDigest(r, entries) && IsDigest(s, entries)
    requires n < |r| && n < |s| && r[..n] == s[..n]
    ensures IndexOf(entries, r[n].id) <= IndexOf(entries, s[n].id)
  {
    hide IndexOf, IsLast;
    NewToPrefix(s, n);
    var i := PastPrefix(r, n, s[n].id);
    assert i > n ==> IndexOf(entries, r[n].id) < IndexOf(entries, r[i].id);
  }

  lemma PastPrefix<T>(r: seq<Entry<T>>, n: nat, id: int) returns (i: nat)
    requires n <= |r| && HasId(r, id) && !HasId(r[..n], id)
    ensures n <= i < |r| && r[i].id == id
  {
    var k :| 0 <= k < |r| && r[k].id == id;
    i := k;
    assert forall j :: 0 <= j < n ==> r[..n][j] == r[j];
  }

  lemma SameEntry<T>(a: Entry<T>, b: Entry<T>, entries: seq<Entry<T>>)
    requires IndexOf(entries, a.id) == IndexOf(entries, b.id)
    requires exists j :: 0 <= j < |entries| && entries[j] == a && IsLast(entries, j)
    requires exists j :: 0 <= j < |entries| && entries[j] == b && IsLast(entries, j)
    ensures a == b
  {
    var j :| 0 <= j < |entries| && entries[j] == a && IsLast(entries, j);
    var k :| 0 <= k < |entries| && entries[k] == b && IsLast(entries, k);
    assert IndexOf(entries, a.id) < |entries|;
    assert a.id == b.id;
  }
}
