/** The store behind the CRUD service: a directory for each entity, a file for each id. */
module CrudStore {
  import opened Decimal
  import opened FreshIds
  import opened Options

  // ---------------------------------------------------------------------------------------
  // The map that the store is meant to be
  // ---------------------------------------------------------------------------------------

  /** From entity and id to body. */
  type Store = map<(string, int), string>

  function IdsOf(store: Store, entity: string): set<int> {
    set k | k in store && k.0 == entity :: k.1
  }

  function Retrieved(store: Store, entity: string, id: int): Option<string> {
    if (entity, id) in store then Some(store[(entity, id)]) else None
  }

  predicate Ascending(s: seq<int>) {
    forall i, j :: 0 <= i < j < |s| ==> s[i] < s[j]
  }

  /** The ids in ascending order, each once. */
  ghost predicate IsListing(s: seq<int>, ids: set<int>) {
    Ascending(s) && (forall i :: 0 <= i < |s| ==> s[i] in ids) && forall id :: id in ids ==> id in s
  }

  lemma {:induction false} HeadListed(s: seq<int>, t: seq<int>, ids: set<int>)
    requires IsListing(s, ids) && IsListing(t, ids) && s != []
    ensures s[0] in t
  {
    IsListed(t, ids, s[0]);
  }

  lemma {:induction false} IsListed(s: seq<int>, ids: set<int>, id: int)
    requires IsListing(s, ids) && id in ids
    ensures id in s
  {
  }

  lemma {:induction false} ListingUnique(s: seq<int>, t: seq<int>, ids: set<int>)
    requires IsListing(s, ids) && IsListing(t, ids)
    ensures s == t
    decreases |s|
  {
    if s != [] { HeadListed(s, t, ids); }
    if t != [] { HeadListed(t, s, ids); }
    if s != [] && t != [] {
      TailListing(s, ids);
      TailListing(t, ids);
      ListingUnique(s[1..], t[1..], ids - {s[0]});
      assert s == [s[0]] + s[1..] && t == [t[0]] + t[1..];
    }
  }

  lemma {:induction false} TailListing(s: seq<int>, ids: set<int>)
    requires IsListing(s, ids) && s != []
    ensures IsListing(s[1..], ids - {s[0]})
  {
    forall id | id in ids - {s[0]} ensures id in s[1..] {
      var i :| 0 <= i < |s| && s[i] == id;
      assert s[1..][i - 1] == id;
    }
  }

  // ---------------------------------------------------------------------------------------
  // Sorting
  // ---------------------------------------------------------------------------------------

  predicate Sorted(s: seq<int>) {
    forall i, j :: 0 <= i < j < |s| ==> s[i] <= s[j]
  }

  function Insert(x: int, s: seq<int>): seq<int> {
    if s == [] || x <= s[0] then [x] + s else [s[0]] + Insert(x, s[1..])
  }

  function Sort(s: seq<int>): seq<int> {
    if s == [] then [] else Insert(s[0], Sort(s[1..]))
  }

  lemma {:induction false} InsertPermutes(x: int, s: seq<int>)
    ensures multiset(Insert(x, s)) == multiset(s) + multiset{x}
  {
    if s != [] && x > s[0] {
      InsertPermutes(x, s[1..]);
      assert s == [s[0]] + s[1..];
    }
  }

  lemma {:induction false} InsertSorts(x: int, s: seq<int>)
    requires Sorted(s)
    ensures Sorted(Insert(x, s))
  {
    if s != [] && x > s[0] {
      InsertSorts(x, s[1..]);
      InsertPermutes(x, s[1..]);
      var r := Insert(x, s[1..]);
      forall i | 0 <= i < |r| ensures s[0] <= r[i] {
        assert r[i] in multiset(r);
      }
    }
  }

  /** A sorted permutation, as std::sort leaves it. */
  lemma {:induction false} SortSpec(s: seq<int>)
    ensures Sorted(Sort(s)) && multiset(Sort(s)) == multiset(s)
  {
    if s != [] {
      SortSpec(s[1..]);
      InsertSorts(s[0], Sort(s[1..]));
      InsertPermutes(s[0], Sort(s[1..]));
      assert s == [s[0]] + s[1..];
    }
  }

  /** Sorting different ids gives their listing. */
  lemma {:induction false} SortLists(s: seq<int>, ids: set<int>)
    requires (forall i :: 0 <= i < |s| ==> s[i] in ids) && forall id :: id in ids ==> id in s
    requires forall i, j :: 0 <= i < j < |s| ==> s[i] != s[j]
    ensures IsListing(Sort(s), ids)
  {
    var r := Sort(s);
    SortSpec(s);
    forall i | 0 <= i < |r| ensures r[i] in ids {
      assert r[i] in multiset(r);
      assert r[i] in s;
    }
    forall id | id in ids ensures id in r {
      assert id in multiset(s);
    }
    forall i, j | 0 <= i < j < |r| ensures r[i] < r[j] {
      Once(s, r[i]);
      if r[i] == r[j] { Twice(r, i, j); }
    }
  }

  lemma {:induction false} Twice(s: seq<int>, i: nat, j: nat)
    requires i < j < |s| && s[i] == s[j]
    ensures multiset(s)[s[i]] >= 2
  {
    assert s == s[..j] + [s[j]] + s[j + 1..];
    assert s[..j][i] == s[i];
    assert multiset(s) == multiset(s[..j]) + multiset{s[j]} + multiset(s[j + 1..]);
  }

  lemma {:induction false} Once(s: seq<int>, x: int)
    requires forall i, j :: 0 <= i < j < |s| ==> s[i] != s[j]
    ensures multiset(s)[x] <= 1
    decreases |s|
  {
    if s != [] {
      assert s == [s[0]] + s[1..];
      Once(s[1..], x);
      if x == s[0] { assert x !in s[1..]; }
    }
  }

  // ---------------------------------------------------------------------------------------
  // The directories
  // ---------------------------------------------------------------------------------------

  /** The entity directories, each a map from file name to contents. */
  type Directories = map<string, map<string, string>>

  /** The file of an entity's id is there, with these contents. */
  predicate HasFile(dirs: Directories, entity: string, name: string) {
    entity in dirs && name in dirs[entity]
  }

  /** The files are those of the store: named by the decimal form of an id, and no others. */
  ghost predicate Represents(dirs: Directories, store: Store) {
    && (forall k :: k in store ==>
      0 <= k.1 <= INT_MAX && HasFile(dirs, k.0, ToString(k.1)) && dirs[k.0][ToString(k.1)] == store[k])
    && (forall e, name :: HasFile(dirs, e, name) ==> exists id: nat :: name == ToString(id) && (e, id) in store)
  }

  lemma {:induction false} RepresentsAt(dirs: Directories, store: Store, entity: string, id: nat)
    requires Represents(dirs, store)
    ensures HasFile(dirs, entity, ToString(id)) <==> (entity, id) in store
    ensures (entity, id) in store ==> dirs[entity][ToString(id)] == store[(entity, id)]
  {
    if HasFile(dirs, entity, ToString(id)) {
      var other: nat :| ToString(id) == ToString(other) && (entity, other) in store;
      ToStringInjective(id, other);
    }
  }

  /** Creating an entity's directory adds no file. */
  lemma {:induction false} MakeDirectory(dirs: Directories, store: Store, entity: string)
    requires Represents(dirs, store) && entity !in dirs
    ensures Represents(dirs[entity := map[]], store)
  {
    var next := dirs[entity := map[]];
    hide ToString;
    forall e, name | HasFile(next, e, name) ensures exists id: nat :: name == ToString(id) && (e, id) in store {
      assert HasFile(dirs, e, name);
    }
  }

  lemma {:induction false} WriteFile(dirs: Directories, store: Store, entity: string, id: nat, body: string)
    requires Represents(dirs, store) && entity in dirs && id <= INT_MAX
    ensures Represents(dirs[entity := dirs[entity][ToString(id) := body]], store[(entity, id) := body])
  {
    var next := dirs[entity := dirs[entity][ToString(id) := body]];
    var after := store[(entity, id) := body];
    hide ToString;
    forall k | k in after
      ensures 0 <= k.1 <= INT_MAX && HasFile(next, k.0, ToString(k.1)) && next[k.0][ToString(k.1)] == after[k]
    {
      if k != (entity, id) {
        assert k in store;
        if k.0 == entity && ToString(k.1) == ToString(id) { ToStringInjective(k.1, id); }
      }
    }
    forall e, name | HasFile(next, e, name) ensures exists i: nat :: name == ToString(i) && (e, i) in after {
      if e == entity && name == ToString(id) {
        assert (e, id) in after;
      } else {
        assert HasFile(dirs, e, name);
        var i: nat :| name == ToString(i) && (e, i) in store;
        assert (e, i) in after;
      }
    }
  }

  lemma {:induction false} RemoveFile(dirs: Directories, store: Store, entity: string, id: nat)
    requires Represents(dirs, store) && entity in dirs
    ensures Represents(dirs[entity := dirs[entity] - {ToString(id)}], store - {(entity, id)})
  {
    var next := dirs[entity := dirs[entity] - {ToString(id)}];
    var after := store - {(entity, id)};
    hide ToString;
    forall k | k in after
      ensures 0 <= k.1 <= INT_MAX && HasFile(next, k.0, ToString(k.1)) && next[k.0][ToString(k.1)] == after[k]
    {
      if k.0 == entity && ToString(k.1) == ToString(id) { ToStringInjective(k.1, id); }
    }
    forall e, name | HasFile(next, e, name) ensures exists i: nat :: name == ToString(i) && (e, i) in after {
      assert HasFile(dirs, e, name);
      var i: nat :| name == ToString(i) && (e, i) in store;
      assert (e, i) in after;
    }
  }

  /** The store over the files. What a file operation that fails leaves behind is a parameter: ok
      says whether the file could be opened. */
  class CRUDStore {
    var dirs: Directories
    ghost var store: Store

    ghost predicate Valid()
      reads this
    {
      Represents(dirs, store)
    }

    constructor ()
      ensures Valid() && store == map[]
    {
      dirs, store := map[], map[];
    }

    /** The next free id of the entity, with the body; no other entry changes. */
    method Create(entity: string, body: string, ok: bool) returns (id: int)
      requires Valid()
      requires forall i :: i in IdsOf(store, entity) ==> i < INT_MAX
      modifies this
      ensures Valid()
      ensures ok ==> id == NextId(IdsOf(old(store), entity)) && store == old(store)[(entity, id) := body]
      ensures !ok ==> id == -1 && store == old(store)
    {
      if entity !in dirs {
        MakeDirectory(dirs, store, entity);
        dirs := dirs[entity := map[]];
      }
      var newId := 1;
      var ids := List(entity);
      if ids != [] {
        newId := ids[|ids| - 1] + 1;
        LastIsMax(ids, IdsOf(store, entity));
      } else {
        assert IdsOf(store, entity) == {};
      }
      IdsBounded(dirs, store, entity);
      assert newId == NextId(IdsOf(store, entity));
      if !ok {
        return -1;
      }
      WriteFile(dirs, store, entity, newId, body);
      dirs := dirs[entity := dirs[entity][ToString(newId) := body]];
      store := store[(entity, newId) := body];
      return newId;
    }

    method Retrieve(entity: string, id: nat, ok: bool) returns (body: Option<string>)
      requires Valid()
      ensures body == if ok then Retrieved(store, entity, id) else None
    {
      RepresentsAt(dirs, store, entity, id);
      if entity !in dirs || ToString(id) !in dirs[entity] {
        return None;
      }
      if !ok {
        return None;
      }
      return Some(dirs[entity][ToString(id)]);
    }

    method Update(entity: string, id: nat, body: string, ok: bool) returns (done: bool)
      requires Valid() && id <= INT_MAX
      modifies this
      ensures Valid() && done == ok
      ensures store == if ok then old(store)[(entity, id) := body] else old(store)
    {
      if entity !in dirs || ToString(id) !in dirs[entity] {
        if entity !in dirs {
          MakeDirectory(dirs, store, entity);
          dirs := dirs[entity := map[]];
        }
      }
      if !ok {
        return false;
      }
      WriteFile(dirs, store, entity, id, body);
      dirs := dirs[entity := dirs[entity][ToString(id) := body]];
      store := store[(entity, id) := body];
      return true;
    }

    method Del(entity: string, id: nat) returns (done: bool)
      requires Valid()
      modifies this
      ensures Valid()
      ensures done <==> (entity, id) in old(store)
      ensures store == old(store) - {(entity, id)}
    {
      RepresentsAt(dirs, store, entity, id);
      if entity in dirs && ToString(id) in dirs[entity] {
        RemoveFile(dirs, store, entity, id);
        dirs := dirs[entity := dirs[entity] - {ToString(id)}];
        store := store - {(entity, id)};
        return true;
      }
      assert store - {(entity, id)} == store;
      return false;
    }

    /** The directory is read in any order. */
    method List(entity: string) returns (ids: seq<int>)
      requires Valid()
      ensures IsListing(ids, IdsOf(store, entity))
    {
      ids := [];
      if entity !in dirs {
        assert IdsOf(store, entity) == {};
        return;
      }
      ghost var seen: set<int> := {};
      var unread := dirs[entity].Keys;
      IdsBounded(dirs, store, entity);
      hide ToString, Stoi, Represents;
      while unread != {}
        invariant unread <= dirs[entity].Keys && seen <= IdsOf(store, entity)
        invariant forall id :: id in IdsOf(store, entity) ==> (id in seen <==> ToString(id) !in unread)
        invariant forall i :: 0 <= i < |ids| ==> ids[i] in seen
        invariant forall id :: id in seen ==> id in ids
        invariant forall i, j :: 0 <= i < j < |ids| ==> ids[i] != ids[j]
        decreases |unread|
      {
        var name :| name in unread;
        ghost var id := NameOf(dirs, store, entity, name);
        match Stoi(name) {
          case Number(n) =>
            assert n !in seen;
            ids := ids + [n];
            seen := seen + {n};
          case _ =>
        }
        unread := unread - {name};
      }
      SortLists(ids, IdsOf(store, entity));
      ids := Sort(ids);
    }
  }

  lemma {:induction false} NameOf(dirs: Directories, store: Store, entity: string, name: string) returns (id: nat)
    requires Represents(dirs, store) && HasFile(dirs, entity, name)
    ensures id in IdsOf(store, entity) && name == ToString(id) && Stoi(name) == Number(id)
    ensures forall other: nat :: name == ToString(other) ==> other == id
  {
    id :| name == ToString(id) && (entity, id) in store;
    StoiToString(id);
    forall other: nat | name == ToString(other) ensures other == id { ToStringInjective(other, id); }
  }

  lemma {:induction false} IdsBounded(dirs: Directories, store: Store, entity: string)
    requires Represents(dirs, store)
    ensures forall id :: id in IdsOf(store, entity) ==> 0 <= id <= INT_MAX && HasFile(dirs, entity, ToString(id))
  {
  }

  lemma {:induction false} LastIsMax(s: seq<int>, ids: set<int>)
    requires IsListing(s, ids) && s != []
    ensures NextId(ids) == s[|s| - 1] + 1
  {
    var m := s[|s| - 1];
    assert m in ids;
    forall id | id in ids ensures id <= m {
      var i :| 0 <= i < |s| && s[i] == id;
    }
  }
}
