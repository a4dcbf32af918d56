/** Creations from two threads: the store lists the ids of an entity in one step, and opens the file of
    the next id in another. */
module CrudRaces {
  import opened CrudStore
  import opened FreshIds

  /** The ids that creations have chosen and not yet written. */
  datatype State = State(store: Store, chosen: map<nat, (string, int)>)

  datatype Event =
    | Choose(pid: nat, entity: string)
    | Write(pid: nat, key: (string, int), text: string)
    | Put(key: (string, int), text: string)
    | Remove(key: (string, int))

  predicate Enabled(s: State, e: Event) {
    match e
    case Choose(pid, _) => pid !in s.chosen
    case Write(pid, key, _) => pid in s.chosen && s.chosen[pid] == key
    case _ => true
  }

  function Next(s: State, e: Event): State
    requires Enabled(s, e)
  {
    match e
    case Choose(pid, entity) => s.(chosen := s.chosen[pid := (entity, NextId(IdsOf(s.store, entity)))])
    case Write(pid, key, text) => State(s.store[key := text], s.chosen - {pid})
    case Put(key, text) => s.(store := s.store[key := text])
    case Remove(key) => s.(store := s.store - {key})
  }

  ghost predicate IsRun(s: State, es: seq<Event>)
    decreases |es|
  {
    es == [] || (Enabled(s, es[0]) && IsRun(Next(s, es[0]), es[1..]))
  }

  function RunAll(s: State, es: seq<Event>): State
    requires IsRun(s, es)
    decreases |es|
  {
    if es == [] then s else RunAll(Next(s, es[0]), es[1..])
  }

  predicate Writes(e: Event, key: (string, int)) {
    (e.Write? || e.Put?) && e.key == key
  }

  predicate NoRemoval(es: seq<Event>, key: (string, int)) {
    forall i :: 0 <= i < |es| ==> es[i] != Remove(key)
  }

  /** Some event writes the entry and none after it removes it. */
  ghost predicate IsTaken(es: seq<Event>, key: (string, int)) {
    exists i :: 0 <= i < |es| && Writes(es[i], key) && NoRemoval(es[i + 1..], key)
  }

  lemma {:induction false} TakenNext(es: seq<Event>, key: (string, int))
    requires es != []
    ensures IsTaken(es, key) <==> (Writes(es[0], key) && NoRemoval(es[1..], key)) || IsTaken(es[1..], key)
  {
    if IsTaken(es[1..], key) {
      var i :| 0 <= i < |es[1..]| && Writes(es[1..][i], key) && NoRemoval(es[1..][i + 1..], key);
      assert es[1..][i + 1..] == es[i + 2..];
      assert Writes(es[i + 1], key);
    }
    if IsTaken(es, key) {
      var i :| 0 <= i < |es| && Writes(es[i], key) && NoRemoval(es[i + 1..], key);
      if i > 0 {
        assert es[1..][i - 1 + 1..] == es[i + 1..];
        assert Writes(es[1..][i - 1], key);
      }
    }
  }

  lemma {:induction false} NoRemovalNext(es: seq<Event>, key: (string, int))
    requires es != []
    ensures NoRemoval(es, key) <==> es[0] != Remove(key) && NoRemoval(es[1..], key)
  {
    assert forall i :: 0 < i < |es| ==> es[i] == es[1..][i - 1];
  }

  /** After a run an entry is there if the run took it, or if it was there and the run did not remove
      it. */
  lemma {:induction false} EntryAfter(s: State, es: seq<Event>, key: (string, int))
    requires IsRun(s, es)
    ensures key in RunAll(s, es).store <==> IsTaken(es, key) || (key in s.store && NoRemoval(es, key))
    decreases |es|
  {
    if es != [] {
      TakenNext(es, key);
      NoRemovalNext(es, key);
      EntryAfter(Next(s, es[0]), es[1..], key);
      hide NextId, IsTaken, NoRemoval, IsRun;
    }
  }

  /** A creation chooses an id, other requests come, and then it writes: it overwrites an entry exactly
      when one of them has written that entry and none has removed it since. */
  lemma {:induction false} CreateOverwritesExactly(s: State, pid: nat, entity: string, es: seq<Event>, write: Event)
    requires Enabled(s, Choose(pid, entity)) && IsRun(Next(s, Choose(pid, entity)), es)
    requires var end := RunAll(Next(s, Choose(pid, entity)), es);
             Enabled(end, write) && write.Write? && write.key == (entity, NextId(IdsOf(s.store, entity)))
    ensures write.key in RunAll(Next(s, Choose(pid, entity)), es).store <==> IsTaken(es, write.key)
  {
    var id := NextId(IdsOf(s.store, entity));
    assert (entity, id) in s.store ==> id in IdsOf(s.store, entity);
    EntryAfter(Next(s, Choose(pid, entity)), es, write.key);
    hide NextId, IsTaken, NoRemoval, IsRun;
  }

  /** So a creation that nothing comes between never does: its id is 1 or the greatest plus one. */
  lemma {:induction false} AloneNeverOverwrites(s: State, pid: nat, entity: string, write: Event)
    requires Enabled(s, Choose(pid, entity)) && Enabled(Next(s, Choose(pid, entity)), write) && write.Write? &&
      write.pid == pid
    ensures write.key !in s.store
    ensures var (entity, id) := write.key;
            && (forall i :: (entity, i) in s.store ==> i < id) && (id == 1 || (entity, id - 1) in s.store)
            && Next(Next(s, Choose(pid, entity)), write).store == s.store[write.key := write.text]
  {
    CreateOverwritesExactly(s, pid, entity, [], write);
    assert !IsTaken([], write.key);
    assert forall i :: (entity, i) in s.store ==> i in IdsOf(s.store, entity);
  }

  /** Two creations for one entity that both choose before either writes are given the same id, and the
      text of the first is lost. */
  lemma {:induction false} RacingCreatesCollide(s: State, a: nat, b: nat, entity: string, first: string, second: string)
    returns (id: int, es: seq<Event>)
    requires a != b && a !in s.chosen && b !in s.chosen
    ensures es == [Choose(a, entity), Choose(b, entity), Write(a, (entity, id), first), Write(b, (entity, id), second)]
    ensures IsRun(s, es) && RunAll(s, es).store == s.store[(entity, id) := second]
    ensures (entity, id) !in s.store
  {
    id := NextId(IdsOf(s.store, entity));
    assert (entity, id) in s.store ==> id in IdsOf(s.store, entity);
    var key := (entity, id);
    var chosen := s.chosen[a := key][b := key];
    es := RunOn(s, [], Choose(a, entity));
    es := RunOn(s, es, Choose(b, entity));
    hide NextId, IdsOf, IsRun, RunAll;
    assert RunAll(s, es) == State(s.store, chosen);
    es := RunOn(s, es, Write(a, key, first));
    assert RunAll(s, es) == State(s.store[key := first], chosen - {a});
    es := RunOn(s, es, Write(b, key, second));
    assert s.store[key := first][key := second] == s.store[key := second];
  }

  /** The run goes on with one more event. */
  lemma {:induction false} RunOn(s: State, es: seq<Event>, e: Event) returns (all: seq<Event>)
    requires IsRun(s, es) && Enabled(RunAll(s, es), e)
    ensures all == es + [e] && IsRun(s, all) && RunAll(s, all) == Next(RunAll(s, es), e)
    decreases |es|
  {
    all := es + [e];
    if es == [] {
      assert all[1..] == [];
    } else {
      var rest := RunOn(Next(s, es[0]), es[1..], e);
      hide Next;
      assert all[1..] == rest;
    }
  }
}
