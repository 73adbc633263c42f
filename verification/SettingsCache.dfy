/**
 The read-through cache of the settings, under readers and writers that interleave.
 */
module SettingsCache {
  import opened Options

  type Id = string

  /** A row's value; `None` is a setting without a row, which has its default. */
  type Stored = Option<string>

  /** A read that missed: the generation it saw, and what the store gave it. */
  datatype Fetch = Fetch(key: string, gen: nat, found: Option<Stored>)

  datatype Load = Load(gen: nat, rows: map<string, Stored>)

  /** `pending` has the keys that a writer committed and did not invalidate yet. */
  datatype World = World(
    rows: map<string, string>, values: map<string, Stored>, gen: nat,
    fetches: map<Id, Fetch>, pending: map<Id, set<string>>, loads: map<Id, Load>)

  datatype Action =
    | Miss(id: Id, key: string)
    | Read(id: Id)
    | Fill(id: Id)
    | Commit(id: Id, keys: set<string>, rows: map<string, string>)
    | Invalidate(id: Id)
    | LoadRows(id: Id, keys: set<string>)
    | Install(id: Id)

  function Now(w: World, key: string): Stored { if key in w.rows then Some(w.rows[key]) else None }

  function Step(w: World, a: Action): World {
    match a
    case Miss(id, key) => if key in w.values then w else w.(fetches := w.fetches[id := Fetch(key, w.gen, None)])
    case Read(id) =>
      if id !in w.fetches then w
      else w.(fetches := w.fetches[id := w.fetches[id].(found := Some(Now(w, w.fetches[id].key)))])
    case Fill(id) =>
      if id !in w.fetches || w.fetches[id].found.None? then w
      else
        var f := w.fetches[id];
        w.(fetches := w.fetches - {id}, values := if f.gen == w.gen then w.values[f.key := f.found.value] else w.values)
    case Commit(id, keys, rows) =>
      if id in w.pending then w
      else w.(rows := (w.rows - keys) + (map k | k in rows && k in keys :: rows[k]), pending := w.pending[id := keys])
    case Invalidate(id) =>
      if id !in w.pending then w
      else w.(gen := w.gen + 1, values := w.values - w.pending[id], pending := w.pending - {id})
    case LoadRows(id, keys) => w.(loads := w.loads[id := Load(w.gen, map k | k in keys :: Now(w, k))])
    case Install(id) =>
      if id !in w.loads then w
      else w.(values := w.loads[id].rows, gen := w.gen + 1, loads := w.loads - {id})
  }

  function After(w: World, acts: seq<Action>): World
    decreases |acts|
  {
    if acts == [] then w else After(Step(w, acts[0]), acts[1..])
  }

  const EMPTY := World(map[], map[], 0, map[], map[], map[])

  // ---------------------------------------------------------------- what is cached is what is stored

  predicate Pending(w: World, key: string) { exists id :: id in w.pending && key in w.pending[id] }

  predicate Fresh(w: World, key: string, v: Stored) { Pending(w, key) || v == Now(w, key) }

  /** What is cached is fresh, and so is what a read may still put there. */
  predicate Coherent(w: World) {
    && (forall key :: key in w.values ==> Fresh(w, key, w.values[key]))
    && (forall id :: id in w.fetches ==> w.fetches[id].gen <= w.gen)
    && (forall id :: id in w.fetches && w.fetches[id].gen == w.gen && w.fetches[id].found.Some?
          ==> Fresh(w, w.fetches[id].key, w.fetches[id].found.value))
  }

  /** A load installs a row that another write has replaced, with nobody left to invalidate it. */
  predicate Stale(w: World, a: Action) {
    a.Install? && a.id in w.loads && exists key :: key in w.loads[a.id].rows && !Fresh(w, key, w.loads[a.id].rows[key])
  }

  lemma {:induction false} CommitFreshness(w: World, id: Id, keys: set<string>, rows: map<string, string>, key: string, s: Stored)
    requires Fresh(w, key, s) || key in keys
    ensures id !in w.pending ==> Fresh(Step(w, Commit(id, keys, rows)), key, s)
  {
    var v := Step(w, Commit(id, keys, rows));
    if id !in w.pending {
      if key in keys {
        assert id in v.pending && key in v.pending[id];
      } else if Pending(w, key) {
        var j :| j in w.pending && key in w.pending[j];
        assert j in v.pending && key in v.pending[j];
      } else {
        assert Now(v, key) == Now(w, key);
      }
    }
  }

  lemma {:induction false} CommitKeeps(w: World, id: Id, keys: set<string>, rows: map<string, string>)
    requires Coherent(w)
    ensures Coherent(Step(w, Commit(id, keys, rows)))
  {
    var v := Step(w, Commit(id, keys, rows));
    if id !in w.pending {
      forall key, s | Fresh(w, key, s) ensures Fresh(v, key, s) { CommitFreshness(w, id, keys, rows, key, s); }
    }
  }

  lemma {:induction false} InvalidateFreshness(w: World, id: Id, key: string, s: Stored)
    requires Fresh(w, key, s) && id in w.pending && key !in w.pending[id]
    ensures Fresh(Step(w, Invalidate(id)), key, s)
  {
    var v := Step(w, Invalidate(id));
    if Pending(w, key) {
      var j :| j in w.pending && key in w.pending[j];
      assert j in v.pending && key in v.pending[j];
    }
  }

  lemma {:induction false} InvalidateKeeps(w: World, id: Id)
    requires Coherent(w)
    ensures Coherent(Step(w, Invalidate(id)))
  {
    var v := Step(w, Invalidate(id));
    if id in w.pending {
      forall key | key in v.values ensures Fresh(v, key, v.values[key]) {
        InvalidateFreshness(w, id, key, w.values[key]);
      }
    }
  }

  lemma {:induction false} StepKeeps(w: World, a: Action)
    requires Coherent(w) && !Stale(w, a)
    ensures Coherent(Step(w, a))
  {
    match a
    case Commit(id, keys, rows) => CommitKeeps(w, id, keys, rows);
    case Invalidate(id) => InvalidateKeeps(w, id);
    case _ => RestKeeps(w, a);
  }

  lemma {:induction false} RestKeeps(w: World, a: Action)
    requires Coherent(w) && !Stale(w, a) && !a.Commit? && !a.Invalidate?
    ensures Coherent(Step(w, a))
  {
    var v := Step(w, a);
    assert forall key :: Pending(v, key) <==> Pending(w, key);
    assert forall key, s :: Fresh(w, key, s) ==> Fresh(v, key, s);
  }

  /** At every point of the run each cached value is the stored one, or a write of it awaits its invalidation. */
  predicate AlwaysFresh(w: World, acts: seq<Action>)
    decreases |acts|
  {
    && (forall key :: key in w.values ==> Fresh(w, key, w.values[key]))
    && (acts == [] || AlwaysFresh(Step(w, acts[0]), acts[1..]))
  }

  predicate NeverStale(w: World, acts: seq<Action>)
    decreases |acts|
  {
    acts == [] || (!Stale(w, acts[0]) && NeverStale(Step(w, acts[0]), acts[1..]))
  }

  lemma {:induction false} FreshRuns(w: World, acts: seq<Action>)
    requires Coherent(w)
    ensures AlwaysFresh(w, acts) <==> NeverStale(w, acts)
    decreases |acts|
  {
    if acts != [] {
      var v := Step(w, acts[0]);
      if Stale(w, acts[0]) {
        StaleIsCached(w, acts[0]);
        assert !AlwaysFresh(v, acts[1..]);
      } else {
        StepKeeps(w, acts[0]);
        FreshRuns(v, acts[1..]);
      }
    }
  }

  lemma {:induction false} StaleIsCached(w: World, a: Action)
    requires Stale(w, a)
    ensures var v := Step(w, a); exists key :: key in v.values && !Fresh(v, key, v.values[key])
  {
    var v := Step(w, a);
    var key :| key in w.loads[a.id].rows && !Fresh(w, key, w.loads[a.id].rows[key]);
    assert Pending(v, key) <==> Pending(w, key);
    assert key in v.values && !Fresh(v, key, v.values[key]);
  }

  /**
   However reads, writes and loads interleave, the cache holds what is stored, but between a write's commit and its
   own invalidation, if and only if no load installs a row that was replaced since.
   */
  lemma {:induction false} CachedIsStoredExactly(acts: seq<Action>)
    ensures AlwaysFresh(EMPTY, acts) <==> NeverStale(EMPTY, acts)
  {
    FreshRuns(EMPTY, acts);
  }

  // ---------------------------------------------------------------- loads that do no harm

  /** Nobody writes one of the keys, and the load is not begun again. */
  predicate LeavesAlone(acts: seq<Action>, load: Id, keys: set<string>)
    decreases |acts|
  {
    acts == []
    || ((acts[0].Commit? ==> acts[0].keys !! keys) && !(acts[0].LoadRows? && acts[0].id == load)
        && LeavesAlone(acts[1..], load, keys))
  }

  /** What a load read is still what is stored. */
  predicate LoadStands(w: World, load: Id, keys: set<string>) {
    load in w.loads ==>
      && w.loads[load].rows.Keys == keys
      && forall key :: key in keys ==> w.loads[load].rows[key] == Now(w, key)
  }

  lemma {:induction false} LoadStandsAfter(w: World, acts: seq<Action>, load: Id, keys: set<string>)
    requires LoadStands(w, load, keys) && LeavesAlone(acts, load, keys)
    ensures LoadStands(After(w, acts), load, keys)
    decreases |acts|
  {
    if acts != [] {
      LoadStandsStep(w, acts[0], load, keys);
      LoadStandsAfter(Step(w, acts[0]), acts[1..], load, keys);
    }
  }

  lemma {:induction false} LoadStandsStep(w: World, a: Action, load: Id, keys: set<string>)
    requires LoadStands(w, load, keys) && (a.Commit? ==> a.keys !! keys) && !(a.LoadRows? && a.id == load)
    ensures LoadStands(Step(w, a), load, keys)
  {
    assert forall key :: key in keys ==> Now(Step(w, a), key) == Now(w, key);
  }

  /** A load is harmless, however late, if nobody wrote one of its keys since it read them. */
  lemma {:induction false} UntouchedLoadIsFresh(w: World, keys: set<string>, load: Id, acts: seq<Action>)
    requires LeavesAlone(acts, load, keys)
    ensures !Stale(After(Step(w, LoadRows(load, keys)), acts), Install(load))
  {
    LoadStandsAfter(Step(w, LoadRows(load, keys)), acts, load, keys);
  }

  /** The load goes on, and is neither begun again nor installed. */
  predicate LoadGoesOn(acts: seq<Action>, load: Id) {
    forall a :: a in acts ==> !((a.LoadRows? || a.Install?) && a.id == load)
  }

  lemma {:induction false} LoadStays(w: World, acts: seq<Action>, load: Id)
    requires load in w.loads && LoadGoesOn(acts, load)
    ensures var v := After(w, acts); load in v.loads && v.loads[load] == w.loads[load]
    decreases |acts|
  {
    if acts != [] {
      assert acts[0] in acts && forall a :: a in acts[1..] ==> a in acts;
      LoadStays(Step(w, acts[0]), acts[1..], load);
    }
  }

  predicate Committed(acts: seq<Action>, key: string) { exists a :: a in acts && a.Commit? && key in a.keys }

  lemma {:induction false} ChangeIsCommitted(w: World, acts: seq<Action>, key: string)
    requires Now(After(w, acts), key) != Now(w, key)
    ensures Committed(acts, key)
    decreases |acts|
  {
    if acts != [] {
      var v := Step(w, acts[0]);
      assert acts[0] in acts && forall a :: a in acts[1..] ==> a in acts;
      if Now(v, key) == Now(w, key) { ChangeIsCommitted(v, acts[1..], key); }
    }
  }

  /**
   A load would install something stale if and only if a key of it was committed with another value since it read, and
   every writer of that key has invalidated already.
   */
  lemma {:induction false} StaleIsReplacedExactly(w: World, keys: set<string>, load: Id, acts: seq<Action>)
    requires LoadGoesOn(acts, load)
    ensures var v := After(Step(w, LoadRows(load, keys)), acts);
      Stale(v, Install(load)) <==>
      exists key :: key in keys && Committed(acts, key) && Now(v, key) != Now(w, key) && !Pending(v, key)
  {
    var u := Step(w, LoadRows(load, keys));
    var v := After(u, acts);
    LoadStays(u, acts, load);
    assert v.loads[load].rows.Keys == keys && forall key :: key in keys ==> v.loads[load].rows[key] == Now(w, key);
    forall key | key in keys && Now(v, key) != Now(w, key) ensures Committed(acts, key) { ChangeIsCommitted(u, acts, key); }
  }

  // ---------------------------------------------------------------- the generation as a guard

  /** A load that installs rows read before an invalidation. */
  predicate Late(w: World, a: Action) { a.Install? && a.id in w.loads && w.loads[a.id].gen != w.gen }

  /** Rows that were read since the last invalidation are fresh. */
  predicate LoadsOk(w: World) {
    && (forall id :: id in w.loads ==> w.loads[id].gen <= w.gen)
    && (forall id, key :: id in w.loads && w.loads[id].gen == w.gen && key in w.loads[id].rows
          ==> Fresh(w, key, w.loads[id].rows[key]))
  }

  lemma {:induction false} StepKeepsLoads(w: World, a: Action)
    requires LoadsOk(w)
    ensures LoadsOk(Step(w, a))
  {
    var v := Step(w, a);
    if a.Commit? {
      if a.id !in w.pending {
        forall key, s | Fresh(w, key, s) ensures Fresh(v, key, s) { CommitFreshness(w, a.id, a.keys, a.rows, key, s); }
      }
    } else if !a.Invalidate? {
      assert forall key :: Pending(v, key) <==> Pending(w, key);
      assert forall key, s :: Fresh(w, key, s) ==> Fresh(v, key, s);
    }
  }

  predicate NeverLate(w: World, acts: seq<Action>)
    decreases |acts|
  {
    acts == [] || (!Late(w, acts[0]) && NeverLate(Step(w, acts[0]), acts[1..]))
  }

  /** If a load looked at the generation as a read does, none would be stale. */
  lemma {:induction false} NotLateIsNotStale(w: World, acts: seq<Action>)
    requires LoadsOk(w) && NeverLate(w, acts)
    ensures NeverStale(w, acts)
    decreases |acts|
  {
    if acts != [] {
      StepKeepsLoads(w, acts[0]);
      NotLateIsNotStale(Step(w, acts[0]), acts[1..]);
    }
  }

  lemma {:induction false} CachedIsStored(acts: seq<Action>)
    requires NeverLate(EMPTY, acts)
    ensures AlwaysFresh(EMPTY, acts)
  {
    NotLateIsNotStale(EMPTY, acts);
    CachedIsStoredExactly(acts);
  }

  /** A load does not look at the generation: one write in between, and what it installs is stale and stays so. */
  lemma {:induction false} LateLoadIsStale(load: Id, writer: Id, key: string, v: string)
    ensures var w := After(EMPTY, [LoadRows(load, {key}), Commit(writer, {key}, map[key := v]), Invalidate(writer), Install(load)]);
      key in w.values && !Pending(w, key) && w.values[key] != Now(w, key)
  {
    var a := Step(EMPTY, LoadRows(load, {key}));
    var b := Step(a, Commit(writer, {key}, map[key := v]));
    var c := Step(b, Invalidate(writer));
    var d := Step(c, Install(load));
    var acts := [LoadRows(load, {key}), Commit(writer, {key}, map[key := v]), Invalidate(writer), Install(load)];
    assert a.loads[load].rows == map[key := None];
    assert Now(b, key) == Some(v) && c.pending == map[];
    assert After(EMPTY, acts) == After(a, acts[1..]) == After(b, acts[1..][1..]);
    assert acts[1..][1..] == [Invalidate(writer), Install(load)];
    assert After(b, [Invalidate(writer), Install(load)]) == After(c, [Install(load)]) by {
      assert [Invalidate(writer), Install(load)][1..] == [Install(load)];
    }
    assert [Install(load)][1..] == [];
    assert After(c, [Install(load)]) == d;
  }

  // ---------------------------------------------------------------- what each caller gets

  lemma {:induction false} AfterPair(w: World, a: Action, b: Action)
    ensures After(w, [a, b]) == Step(Step(w, a), b)
  {
    assert [a, b][1..] == [b] && [b][1..] == [];
    assert After(Step(w, a), [b]) == Step(Step(w, a), b);
  }

  lemma {:induction false} AfterCons(w: World, a: Action, rest: seq<Action>)
    ensures After(w, [a] + rest) == After(Step(w, a), rest)
  {
    assert ([a] + rest)[0] == a && ([a] + rest)[1..] == rest;
  }

  /** A read that misses and is not overtaken caches what is stored, and changes nothing else. */
  lemma {:induction false} ReadIsCached(w: World, id: Id, key: string)
    requires id !in w.fetches && key !in w.values
    ensures After(w, [Miss(id, key)] + [Read(id), Fill(id)]) == w.(values := w.values[key := Now(w, key)])
  {
    AfterCons(w, Miss(id, key), [Read(id), Fill(id)]);
    var m := Step(w, Miss(id, key));
    AfterPair(m, Read(id), Fill(id));
    assert Step(m, Read(id)).fetches - {id} == w.fetches;
  }

  /** A write replaces exactly its rows, and when it has invalidated exactly its keys are cached no more. */
  lemma {:induction false} WriteIsSeen(w: World, id: Id, keys: set<string>, rows: map<string, string>, key: string)
    requires id !in w.pending
    ensures var v := After(w, [Commit(id, keys, rows), Invalidate(id)]);
      && Now(v, key) == (if key !in keys then Now(w, key) else if key in rows then Some(rows[key]) else None)
      && (key in v.values <==> key in w.values && key !in keys) && (key in v.values ==> v.values[key] == w.values[key])
      && w.gen < v.gen && v.pending == w.pending && v.fetches == w.fetches && v.loads == w.loads
  {
    AfterPair(w, Commit(id, keys, rows), Invalidate(id));
    assert Step(w, Commit(id, keys, rows)).pending - {id} == w.pending;
  }

  /** What a read brings after a write or a load raised the generation is not cached. */
  lemma {:induction false} OvertakenReadIsDropped(w: World, id: Id, other: Id)
    requires id in w.fetches && w.fetches[id].found.Some? && w.fetches[id].gen <= w.gen && other in w.pending
    ensures var v := Step(w, Invalidate(other));
      Step(v, Fill(id)) == v.(fetches := v.fetches - {id})
  {
  }

  /** A load that is not overtaken caches exactly its keys, with what is stored. */
  lemma {:induction false} LoadIsCached(w: World, id: Id, keys: set<string>)
    requires id !in w.loads
    ensures var v := After(w, [LoadRows(id, keys), Install(id)]);
      && v == w.(values := v.values, gen := v.gen) && w.gen < v.gen
      && v.values.Keys == keys && forall key :: key in keys ==> v.values[key] == Now(w, key)
  {
    AfterPair(w, LoadRows(id, keys), Install(id));
    assert Step(w, LoadRows(id, keys)).loads - {id} == w.loads;
  }
}
