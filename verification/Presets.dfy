/**
 Laying a preset's flags over instances. A flag set is its JSON object: the keys it sets, each with its text.
 */
module Presets {
  import opened Options
  import opened Sorting

  type Flags = map<string, string>

  // ---------------------------------------------------------------- one overlay

  /** An empty list allows every key. */
  predicate Allowed(key: string, allow: set<string>) { allow == {} || key in allow }

  function Overlay(base: Flags, patch: Flags, allow: set<string>): Flags {
    map k | k in base.Keys + patch.Keys && (k in base || Allowed(k, allow)) ::
      if k in patch && Allowed(k, allow) then patch[k] else base[k]
  }

  function Moved(base: Flags, patch: Flags, allow: set<string>): set<string> {
    set k | k in patch && Allowed(k, allow) && !(k in base && base[k] == patch[k])
  }

  function Get(flags: Flags, key: string): Option<string> { if key in flags then Some(flags[key]) else None }

  /** The overlay of the keys seen so far. */
  function Laid(base: Flags, patch: Flags, allow: set<string>, seen: set<string>): Flags {
    Overlay(base, map k | k in patch && k in seen :: patch[k], allow)
  }

  lemma {:induction false} LaidOne(base: Flags, patch: Flags, allow: set<string>, seen: set<string>, key: string)
    requires key in patch && key !in seen
    ensures var laid := Laid(base, patch, allow, seen);
      && (key in Moved(base, patch, allow) <==> Allowed(key, allow) && Get(laid, key) != Some(patch[key]))
      && Laid(base, patch, allow, seen + {key}) == if key in Moved(base, patch, allow) then laid[key := patch[key]] else laid
  {
    var laid, more := Laid(base, patch, allow, seen), Laid(base, patch, allow, seen + {key});
    forall k ensures Get(more, k) == Get(if key in Moved(base, patch, allow) then laid[key := patch[key]] else laid, k) {}
    SameFlags(more, if key in Moved(base, patch, allow) then laid[key := patch[key]] else laid);
  }

  lemma {:induction false} LaidAll(base: Flags, patch: Flags, allow: set<string>)
    ensures Laid(base, patch, allow, {}) == base && Laid(base, patch, allow, patch.Keys) == Overlay(base, patch, allow)
  {
    assert (map k | k in patch && k in patch.Keys :: patch[k]) == patch;
  }

  method MergeKey(
    ghost current: Flags, patch: Flags, allow: set<string>, ghost seen: set<string>, key: string,
    before: Flags, soFar: seq<string>)
    returns (merged: Flags, changed: seq<string>)
    requires key in patch && key !in seen
    requires before == Laid(current, patch, allow, seen) && Gathered(soFar, Moved(current, patch, allow), seen)
    ensures merged == Laid(current, patch, allow, seen + {key})
    ensures Gathered(changed, Moved(current, patch, allow), seen + {key})
  {
    LaidOne(current, patch, allow, seen, key);
    GatherOne(soFar, Moved(current, patch, allow), seen, key);
    merged, changed := before, soFar;
    if allow != {} && key !in allow { return; }
    if Get(before, key) == Some(patch[key]) { return; }
    merged := merged[key := patch[key]];
    changed := changed + [key];
  }

  /** The map is ranged over in no particular order. */
  method MergeFlags(current: Flags, patch: Flags, allow: set<string>) returns (merged: Flags, changed: seq<string>)
    ensures merged == Overlay(current, patch, allow)
    ensures changed == SortSet(Moved(current, patch, allow))
  {
    var rest := patch.Keys;
    merged, changed := current, [];
    LaidAll(current, patch, allow);
    assert Gathered([], Moved(current, patch, allow), {});
    ghost var seen: set<string> := {};
    while rest != {}
      invariant rest !! seen && rest + seen == patch.Keys
      invariant merged == Laid(current, patch, allow, seen)
      invariant Gathered(changed, Moved(current, patch, allow), seen)
      decreases rest
    {
      var key :| key in rest;
      merged, changed := MergeKey(current, patch, allow, seen, key, merged, changed);
      rest, seen := rest - {key}, seen + {key};
    }
    AllGathered(changed, Moved(current, patch, allow), patch.Keys);
    changed := SortStrings(changed);
  }

  lemma {:induction false} AllGathered(changed: seq<string>, moved: set<string>, keys: set<string>)
    requires Gathered(changed, moved, keys) && moved <= keys
    ensures SortStrings(changed) == SortSet(moved)
  {
    assert moved * keys == moved;
    SortOfAnyOrder(changed, moved);
  }

  /** The changed keys among those seen, each once. */
  ghost predicate Gathered(changed: seq<string>, moved: set<string>, seen: set<string>) {
    multiset(changed) == multiset(moved * seen)
  }

  lemma {:induction false} GatherOne(changed: seq<string>, moved: set<string>, seen: set<string>, key: string)
    requires key !in seen && Gathered(changed, moved, seen)
    ensures Gathered(if key in moved then changed + [key] else changed, moved, seen + {key})
  {
    assert moved * (seen + {key}) == (moved * seen) + if key in moved then {key} else {};
  }

  lemma {:induction false} SameFlags(a: Flags, b: Flags)
    requires forall k :: Get(a, k) == Get(b, k)
    ensures a == b
  {
    assert forall k :: k in a <==> Get(a, k).Some?;
    assert forall k :: k in b <==> Get(b, k).Some?;
  }

  /** Exactly the keys that are named change, each to the preset's value. */
  lemma {:induction false} OverlayChangesExactly(base: Flags, patch: Flags, allow: set<string>, key: string)
    ensures key in Moved(base, patch, allow) <==> Get(Overlay(base, patch, allow), key) != Get(base, key)
    ensures key in Moved(base, patch, allow) ==> Get(Overlay(base, patch, allow), key) == Get(patch, key)
    ensures key in SortSet(Moved(base, patch, allow)) <==> key in Moved(base, patch, allow)
  {
    MembersOfSortSet(Moved(base, patch, allow), key);
  }

  /** A second time, nothing is left to change. */
  lemma {:induction false} OverlayTwice(base: Flags, patch: Flags, allow: set<string>)
    ensures var once := Overlay(base, patch, allow);
      Moved(once, patch, allow) == {} && Overlay(once, patch, allow) == once
  {
  }

  /** The list that allows what either of two lists allows. */
  function Either(a: set<string>, b: set<string>): set<string> { if a == {} || b == {} then {} else a + b }

  /** Two overlays of one preset are a single one; they change different keys. */
  lemma {:induction false} OverlaysCompose(base: Flags, patch: Flags, a: set<string>, b: set<string>)
    ensures Overlay(Overlay(base, patch, a), patch, b) == Overlay(base, patch, Either(a, b))
    ensures var first, second := Moved(base, patch, a), Moved(Overlay(base, patch, a), patch, b);
      first + second == Moved(base, patch, Either(a, b)) && first !! second
  {
    var both := Overlay(Overlay(base, patch, a), patch, b);
    assert forall k :: Allowed(k, Either(a, b)) <==> Allowed(k, a) || Allowed(k, b);
    forall k ensures Get(both, k) == Get(Overlay(base, patch, Either(a, b)), k) {}
    SameFlags(both, Overlay(base, patch, Either(a, b)));
  }

  lemma {:induction false} OverlaysCommute(base: Flags, patch: Flags, a: set<string>, b: set<string>)
    ensures Overlay(Overlay(base, patch, a), patch, b) == Overlay(Overlay(base, patch, b), patch, a)
    ensures a != {} && b != {} ==> Overlay(Overlay(base, patch, a), patch, b) == Overlay(base, patch, a + b)
  {
    OverlaysCompose(base, patch, a, b);
    OverlaysCompose(base, patch, b, a);
    assert Either(a, b) == Either(b, a);
  }

  // ---------------------------------------------------------------- many instances

  datatype Instance = Instance(name: string, generation: nat, flags: Flags)

  type Fleet = map<string, Instance>

  datatype Fault = NotRead | NotMerged | NotPatched

  datatype Entry = Entry(id: string, name: string, changed: seq<string>, restart: bool, error: Option<Fault>)

  /**
   A preset, the keys it may replace, the instances that cannot be read, cannot be merged or will not take a patch, and
   what tells of a row whether its instance has to restart for it.
   */
  datatype Order = Order(
    patch: Flags, allow: set<string>, unread: set<string>, unmerged: set<string>, refusing: set<string>,
    restart: (string, Instance) -> bool)

  predicate Readable(fleet: Fleet, o: Order, id: string) { id in fleet && id !in o.unread }

  function Patched(row: Instance, o: Order): Instance {
    Instance(row.name, row.generation + 1, Overlay(row.flags, o.patch, o.allow))
  }

  /** What becomes of a row by itself. */
  function Final(row: Instance, o: Order, id: string): Instance {
    if id !in o.unread && id !in o.unmerged && id !in o.refusing && Moved(row.flags, o.patch, o.allow) != {} then Patched(row, o) else row
  }

  ghost function EntryOf(fleet: Fleet, o: Order, id: string): Entry {
    if !Readable(fleet, o, id) then Entry(id, "", [], false, Some(NotRead))
    else
      var row := fleet[id];
      var moved := Moved(row.flags, o.patch, o.allow);
      if id in o.unmerged then Entry(id, row.name, [], false, Some(NotMerged))
      else if moved == {} then Entry(id, row.name, [], o.restart(id, row), None)
      else if id in o.refusing then Entry(id, row.name, SortSet(moved), false, Some(NotPatched))
      else Entry(id, row.name, SortSet(moved), o.restart(id, Patched(row, o)), None)
  }

  function ApplyOne(fleet: Fleet, o: Order, id: string): Fleet {
    if id in fleet then fleet[id := Final(fleet[id], o, id)] else fleet
  }

  function ApplyAll(fleet: Fleet, o: Order, ids: seq<string>): Fleet {
    if ids == [] then fleet else ApplyOne(ApplyAll(fleet, o, ids[..|ids| - 1]), o, ids[|ids| - 1])
  }

  /**
   What an entry tells of one instance, by its row before and after: every changed key is named once and in order, with
   a patch that is refused those it would have changed; a generation is used up exactly if some key changed.
   */
  ghost predicate Told(e: Entry, o: Order, id: string, was: Fleet, now: Fleet) {
    && e.id == id && now.Keys == was.Keys && (forall i :: i in was && i != id ==> now[i] == was[i])
    && (e.error == Some(NotRead) <==> id !in was || id in o.unread)
    && (e.error == Some(NotRead) ==> e.name == "" && e.changed == [])
    && (e.error.Some? ==> !e.restart && now == was)
    && (e.error != Some(NotRead) ==>
          && e.name == was[id].name && now[id].name == was[id].name
          && (e.error == Some(NotMerged) <==> id in o.unmerged)
          && (e.error == Some(NotMerged) ==> e.changed == [])
          && (e.error == Some(NotPatched) ==> id in o.refusing && e.changed != [])
          && (e.error != Some(NotMerged) ==> IsSorted(e.changed, Leq) && NamesChanges(e.changed, was[id].flags, o))
          && (e.error.None? ==>
                && e.restart == o.restart(id, now[id]) && (e.changed == [] <==> now[id] == was[id])
                && (id in o.refusing ==> e.changed == [])
                && (e.changed != [] ==> now[id].generation == was[id].generation + 1)
                && forall k :: Get(now[id].flags, k) == if k in e.changed then Get(o.patch, k) else Get(was[id].flags, k)))
  }

  /** Named are the keys that the preset sets, that the list allows, and that have another value now. */
  ghost predicate NamesChanges(changed: seq<string>, flags: Flags, o: Order) {
    && (forall i, j :: 0 <= i < j < |changed| ==> changed[i] != changed[j])
    && (forall k :: k in changed <==> k in o.patch && (o.allow == {} || k in o.allow) && Get(flags, k) != Some(o.patch[k]))
  }

  /** The i-th entry is of its instance as the ids before it left it, and tells what happens to it. */
  ghost predicate EntryIs(e: Entry, o: Order, fleet: Fleet, ids: seq<string>, i: nat)
    requires i < |ids|
  {
    && e == EntryOf(ApplyAll(fleet, o, ids[..i]), o, ids[i])
    && Told(e, o, ids[i], ApplyAll(fleet, o, ids[..i]), ApplyAll(fleet, o, ids[..i + 1]))
  }

  lemma {:induction false} SortSetNamesOnce(s: set<string>)
    ensures IsSorted(SortSet(s), Leq)
    ensures forall i, j :: 0 <= i < j < |SortSet(s)| ==> SortSet(s)[i] != SortSet(s)[j]
  {
    StringOrder();
    SortIsSorted(Listed(s), Leq);
    NoTwins(SortSet(s));
  }

  lemma {:induction false} NoTwins(list: seq<string>)
    requires forall x :: multiset(list)[x] <= 1
    ensures forall i, j :: 0 <= i < j < |list| ==> list[i] != list[j]
  {
    if list != [] {
      var n := |list| - 1;
      assert list == list[..n] + [list[n]];
      assert multiset(list) == multiset(list[..n]) + multiset{list[n]};
      assert multiset(list)[list[n]] <= 1 && list[n] !in list[..n];
      forall x ensures multiset(list[..n])[x] <= 1 { assert multiset(list)[x] <= 1; }
      NoTwins(list[..n]);
      forall i | 0 <= i < n ensures list[i] != list[n] { assert list[i] in list[..n]; }
    }
  }

  lemma {:induction false} EntryTells(fleet: Fleet, o: Order, id: string)
    ensures Told(EntryOf(fleet, o, id), o, id, fleet, ApplyOne(fleet, o, id))
  {
    if Readable(fleet, o, id) {
      var row := fleet[id];
      var moved := Moved(row.flags, o.patch, o.allow);
      SortSetNamesOnce(moved);
      ChangedIsEmpty(SortSet(moved), moved);
      forall k ensures k in SortSet(moved) <==> k in moved { MembersOfSortSet(moved, k); }
      forall k ensures Get(Overlay(row.flags, o.patch, o.allow), k) == if k in moved then Get(o.patch, k) else Get(row.flags, k) {
        OverlayChangesExactly(row.flags, o.patch, o.allow, k);
      }
    }
  }

  class Instances {
    var fleet: Fleet

    constructor (fleet: Fleet)
      ensures this.fleet == fleet
    {
      this.fleet := fleet;
    }

    method ApplyTo(o: Order, id: string) returns (entry: Entry)
      modifies this
      ensures fleet == ApplyOne(old(fleet), o, id)
      ensures entry == EntryOf(old(fleet), o, id)
      ensures Told(entry, o, id, old(fleet), fleet)
    {
      EntryTells(fleet, o, id);
      entry := Entry(id, "", [], false, None);
      if id !in fleet || id in o.unread { return entry.(error := Some(NotRead)); }
      var row := fleet[id];
      entry := entry.(name := row.name);
      if id in o.unmerged { return entry.(error := Some(NotMerged)); }
      var merged, changed := MergeFlags(row.flags, o.patch, o.allow);
      ChangedIsEmpty(changed, Moved(row.flags, o.patch, o.allow));
      entry := entry.(changed := changed);
      if |changed| == 0 { return entry.(restart := o.restart(id, row)); }
      if id in o.refusing { return entry.(error := Some(NotPatched)); }
      var updated := Instance(row.name, row.generation + 1, merged);
      fleet := fleet[id := updated];
      entry := entry.(restart := o.restart(id, updated));
    }

    method ApplyPreset(o: Order, ids: seq<string>) returns (entries: seq<Entry>)
      modifies this
      ensures fleet == ApplyAll(old(fleet), o, ids)
      ensures |entries| == |ids|
      ensures forall i :: 0 <= i < |ids| ==> EntryIs(entries[i], o, old(fleet), ids, i)
    {
      entries := [];
      for i := 0 to |ids|
        invariant fleet == ApplyAll(old(fleet), o, ids[..i])
        invariant |entries| == i
        invariant forall j :: 0 <= j < i ==> EntryIs(entries[j], o, old(fleet), ids, j)
      {
        assert ids[..i + 1][..i] == ids[..i];
        var entry := ApplyTo(o, ids[i]);
        assert EntryIs(entry, o, old(fleet), ids, i);
        entries := entries + [entry];
      }
      assert ids[..|ids|] == ids;
    }
  }

  lemma {:induction false} ChangedIsEmpty(changed: seq<string>, moved: set<string>)
    requires changed == SortSet(moved)
    ensures |changed| == 0 <==> moved == {}
    ensures moved == {} ==> changed == []
  {
    assert |changed| == |multiset(changed)| == |multiset(moved)|;
  }

  lemma {:induction false} FinalTwice(row: Instance, o: Order, id: string)
    ensures Final(Final(row, o, id), o, id) == Final(row, o, id)
  {
    OverlayTwice(row.flags, o.patch, o.allow);
  }

  /** Every named instance ends as if it were the only one, and named only once; every other stays as it is. */
  lemma {:induction false} InstancesAreIsolated(fleet: Fleet, o: Order, ids: seq<string>)
    ensures ApplyAll(fleet, o, ids).Keys == fleet.Keys
    ensures forall id :: id in fleet ==>
      ApplyAll(fleet, o, ids)[id] == if id in ids then Final(fleet[id], o, id) else fleet[id]
  {
    if ids != [] {
      var n := |ids| - 1;
      InstancesAreIsolated(fleet, o, ids[..n]);
      assert ids == ids[..n] + [ids[n]];
      if ids[n] in fleet { FinalTwice(fleet[ids[n]], o, ids[n]); }
    }
  }

  /** What is reported of an instance where it is named first is what its own row says. */
  lemma {:induction false} FirstEntryIsItsOwn(fleet: Fleet, o: Order, ids: seq<string>, i: nat)
    requires i < |ids| && ids[i] !in ids[..i]
    ensures EntryOf(ApplyAll(fleet, o, ids[..i]), o, ids[i]) == EntryOf(fleet, o, ids[i])
  {
    InstancesAreIsolated(fleet, o, ids[..i]);
  }

  function Row(fleet: Fleet, id: string): Option<Instance> { if id in fleet then Some(fleet[id]) else None }

  /** Which other instances fail makes no difference to one that does not. */
  lemma {:induction false} FailuresStayAlone(fleet: Fleet, o: Order, p: Order, ids: seq<string>, i: nat)
    requires o == p.(unread := o.unread, unmerged := o.unmerged, refusing := o.refusing) && i < |ids| && ids[i] in fleet
    requires (ids[i] in o.unread <==> ids[i] in p.unread) && (ids[i] in o.refusing <==> ids[i] in p.refusing)
    requires ids[i] in o.unmerged <==> ids[i] in p.unmerged
    ensures Row(ApplyAll(fleet, o, ids), ids[i]) == Row(ApplyAll(fleet, p, ids), ids[i]) != None
    ensures EntryOf(ApplyAll(fleet, o, ids[..i]), o, ids[i]) == EntryOf(ApplyAll(fleet, p, ids[..i]), p, ids[i])
  {
    InstancesAreIsolated(fleet, o, ids);
    InstancesAreIsolated(fleet, p, ids);
    InstancesAreIsolated(fleet, o, ids[..i]);
    InstancesAreIsolated(fleet, p, ids[..i]);
  }
}
