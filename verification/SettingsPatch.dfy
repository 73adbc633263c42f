/**
 Patching the settings, and the banner that says which of them the running daemon does not have yet.
 */
module SettingsPatch {
  import opened Options
  import opened Sorting

  datatype Value = Number(n: int) | Flag(b: bool) | Text(s: string)

  datatype Definition = Definition(default: Value, restart: bool)

  type Registry = map<string, Definition>
  type Store = map<string, Value>
  type Body = map<string, string>

  /** What a raw value of a key decodes to, if it is valid. */
  type Decoder = (string, string) -> Option<Value>

  datatype Answer = UnknownKey(key: string) | BadValue(key: string) | NotReadable | Patched(restart: seq<string>)

  function Get(store: Store, key: string): Option<Value> { if key in store then Some(store[key]) else None }

  function Stored(registry: Registry, store: Store, key: string): Value
    requires key in registry
  {
    if key in store then store[key] else registry[key].default
  }

  // ---------------------------------------------------------------- what a patch writes

  predicate Bad(decode: Decoder, body: Body, key: string) { key !in body || decode(key, body[key]).None? }

  /** The first position that satisfies `p`, or the length. */
  function First(keys: seq<string>, p: string -> bool): (n: nat)
    ensures n <= |keys| && (forall i :: 0 <= i < n ==> !p(keys[i])) && (n < |keys| ==> p(keys[n]))
  {
    if keys == [] || p(keys[0]) then 0 else 1 + First(keys[1..], p)
  }

  function FirstUnknown(registry: Registry, keys: seq<string>): nat { First(keys, key => key !in registry) }

  function FirstBad(decode: Decoder, body: Body, keys: seq<string>): nat { First(keys, key => Bad(decode, body, key)) }

  function Lay(store: Store, decode: Decoder, body: Body, keys: seq<string>): Store {
    if keys == [] then store
    else
      var key := keys[|keys| - 1];
      var before := Lay(store, decode, body, keys[..|keys| - 1]);
      if Bad(decode, body, key) then before else before[key := decode(key, body[key]).value]
  }

  /** A key whose stored value is not the one this process started with. */
  predicate Lit(registry: Registry, running: Store, store: Store, key: string) {
    key in registry && registry[key].restart && key in running && Stored(registry, store, key) != running[key]
  }

  function LitAmong(
    registry: Registry, running: Store, store: Store, unread: set<string>, keys: seq<string>): seq<string> {
    if keys == [] then []
    else
      var key := keys[|keys| - 1];
      LitAmong(registry, running, store, unread, keys[..|keys| - 1]) +
      if Lit(registry, running, store, key) || (key in registry && registry[key].restart && key in unread) then [key] else []
  }

  class Settings {
    const registry: Registry
    const decode: Decoder
    var store: Store
    const running: Store

    /** The values this process starts with; a key that cannot be read runs on its default. */
    constructor (registry: Registry, decode: Decoder, store: Store, unread: set<string>)
      ensures this.registry == registry && this.decode == decode && this.store == store
      ensures running == Snapshot(registry, store, unread)
      ensures forall key :: key in running <==> key in registry && registry[key].restart
      ensures forall key :: key in running ==>
        running[key] == if key in store && key !in unread then store[key] else registry[key].default
    {
      this.registry, this.decode, this.store := registry, decode, store;
      var rest := registry.Keys;
      var values: Store := map[];
      while rest != {}
        invariant rest <= registry.Keys
        invariant values == map key | key in registry && key !in rest && registry[key].restart ::
          if key in unread then registry[key].default else Stored(registry, store, key)
        decreases rest
      {
        var key :| key in rest;
        rest := rest - {key};
        if !registry[key].restart { continue; }
        values := values[key := if key in unread then registry[key].default else Stored(registry, store, key)];
      }
      running := values;
    }

    method NeedsRestart(key: string, unread: set<string>) returns (lit: bool)
      ensures lit <==> Lit(registry, running, store, key) || (key in registry && registry[key].restart && key in unread)
    {
      if key !in registry || !registry[key].restart { return false; }
      if key in unread { return true; }
      lit := key in running && Stored(registry, store, key) != running[key];
    }

    method CheckKeys(keys: seq<string>) returns (n: nat)
      ensures n == FirstUnknown(registry, keys)
    {
      n := 0;
      while n < |keys| && keys[n] in registry
        invariant n <= |keys| && forall i :: 0 <= i < n ==> keys[i] in registry
      {
        n := n + 1;
      }
      FirstIs(keys, key => key !in registry, n);
    }

    method WriteKey(key: string, v: Value, unread: set<string>, ghost before: seq<string>, soFar: seq<string>)
      returns (restart: seq<string>)
      requires key !in before && soFar == LitAmong(registry, running, store, unread, before)
      modifies this
      ensures store == old(store)[key := v]
      ensures restart == LitAmong(registry, running, store, unread, before + [key])
    {
      LitIgnoresOthers(registry, running, store, unread, before, key, v);
      assert (before + [key])[..|before|] == before;
      store := store[key := v];
      var lit := NeedsRestart(key, unread);
      restart := if lit then soFar + [key] else soFar;
    }

    method WriteKeys(keys: seq<string>, body: Body, unread: set<string>) returns (n: nat, restart: seq<string>)
      requires keys == SortSet(body.Keys)
      modifies this
      ensures n == FirstBad(decode, body, keys)
      ensures store == Lay(old(store), decode, body, keys[..n])
      ensures restart == LitAmong(registry, running, store, unread, keys[..n])
    {
      n, restart := 0, [];
      while n < |keys| && !Bad(decode, body, keys[n])
        invariant n <= |keys| && forall i :: 0 <= i < n ==> !Bad(decode, body, keys[i])
        invariant store == Lay(old(store), decode, body, keys[..n])
        invariant restart == LitAmong(registry, running, store, unread, keys[..n])
      {
        LayOne(old(store), decode, body, keys, n);
        KeysDiffer(body.Keys, n);
        restart := WriteKey(keys[n], decode(keys[n], body[keys[n]]).value, unread, keys[..n], restart);
        n := n + 1;
      }
      FirstIs(keys, key => Bad(decode, body, key), n);
    }

    /** `unread` keys cannot be read back. */
    method Patch(body: Body, unread: set<string>) returns (answer: Answer)
      modifies this
      ensures var keys := SortSet(body.Keys);
        var u, n := FirstUnknown(registry, keys), FirstBad(decode, body, keys);
        if u < |keys| then answer == UnknownKey(keys[u]) && store == old(store)
        else if n < |keys| then answer == BadValue(keys[n]) && store == Lay(old(store), decode, body, keys[..n])
        else
          && store == Lay(old(store), decode, body, keys)
          && answer == if unread * registry.Keys != {} then NotReadable
                       else Patched(LitAmong(registry, running, store, {}, keys))
      ensures Tells(registry, running, decode, old(store), store, body, unread, answer)
    {
      PatchTells(registry, running, decode, store, body, unread);
      var keys := Collect(body.Keys);
      SortOfAnyOrder(keys, body.Keys);
      keys := SortStrings(keys);
      var n := CheckKeys(keys);
      if n < |keys| { return UnknownKey(keys[n]); }
      var restart;
      n, restart := WriteKeys(keys, body, unread);
      if n < |keys| { return BadValue(keys[n]); }
      assert keys[..n] == keys;
      if unread * registry.Keys != {} { return NotReadable; }
      NothingUnread(registry, running, store, unread, keys);
      return Patched(restart);
    }
  }

  function Snapshot(registry: Registry, store: Store, unread: set<string>): Store {
    map key | key in registry && registry[key].restart ::
      if key in unread then registry[key].default else Stored(registry, store, key)
  }

  lemma {:induction false} FirstIs(keys: seq<string>, p: string -> bool, n: nat)
    requires n <= |keys| && (forall i :: 0 <= i < n ==> !p(keys[i])) && (n < |keys| ==> p(keys[n]))
    ensures First(keys, p) == n
  {
    var m := First(keys, p);
  }

  lemma {:induction false} LayOne(store: Store, decode: Decoder, body: Body, keys: seq<string>, n: nat)
    requires n < |keys| && !Bad(decode, body, keys[n])
    ensures keys[..n + 1] == keys[..n] + [keys[n]]
    ensures Lay(store, decode, body, keys[..n + 1]) ==
      Lay(store, decode, body, keys[..n])[keys[n] := decode(keys[n], body[keys[n]]).value]
  {
    assert keys[..n + 1][..n] == keys[..n];
  }

  lemma {:induction false} KeysDiffer(s: set<string>, n: nat)
    requires n < |SortSet(s)|
    ensures SortSet(s)[n] !in SortSet(s)[..n]
  {
    var keys := SortSet(s);
    var key := keys[n];
    assert keys == keys[..n] + [key] + keys[n + 1..];
    assert multiset(keys)[key] == multiset(keys[..n])[key] + 1 + multiset(keys[n + 1..])[key];
    assert multiset(s)[key] <= 1;
  }

  lemma {:induction false} LitIgnoresOthers(
    registry: Registry, running: Store, store: Store, unread: set<string>, keys: seq<string>, key: string, v: Value)
    requires key !in keys
    ensures LitAmong(registry, running, store[key := v], unread, keys) == LitAmong(registry, running, store, unread, keys)
  {
    if keys != [] { LitIgnoresOthers(registry, running, store, unread, keys[..|keys| - 1], key, v); }
  }

  lemma {:induction false} NothingUnread(
    registry: Registry, running: Store, store: Store, unread: set<string>, keys: seq<string>)
    requires unread * registry.Keys == {}
    ensures LitAmong(registry, running, store, unread, keys) == LitAmong(registry, running, store, {}, keys)
  {
    if keys != [] {
      var key := keys[|keys| - 1];
      assert key in registry && key in unread ==> key in unread * registry.Keys;
      NothingUnread(registry, running, store, unread, keys[..|keys| - 1]);
    }
  }

  // ---------------------------------------------------------------- what a patch means

  lemma {:induction false} LayIs(store: Store, decode: Decoder, body: Body, keys: seq<string>)
    ensures forall key ::
      Get(Lay(store, decode, body, keys), key) ==
      if key in keys && !Bad(decode, body, key) then decode(key, body[key]) else Get(store, key)
  {
    if keys != [] {
      var n := |keys| - 1;
      LayIs(store, decode, body, keys[..n]);
      assert forall key :: key in keys <==> key in keys[..n] || key == keys[n];
    }
  }

  lemma {:induction false} SortedKeys(s: set<string>)
    ensures IsSorted(SortSet(s), Leq)
  {
    StringOrder();
    SortIsSorted(Listed(s), Leq);
  }

  predicate Below(a: string, b: string) { Leq(a, b) && a != b }

  /** The keys before a position are the smaller ones. */
  lemma {:induction false} PrefixIsBelow(s: set<string>, n: nat, key: string)
    requires n < |SortSet(s)|
    ensures key in SortSet(s)[..n] <==> key in s && Below(key, SortSet(s)[n])
  {
    var keys := SortSet(s);
    SortedKeys(s);
    StringOrder();
    MembersOfSortSet(s, key);
    KeysDiffer(s, n);
    if key in keys[..n] {
      var i :| 0 <= i < n && keys[i] == key;
      assert Leq(keys[i], keys[n]);
    }
    if key in s && Below(key, keys[n]) {
      var i :| 0 <= i < |keys| && keys[i] == key;
    }
  }

  /** Where a patch stops at a bad value, exactly the smaller keys of its body are written. */
  lemma {:induction false} BadValueWritesPrefix(store: Store, decode: Decoder, body: Body, key: string)
    requires FirstBad(decode, body, SortSet(body.Keys)) < |SortSet(body.Keys)|
    ensures var keys := SortSet(body.Keys); var n := FirstBad(decode, body, keys);
      Get(Lay(store, decode, body, keys[..n]), key) ==
      if key in body && Below(key, keys[n]) then decode(key, body[key]) else Get(store, key)
  {
    var keys := SortSet(body.Keys);
    var n := FirstBad(decode, body, keys);
    LayIs(store, decode, body, keys[..n]);
    PrefixIsBelow(body.Keys, n, key);
    if key in keys[..n] {
      var i :| 0 <= i < n && keys[i] == key;
      assert !Bad(decode, body, keys[i]);
    }
  }

  /** A patch goes through exactly when every key is known and every value is valid; then everything is written. */
  lemma {:induction false} PatchIsWhole(registry: Registry, store: Store, decode: Decoder, body: Body, key: string)
    ensures var keys := SortSet(body.Keys);
      && (FirstUnknown(registry, keys) == |keys| <==> body.Keys <= registry.Keys)
      && (FirstBad(decode, body, keys) == |keys| <==> forall k :: k in body ==> decode(k, body[k]).Some?)
      && (FirstBad(decode, body, keys) == |keys| ==>
            Get(Lay(store, decode, body, keys), key) == if key in body then decode(key, body[key]) else Get(store, key))
  {
    var keys := SortSet(body.Keys);
    forall k ensures k in keys <==> k in body { MembersOfSortSet(body.Keys, k); }
    AllOrFirst(keys, k => k !in registry);
    AllOrFirst(keys, k => Bad(decode, body, k));
    LayIs(store, decode, body, keys);
  }

  lemma {:induction false} AllOrFirst(keys: seq<string>, p: string -> bool)
    ensures First(keys, p) == |keys| <==> forall k :: k in keys ==> !p(k)
  {
    var n := First(keys, p);
    if n == |keys| {
      forall k | k in keys ensures !p(k) {
        var i :| 0 <= i < |keys| && keys[i] == k;
      }
    } else {
      assert keys[n] in keys;
    }
  }

  /** The keys a patch reports are the ones of its body that are lit. */
  lemma {:induction false} LitAmongIs(registry: Registry, running: Store, store: Store, keys: seq<string>, key: string)
    ensures key in LitAmong(registry, running, store, {}, keys) <==> key in keys && Lit(registry, running, store, key)
  {
    if keys != [] {
      var n := |keys| - 1;
      LitAmongIs(registry, running, store, keys[..n], key);
      assert key in keys <==> key in keys[..n] || key == keys[n];
    }
  }

  /**
   After any patches, a key is lit exactly when it takes a restart and what is stored is not what this process read
   at its start; so a patch away from that value and back, with anything between, puts the light out.
   */
  lemma {:induction false} LitComparesWithTheStart(
    registry: Registry, atStart: Store, decode: Decoder, store: Store, body: Body, key: string)
    requires key in registry && key in body && !Bad(decode, body, key)
    ensures var running := Snapshot(registry, atStart, {});
      var after := Lay(store, decode, body, SortSet(body.Keys));
      Lit(registry, running, after, key) <==>
        registry[key].restart && decode(key, body[key]) != Some(Stored(registry, atStart, key))
  {
    LayIs(store, decode, body, SortSet(body.Keys));
    MembersOfSortSet(body.Keys, key);
    var after := Lay(store, decode, body, SortSet(body.Keys));
    assert Get(after, key) == decode(key, body[key]);
  }

  // ---------------------------------------------------------------- the answer, told by the body

  ghost predicate Whole(registry: Registry, decode: Decoder, was: Store, now: Store, body: Body) {
    && body.Keys <= registry.Keys && (forall k :: k in body ==> decode(k, body[k]).Some?)
    && forall k :: Get(now, k) == if k in body then decode(k, body[k]) else Get(was, k)
  }

  /** An unknown key stops a patch before it, a bad value at it; and a whole patch names the keys that take a restart. */
  ghost predicate Tells(
    registry: Registry, running: Store, decode: Decoder, was: Store, now: Store, body: Body, unread: set<string>,
    answer: Answer)
  {
    match answer
    case UnknownKey(key) =>
      && key in body && key !in registry && now == was
      && forall k :: k in body && k !in registry ==> Leq(key, k)
    case BadValue(key) =>
      && body.Keys <= registry.Keys && key in body && decode(key, body[key]).None?
      && (forall k :: k in body && decode(k, body[k]).None? ==> Leq(key, k))
      && forall k :: Get(now, k) == if k in body && Leq(k, key) && k != key then decode(k, body[k]) else Get(was, k)
    case NotReadable =>
      Whole(registry, decode, was, now, body) && exists k :: k in unread && k in registry.Keys
    case Patched(restart) =>
      && Whole(registry, decode, was, now, body) && IsSorted(restart, Leq)
      && (forall k :: k in unread ==> k !in registry.Keys)
      && forall k :: k in restart <==>
           k in body && registry[k].restart && k in running && decode(k, body[k]) != Some(running[k])
  }

  /** The answer of a patch and what it leaves. */
  function Outcome(registry: Registry, running: Store, decode: Decoder, store: Store, keys: seq<string>, body: Body, unread: set<string>)
    : (Answer, Store)
  {
    var u, n := FirstUnknown(registry, keys), FirstBad(decode, body, keys);
    if u < |keys| then (UnknownKey(keys[u]), store)
    else if n < |keys| then (BadValue(keys[n]), Lay(store, decode, body, keys[..n]))
    else
      var after := Lay(store, decode, body, keys);
      (if unread * registry.Keys != {} then NotReadable else Patched(LitAmong(registry, running, after, {}, keys)), after)
  }

  lemma {:induction false} UnknownTells(registry: Registry, body: Body)
    requires FirstUnknown(registry, SortSet(body.Keys)) < |SortSet(body.Keys)|
    ensures var key := SortSet(body.Keys)[FirstUnknown(registry, SortSet(body.Keys))];
      key in body && key !in registry && forall k :: k in body && k !in registry ==> Leq(key, k)
  {
    var keys := SortSet(body.Keys);
    SortedKeys(body.Keys);
    forall k ensures k in keys <==> k in body { MembersOfSortSet(body.Keys, k); }
    assert keys[FirstUnknown(registry, keys)] in keys;
    FirstIsSmallest(keys, k => k !in registry);
  }

  lemma {:induction false} BadTells(decode: Decoder, store: Store, body: Body)
    requires FirstBad(decode, body, SortSet(body.Keys)) < |SortSet(body.Keys)|
    ensures var keys, n := SortSet(body.Keys), FirstBad(decode, body, SortSet(body.Keys));
      && keys[n] in body && decode(keys[n], body[keys[n]]).None?
      && (forall k :: k in body && decode(k, body[k]).None? ==> Leq(keys[n], k))
      && forall k :: Get(Lay(store, decode, body, keys[..n]), k) ==
           if k in body && Leq(k, keys[n]) && k != keys[n] then decode(k, body[k]) else Get(store, k)
  {
    var keys, n := SortSet(body.Keys), FirstBad(decode, body, SortSet(body.Keys));
    SortedKeys(body.Keys);
    forall k ensures k in keys <==> k in body { MembersOfSortSet(body.Keys, k); }
    assert keys[n] in keys;
    FirstIsSmallest(keys, k => Bad(decode, body, k));
    assert forall k :: k in body && decode(k, body[k]).None? ==> Bad(decode, body, k);
    forall k ensures Get(Lay(store, decode, body, keys[..n]), k) ==
      if k in body && Leq(k, keys[n]) && k != keys[n] then decode(k, body[k]) else Get(store, k)
    {
      BadValueWritesPrefix(store, decode, body, k);
    }
  }

  lemma {:induction false} PatchTells(
    registry: Registry, running: Store, decode: Decoder, store: Store, body: Body, unread: set<string>)
    ensures var (answer, after) := Outcome(registry, running, decode, store, SortSet(body.Keys), body, unread);
      Tells(registry, running, decode, store, after, body, unread, answer)
  {
    var keys := SortSet(body.Keys);
    PatchIsWhole(registry, store, decode, body, "");
    if FirstUnknown(registry, keys) < |keys| {
      UnknownTells(registry, body);
    } else if FirstBad(decode, body, keys) < |keys| {
      BadTells(decode, store, body);
    } else {
      WholeTells(registry, running, decode, store, body);
      UnreadAre(unread, registry.Keys);
    }
  }

  lemma {:induction false} UnreadAre(unread: set<string>, keys: set<string>)
    ensures unread * keys == {} <==> forall k :: k in unread ==> k !in keys
  {
    if k :| k in unread && k in keys { assert k in unread * keys; }
  }

  lemma {:induction false} WholeTells(registry: Registry, running: Store, decode: Decoder, store: Store, body: Body)
    requires FirstUnknown(registry, SortSet(body.Keys)) == |SortSet(body.Keys)|
    requires FirstBad(decode, body, SortSet(body.Keys)) == |SortSet(body.Keys)|
    ensures var keys := SortSet(body.Keys);
      var after := Lay(store, decode, body, keys);
      var restart := LitAmong(registry, running, after, {}, keys);
      && Whole(registry, decode, store, after, body) && IsSorted(restart, Leq)
      && forall k :: k in restart <==>
           k in body && registry[k].restart && k in running && decode(k, body[k]) != Some(running[k])
  {
    var keys := SortSet(body.Keys);
    var after := Lay(store, decode, body, keys);
    SortedKeys(body.Keys);
    LitAmongIsSorted(registry, running, after, keys);
    PatchIsWhole(registry, store, decode, body, "");
    forall k ensures Get(after, k) == if k in body then decode(k, body[k]) else Get(store, k) {
      PatchIsWhole(registry, store, decode, body, k);
    }
    forall k ensures k in LitAmong(registry, running, after, {}, keys) <==>
      k in body && registry[k].restart && k in running && decode(k, body[k]) != Some(running[k])
    {
      LitAmongIs(registry, running, after, keys, k);
      MembersOfSortSet(body.Keys, k);
      if k in body { assert Get(after, k) == decode(k, body[k]); }
    }
  }

  lemma {:induction false} FirstIsSmallest(keys: seq<string>, p: string -> bool)
    requires IsSorted(keys, Leq) && First(keys, p) < |keys|
    ensures forall k :: k in keys && p(k) ==> Leq(keys[First(keys, p)], k)
  {
    var n := First(keys, p);
    StringOrder();
    forall k | k in keys && p(k) ensures Leq(keys[n], k) {
      var i :| 0 <= i < |keys| && keys[i] == k;
      if i == n { assert Leq(keys[n], keys[n]); }
    }
  }

  lemma {:induction false} LitAmongIsSorted(registry: Registry, running: Store, store: Store, keys: seq<string>)
    requires IsSorted(keys, Leq)
    ensures IsSorted(LitAmong(registry, running, store, {}, keys), Leq)
  {
    if keys != [] {
      var n := |keys| - 1;
      LitAmongIsSorted(registry, running, store, keys[..n]);
      var before := LitAmong(registry, running, store, {}, keys[..n]);
      forall i | 0 <= i < |before| ensures Leq(before[i], keys[n]) {
        LitAmongIs(registry, running, store, keys[..n], before[i]);
        assert before[i] in before;
        var j :| 0 <= j < n && keys[j] == before[i];
      }
    }
  }

  /** A patch neither lights nor puts out a key that is not in it. */
  lemma {:induction false} OthersKeepTheirLight(
    registry: Registry, running: Store, decode: Decoder, store: Store, body: Body, n: nat, key: string)
    requires key !in body && n <= |SortSet(body.Keys)|
    ensures Lit(registry, running, Lay(store, decode, body, SortSet(body.Keys)[..n]), key) <==> Lit(registry, running, store, key)
  {
    var keys := SortSet(body.Keys)[..n];
    MembersOfSortSet(body.Keys, key);
    LayIs(store, decode, body, keys);
    assert Get(Lay(store, decode, body, keys), key) == Get(store, key);
  }
}
