/**
 The exclusivity guard of the benchmarks: which loaded instances might share a card with the one about to start.
 */
module Gpu {
  import opened Options
  import opened Text
  import opened Sorting

  datatype Card = Card(index: int, uuid: string)

  datatype Inventory = Inventory(byIndex: map<int, string>, all: seq<string>, known: bool)

  datatype Flags = Flags(devices: Option<string>, split: seq<real>, mainGpu: Option<int>)

  datatype State = Unknown | Stopped | Starting | Loading | Ready | Degraded | Stopping | Failed | CrashLooping

  datatype Attribution = Measured | Declared | Unattributed

  /** The column of measured cards: absent, not readable, or a list. */
  datatype Column = Null | Unreadable | Uuids(list: seq<string>)

  /** An instance; its flags are `None` when they cannot be parsed. */
  datatype View = View(
    id: string, name: string, deletedAt: Option<int>, state: State,
    attribution: Attribution, measured: Column, flags: Option<Flags>)

  datatype Occupancy = Occupancy(
    id: string, name: string, state: State, gpus: seq<string>, attribution: Attribution, assumed: bool)

  // ---------------------------------------------------------------- the inventory

  function ByIndex(cards: seq<Card>): map<int, string> {
    if cards == [] then map[]
    else
      var n := |cards| - 1;
      var before := ByIndex(cards[..n]);
      if cards[n].uuid == "" then before else before[cards[n].index := cards[n].uuid]
  }

  function Named(cards: seq<Card>): seq<string> {
    if cards == [] then []
    else
      var n := |cards| - 1;
      Named(cards[..n]) + if cards[n].uuid == "" then [] else [cards[n].uuid]
  }

  function Probed(cards: seq<Card>): Inventory {
    Inventory(ByIndex(cards), SortStrings(Named(cards)), cards == [] || Named(cards) != [])
  }

  /** The inventory of a host whose cards could not be listed. */
  const NOT_PROBED := Inventory(map[], [], false)

  /**
   What an inventory has of the cards of a host: the names there are, sorted; under each index the last name it was given.
   It is unknown only of a host that has cards and no names.
   */
  ghost predicate Lists(inv: Inventory, cards: seq<Card>) {
    && (inv.known <==> cards == [] || exists c :: c in cards && c.uuid != "")
    && (forall u :: u in inv.all <==> u != "" && exists c :: c in cards && c.uuid == u)
    && IsSorted(inv.all, Leq)
    && (forall i :: i in inv.byIndex ==> exists c :: c in cards && c.index == i && c.uuid != "")
    && forall k :: 0 <= k < |cards| && cards[k].uuid != "" ==>
         && cards[k].index in inv.byIndex
         && (inv.byIndex[cards[k].index] == cards[k].uuid
             || exists j :: k < j < |cards| && cards[j].index == cards[k].index && cards[j].uuid == inv.byIndex[cards[k].index])
  }

  lemma {:induction false} NamedOf(cards: seq<Card>, u: string)
    ensures u in Named(cards) <==> u != "" && exists c :: c in cards && c.uuid == u
  {
    if cards != [] {
      var n := |cards| - 1;
      NamedOf(cards[..n], u);
      assert cards == cards[..n] + [cards[n]];
      assert cards[n] in cards;
      if c :| c in cards && c.uuid == u { assert c in cards[..n] || c == cards[n]; }
    }
  }

  lemma {:induction false} LastNameOf(cards: seq<Card>, k: nat)
    requires k < |cards| && cards[k].uuid != ""
    ensures var byIndex, i := ByIndex(cards), cards[k].index;
      && i in byIndex
      && (byIndex[i] == cards[k].uuid || exists j :: k < j < |cards| && cards[j].index == i && cards[j].uuid == byIndex[i])
  {
    var n := |cards| - 1;
    var i := cards[k].index;
    if k < n {
      LastNameOf(cards[..n], k);
      var before := ByIndex(cards[..n]);
      if cards[n].uuid != "" && cards[n].index == i {
        assert cards[n].uuid == ByIndex(cards)[i];
      } else if before[i] != cards[k].uuid {
        var j :| k < j < n && cards[..n][j].index == i && cards[..n][j].uuid == before[i];
        assert cards[j].index == i && cards[j].uuid == ByIndex(cards)[i];
      }
    }
  }

  lemma {:induction false} IndexHasCard(cards: seq<Card>, i: int)
    ensures i in ByIndex(cards) ==> exists c :: c in cards && c.index == i && c.uuid != ""
  {
    if cards != [] {
      var n := |cards| - 1;
      IndexHasCard(cards[..n], i);
      assert cards[n] in cards && forall c :: c in cards[..n] ==> c in cards;
    }
  }

  lemma {:induction false} ProbedLists(cards: seq<Card>)
    ensures Lists(Probed(cards), cards)
  {
    StringOrder();
    SortIsSorted(Named(cards), Leq);
    forall u ensures u in Probed(cards).all <==> u != "" && exists c :: c in cards && c.uuid == u {
      MembersOfSort(Named(cards), u);
      NamedOf(cards, u);
    }
    if c :| c in cards && c.uuid != "" { NamedOf(cards, c.uuid); }
    if Named(cards) != [] {
      assert Named(cards)[0] in Named(cards);
      NamedOf(cards, Named(cards)[0]);
    }
    forall i | i in ByIndex(cards) ensures exists c :: c in cards && c.index == i && c.uuid != "" { IndexHasCard(cards, i); }
    forall k: nat | k < |cards| && cards[k].uuid != ""
      ensures
        && cards[k].index in ByIndex(cards)
        && (ByIndex(cards)[cards[k].index] == cards[k].uuid
            || exists j :: k < j < |cards| && cards[j].index == cards[k].index && cards[j].uuid == ByIndex(cards)[cards[k].index])
    {
      LastNameOf(cards, k);
    }
  }

  method NewInventory(cards: seq<Card>) returns (inv: Inventory)
    ensures inv == Probed(cards) && Lists(inv, cards)
  {
    var byIndex, all := map[], [];
    for k := 0 to |cards|
      invariant byIndex == ByIndex(cards[..k]) && all == Named(cards[..k])
    {
      assert cards[..k + 1][..k] == cards[..k];
      if cards[k].uuid != "" {
        byIndex := byIndex[cards[k].index := cards[k].uuid];
        all := all + [cards[k].uuid];
      }
    }
    assert cards[..|cards|] == cards;
    SortKeepsLength(all);
    all := SortStrings(all);
    inv := Inventory(byIndex, all, |cards| == 0 || |all| > 0);
    assert inv == Probed(cards);
    ProbedLists(cards);
  }

  lemma {:induction false} SortKeepsLength(s: seq<string>)
    ensures |SortStrings(s)| == |s|
  {
    assert |SortStrings(s)| == |multiset(SortStrings(s))| == |multiset(s)|;
  }

  // ---------------------------------------------------------------- device names

  function TrimRight(s: string): string {
    if s != "" && IsUnicodeSpace(s[|s| - 1]) then TrimRight(s[..|s| - 1]) else s
  }

  function TrimSpace(s: string): string {
    if s != "" && IsUnicodeSpace(s[0]) then TrimSpace(s[1..]) else TrimRight(s)
  }

  /** Where the digits at the end of `s` begin. */
  function DigitsFrom(s: string): (i: nat)
    ensures i <= |s| && (forall c :: c in s[i..] ==> IsDigit(c)) && (i > 0 ==> !IsDigit(s[i - 1]))
  {
    if s == "" || !IsDigit(s[|s| - 1]) then |s|
    else
      var i := DigitsFrom(s[..|s| - 1]);
      assert s[i..] == s[..|s| - 1][i..] + [s[|s| - 1]];
      i
  }

  const MAX_INT: nat := 0x7FFF_FFFF_FFFF_FFFF

  function DeviceNumber(dev: string): int {
    var s := TrimSpace(dev);
    var i := DigitsFrom(s);
    if i == |s| || DigitsValue(s[i..]) > MAX_INT then -1 else DigitsValue(s[i..])
  }

  method DeviceIndex(dev: string) returns (n: int)
    ensures n == DeviceNumber(dev)
  {
    var s := TrimSpace(dev);
    var i := |s|;
    assert s[..i] == s;
    while i > 0 && IsDigit(s[i - 1])
      invariant 0 <= i <= |s| && DigitsFrom(s) == DigitsFrom(s[..i])
    {
      assert s[..i][..i - 1] == s[..i - 1];
      i := i - 1;
    }
    if i == |s| || DigitsValue(s[i..]) > MAX_INT { return -1; }
    return DigitsValue(s[i..]);
  }

  lemma {:induction false} DigitsFromAppend(name: string, digits: string)
    requires name == "" || !IsDigit(name[|name| - 1])
    requires forall c :: c in digits ==> IsDigit(c)
    ensures DigitsFrom(name + digits) == |name|
  {
    var s := name + digits;
    if digits != "" {
      assert s[..|s| - 1] == name + digits[..|digits| - 1];
      assert digits[|digits| - 1] in digits;
      DigitsFromAppend(name, digits[..|digits| - 1]);
    } else {
      assert s == name;
    }
  }

  lemma {:induction false} TrimRightPadded(s: string, right: string)
    requires forall c :: c in right ==> IsUnicodeSpace(c)
    ensures TrimRight(s + right) == TrimRight(s)
  {
    if right == "" {
      assert s + right == s;
    } else {
      var n := |right| - 1;
      assert (s + right)[..|s| + n] == s + right[..n];
      assert right[n] in right;
      TrimRightPadded(s, right[..n]);
    }
  }

  lemma {:induction false} TrimLeftPadded(left: string, s: string)
    requires forall c :: c in left ==> IsUnicodeSpace(c)
    ensures TrimSpace(left + s) == TrimSpace(s)
  {
    if left == "" {
      assert left + s == s;
    } else {
      assert (left + s)[1..] == left[1..] + s;
      assert left[0] in left;
      TrimLeftPadded(left[1..], s);
    }
  }

  lemma {:induction false} TrimOfPadded(left: string, s: string, right: string)
    requires forall c :: c in left ==> IsUnicodeSpace(c)
    requires forall c :: c in right ==> IsUnicodeSpace(c)
    requires s != "" && !IsUnicodeSpace(s[0]) && !IsUnicodeSpace(s[|s| - 1])
    ensures TrimSpace(left + (s + right)) == s
  {
    TrimLeftPadded(left, s + right);
    assert (s + right)[0] == s[0];
    TrimRightPadded(s, right);
  }

  lemma {:induction false} NumberedName(name: string, digits: string)
    requires name != "" && !IsDigit(name[|name| - 1])
    requires digits != "" && forall c :: c in digits ==> IsDigit(c)
    ensures var s := name + digits; !IsUnicodeSpace(s[|s| - 1]) && s[DigitsFrom(s)..] == digits && DigitsFrom(s) < |s|
  {
    var s := name + digits;
    assert s[|s| - 1] == digits[|digits| - 1] && digits[|digits| - 1] in digits;
    DigitsFromAppend(name, digits);
    assert s[|name|..] == digits;
  }

  /** A device called by any name and a number is the device of that number, whatever space is around it. */
  lemma {:induction false} DeviceHasItsNumber(left: string, name: string, n: nat, right: string)
    requires forall c :: c in left ==> IsUnicodeSpace(c)
    requires forall c :: c in right ==> IsUnicodeSpace(c)
    requires name != "" && !IsUnicodeSpace(name[0]) && !IsDigit(name[|name| - 1])
    ensures DeviceNumber(left + (name + Decimal(n) + right)) == if n <= 0x7FFF_FFFF_FFFF_FFFF then n else -1
  {
    var digits := Decimal(n);
    var s := name + digits;
    NumberedName(name, digits);
    assert s[0] == name[0];
    TrimOfPadded(left, s, right);
    ValueOfDecimal(n);
  }

  /** A name without a number at its end is no device's. */
  lemma {:induction false} NamelessHasNone(left: string, name: string, right: string)
    requires forall c :: c in left ==> IsUnicodeSpace(c)
    requires forall c :: c in right ==> IsUnicodeSpace(c)
    requires name != "" ==> !IsUnicodeSpace(name[0]) && !IsUnicodeSpace(name[|name| - 1]) && !IsDigit(name[|name| - 1])
    ensures DeviceNumber(left + (name + right)) == -1
  {
    if name == "" {
      TrimLeftPadded(left, "" + right);
      assert "" + right == right && right + "" == right;
      TrimLeftPadded(right, "");
    } else {
      TrimOfPadded(left, name, right);
    }
  }

  // ---------------------------------------------------------------- what the flags select

  function DeviceIndexes(parts: seq<string>): set<int> {
    if parts == [] then {}
    else
      var n := |parts| - 1;
      DeviceIndexes(parts[..n]) + if DeviceNumber(parts[n]) >= 0 then {DeviceNumber(parts[n])} else {}
  }

  function SplitIndexes(split: seq<real>): set<int> {
    if split == [] then {}
    else
      var n := |split| - 1;
      SplitIndexes(split[..n]) + if split[n] > 0.0 then {n} else {}
  }

  function FilterIndexes(flags: Flags): set<int> {
    if flags.devices.Some? then DeviceIndexes(Split(flags.devices.value, ',')) else {}
  }

  function Indexes(flags: Flags): set<int> {
    FilterIndexes(flags) + SplitIndexes(flags.split) + if flags.mainGpu.Some? then {flags.mainGpu.value} else {}
  }

  /** The cards of some indexes; an index without a card adds nothing. */
  function Image(byIndex: map<int, string>, indexes: set<int>): set<string> {
    set i | i in indexes && i in byIndex :: byIndex[i]
  }

  ghost function Resolution(inv: Inventory, flags: Flags): seq<string> {
    var chosen := Image(inv.byIndex, Indexes(flags));
    if chosen == {} then inv.all else SortSet(chosen)
  }

  lemma {:induction false} ImageAdd(byIndex: map<int, string>, indexes: set<int>, i: int)
    ensures Image(byIndex, indexes + {i}) == Image(byIndex, indexes) + if i in byIndex then {byIndex[i]} else {}
  {
    if i in byIndex {
      assert i in indexes + {i};
      assert byIndex[i] in Image(byIndex, indexes + {i});
    }
    forall u | u in Image(byIndex, indexes) ensures u in Image(byIndex, indexes + {i}) {
      var j :| j in indexes && j in byIndex && byIndex[j] == u;
      assert j in indexes + {i};
    }
  }

  method ResolveDevices(inv: Inventory, parts: seq<string>) returns (found: set<string>)
    ensures found == Image(inv.byIndex, DeviceIndexes(parts))
  {
    found := {};
    for k := 0 to |parts|
      invariant found == Image(inv.byIndex, DeviceIndexes(parts[..k]))
    {
      assert parts[..k + 1][..k] == parts[..k];
      ImageAdd(inv.byIndex, DeviceIndexes(parts[..k]), DeviceNumber(parts[k]));
      var i := DeviceIndex(parts[k]);
      if i in inv.byIndex && i >= 0 { found := found + {inv.byIndex[i]}; }
    }
    assert parts[..|parts|] == parts;
  }

  method ResolveSplit(inv: Inventory, split: seq<real>, before: set<string>) returns (found: set<string>)
    ensures found == before + Image(inv.byIndex, SplitIndexes(split))
  {
    found := before;
    for i := 0 to |split|
      invariant found == before + Image(inv.byIndex, SplitIndexes(split[..i]))
    {
      assert split[..i + 1][..i] == split[..i];
      ImageAdd(inv.byIndex, SplitIndexes(split[..i]), i);
      if split[i] <= 0.0 { continue; }
      if i in inv.byIndex { found := found + {inv.byIndex[i]}; }
    }
    assert split[..|split|] == split;
  }

  lemma {:induction false} ImageUnion(byIndex: map<int, string>, a: set<int>, b: set<int>)
    ensures Image(byIndex, a + b) == Image(byIndex, a) + Image(byIndex, b)
  {
    forall u | u in Image(byIndex, a) || u in Image(byIndex, b) ensures u in Image(byIndex, a + b) {
      var i :| (i in a || i in b) && i in byIndex && byIndex[i] == u;
      assert i in a + b;
    }
  }

  method Select(inv: Inventory, flags: Flags) returns (found: set<string>)
    ensures found == Image(inv.byIndex, Indexes(flags))
  {
    found := {};
    if flags.devices.Some? { found := ResolveDevices(inv, Split(flags.devices.value, ',')); }
    ghost var filter, split := FilterIndexes(flags), SplitIndexes(flags.split);
    found := ResolveSplit(inv, flags.split, found);
    ImageUnion(inv.byIndex, filter, split);
    if flags.mainGpu.None? {
      assert Indexes(flags) == filter + split;
      return;
    }
    ImageAdd(inv.byIndex, filter + split, flags.mainGpu.value);
    if flags.mainGpu.value in inv.byIndex { found := found + {inv.byIndex[flags.mainGpu.value]}; }
  }

  method Resolve(inv: Inventory, flags: Flags) returns (out: seq<string>)
    ensures out == Resolution(inv, flags)
  {
    var found := Select(inv, flags);
    if found == {} { return inv.all; }
    out := Collect(found);
    SortOfAnyOrder(out, found);
    out := SortStrings(out);
  }

  // ---------------------------------------------------------------- conflicts

  ghost function Claim(v: View, inv: Inventory): Occupancy {
    if v.attribution.Measured? && v.measured.Uuids? then
      Occupancy(v.id, v.name, v.state, SortStrings(v.measured.list), v.attribution, false)
    else
      Occupancy(v.id, v.name, v.state,
        if v.flags.None? then inv.all else Resolution(inv, v.flags.value), v.attribution, true)
  }

  method OccupancyOf(v: View, inv: Inventory) returns (occ: Occupancy)
    ensures occ == Claim(v, inv)
  {
    occ := Occupancy(v.id, v.name, v.state, [], v.attribution, false);
    if v.attribution.Measured? && v.measured.Uuids? {
      occ := occ.(gpus := SortStrings(v.measured.list));
      return;
    }
    occ := occ.(assumed := true);
    if v.flags.None? {
      occ := occ.(gpus := inv.all);
    } else {
      var gpus := Resolve(inv, v.flags.value);
      occ := occ.(gpus := gpus);
    }
  }

  predicate Loaded(s: State) { s.Ready? || s.Degraded? || s.Loading? || s.Starting? }

  predicate Live(v: View) { v.deletedAt.None? && Loaded(v.state) }

  predicate Meets(a: seq<string>, b: seq<string>) { exists u :: u in a && u in b }

  ghost predicate Hit(target: seq<string>, v: View, inv: Inventory) {
    Live(v) && (inv.known ==> Meets(Claim(v, inv).gpus, target))
  }

  ghost function Shown(v: View, inv: Inventory): Occupancy {
    if inv.known then Claim(v, inv) else Claim(v, inv).(assumed := true)
  }

  /** The positions of the instances that are returned. */
  ghost function Kept(target: seq<string>, views: seq<View>, inv: Inventory): seq<nat> {
    if views == [] then []
    else
      var n := |views| - 1;
      Kept(target, views[..n], inv) + if Hit(target, views[n], inv) then [n] else []
  }

  predicate Increasing(ks: seq<nat>) { forall i, j :: 0 <= i < j < |ks| ==> ks[i] < ks[j] }

  lemma {:induction false} KeptAre(target: seq<string>, views: seq<View>, inv: Inventory)
    ensures forall k :: k in Kept(target, views, inv) <==> 0 <= k < |views| && Hit(target, views[k], inv)
    ensures Increasing(Kept(target, views, inv))
  {
    if views != [] {
      var n := |views| - 1;
      KeptAre(target, views[..n], inv);
      assert forall k :: 0 <= k < n ==> views[..n][k] == views[k];
      var before := Kept(target, views[..n], inv);
      forall i | 0 <= i < |before| ensures before[i] < n {
        assert before[i] in before;
        assert before[i] < |views[..n]|;
      }
    }
  }

  /** What is said of an instance that is returned. */
  predicate Tells(occ: Occupancy, v: View, inv: Inventory) {
    && occ.id == v.id && occ.name == v.name && occ.state == v.state && occ.attribution == v.attribution
    && (!occ.assumed <==> inv.known && v.attribution == Measured && v.measured.Uuids?)
    && (v.attribution == Measured && v.measured.Uuids? ==> multiset(occ.gpus) == multiset(v.measured.list))
  }

  lemma {:induction false} ShownTells(v: View, inv: Inventory)
    ensures Tells(Shown(v, inv), v, inv)
  {
  }

  /** One occupancy for each instance that is there, may hold memory, and may use a target card, in their order. */
  method Conflicts(target: seq<string>, views: seq<View>, inv: Inventory) returns (out: seq<Occupancy>)
    ensures var ks := Kept(target, views, inv);
      |out| == |ks| && forall j :: 0 <= j < |ks| ==>
        ks[j] < |views| && out[j] == Shown(views[ks[j]], inv) && Tells(out[j], views[ks[j]], inv)
  {
    var want := set u | u in target;
    out := [];
    for n := 0 to |views|
      invariant var ks := Kept(target, views[..n], inv);
        |out| == |ks| && forall j :: 0 <= j < |ks| ==>
          ks[j] < n && out[j] == Shown(views[ks[j]], inv) && Tells(out[j], views[ks[j]], inv)
    {
      assert views[..n + 1][..n] == views[..n];
      var v := views[n];
      if v.deletedAt.Some? || !Loaded(v.state) { continue; }
      var occ := OccupancyOf(v, inv);
      ShownTells(v, inv);
      if !inv.known {
        out := out + [occ.(assumed := true)];
        continue;
      }
      var hit := Intersects(occ.gpus, target, want);
      if hit { out := out + [occ]; }
    }
    assert views[..|views|] == views;
  }

  method Intersects(gpus: seq<string>, target: seq<string>, want: set<string>) returns (hit: bool)
    requires want == set u | u in target
    ensures hit <==> Meets(gpus, target)
  {
    hit := false;
    for i := 0 to |gpus|
      invariant forall j :: 0 <= j < i ==> gpus[j] !in target
    {
      if gpus[i] in want { return true; }
    }
  }

  // ---------------------------------------------------------------- the guard fails closed

  /** An instance is returned exactly when it is live and, if the cards are known, its claim meets the target. */
  lemma {:induction false} UnknownMeansEveryone(target: seq<string>, views: seq<View>, inv: Inventory, k: nat)
    requires !inv.known && k < |views|
    ensures k in Kept(target, views, inv) <==>
      views[k].deletedAt.None? && views[k].state in {Starting, Loading, Ready, Degraded}
    ensures Shown(views[k], inv).assumed
  {
    KeptAre(target, views, inv);
  }

  /** An instance that is gone, or in a state that holds no memory, is never returned. */
  lemma {:induction false} IdleIsNeverReturned(target: seq<string>, views: seq<View>, inv: Inventory, k: nat)
    requires k < |views|
    requires views[k].deletedAt.Some? || views[k].state in {Unknown, Stopped, Stopping, Failed, CrashLooping}
    ensures k !in Kept(target, views, inv)
  {
    KeptAre(target, views, inv);
  }

  lemma {:induction false} ByIndexIs(cards: seq<Card>)
    ensures forall i :: i in ByIndex(cards) <==> exists k :: 0 <= k < |cards| && cards[k].index == i && cards[k].uuid != ""
    ensures forall i :: i in ByIndex(cards) ==>
      exists k :: 0 <= k < |cards| && cards[k].index == i && cards[k].uuid == ByIndex(cards)[i] && cards[k].uuid != ""
  {
    if cards != [] {
      var n := |cards| - 1;
      var front := cards[..n];
      ByIndexIs(front);
      forall i | exists k :: 0 <= k < |cards| && cards[k].index == i && cards[k].uuid != ""
        ensures i in ByIndex(cards)
      {
        var k :| 0 <= k < |cards| && cards[k].index == i && cards[k].uuid != "";
        if k < n { assert front[k].index == i && front[k].uuid != ""; }
      }
      forall i | i in ByIndex(cards)
        ensures exists k :: 0 <= k < |cards| && cards[k].index == i && cards[k].uuid == ByIndex(cards)[i] && cards[k].uuid != ""
      {
        if cards[n].uuid != "" && cards[n].index == i {
          assert cards[n].uuid == ByIndex(cards)[i];
        } else {
          var k :| 0 <= k < |front| && front[k].index == i && front[k].uuid == ByIndex(front)[i] && front[k].uuid != "";
          assert cards[k] == front[k];
        }
      }
    }
  }

  lemma {:induction false} NamedAre(cards: seq<Card>, k: nat)
    requires k < |cards| && cards[k].uuid != ""
    ensures cards[k].uuid in Named(cards)
  {
    var n := |cards| - 1;
    if k < n { NamedAre(cards[..n], k); }
  }

  /** A selection resolves to nothing only on a host with no card that has a name. */
  lemma {:induction false} ResolveIsEmptyExactly(cards: seq<Card>, flags: Flags)
    ensures Resolution(Probed(cards), flags) == [] <==> Probed(cards).all == []
    ensures Resolution(NOT_PROBED, flags) == []
  {
    var inv := Probed(cards);
    var chosen := Image(inv.byIndex, Indexes(flags));
    if chosen != {} {
      var u :| u in chosen;
      MembersOfSortSet(chosen, u);
      var i :| i in inv.byIndex && inv.byIndex[i] == u;
      ByIndexIs(cards);
      var k :| 0 <= k < |cards| && cards[k].index == i && cards[k].uuid != "";
      NamedAre(cards, k);
      MembersOfSort(Named(cards), cards[k].uuid);
    }
    assert Image(map[], Indexes(flags)) == {};
  }

  predicate HasName(c: Card) { c.uuid != "" }

  predicate OneNamePerIndex(cards: seq<Card>) {
    forall j, k :: 0 <= j < |cards| && 0 <= k < |cards| && HasName(cards[j]) && HasName(cards[k]) && cards[j].index == cards[k].index
      ==> cards[j].uuid == cards[k].uuid
  }

  ghost predicate SelectionCovered(cards: seq<Card>, flags: Flags) {
    forall k :: 0 <= k < |cards| && HasName(cards[k]) && cards[k].index in Indexes(flags)
      ==> cards[k].uuid in Resolution(Probed(cards), flags)
  }

  lemma {:induction false} SelectedIsResolved(cards: seq<Card>, flags: Flags, k: nat)
    requires k < |cards| && HasName(cards[k]) && cards[k].index in Indexes(flags) && OneNamePerIndex(cards)
    ensures cards[k].uuid in Resolution(Probed(cards), flags)
  {
    var inv := Probed(cards);
    var i := cards[k].index;
    ByIndexIs(cards);
    assert i in inv.byIndex;
    var j :| 0 <= j < |cards| && cards[j].index == i && cards[j].uuid == inv.byIndex[i] && cards[j].uuid != "";
    assert HasName(cards[j]);
    var chosen := Image(inv.byIndex, Indexes(flags));
    assert cards[k].uuid in chosen;
    MembersOfSortSet(chosen, cards[k].uuid);
  }

  /** Every selected card is in what the selection resolves to exactly when no index has two names. */
  lemma {:induction false} SelectionIsCovered(cards: seq<Card>)
    ensures (forall flags :: SelectionCovered(cards, flags)) <==> OneNamePerIndex(cards)
  {
    if OneNamePerIndex(cards) {
      forall flags, k | 0 <= k < |cards| && HasName(cards[k]) && cards[k].index in Indexes(flags)
        ensures cards[k].uuid in Resolution(Probed(cards), flags)
      {
        SelectedIsResolved(cards, flags, k);
      }
    }
    if forall flags :: SelectionCovered(cards, flags) {
      forall j, k | 0 <= j < |cards| && 0 <= k < |cards| && HasName(cards[j]) && HasName(cards[k]) && cards[j].index == cards[k].index
        ensures cards[j].uuid == cards[k].uuid
      {
        SameNameByMain(cards, j, k);
      }
    }
  }

  lemma {:induction false} SameNameByMain(cards: seq<Card>, j: nat, k: nat)
    requires forall flags :: SelectionCovered(cards, flags)
    requires j < |cards| && k < |cards| && HasName(cards[j]) && HasName(cards[k]) && cards[j].index == cards[k].index
    ensures cards[j].uuid == cards[k].uuid
  {
    var i := cards[j].index;
    var flags := Flags(None, [], Some(i));
    var inv := Probed(cards);
    assert Indexes(flags) == {i};
    ByIndexIs(cards);
    assert i in inv.byIndex;
    var chosen := Image(inv.byIndex, Indexes(flags));
    assert chosen == {inv.byIndex[i]};
    assert SelectionCovered(cards, flags);
    MembersOfSortSet(chosen, cards[j].uuid);
    MembersOfSortSet(chosen, cards[k].uuid);
  }

  /** The cards `uses` stay inside the selection, when it selects a card that is there. */
  predicate WithinFlags(cards: seq<Card>, flags: Flags, uses: set<nat>) {
    (exists j :: 0 <= j < |cards| && cards[j].index in Indexes(flags))
      ==> forall k :: k in uses && k < |cards| ==> cards[k].index in Indexes(flags)
  }

  /** The cards an instance really uses stay inside its measurement, or inside its selection. */
  predicate Honest(cards: seq<Card>, v: View, uses: set<nat>) {
    if v.attribution.Measured? && v.measured.Uuids? then
      forall k :: k in uses && k < |cards| ==> cards[k].uuid in v.measured.list
    else v.flags.Some? ==> WithinFlags(cards, v.flags.value, uses)
  }

  predicate AllNamed(cards: seq<Card>) { forall k :: 0 <= k < |cards| ==> HasName(cards[k]) }

  lemma {:induction false} UsedIsResolved(cards: seq<Card>, flags: Flags, uses: set<nat>, k: nat)
    requires AllNamed(cards) && OneNamePerIndex(cards) && WithinFlags(cards, flags, uses) && k in uses && k < |cards|
    ensures cards[k].uuid in Resolution(Probed(cards), flags)
  {
    var inv := Probed(cards);
    if cards[k].index in Indexes(flags) {
      SelectedIsResolved(cards, flags, k);
    } else {
      ByIndexIs(cards);
      assert forall i :: i in inv.byIndex ==> i !in Indexes(flags);
      assert Image(inv.byIndex, Indexes(flags)) == {};
      UsedIsPresent(cards, k);
    }
  }

  lemma {:induction false} UsedIsPresent(cards: seq<Card>, k: nat)
    requires k < |cards| && HasName(cards[k])
    ensures cards[k].uuid in Probed(cards).all
  {
    NamedAre(cards, k);
    MembersOfSort(Named(cards), cards[k].uuid);
  }

  /**
   If every card has a name and no index has two, or the cards could not be listed at all, then an instance that is
   starting, loading, ready or degraded and really uses a card of a benchmark is returned, as long as the benchmark runs
   with the flags that were resolved.
   */
  lemma {:induction false} NoCollisionIsMissed(
    cards: seq<Card>, inv: Inventory, flags: Flags, bench: set<nat>, views: seq<View>, k: nat, uses: set<nat>, card: nat)
    requires inv == NOT_PROBED || (inv == Probed(cards) && AllNamed(cards) && OneNamePerIndex(cards))
    requires card < |cards| && card in bench && card in uses
    requires WithinFlags(cards, flags, bench)
    requires k < |views| && Honest(cards, views[k], uses)
    requires views[k].deletedAt.None? && views[k].state in {Starting, Loading, Ready, Degraded}
    ensures k in Kept(Resolution(inv, flags), views, inv)
  {
    var target, v := Resolution(inv, flags), views[k];
    if inv.known {
      var u := cards[card].uuid;
      UsedIsResolved(cards, flags, bench, card);
      if v.attribution.Measured? && v.measured.Uuids? {
        MembersOfSort(v.measured.list, u);
      } else if v.flags.Some? {
        UsedIsResolved(cards, v.flags.value, uses, card);
      } else {
        UsedIsPresent(cards, card);
      }
      assert u in Claim(v, inv).gpus && u in target;
    }
    KeptAre(target, views, inv);
  }

  lemma {:induction false} HoledInventory(a: string, b: string)
    requires a != "" && b != ""
    ensures Probed([Card(0, a), Card(1, ""), Card(2, b)]) == Inventory(map[0 := a, 2 := b], SortStrings([a, b]), true)
  {
    var cards := [Card(0, a), Card(1, ""), Card(2, b)];
    var two, one := cards[..2], cards[..1];
    assert one == [Card(0, a)] && one[..0] == [];
    assert ByIndex(one) == map[0 := a] && Named(one) == [a];
    assert two[..1] == one && two[1].uuid == "";
    assert ByIndex(two) == map[0 := a] && Named(two) == [a];
    assert ByIndex(cards) == map[0 := a, 2 := b] && Named(cards) == [a, b];
  }

  lemma {:induction false} ResolvesToOne(inv: Inventory, flags: Flags, u: string)
    requires Image(inv.byIndex, Indexes(flags)) == {u}
    ensures forall x :: x in Resolution(inv, flags) <==> x == u
  {
    forall x ensures x in SortSet({u}) <==> x == u { MembersOfSortSet({u}, x); }
  }

  lemma {:induction false} SplitOfTwo()
    ensures SplitIndexes([1.0, 1.0]) == {0, 1} && SplitIndexes([0.0, 1.0, 1.0]) == {1, 2}
  {
    assert [1.0, 1.0][..1] == [1.0] && [1.0][..0] == [];
    assert [0.0, 1.0, 1.0][..2] == [0.0, 1.0] && [0.0, 1.0][..1] == [0.0] && [0.0][..0] == [];
    assert SplitIndexes([0.0]) == {};
  }

  lemma {:induction false} HoledIsHonest(cards: seq<Card>, a: string, b: string, flags: Flags, selected: set<int>)
    requires cards == [Card(0, a), Card(1, ""), Card(2, b)]
    requires Indexes(flags) == selected && 1 in selected
    ensures OneNamePerIndex(cards) && WithinFlags(cards, flags, {1})
  {
  }

  /** One card without a name is enough for a collision on that card to be missed. */
  lemma {:induction false} UnnamedCardIsMissed(cards: seq<Card>, a: string, b: string, flags: Flags, v: View)
    requires cards == [Card(0, a), Card(1, ""), Card(2, b)] && a != "" && b != "" && a != b
    requires flags == Flags(None, [1.0, 1.0], None)
    requires Live(v) && v.attribution == Declared && v.flags == Some(Flags(None, [0.0, 1.0, 1.0], None))
    ensures OneNamePerIndex(cards) && WithinFlags(cards, flags, {1}) && Honest(cards, v, {1})
    ensures Kept(Resolution(Probed(cards), flags), [v], Probed(cards)) == []
  {
    HoledIndexes();
    HoledIsHonest(cards, a, b, flags, {0, 1});
    HoledIsHonest(cards, a, b, v.flags.value, {1, 2});
    HoledInventory(a, b);
    HoledImages(Probed(cards).byIndex, a, b);
    MissedWith(Probed(cards), flags, {0, 1}, v, {1, 2}, a, b);
  }

  lemma {:induction false} HoledImages(byIndex: map<int, string>, a: string, b: string)
    requires byIndex == map[0 := a, 2 := b]
    ensures Image(byIndex, {0, 1}) == {a} && Image(byIndex, {1, 2}) == {b}
  {
    assert 0 in {0, 1} && 2 in {1, 2} && 1 !in byIndex;
    assert byIndex[0] in Image(byIndex, {0, 1}) && byIndex[2] in Image(byIndex, {1, 2});
  }

  lemma {:induction false} HoledIndexes()
    ensures Indexes(Flags(None, [1.0, 1.0], None)) == {0, 1} && Indexes(Flags(None, [0.0, 1.0, 1.0], None)) == {1, 2}
  {
    SplitOfTwo();
  }

  lemma {:induction false} MissedWith(
    inv: Inventory, flags: Flags, target: set<int>, v: View, claim: set<int>, a: string, b: string)
    requires inv.known && a != b && v.attribution == Declared && v.flags.Some?
    requires Indexes(flags) == target && Indexes(v.flags.value) == claim
    requires Image(inv.byIndex, target) == {a} && Image(inv.byIndex, claim) == {b}
    ensures Kept(Resolution(inv, flags), [v], inv) == []
  {
    ResolvesToOne(inv, flags, a);
    ResolvesToOne(inv, v.flags.value, b);
    assert !Meets(Claim(v, inv).gpus, Resolution(inv, flags));
    NothingKept(Resolution(inv, flags), v, inv);
  }

  lemma {:induction false} NothingKept(target: seq<string>, v: View, inv: Inventory)
    requires !Hit(target, v, inv)
    ensures Kept(target, [v], inv) == []
  {
    assert [v][..0] == [];
  }

  // ---------------------------------------------------------------- the other reading of the selectors

  /** The list that `--device` leaves: the cards it names in its order, or every card. */
  function DeviceList(cards: seq<Card>, parts: seq<string>): seq<nat>
    requires forall k :: 0 <= k < |cards| ==> cards[k].index == k
  {
    if parts == [] then []
    else
      var n := |parts| - 1;
      DeviceList(cards, parts[..n]) + if 0 <= DeviceNumber(parts[n]) < |cards| then [DeviceNumber(parts[n])] else []
  }

  lemma {:induction false} DeviceListIsFiltered(cards: seq<Card>, parts: seq<string>, i: nat)
    requires forall k :: 0 <= k < |cards| ==> cards[k].index == k
    requires i < |DeviceList(cards, parts)|
    ensures DeviceList(cards, parts)[i] < |cards| && DeviceList(cards, parts)[i] in DeviceIndexes(parts)
  {
    var n := |parts| - 1;
    if i < |DeviceList(cards, parts[..n])| { DeviceListIsFiltered(cards, parts[..n], i); }
  }

  /**
   The flag set documents a split and a main card as positions in the device list, where the guard reads card
   numbers. A card selected that way is in what the guard resolves all the same.
   */
  lemma {:induction false} EitherReadingIsCovered(cards: seq<Card>, flags: Flags, i: nat)
    requires AllNamed(cards) && forall k :: 0 <= k < |cards| ==> cards[k].index == k
    requires i in SplitIndexes(flags.split) || flags.mainGpu == Some(i)
    ensures flags.devices.None? && i < |cards| ==> cards[i].uuid in Resolution(Probed(cards), flags)
    ensures flags.devices.Some? ==>
      var list := DeviceList(cards, Split(flags.devices.value, ','));
      i < |list| ==> list[i] < |cards| && cards[list[i]].uuid in Resolution(Probed(cards), flags)
  {
    if flags.devices.None? {
      if i < |cards| { SelectedIsResolved(cards, flags, i); }
    } else {
      var parts := Split(flags.devices.value, ',');
      var list := DeviceList(cards, parts);
      if i < |list| {
        DeviceListIsFiltered(cards, parts, i);
        SelectedIsResolved(cards, flags, list[i]);
      }
    }
  }
}
