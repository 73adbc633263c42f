/**
 What the exclusivity guard is worth for a sweep: it resolves the base configuration once, and every point runs with
 its own split laid over that base, and with the extra words of the sweep behind it.
 */
module SweepGuard {
  import opened Arithmetic
  import opened Options
  import opened Sorting
  import opened Gpu
  import opened Sweep

  // ---------------------------------------------------------------- the command line

  /** What of a command line selects cards; `Word` is anything else. */
  datatype Arg = Device(list: string) | Ratios(split: seq<real>) | MainCard(index: int) | Word(text: string)

  const NO_FLAGS := Flags(None, [], None)

  /** The selectors of a point as they are written. */
  function Render(p: Flags): seq<Arg> {
    (if p.devices.Some? then [Device(p.devices.value)] else [])
    + (if p.split != [] then [Ratios(p.split)] else [])
    + if p.mainGpu.Some? then [MainCard(p.mainGpu.value)] else []
  }

  /** A selector that is given again replaces what was given before. */
  function Read(from: Flags, args: seq<Arg>): Flags
    decreases |args|
  {
    if args == [] then from
    else Read(Lay(from, args[0]), args[1..])
  }

  function Lay(from: Flags, a: Arg): Flags {
    match a
    case Device(list) => from.(devices := Some(list))
    case Ratios(split) => from.(split := split)
    case MainCard(index) => from.(mainGpu := Some(index))
    case Word(_) => from
  }

  const FORBIDDEN: set<string> := {"-m", "-o", "-r"}

  /** Extra words may be anything but three flags; a selector is none of them. */
  predicate Permitted(extra: seq<Arg>) { forall a :: a in extra && a.Word? ==> a.text !in FORBIDDEN }

  /** What a point selects with the extra words behind it. */
  function Effective(p: Flags, extra: seq<Arg>): Flags { Read(NO_FLAGS, Render(p) + extra) }

  lemma {:induction false} ReadJoin(from: Flags, a: seq<Arg>, b: seq<Arg>)
    ensures Read(from, a + b) == Read(Read(from, a), b)
    decreases |a|
  {
    if a == [] {
      assert a + b == b;
    } else {
      assert (a + b)[1..] == a[1..] + b && (a + b)[0] == a[0];
      ReadJoin(Lay(from, a[0]), a[1..], b);
    }
  }

  lemma {:induction false} ReadOne(from: Flags, a: Arg)
    ensures Read(from, [a]) == Lay(from, a)
  {
    assert [a][1..] == [];
  }

  /** What is rendered is read back, and the extra words are laid over it. */
  lemma {:induction false} EffectiveIs(p: Flags, extra: seq<Arg>)
    ensures Read(NO_FLAGS, Render(p)) == p && Effective(p, extra) == Read(p, extra)
  {
    var a := if p.devices.Some? then [Device(p.devices.value)] else [];
    var b := if p.split != [] then [Ratios(p.split)] else [];
    var c := if p.mainGpu.Some? then [MainCard(p.mainGpu.value)] else [];
    ReadJoin(NO_FLAGS, a + b, c);
    ReadJoin(NO_FLAGS, a, b);
    if p.devices.Some? { ReadOne(NO_FLAGS, a[0]); }
    if p.split != [] { ReadOne(NO_FLAGS.(devices := p.devices), b[0]); }
    if p.mainGpu.Some? { ReadOne(p.(mainGpu := None), c[0]); }
    ReadJoin(NO_FLAGS, Render(p), extra);
  }

  predicate Selects(a: Arg) { !a.Word? }

  /** Words that select nothing leave a point as it is. */
  lemma {:induction false} PlainWordsSelectNothing(p: Flags, extra: seq<Arg>)
    requires forall a :: a in extra ==> !Selects(a)
    ensures Effective(p, extra) == p
  {
    EffectiveIs(p, extra);
    ReadPlain(p, extra);
  }

  lemma {:induction false} ReadPlain(from: Flags, extra: seq<Arg>)
    requires forall a :: a in extra ==> !Selects(a)
    ensures Read(from, extra) == from
    decreases |extra|
  {
    if extra != [] {
      assert extra[0] in extra;
      ReadPlain(from, extra[1..]);
    }
  }

  // ---------------------------------------------------------------- the points

  /** Of all axes only the split touches a selector. */
  function Cells(base: Flags, splits: seq<seq<real>>): (points: seq<Flags>)
    ensures points != []
  {
    if splits == [] then [base] else WithSplits(base, splits)
  }

  function WithSplits(base: Flags, splits: seq<seq<real>>): (points: seq<Flags>)
    ensures |points| == |splits| && forall i :: 0 <= i < |splits| ==> points[i] == base.(split := splits[i])
  {
    if splits == [] then []
    else WithSplits(base, splits[..|splits| - 1]) + [base.(split := splits[|splits| - 1])]
  }

  /** What the points of a sweep really select. */
  function Points(base: Flags, splits: seq<seq<real>>, extra: seq<Arg>): (points: seq<Flags>)
    ensures |points| == |Cells(base, splits)|
    ensures forall i :: 0 <= i < |points| ==> points[i] == Effective(Cells(base, splits)[i], extra)
  {
    EffectiveAll(Cells(base, splits), extra)
  }

  function EffectiveAll(cells: seq<Flags>, extra: seq<Arg>): (points: seq<Flags>)
    ensures |points| == |cells| && forall i :: 0 <= i < |cells| ==> points[i] == Effective(cells[i], extra)
  {
    if cells == [] then [] else EffectiveAll(cells[..|cells| - 1], extra) + [Effective(cells[|cells| - 1], extra)]
  }

  /** The place of the split among the axes. */
  const SPLIT := 8

  /** The flags of the point at which the axes stand like `v`. */
  function PointFlags(base: Flags, splits: seq<seq<real>>, v: seq<nat>): Flags
    requires SPLIT < |v| && (splits != [] ==> v[SPLIT] < |splits|)
  {
    if splits == [] then base else base.(split := splits[v[SPLIT]])
  }

  /** The points of the expansion have the flags of `Cells`, and each of those is some point's. */
  lemma {:induction false} ExpansionHasThePoints(counts: seq<nat>, base: Flags, splits: seq<seq<real>>, p: Flags)
    requires SPLIT < |counts| && counts[SPLIT] == |splits|
    ensures forall n: nat :: var v := CellAt(Sizes(counts), n); splits != [] ==> v[SPLIT] < |splits|
    ensures p in Cells(base, splits) <==>
      exists n: nat :: n < Total(Sizes(counts)) && PointFlags(base, splits, CellAt(Sizes(counts), n)) == p
  {
    var sizes := Sizes(counts);
    forall n: nat ensures InRange(sizes, CellAt(sizes, n)) { CellInRange(sizes, n); }
    if p in Cells(base, splits) {
      PointIsReached(sizes, base, splits, p);
    }
    if n: nat :| n < Total(sizes) && PointFlags(base, splits, CellAt(sizes, n)) == p {
      var v := CellAt(sizes, n);
      assert Cells(base, splits)[if splits == [] then 0 else v[SPLIT]] == p;
    }
  }

  lemma {:induction false} PointIsReached(sizes: seq<nat>, base: Flags, splits: seq<seq<real>>, p: Flags)
    requires Positive(sizes) && SPLIT < |sizes| && (splits != [] ==> sizes[SPLIT] == |splits|) && p in Cells(base, splits)
    ensures exists n: nat ::
      && n < Total(sizes) && (splits != [] ==> CellAt(sizes, n)[SPLIT] < |splits|)
      && PointFlags(base, splits, CellAt(sizes, n)) == p
  {
    var i :| 0 <= i < |Cells(base, splits)| && Cells(base, splits)[i] == p;
    var v := Zeros(|sizes|)[SPLIT := if splits == [] then 0 else i];
    CellOfNumber(sizes, v);
    var n := NumberOf(sizes, v);
    assert CellAt(sizes, n) == v && PointFlags(base, splits, v) == p;
  }

  // ---------------------------------------------------------------- what is missed

  /** A point may use any card it selects, and any card at all if it selects none that is there. */
  predicate CanReach(cards: seq<Card>, p: Flags, c: nat) {
    c < |cards| && ((exists j :: 0 <= j < |cards| && cards[j].index in Indexes(p)) ==> cards[c].index in Indexes(p))
  }

  /** A live instance and a point really use one card. */
  predicate Collides(cards: seq<Card>, p: Flags, bench: set<nat>, v: View, uses: set<nat>, c: nat) {
    && c < |cards| && c in bench && c in uses
    && WithinFlags(cards, p, bench) && Honest(cards, v, uses)
    && v.deletedAt.None? && v.state in {Starting, Loading, Ready, Degraded}
  }

  ghost predicate Caught(
    cards: seq<Card>, base: Flags, points: seq<Flags>, i: nat, bench: set<nat>,
    views: seq<View>, k: nat, uses: set<nat>, c: nat)
  {
    (i < |points| && k < |views| && Collides(cards, points[i], bench, views[k], uses, c))
      ==> k in Kept(Resolution(Probed(cards), base), views, Probed(cards))
  }

  /** The guard, asked about the base, returns every instance that collides with a point. */
  ghost predicate Guarded(cards: seq<Card>, base: Flags, points: seq<Flags>) {
    forall i: nat, bench: set<nat>, views: seq<View>, k: nat, uses: set<nat>, c: nat ::
      Caught(cards, base, points, i, bench, views, k, uses, c)
  }

  predicate ReachIsWithin(cards: seq<Card>, p: Flags, target: seq<string>) {
    forall c :: 0 <= c < |cards| && CanReach(cards, p, c) ==> cards[c].uuid in target
  }

  /** Every card that a point can reach is a target. */
  ghost predicate Covered(cards: seq<Card>, base: Flags, points: seq<Flags>) {
    forall p :: p in points ==> ReachIsWithin(cards, p, Resolution(Probed(cards), base))
  }

  lemma {:induction false} TargetsHaveNames(cards: seq<Card>, flags: Flags)
    ensures "" !in Resolution(Probed(cards), flags)
  {
    var inv := Probed(cards);
    var chosen := Image(inv.byIndex, Indexes(flags));
    ByIndexIs(cards);
    if chosen != {} {
      MembersOfSortSet(chosen, "");
    } else {
      MembersOfSort(Named(cards), "");
      NamedHaveNames(cards);
    }
  }

  lemma {:induction false} NamedHaveNames(cards: seq<Card>)
    ensures "" !in Named(cards)
  {
    if cards != [] { NamedHaveNames(cards[..|cards| - 1]); }
  }

  /** An instance that uses a reachable card through its flags claims some target. */
  lemma {:induction false} ClaimMeetsTarget(
    cards: seq<Card>, p: Flags, target: seq<string>, c: nat, flags: Flags, uses: set<nat>)
    requires ReachIsWithin(cards, p, target) && CanReach(cards, p, c) && HasName(cards[c])
    requires c in uses && WithinFlags(cards, flags, uses)
    ensures Meets(Resolution(Probed(cards), flags), target)
  {
    var inv := Probed(cards);
    ByIndexIs(cards);
    var chosen := Image(inv.byIndex, Indexes(flags));
    if cards[c].index in Indexes(flags) {
      var x := inv.byIndex[cards[c].index];
      var d :| 0 <= d < |cards| && cards[d].index == cards[c].index && cards[d].uuid == x;
      assert CanReach(cards, p, d);
      assert x in chosen;
      MembersOfSortSet(chosen, x);
    } else {
      assert forall j :: j in inv.byIndex ==> j !in Indexes(flags);
      assert chosen == {};
      UsedIsPresent(cards, c);
    }
  }

  lemma {:induction false} CoveredIsHit(
    cards: seq<Card>, p: Flags, base: Flags, bench: set<nat>, v: View, uses: set<nat>, c: nat)
    ensures ReachIsWithin(cards, p, Resolution(Probed(cards), base)) && Collides(cards, p, bench, v, uses, c)
      ==> Hit(Resolution(Probed(cards), base), v, Probed(cards))
  {
    var inv := Probed(cards);
    var target := Resolution(inv, base);
    if !ReachIsWithin(cards, p, target) || !Collides(cards, p, bench, v, uses, c) { return; }
    var u := cards[c].uuid;
    assert CanReach(cards, p, c);
    TargetsHaveNames(cards, base);
    if v.attribution.Measured? && v.measured.Uuids? {
      MembersOfSort(v.measured.list, u);
      assert u in Claim(v, inv).gpus && u in target;
    } else if v.flags.Some? {
      ClaimMeetsTarget(cards, p, target, c, v.flags.value, uses);
    } else {
      UsedIsPresent(cards, c);
      assert u in Claim(v, inv).gpus && u in target;
    }
  }

  lemma {:induction false} CoveredIsCaught(
    cards: seq<Card>, base: Flags, points: seq<Flags>, i: nat, bench: set<nat>,
    views: seq<View>, k: nat, uses: set<nat>, c: nat)
    requires Covered(cards, base, points)
    ensures Caught(cards, base, points, i, bench, views, k, uses, c)
  {
    KeptAre(Resolution(Probed(cards), base), views, Probed(cards));
    if i < |points| && k < |views| && Collides(cards, points[i], bench, views[k], uses, c) {
      CoveredIsHit(cards, points[i], base, bench, views[k], uses, c);
    }
  }

  /** An instance that is measured on one card. */
  function On(u: string): View { View("", "", None, Ready, Measured, Uuids([u]), None) }

  lemma {:induction false} HitIsTarget(cards: seq<Card>, target: seq<string>, u: string)
    requires Probed(cards).known && Hit(target, On(u), Probed(cards))
    ensures u in target
  {
    var x :| x in Claim(On(u), Probed(cards)).gpus && x in target;
    MembersOfSort([u], x);
  }

  lemma {:induction false} OnCollides(cards: seq<Card>, p: Flags, c: nat)
    requires CanReach(cards, p, c)
    ensures Collides(cards, p, {c}, On(cards[c].uuid), {c}, c)
  {
  }

  lemma {:induction false} CaughtIsCovered(cards: seq<Card>, base: Flags, points: seq<Flags>, i: nat, c: nat)
    requires Probed(cards).known && i < |points| && CanReach(cards, points[i], c)
    requires Guarded(cards, base, points)
    ensures cards[c].uuid in Resolution(Probed(cards), base)
  {
    var v, target := On(cards[c].uuid), Resolution(Probed(cards), base);
    assert Caught(cards, base, points, i, {c}, [v], 0, {c}, c);
    OnCollides(cards, points[i], c);
    KeptAre(target, [v], Probed(cards));
    HitIsTarget(cards, target, cards[c].uuid);
  }

  /**
   Whatever the points really select: no collision of any of them with any honest instance is missed if and only if the
   cards have no names at all, or every card that a point can reach is in what the base resolves to.
   */
  lemma {:induction false} PointsAreGuardedExactly(cards: seq<Card>, base: Flags, points: seq<Flags>)
    ensures Guarded(cards, base, points) <==> !Probed(cards).known || Covered(cards, base, points)
  {
    if !Probed(cards).known {
      UnknownIsGuarded(cards, base, points);
    } else if Covered(cards, base, points) {
      CoveredIsGuarded(cards, base, points);
    } else if Guarded(cards, base, points) {
      GuardedIsCovered(cards, base, points);
    }
  }

  lemma {:induction false} GuardedIsCovered(cards: seq<Card>, base: Flags, points: seq<Flags>)
    requires Probed(cards).known && Guarded(cards, base, points)
    ensures Covered(cards, base, points)
  {
    forall p, c | p in points && 0 <= c < |cards| && CanReach(cards, p, c)
      ensures cards[c].uuid in Resolution(Probed(cards), base)
    {
      var i :| 0 <= i < |points| && points[i] == p;
      CaughtIsCovered(cards, base, points, i, c);
    }
  }

  lemma {:induction false} UnknownIsGuarded(cards: seq<Card>, base: Flags, points: seq<Flags>)
    requires !Probed(cards).known
    ensures Guarded(cards, base, points)
  {
    forall i: nat, bench: set<nat>, views: seq<View>, k: nat, uses: set<nat>, c: nat
      ensures Caught(cards, base, points, i, bench, views, k, uses, c)
    {
      KeptAre(Resolution(Probed(cards), base), views, Probed(cards));
    }
  }

  lemma {:induction false} CoveredIsGuarded(cards: seq<Card>, base: Flags, points: seq<Flags>)
    requires Covered(cards, base, points)
    ensures Guarded(cards, base, points)
  {
    forall i: nat, bench: set<nat>, views: seq<View>, k: nat, uses: set<nat>, c: nat
      ensures Caught(cards, base, points, i, bench, views, k, uses, c)
    {
      CoveredIsCaught(cards, base, points, i, bench, views, k, uses, c);
    }
  }

  /** For a sweep, with its split axis and its extra words. */
  lemma {:induction false} SweepIsGuardedExactly(cards: seq<Card>, base: Flags, splits: seq<seq<real>>, extra: seq<Arg>)
    ensures Guarded(cards, base, Points(base, splits, extra))
       <==> !Probed(cards).known || Covered(cards, base, Points(base, splits, extra))
  {
    PointsAreGuardedExactly(cards, base, Points(base, splits, extra));
  }

  /** A point and an instance that runs with `f` and some extra words can use one card. */
  ghost predicate MayShare(cards: seq<Card>, points: seq<Flags>, f: Flags, extra: seq<Arg>) {
    exists p, c: nat :: p in points && CanReach(cards, p, c) && CanReach(cards, Effective(f, extra), c)
  }

  /**
   An instance has extra words of its own, which the guard does not read either: one that is known by its flags alone is
   returned, whatever those words select, exactly if what its flags resolve to is among the targets anyway.
   */
  lemma {:induction false} InstanceIsReturnedExactly(cards: seq<Card>, base: Flags, points: seq<Flags>, v: View, f: Flags)
    requires points != [] && Live(v) && !v.attribution.Measured? && v.flags == Some(f)
    ensures var inv := Probed(cards);
      (forall extra :: Permitted(extra) && MayShare(cards, points, f, extra)
         ==> Kept(Resolution(inv, base), [v], inv) == [0])
      <==> cards == [] || !inv.known || Meets(Resolution(inv, f), Resolution(inv, base))
  {
    var inv := Probed(cards);
    assert [v][..0] == [];
    assert Kept(Resolution(inv, base), [v], inv) == if Hit(Resolution(inv, base), v, inv) then [0] else [];
    if inv.known && cards != [] {
      SomeWordShares(cards, points[0], f);
      var extra :| Permitted(extra) && exists c: nat ::
        CanReach(cards, points[0], c) && CanReach(cards, Effective(f, extra), c);
      assert MayShare(cards, points, f, extra);
    }
  }

  /** One word makes an instance share a card with a point. */
  lemma {:induction false} SomeWordShares(cards: seq<Card>, p: Flags, f: Flags)
    requires cards != []
    ensures exists extra :: Permitted(extra) && exists c: nat ::
      CanReach(cards, p, c) && CanReach(cards, Effective(f, extra), c)
  {
    var c: nat := 0;
    if j: nat :| j < |cards| && cards[j].index in Indexes(p) { c := j; }
    assert CanReach(cards, p, c);
    var extra := [MainCard(cards[c].index)];
    EffectiveIs(f, extra);
    ReadOne(f, extra[0]);
    assert cards[c].index in Indexes(Effective(f, extra));
    assert Permitted(extra) && CanReach(cards, Effective(f, extra), c);
  }

  // ---------------------------------------------------------------- which hosts are safe

  /** Points that run with the base itself: the guard is right for every base exactly on these hosts. */
  lemma {:induction false} BasesAreGuardedExactly(cards: seq<Card>)
    ensures (forall base :: Guarded(cards, base, [base]))
       <==> !Probed(cards).known || (AllNamed(cards) && OneNamePerIndex(cards))
  {
    forall base ensures Guarded(cards, base, [base]) <==> !Probed(cards).known || Covered(cards, base, [base]) {
      PointsAreGuardedExactly(cards, base, [base]);
    }
    if AllNamed(cards) && OneNamePerIndex(cards) {
      forall base ensures Covered(cards, base, [base]) { GoodHostIsCovered(cards, base); }
    } else if Probed(cards).known && forall base :: Guarded(cards, base, [base]) {
      BadHostIsNotCovered(cards);
    }
  }

  /** They do without a split axis and without extra words that select. */
  lemma {:induction false} PlainSweepRunsTheBase(base: Flags, extra: seq<Arg>)
    requires forall a :: a in extra ==> !Selects(a)
    ensures Points(base, [], extra) == [base]
  {
    PlainWordsSelectNothing(base, extra);
  }

  lemma {:induction false} GoodHostIsCovered(cards: seq<Card>, base: Flags)
    requires AllNamed(cards) && OneNamePerIndex(cards)
    ensures Covered(cards, base, [base])
  {
    forall p, c | p in [base] && 0 <= c < |cards| && CanReach(cards, p, c)
      ensures cards[c].uuid in Resolution(Probed(cards), base)
    {
      UsedIsResolved(cards, base, {c}, c);
    }
  }

  lemma {:induction false} ByMain(cards: seq<Card>, c: nat)
    requires c < |cards|
    requires var base := Flags(None, [], Some(cards[c].index)); Covered(cards, base, [base])
    ensures cards[c].index in ByIndex(cards) && ByIndex(cards)[cards[c].index] == cards[c].uuid
  {
    var base := Flags(None, [], Some(cards[c].index));
    assert Indexes(base) == {cards[c].index};
    assert base in [base];
    assert ReachIsWithin(cards, base, Resolution(Probed(cards), base)) && CanReach(cards, base, c);
    OnlyOneResolved(cards, base, c);
  }

  lemma {:induction false} OnlyOneResolved(cards: seq<Card>, base: Flags, c: nat)
    requires c < |cards| && Indexes(base) == {cards[c].index} && cards[c].uuid in Resolution(Probed(cards), base)
    ensures cards[c].index in ByIndex(cards) && ByIndex(cards)[cards[c].index] == cards[c].uuid
  {
    var byIndex := ByIndex(cards);
    TargetsHaveNames(cards, base);
    ByIndexIs(cards);
    var chosen := Image(byIndex, {cards[c].index});
    assert byIndex[cards[c].index] in chosen;
    MembersOfSortSet(chosen, cards[c].uuid);
  }

  lemma {:induction false} BadHostIsNotCovered(cards: seq<Card>)
    requires forall base :: Covered(cards, base, [base])
    ensures AllNamed(cards) && OneNamePerIndex(cards)
  {
    ByIndexIs(cards);
    forall c: nat | c < |cards|
      ensures cards[c].index in ByIndex(cards) && ByIndex(cards)[cards[c].index] == cards[c].uuid && HasName(cards[c])
    {
      ByMain(cards, c);
    }
  }

  /** The ratios that put everything on the n-th card. */
  function OneHot(n: nat): (split: seq<real>)
    ensures |split| == n + 1 && forall i :: 0 <= i <= n ==> split[i] == if i == n then 1.0 else 0.0
  {
    ZeroRatios(n) + [1.0]
  }

  function ZeroRatios(n: nat): (split: seq<real>)
    ensures |split| == n && forall i :: 0 <= i < n ==> split[i] == 0.0
  {
    if n == 0 then [] else ZeroRatios(n - 1) + [0.0]
  }

  lemma {:induction false} NoneSelected(n: nat)
    ensures SplitIndexes(ZeroRatios(n)) == {}
  {
    if n > 0 {
      assert ZeroRatios(n)[..n - 1] == ZeroRatios(n - 1);
      NoneSelected(n - 1);
    }
  }

  lemma {:induction false} OneSelected(n: nat)
    ensures SplitIndexes(OneHot(n)) == {n}
  {
    assert OneHot(n)[..n] == ZeroRatios(n);
    NoneSelected(n);
  }

  /** A base with one card as its main card misses an instance that is measured on a differently named one. */
  lemma {:induction false} OtherCardIsMissed(cards: seq<Card>, j: nat, k: nat, v: View)
    requires j < |cards| && k < |cards| && AllNamed(cards) && OneNamePerIndex(cards)
    requires cards[j].uuid != cards[k].uuid && v == On(cards[k].uuid)
    ensures Kept(Resolution(Probed(cards), Flags(None, [], Some(cards[j].index))), [v], Probed(cards)) == []
  {
    var base, inv := Flags(None, [], Some(cards[j].index)), Probed(cards);
    assert Indexes(base) == {cards[j].index};
    MainIsOne(cards, j);
    ResolvesToOne(inv, base, cards[j].uuid);
    forall u | u in Claim(v, inv).gpus ensures u == cards[k].uuid { MembersOfSort([cards[k].uuid], u); }
    NamedAre(cards, k);
    NothingKept(Resolution(inv, base), v, inv);
  }

  lemma {:induction false} MainIsOne(cards: seq<Card>, j: nat)
    requires j < |cards| && AllNamed(cards) && OneNamePerIndex(cards)
    ensures Image(ByIndex(cards), {cards[j].index}) == {cards[j].uuid}
  {
    var byIndex := ByIndex(cards);
    ByIndexIs(cards);
    var d :| 0 <= d < |cards| && cards[d].index == cards[j].index && cards[d].uuid == byIndex[cards[j].index];
    assert HasName(cards[d]) && HasName(cards[j]) && cards[d].uuid == cards[j].uuid;
    assert byIndex[cards[j].index] in Image(byIndex, {cards[j].index});
  }

  /** The base on one card, and a split that puts everything on the other. */
  lemma {:induction false} SplitIsMissed(cards: seq<Card>, j: nat, k: nat, v: View)
    requires j < |cards| && k < |cards| && cards[k].index >= 0
    requires AllNamed(cards) && OneNamePerIndex(cards) && cards[j].uuid != cards[k].uuid
    requires v == On(cards[k].uuid)
    ensures var base := Flags(None, [], Some(cards[j].index));
      && Collides(cards, Points(base, [OneHot(cards[k].index)], [])[0], {k}, v, {k}, k)
      && Kept(Resolution(Probed(cards), base), [v], Probed(cards)) == []
  {
    var base, split := Flags(None, [], Some(cards[j].index)), OneHot(cards[k].index);
    var p := base.(split := split);
    OneSelected(cards[k].index);
    PlainWordsSelectNothing(p, []);
    assert Points(base, [split], [])[0] == p;
    assert cards[k].index in Indexes(p);
    CollidesOn(cards, p, k, v);
    OtherCardIsMissed(cards, j, k, v);
  }

  lemma {:induction false} CollidesOn(cards: seq<Card>, p: Flags, k: nat, v: View)
    requires k < |cards| && cards[k].index in Indexes(p) && v == On(cards[k].uuid)
    ensures Collides(cards, p, {k}, v, {k}, k)
  {
  }

  /** The base on one card and no axis at all, but an extra word that names the other. */
  lemma {:induction false} ExtraIsMissed(cards: seq<Card>, j: nat, k: nat, v: View)
    requires j < |cards| && k < |cards|
    requires AllNamed(cards) && OneNamePerIndex(cards) && cards[j].uuid != cards[k].uuid
    requires v == On(cards[k].uuid)
    ensures var base, extra := Flags(None, [], Some(cards[j].index)), [MainCard(cards[k].index)];
      && Permitted(extra) && Points(base, [], extra) == [Flags(None, [], Some(cards[k].index))]
      && Collides(cards, Points(base, [], extra)[0], {k}, v, {k}, k)
      && Kept(Resolution(Probed(cards), base), [v], Probed(cards)) == []
  {
    var base, extra := Flags(None, [], Some(cards[j].index)), [MainCard(cards[k].index)];
    var p := Flags(None, [], Some(cards[k].index));
    EffectiveIs(base, extra);
    ReadOne(base, extra[0]);
    assert Points(base, [], extra) == [p];
    CollidesOn(cards, p, k, v);
    OtherCardIsMissed(cards, j, k, v);
  }

  /** With extra words, the guard is right for every sweep exactly where all cards have one name, or none has any. */
  lemma {:induction false} SweepsAreGuardedExactly(cards: seq<Card>)
    ensures (forall base, splits, extra :: Permitted(extra) ==> Guarded(cards, base, Points(base, splits, extra)))
       <==> !Probed(cards).known || OneName(cards)
  {
    if !Probed(cards).known {
      forall base, splits, extra ensures Guarded(cards, base, Points(base, splits, extra)) {
        UnknownIsGuarded(cards, base, Points(base, splits, extra));
      }
    } else if OneName(cards) {
      forall base, splits, extra ensures Guarded(cards, base, Points(base, splits, extra)) {
        OneNameIsGuarded(cards, base, Points(base, splits, extra));
      }
    } else if forall base, splits, extra :: Permitted(extra) ==> Guarded(cards, base, Points(base, splits, extra)) {
      forall base ensures Guarded(cards, base, [base]) {
        PlainSweepRunsTheBase(base, []);
        assert Guarded(cards, base, Points(base, [], []));
      }
      BasesAreGuardedExactly(cards);
      ExtraIsNotGuarded(cards);
    }
  }

  lemma {:induction false} ExtraIsNotGuarded(cards: seq<Card>)
    requires AllNamed(cards) && OneNamePerIndex(cards) && !OneName(cards)
    ensures exists base, extra :: Permitted(extra) && !Guarded(cards, base, Points(base, [], extra))
  {
    var j, k :| 0 <= j < |cards| && 0 <= k < |cards| && cards[j].uuid != cards[k].uuid;
    ExtraBreaks(cards, j, k);
  }

  lemma {:induction false} ExtraBreaks(cards: seq<Card>, j: nat, k: nat)
    requires j < |cards| && k < |cards|
    requires AllNamed(cards) && OneNamePerIndex(cards) && cards[j].uuid != cards[k].uuid
    ensures var base, extra := Flags(None, [], Some(cards[j].index)), [MainCard(cards[k].index)];
      Permitted(extra) && !Guarded(cards, base, Points(base, [], extra))
  {
    var base, extra, v := Flags(None, [], Some(cards[j].index)), [MainCard(cards[k].index)], On(cards[k].uuid);
    ExtraIsMissed(cards, j, k, v);
    MissIsNotGuarded(cards, base, Points(base, [], extra), {k}, v, {k}, k);
  }

  lemma {:induction false} MissIsNotGuarded(
    cards: seq<Card>, base: Flags, points: seq<Flags>, bench: set<nat>, v: View, uses: set<nat>, c: nat)
    requires points != []
    ensures Guarded(cards, base, points) && Collides(cards, points[0], bench, v, uses, c)
      ==> Kept(Resolution(Probed(cards), base), [v], Probed(cards)) != []
  {
    assert [v][0] == v;
    if Guarded(cards, base, points) { assert Caught(cards, base, points, 0, bench, [v], 0, uses, c); }
  }

  predicate OneName(cards: seq<Card>) {
    AllNamed(cards) && forall j, k :: 0 <= j < |cards| && 0 <= k < |cards| ==> cards[j].uuid == cards[k].uuid
  }

  lemma {:induction false} OneNameIsGuarded(cards: seq<Card>, base: Flags, points: seq<Flags>)
    requires OneName(cards)
    ensures Guarded(cards, base, points)
  {
    forall p, c | p in points && 0 <= c < |cards| && CanReach(cards, p, c)
      ensures cards[c].uuid in Resolution(Probed(cards), base)
    {
      SomeIsResolved(cards, base, c);
    }
    CoveredIsGuarded(cards, base, points);
  }

  lemma {:induction false} SomeIsResolved(cards: seq<Card>, base: Flags, c: nat)
    requires OneName(cards) && c < |cards|
    ensures cards[c].uuid in Resolution(Probed(cards), base)
  {
    if j: nat :| j < |cards| && cards[j].index in Indexes(base) {
      UsedIsResolved(cards, base, {j}, j);
    } else {
      UsedIsResolved(cards, base, {c}, c);
    }
  }
}
