/**
 What calls in flight can add to a lockout: further guesses, and further lockouts of the same episode.
 */
module LockoutOverlap {
  import opened Lockout
  import opened LockoutInterleaved
  import Runs = LockoutRuns

  // ---------------------------------------------------------------- at most so many

  /** The calls that passed the read and have not written. */
  function Ready(w: World, ip: Ip): set<nat> {
    set id | id in w.calls && w.calls[id].ip == ip && (w.calls[id].phase == Cleared || w.calls[id].phase.Judged?)
  }

  /** The step locks the address anew: its strikes grow. */
  predicate Relocks(w: World, a: Action, ip: Ip, k: nat)
    requires Enabled(w, a, k)
  {
    Strikes(w.tables, ip) < Strikes(Apply(w, a, k).tables, ip)
  }

  ghost function Lockouts(w: World, acts: seq<Action>, ip: Ip, k: nat): nat
    requires Valid(w, acts, k)
    decreases |acts|
  {
    if acts == [] then 0
    else (if Relocks(w, acts[0], ip, k) then 1 else 0) + Lockouts(Apply(w, acts[0], k), acts[1..], ip, k)
  }

  lemma {:induction false} NoneGetsReady(w: World, a: Action, ip: Ip, k: nat, id: nat)
    requires Coherent(w, k) && Enabled(w, a, k) && Blocked(w.tables, ip, w.clock)
    requires id in Ready(Apply(w, a, k), ip)
    ensures id in Ready(w, ip) && !(a.Write? && a.id == id)
  {
  }

  /** Only the write of a judged call of the address can lock it. */
  lemma {:induction false} RelockIsAWrite(w: World, a: Action, ip: Ip, k: nat)
    requires Enabled(w, a, k) && Relocks(w, a, ip, k)
    ensures a.Write? && a.id in Ready(w, ip)
  {
  }

  lemma {:induction false} ReadyStep(w: World, a: Action, ip: Ip, k: nat)
    requires Coherent(w, k) && Enabled(w, a, k) && Blocked(w.tables, ip, w.clock)
    ensures |Ready(Apply(w, a, k), ip)| + (if Relocks(w, a, ip, k) then 1 else 0) <= |Ready(w, ip)|
  {
    var after, before := Ready(Apply(w, a, k), ip), Ready(w, ip);
    forall id | id in after ensures id in before && !(a.Write? && a.id == id) { NoneGetsReady(w, a, ip, k, id); }
    if Relocks(w, a, ip, k) {
      RelockIsAWrite(w, a, ip, k);
      SubsetSize(after, before - {a.id});
    } else {
      SubsetSize(after, before);
    }
  }

  lemma {:induction false} LockoutsRun(w: World, acts: seq<Action>, ip: Ip, k: nat)
    requires Coherent(w, k) && Valid(w, acts, k) && LockedThroughout(w, acts, ip, k)
    ensures Lockouts(w, acts, ip, k) <= |Ready(w, ip)|
    decreases |acts|
  {
    if acts != [] {
      ReadyStep(w, acts[0], ip, k);
      ApplyCoherent(w, acts[0], k);
      LockoutsRun(Apply(w, acts[0], k), acts[1..], ip, k);
    }
  }

  /** From a lockout until the row first stops saying so, `k` calls in flight lock the address at most `k - 1` times more. */
  lemma {:induction false} LockoutsAfterLockout(before: seq<Action>, commit: nat, after: seq<Action>, ip: Ip, k: nat)
    requires Valid(IDLE, before, k)
    requires var w := Exec(IDLE, before, k);
             && Enabled(w, Write(commit), k) && w.calls[commit].ip == ip
             && var v := Apply(w, Write(commit), k);
             Valid(v, after, k) && LockedThroughout(v, after, ip, k)
    ensures var v := Apply(Exec(IDLE, before, k), Write(commit), k);
            Lockouts(v, after, ip, k) <= k - 1
  {
    var w := Exec(IDLE, before, k);
    var v := Apply(w, Write(commit), k);
    IdleIsCoherent(k);
    ExecCoherent(IDLE, before, k);
    ApplyCoherent(w, Write(commit), k);
    LockoutsRun(v, after, ip, k);
    assert commit in Calls(w, ip);
    SubsetSize(Ready(v, ip), Calls(w, ip) - {commit});
  }

  lemma {:induction false} IdleIsCoherent(k: nat)
    ensures Coherent(IDLE, k)
  {
    forall ip ensures |Calls(IDLE, ip)| <= k { assert Calls(IDLE, ip) == {}; }
  }

  // ---------------------------------------------------------------- and so many are reached

  lemma {:induction false} ExecJoin(w: World, a: seq<Action>, b: seq<Action>, k: nat)
    requires Valid(w, a, k) && Valid(Exec(w, a, k), b, k)
    ensures Valid(w, a + b, k) && Exec(w, a + b, k) == Exec(Exec(w, a, k), b, k)
    decreases |a|
  {
    if a == [] {
      assert a + b == b;
    } else {
      assert (a + b)[0] == a[0] && (a + b)[1..] == a[1..] + b;
      ExecJoin(Apply(w, a[0], k), a[1..], b, k);
    }
  }

  lemma {:induction false} ExecCons(w: World, a: Action, rest: seq<Action>, k: nat)
    requires Enabled(w, a, k) && Valid(Apply(w, a, k), rest, k)
    ensures Valid(w, [a] + rest, k) && Exec(w, [a] + rest, k) == Exec(Apply(w, a, k), rest, k)
  {
    assert ([a] + rest)[0] == a && ([a] + rest)[1..] == rest;
  }

  /** Calls that begin a millisecond after each other and all pass the read. */
  function Opening(ip: Ip, pol: Policy, n: nat): seq<Action> {
    if n == 0 then [] else Opening(ip, pol, n - 1) + [Tick(n - 1), Begin(n - 1, ip, pol), Read(n - 1)]
  }

  function Opened(ip: Ip, pol: Policy, n: nat): World {
    World(Tables([], map[]), map id: nat | id < n :: Call(ip, id, pol, Cleared), if n == 0 then 0 else n - 1)
  }

  lemma {:induction false} SizeUpTo(s: set<nat>, n: nat)
    requires forall id :: id in s ==> id < n
    ensures |s| <= n
  {
    if n == 0 {
      assert s == {};
    } else {
      SizeUpTo(s - {n - 1}, n - 1);
    }
  }

  lemma {:induction false} OneOpens(ip: Ip, pol: Policy, n: nat, k: nat)
    requires n < k
    ensures var w, acts := Opened(ip, pol, n), [Tick(n), Begin(n, ip, pol), Read(n)];
      Valid(w, acts, k) && Exec(w, acts, k) == Opened(ip, pol, n + 1)
  {
    var w, acts := Opened(ip, pol, n), [Tick(n), Begin(n, ip, pol), Read(n)];
    var a := Apply(w, acts[0], k);
    SizeUpTo(Calls(a, ip), n);
    var b := Apply(a, acts[1], k);
    assert b.calls == w.calls[n := Call(ip, n, pol, Begun)];
    var c := Apply(b, acts[2], k);
    assert c.calls == w.calls[n := Call(ip, n, pol, Cleared)];
    assert c == Opened(ip, pol, n + 1);
    ExecCons(b, acts[2], [], k);
    ExecCons(a, acts[1], [acts[2]], k);
    assert [acts[1]] + [acts[2]] == [acts[1], acts[2]] && [acts[2]] + [] == [acts[2]];
    ExecCons(w, acts[0], [acts[1], acts[2]], k);
    assert [acts[0]] + [acts[1], acts[2]] == acts;
  }

  lemma {:induction false} AllOpen(ip: Ip, pol: Policy, n: nat, k: nat)
    requires n <= k
    ensures var acts := Opening(ip, pol, n); Valid(IDLE, acts, k) && Exec(IDLE, acts, k) == Opened(ip, pol, n)
  {
    if n == 0 {
      assert Opened(ip, pol, 0).calls == map[];
    } else {
      AllOpen(ip, pol, n - 1, k);
      OneOpens(ip, pol, n - 1, k);
      ExecJoin(IDLE, Opening(ip, pol, n - 1), [Tick(n - 1), Begin(n - 1, ip, pol), Read(n - 1)], k);
    }
  }

  function Rows(ip: Ip, n: nat): (rows: seq<Attempt>)
    ensures |rows| == n
  {
    if n == 0 then [] else Rows(ip, n - 1) + [Attempt(n - 1, ip, BadPassword)]
  }

  function Locked(ip: Ip, pol: Policy, n: nat): Tables {
    Tables(Rows(ip, n), if n == 0 then map[] else map[ip := Block(n - 1 + LockMs(pol, n), n, n - 1)])
  }

  /** The first `n` of `k` calls have written their failures, each locking the address. */
  function Closed(ip: Ip, pol: Policy, n: nat, k: nat): World {
    World(Locked(ip, pol, n), map id: nat | n <= id < k :: Call(ip, id, pol, Cleared), if k == 0 then 0 else k - 1)
  }

  function Closing(n: nat, k: nat): seq<Action>
    decreases k - n
  {
    if n >= k then [] else [Judge(n, Wrong), Write(n)] + Closing(n + 1, k)
  }

  /** One failure is a lockout, and the first one lasts longer than all calls take. */
  predicate Strict(pol: Policy, k: nat) { pol.maxAttempts == 1 && pol.window as int >= 0 && LockMs(pol, 1) >= k }

  lemma {:induction false} RowsHaveNoSuccess(ip: Ip, n: nat)
    ensures LastSuccess(Rows(ip, n), ip).None?
  {
    if n > 0 {
      assert Rows(ip, n)[..n - 1] == Rows(ip, n - 1);
      RowsHaveNoSuccess(ip, n - 1);
    }
  }

  lemma {:induction false} LastRowCounts(ip: Ip, n: nat, since: int)
    requires since <= n
    ensures CountSince(Rows(ip, n + 1), ip, since, GUESSES) >= 1
  {
    assert Rows(ip, n + 1)[..n] == Rows(ip, n);
  }

  lemma {:induction false} EachExhausts(ip: Ip, pol: Policy, n: nat, k: nat)
    requires Strict(pol, k)
    ensures Exhausts(pol, Record(Locked(ip, pol, n), n, ip, BadPassword), ip, n)
  {
    var u := Record(Locked(ip, pol, n), n, ip, BadPassword);
    assert u.attempts == Rows(ip, n + 1);
    RowsHaveNoSuccess(ip, n + 1);
    assert WindowMs(pol) >= 0;
    LastRowCounts(ip, n, BudgetStart(pol, u, ip, n));
  }

  lemma {:induction false} EachFailureLocks(ip: Ip, pol: Policy, n: nat, k: nat)
    requires Strict(pol, k)
    ensures Fail(pol, Locked(ip, pol, n), n, ip, BadPassword).0 == Locked(ip, pol, n + 1)
  {
    EachExhausts(ip, pol, n, k);
    assert Record(Locked(ip, pol, n), n, ip, BadPassword).attempts == Rows(ip, n + 1);
  }

  lemma {:induction false} StaysLocked(ip: Ip, pol: Policy, n: nat, k: nat)
    requires Strict(pol, k) && 1 <= n <= k
    ensures Blocked(Locked(ip, pol, n), ip, k - 1)
  {
    Runs.LockMsGrows(pol, n);
  }

  lemma {:induction false} OneCloses(ip: Ip, pol: Policy, n: nat, k: nat)
    requires Strict(pol, k) && n < k
    ensures var w := Closed(ip, pol, n, k);
      && Enabled(w, Judge(n, Wrong), k)
      && var v := Apply(w, Judge(n, Wrong), k);
      && v.tables == w.tables && v.clock == w.clock
      && Enabled(v, Write(n), k) && v.calls[n].ip == ip && Apply(v, Write(n), k) == Closed(ip, pol, n + 1, k)
  {
    var w := Closed(ip, pol, n, k);
    var v := Apply(w, Judge(n, Wrong), k);
    EachFailureLocks(ip, pol, n, k);
    assert v.calls - {n} == Closed(ip, pol, n + 1, k).calls;
  }

  lemma {:induction false} AllClose(ip: Ip, pol: Policy, n: nat, k: nat)
    requires Strict(pol, k) && 1 <= n <= k
    ensures var w, acts := Closed(ip, pol, n, k), Closing(n, k);
      && Valid(w, acts, k) && LockedThroughout(w, acts, ip, k)
      && Guesses(w, acts, ip, k) == k - n && Lockouts(w, acts, ip, k) == k - n
    decreases k - n
  {
    if n < k {
      var w, acts := Closed(ip, pol, n, k), Closing(n, k);
      OneCloses(ip, pol, n, k);
      StaysLocked(ip, pol, n, k);
      AllClose(ip, pol, n + 1, k);
      var v := Apply(w, acts[0], k);
      var rest := [Write(n)] + Closing(n + 1, k);
      assert acts[1..] == rest && rest[1..] == Closing(n + 1, k);
      assert Valid(v, rest, k) && LockedThroughout(v, rest, ip, k);
      assert Guesses(v, rest, ip, k) == k - n - 1 && Lockouts(v, rest, ip, k) == k - n;
    }
  }

  lemma {:induction false} FirstJudged(ip: Ip, pol: Policy, k: nat)
    requires Strict(pol, k) && k >= 1
    ensures var before := Opening(ip, pol, k) + [Judge(0, Wrong)];
      && Enabled(Closed(ip, pol, 0, k), Judge(0, Wrong), k)
      && Valid(IDLE, before, k) && Exec(IDLE, before, k) == Apply(Closed(ip, pol, 0, k), Judge(0, Wrong), k)
  {
    AllOpen(ip, pol, k, k);
    assert Opened(ip, pol, k) == Closed(ip, pol, 0, k);
    OneCloses(ip, pol, 0, k);
    var w := Closed(ip, pol, 0, k);
    ExecCons(w, Judge(0, Wrong), [], k);
    assert [Judge(0, Wrong)] + [] == [Judge(0, Wrong)];
    ExecJoin(IDLE, Opening(ip, pol, k), [Judge(0, Wrong)], k);
  }

  /** From `v`, a world right after a lockout, a run makes so many guesses and so many further lockouts. */
  ghost predicate Reaches(v: World, after: seq<Action>, ip: Ip, k: nat, guesses: nat, lockouts: nat) {
    && Valid(v, after, k) && LockedThroughout(v, after, ip, k)
    && Guesses(v, after, ip, k) == guesses && Lockouts(v, after, ip, k) == lockouts
  }

  /** A write of `ip` from the end of `before` locks it and leaves `v`. */
  ghost predicate LocksInto(before: seq<Action>, id: nat, v: World, ip: Ip, k: nat) {
    && Valid(IDLE, before, k)
    && var w := Exec(IDLE, before, k);
    && Enabled(w, Write(id), k) && w.calls[id].ip == ip && Relocks(w, Write(id), ip, k) && Apply(w, Write(id), k) == v
  }

  lemma {:induction false} FirstLocks(ip: Ip, pol: Policy, k: nat)
    requires Strict(pol, k) && k >= 1
    ensures LocksInto(Opening(ip, pol, k) + [Judge(0, Wrong)], 0, Closed(ip, pol, 1, k), ip, k)
  {
    FirstJudged(ip, pol, k);
    OneCloses(ip, pol, 0, k);
  }

  /** Both bounds are reached: after the first lockout of this run come `k - 1` guesses and `k - 1` lockouts. */
  lemma {:induction false} BoundsAreReached(ip: Ip, pol: Policy, k: nat)
    requires Strict(pol, k) && k >= 1
    ensures exists v ::
      && LocksInto(Opening(ip, pol, k) + [Judge(0, Wrong)], 0, v, ip, k)
      && Reaches(v, Closing(1, k), ip, k, k - 1, k - 1)
  {
    FirstLocks(ip, pol, k);
    AllClose(ip, pol, 1, k);
    assert Reaches(Closed(ip, pol, 1, k), Closing(1, k), ip, k, k - 1, k - 1);
  }
}
