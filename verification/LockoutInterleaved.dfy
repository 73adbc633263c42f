/**
 Login as the three steps it is, a read transaction, a verification outside any transaction and a write
 transaction, interleaved with other logins from any address.
 */
module LockoutInterleaved {
  import opened Lockout

  /** `Cleared` passed the read and is on its way to the hasher; `Refusal` still owes its audit row. */
  datatype Phase = Begun | Cleared | Judged(verdict: Verdict) | Refusal

  /** A call in flight. It read the clock and the policy when it began. */
  datatype Call = Call(ip: Ip, at: int, pol: Policy, phase: Phase)

  datatype World = World(tables: Tables, calls: map<nat, Call>, clock: int)

  datatype Action =
    | Begin(id: nat, ip: Ip, pol: Policy)
    | Read(id: nat)
    | Judge(id: nat, verdict: Verdict)
    | Write(id: nat)
    | Tick(clock: int)

  function Calls(w: World, ip: Ip): set<nat> { set id | id in w.calls && w.calls[id].ip == ip }

  /** The calls whose password is still to be verified. */
  function Waiting(w: World, ip: Ip): set<nat> {
    set id | id in w.calls && w.calls[id].ip == ip && w.calls[id].phase == Cleared
  }

  /** At most `k` calls from one address are in flight at once. */
  predicate Enabled(w: World, a: Action, k: nat) {
    match a
    case Begin(id, ip, _) => id !in w.calls && |Calls(w, ip)| < k
    case Read(id) => id in w.calls && w.calls[id].phase == Begun
    case Judge(id, _) => id in w.calls && w.calls[id].phase == Cleared
    case Write(id) => id in w.calls && (w.calls[id].phase.Judged? || w.calls[id].phase == Refusal)
    case Tick(clock) => w.clock <= clock
  }

  function WriteOf(t: Tables, c: Call): Tables
    requires c.phase.Judged? || c.phase == Refusal
  {
    match c.phase
    case Refusal => Record(t, c.at, c.ip, Locked)
    case Judged(Correct) => Succeed(t, c.at, c.ip)
    case Judged(Wrong) => Fail(c.pol, t, c.at, c.ip, BadPassword).0
    case Judged(Unclaimed) => Fail(c.pol, t, c.at, c.ip, NoAccount).0
  }

  function Apply(w: World, a: Action, k: nat): World
    requires Enabled(w, a, k)
  {
    match a
    case Begin(id, ip, pol) => w.(calls := w.calls[id := Call(ip, w.clock, pol, Begun)])
    case Read(id) =>
      var c := w.calls[id];
      (match ReadGate(w.tables, c.ip, c.at)
       case Pass => w.(calls := w.calls[id := c.(phase := Cleared)])
       case Refuse(_, audited) =>
         w.(calls := if audited then w.calls - {id} else w.calls[id := c.(phase := Refusal)]))
    case Judge(id, verdict) => w.(calls := w.calls[id := w.calls[id].(phase := Judged(verdict))])
    case Write(id) => w.(tables := WriteOf(w.tables, w.calls[id]), calls := w.calls - {id})
    case Tick(clock) => w.(clock := clock)
  }

  ghost predicate Valid(w: World, acts: seq<Action>, k: nat)
    decreases |acts|
  {
    acts == [] || (Enabled(w, acts[0], k) && Valid(Apply(w, acts[0], k), acts[1..], k))
  }

  ghost function Exec(w: World, acts: seq<Action>, k: nat): World
    requires Valid(w, acts, k)
    decreases |acts|
  {
    if acts == [] then w else Exec(Apply(w, acts[0], k), acts[1..], k)
  }

  /** Every action of the run starts while the address's row says locked. */
  ghost predicate LockedThroughout(w: World, acts: seq<Action>, ip: Ip, k: nat)
    requires Valid(w, acts, k)
    decreases |acts|
  {
    acts == [] || (Blocked(w.tables, ip, w.clock) && LockedThroughout(Apply(w, acts[0], k), acts[1..], ip, k))
  }

  predicate IsGuess(w: World, a: Action, ip: Ip) { a.Judge? && a.id in w.calls && w.calls[a.id].ip == ip }

  ghost function Guesses(w: World, acts: seq<Action>, ip: Ip, k: nat): nat
    requires Valid(w, acts, k)
    decreases |acts|
  {
    if acts == [] then 0
    else (if IsGuess(w, acts[0], ip) then 1 else 0) + Guesses(Apply(w, acts[0], k), acts[1..], ip, k)
  }

  ghost predicate Coherent(w: World, k: nat) {
    && (forall id :: id in w.calls ==> w.calls[id].at <= w.clock)
    && (forall ip :: |Calls(w, ip)| <= k)
  }

  lemma {:induction false} SubsetSize<T>(a: set<T>, b: set<T>)
    requires a <= b
    ensures |a| <= |b|
  {
    if a != {} {
      var x :| x in a;
      SubsetSize(a - {x}, b - {x});
    }
  }

  /** A call keeps its address and its instant; a new one has the present instant. */
  predicate Follows(w: World, v: World, a: Action) {
    && w.clock <= v.clock
    && forall id :: id in v.calls ==>
      if a.Begin? && a.id == id then v.calls[id].ip == a.ip && v.calls[id].at == w.clock
      else id in w.calls && v.calls[id].ip == w.calls[id].ip && v.calls[id].at == w.calls[id].at
  }

  lemma {:induction false} ApplyFollows(w: World, a: Action, k: nat)
    requires Enabled(w, a, k)
    ensures Follows(w, Apply(w, a, k), a)
  {
  }

  lemma {:induction false} FollowsCoherent(w: World, v: World, a: Action, k: nat)
    requires Coherent(w, k) && Enabled(w, a, k) && Follows(w, v, a)
    ensures Coherent(v, k)
  {
    forall ip ensures |Calls(v, ip)| <= k {
      if a.Begin? && ip == a.ip {
        assert Calls(v, ip) <= Calls(w, ip) + {a.id};
        SubsetSize(Calls(v, ip), Calls(w, ip) + {a.id});
      } else {
        assert Calls(v, ip) <= Calls(w, ip);
        SubsetSize(Calls(v, ip), Calls(w, ip));
      }
    }
  }

  lemma {:induction false} ApplyCoherent(w: World, a: Action, k: nat)
    requires Coherent(w, k) && Enabled(w, a, k)
    ensures Coherent(Apply(w, a, k), k)
  {
    ApplyFollows(w, a, k);
    FollowsCoherent(w, Apply(w, a, k), a, k);
  }

  lemma {:induction false} ExecCoherent(w: World, acts: seq<Action>, k: nat)
    requires Coherent(w, k) && Valid(w, acts, k)
    ensures Coherent(Exec(w, acts, k), k)
    decreases |acts|
  {
    if acts != [] {
      ApplyCoherent(w, acts[0], k);
      ExecCoherent(Apply(w, acts[0], k), acts[1..], k);
    }
  }

  /** While the row says locked no call passes the read. */
  lemma {:induction false} NoneIsCleared(w: World, a: Action, ip: Ip, k: nat, id: nat)
    requires Coherent(w, k) && Enabled(w, a, k) && Blocked(w.tables, ip, w.clock)
    requires id in Waiting(Apply(w, a, k), ip)
    ensures id in Waiting(w, ip) && !(a.Judge? && a.id == id)
  {
  }

  /** So each guess uses up a call that already had. */
  lemma {:induction false} LockedStep(w: World, a: Action, ip: Ip, k: nat)
    requires Coherent(w, k) && Enabled(w, a, k) && Blocked(w.tables, ip, w.clock)
    ensures |Waiting(Apply(w, a, k), ip)| + (if IsGuess(w, a, ip) then 1 else 0) <= |Waiting(w, ip)|
  {
    var after, before := Waiting(Apply(w, a, k), ip), Waiting(w, ip);
    forall id | id in after ensures id in before && !(a.Judge? && a.id == id) { NoneIsCleared(w, a, ip, k, id); }
    if IsGuess(w, a, ip) {
      assert a.id in before;
      SubsetSize(after, before - {a.id});
    } else {
      SubsetSize(after, before);
    }
  }

  lemma {:induction false} LockedRun(w: World, acts: seq<Action>, ip: Ip, k: nat)
    requires Coherent(w, k) && Valid(w, acts, k) && LockedThroughout(w, acts, ip, k)
    ensures Guesses(w, acts, ip, k) <= |Waiting(w, ip)|
    decreases |acts|
  {
    if acts != [] {
      LockedStep(w, acts[0], ip, k);
      ApplyCoherent(w, acts[0], k);
      LockedRun(Apply(w, acts[0], k), acts[1..], ip, k);
    }
  }

  const IDLE := World(Tables([], map[]), map[], 0)

  /**
   From the write that leaves an address's row locked until the row first stops saying so, at most
   `k - 1` further passwords are verified for it, whatever every other call does in between.
   */
  lemma {:induction false} GuessesAfterLockout(before: seq<Action>, commit: nat, after: seq<Action>, ip: Ip, k: nat)
    requires Valid(IDLE, before, k)
    requires var w := Exec(IDLE, before, k);
             && Enabled(w, Write(commit), k) && w.calls[commit].ip == ip
             && var v := Apply(w, Write(commit), k);
             Valid(v, after, k) && LockedThroughout(v, after, ip, k)
    ensures var v := Apply(Exec(IDLE, before, k), Write(commit), k);
            Guesses(v, after, ip, k) <= k - 1
  {
    assert forall ip' :: Calls(IDLE, ip') == {};
    ExecCoherent(IDLE, before, k);
    var w := Exec(IDLE, before, k);
    ApplyCoherent(w, Write(commit), k);
    var v := Apply(w, Write(commit), k);
    LockedRun(v, after, ip, k);
    assert Waiting(v, ip) <= Calls(w, ip) - {commit};
    SubsetSize(Waiting(v, ip), Calls(w, ip) - {commit});
  }

  /** With nothing in between, the three steps are the sequential login. */
  lemma {:induction false} AloneIsSequential(w: World, id: nat, ip: Ip, pol: Policy, verdict: Verdict, k: nat)
    requires Enabled(w, Begin(id, ip, pol), k)
    ensures var begun := Apply(w, Begin(id, ip, pol), k);
            && Enabled(begun, Read(id), k)
            && var read := Apply(begun, Read(id), k);
            var outcome := LoginStep(pol, w.tables, w.clock, ip, verdict).0;
            if Enabled(read, Judge(id, verdict), k) then
              var judged := Apply(read, Judge(id, verdict), k);
              Enabled(judged, Write(id), k) && Apply(judged, Write(id), k) == w.(tables := outcome)
            else if Enabled(read, Write(id), k) then
              Apply(read, Write(id), k) == w.(tables := outcome)
            else read == w.(tables := outcome)
  {
    var begun := Apply(w, Begin(id, ip, pol), k);
    var read := Apply(begun, Read(id), k);
    assert begun.calls - {id} == w.calls;
    assert read.calls - {id} == w.calls;
    if Enabled(read, Judge(id, verdict), k) {
      assert Apply(read, Judge(id, verdict), k).calls - {id} == w.calls;
    }
  }
}
