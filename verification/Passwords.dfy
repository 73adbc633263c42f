/**
 The admin password under calls in flight: a login or a change reads the stored hash, verifies against it outside any
 transaction, and writes later, whatever the hash has become.
 */
module Passwords {
  import opened Options

  /** What a stored hash was made from, and whether at a cost that is too low by now. */
  datatype Secret = Secret(password: string, weak: bool)

  /** A session remembers, here only, with which password it was opened. */
  datatype Session = Session(password: string, live: bool)

  datatype Call =
    | Login(seen: Secret, presented: string)
    | Change(seen: Secret, current: string, next: string, caller: nat)

  datatype World = World(account: Option<Secret>, sessions: seq<Session>, calls: map<nat, Call>)

  datatype Action =
    | BeginLogin(id: nat, presented: string)
    | BeginChange(id: nat, current: string, next: string, caller: nat)
    | Commit(id: nat, hashed: bool)
    | Drop(id: nat)
    | Reset(next: string)
    | Revoke(session: nat)

  /** The verification against the hash that was read. */
  predicate Passes(c: Call) {
    match c
    case Login(seen, presented) => presented == seen.password
    case Change(seen, current, _, _) => current == seen.password
  }

  /** `RevokeSessionsExcept`; with no caller every session goes. */
  function RevokeExcept(sessions: seq<Session>, caller: Option<nat>): (left: seq<Session>)
    ensures |left| == |sessions|
    ensures forall i :: 0 <= i < |sessions| ==>
      left[i] == if caller == Some(i) then sessions[i] else sessions[i].(live := false)
  {
    if sessions == [] then []
    else
      var n := |sessions| - 1;
      RevokeExcept(sessions[..n], caller) + [if caller == Some(n) then sessions[n] else sessions[n].(live := false)]
  }

  /** The write transaction; a successful login upgrades a weak hash, if the new one can be made. */
  function Write(w: World, c: Call, hashed: bool): World {
    match c
    case Login(seen, presented) =>
      w.(account := if seen.weak && hashed && w.account.Some? then Some(Secret(presented, false)) else w.account,
         sessions := w.sessions + [Session(presented, true)])
    case Change(_, _, next, caller) =>
      w.(account := if w.account.Some? then Some(Secret(next, false)) else None,
         sessions := RevokeExcept(w.sessions, Some(caller)))
  }

  function Step(w: World, a: Action): World {
    match a
    case BeginLogin(id, presented) =>
      if id in w.calls || w.account.None? then w
      else w.(calls := w.calls[id := Login(w.account.value, presented)])
    case BeginChange(id, current, next, caller) =>
      if id in w.calls || w.account.None? then w
      else w.(calls := w.calls[id := Change(w.account.value, current, next, caller)])
    case Commit(id, hashed) =>
      if id !in w.calls then w
      else
        var v := w.(calls := w.calls - {id});
        if Passes(w.calls[id]) then Write(v, w.calls[id], hashed) else v
    case Drop(id) => w.(calls := w.calls - {id})
    case Reset(next) =>
      if w.account.None? then w
      else w.(account := Some(Secret(next, false)), sessions := RevokeExcept(w.sessions, None))
    case Revoke(session) =>
      if session < |w.sessions| then w.(sessions := w.sessions[session := w.sessions[session].(live := false)]) else w
  }

  function After(w: World, acts: seq<Action>): World
    decreases |acts|
  {
    if acts == [] then w else After(Step(w, acts[0]), acts[1..])
  }

  /** The three calls of the service that touch the account, each undisturbed. */
  class Accounts {
    var account: Option<Secret>
    var sessions: seq<Session>

    ghost function View(): World
      reads this
    {
      World(account, sessions, map[])
    }

    constructor (account: Option<Secret>)
      ensures View() == World(account, [], map[])
    {
      this.account, this.sessions := account, [];
    }

    method Login(presented: string, hashed: bool) returns (granted: bool)
      modifies this
      ensures View() == After(old(View()), [BeginLogin(0, presented), Commit(0, hashed)])
      ensures granted <==> old(account).Some? && presented == old(account).value.password
      ensures account.Some? == old(account).Some? && (account.Some? ==> account.value.password == old(account).value.password)
      ensures account.Some? ==> (account.value.weak <==> old(account).value.weak && !(granted && hashed))
      ensures sessions == if granted then old(sessions) + [Session(presented, true)] else old(sessions)
    {
      AfterTwo(View(), BeginLogin(0, presented), Commit(0, hashed));
      if account.None? || presented != account.value.password { return false; }
      if account.value.weak && hashed { account := Some(Secret(presented, false)); }
      sessions := sessions + [Session(presented, true)];
      return true;
    }

    method ChangePassword(caller: nat, current: string, next: string) returns (changed: bool)
      modifies this
      ensures View() == After(old(View()), [BeginChange(0, current, next, caller), Commit(0, true)])
      ensures changed <==> old(account).Some? && current == old(account).value.password
      ensures changed ==> account == Some(Secret(next, false))
      ensures changed ==> |sessions| == |old(sessions)| && forall i :: 0 <= i < |sessions| ==>
        && sessions[i].password == old(sessions)[i].password
        && (sessions[i].live <==> i == caller && old(sessions)[i].live)
      ensures !changed ==> account == old(account) && sessions == old(sessions)
    {
      AfterTwo(View(), BeginChange(0, current, next, caller), Commit(0, true));
      if account.None? || current != account.value.password { return false; }
      account, sessions := Some(Secret(next, false)), RevokeExcept(sessions, Some(caller));
      return true;
    }

    method ResetPassword(next: string) returns (done: bool)
      modifies this
      ensures View() == Step(old(View()), Reset(next))
      ensures done <==> old(account).Some?
      ensures done ==> account == Some(Secret(next, false)) && |sessions| == |old(sessions)|
      ensures done ==> forall i :: 0 <= i < |sessions| ==> sessions[i] == Session(old(sessions)[i].password, false)
      ensures !done ==> account == None && sessions == old(sessions)
    {
      if account.None? { return false; }
      account, sessions := Some(Secret(next, false)), RevokeExcept(sessions, None);
      return true;
    }
  }

  lemma {:induction false} AfterTwo(w: World, a: Action, b: Action)
    ensures After(w, [a, b]) == Step(Step(w, a), b)
  {
    assert [a, b][1..] == [b] && [b][1..] == [];
    assert After(Step(w, a), [b]) == Step(Step(w, a), b);
  }

  // ---------------------------------------------------------------- a change in force

  /** Nobody begins another change. */
  predicate Quiet(acts: seq<Action>) { forall a :: a in acts ==> !a.BeginChange? && !a.Reset? }

  /** The password is `p`, and every session that was not open at `w` was opened with it. */
  predicate Holds(w: World, v: World, p: string) {
    && v.account.Some? && v.account.value.password == p
    && forall i :: 0 <= i < |v.sessions| && v.sessions[i].live && !(i < |w.sessions| && w.sessions[i].live)
         ==> v.sessions[i].password == p
  }

  ghost predicate InForce(w: World, p: string) {
    forall acts :: Quiet(acts) ==> Holds(w, After(w, acts), p)
  }

  /** A call that passed its verification and will write another password, or open a session with one. */
  predicate Overrides(c: Call, p: string) {
    Passes(c) && match c case Login(_, presented) => presented != p case Change(_, _, next, _) => next != p
  }

  predicate NoneOverrides(w: World, p: string) { forall id :: id in w.calls ==> !Overrides(w.calls[id], p) }

  predicate Set(w: World, p: string) { w.account == Some(Secret(p, false)) }

  lemma {:induction false} StepHolds(u: World, w: World, a: Action, p: string)
    requires Set(w, p) && NoneOverrides(w, p) && Holds(u, w, p) && |u.sessions| <= |w.sessions|
    requires !a.BeginChange? && !a.Reset?
    ensures var v := Step(w, a); Set(v, p) && NoneOverrides(v, p) && Holds(u, v, p) && |u.sessions| <= |v.sessions|
  {
    var v := Step(w, a);
    if a.Commit? && a.id in w.calls { assert !Overrides(w.calls[a.id], p); }
    forall id | id in v.calls ensures !Overrides(v.calls[id], p) {
      if id in w.calls { assert !Overrides(w.calls[id], p); }
    }
  }

  lemma {:induction false} RunHolds(u: World, w: World, acts: seq<Action>, p: string)
    requires Set(w, p) && NoneOverrides(w, p) && Holds(u, w, p) && |u.sessions| <= |w.sessions| && Quiet(acts)
    ensures Holds(u, After(w, acts), p)
    decreases |acts|
  {
    if acts != [] {
      StepHolds(u, w, acts[0], p);
      assert forall a :: a in acts[1..] ==> a in acts;
      RunHolds(u, Step(w, acts[0]), acts[1..], p);
    }
  }

  /**
   A password that was just set stays in force until the next change is begun, whatever else happens, if and only if
   no call in flight has already passed its verification with another one.
   */
  lemma {:induction false} InForceExactly(w: World, p: string)
    requires Set(w, p)
    ensures InForce(w, p) <==> NoneOverrides(w, p)
  {
    if NoneOverrides(w, p) {
      forall acts | Quiet(acts) ensures Holds(w, After(w, acts), p) { RunHolds(w, w, acts, p); }
    } else {
      var id :| id in w.calls && Overrides(w.calls[id], p);
      OverrideBreaks(w, id, p);
    }
  }

  lemma {:induction false} OverrideBreaks(w: World, id: nat, p: string)
    requires Set(w, p) && id in w.calls && Overrides(w.calls[id], p)
    ensures Quiet([Commit(id, true)]) && !Holds(w, After(w, [Commit(id, true)]), p)
  {
    var v := Step(w, Commit(id, true));
    assert [Commit(id, true)][1..] == [];
    assert After(w, [Commit(id, true)]) == v;
    if w.calls[id].Login? {
      assert v.sessions[|w.sessions|] == Session(w.calls[id].presented, true);
    }
  }

  /** The password alone is lost only to a change in flight, or to a login that saw a weak hash. */
  predicate Rewrites(c: Call, p: string) { Overrides(c, p) && (c.Login? ==> c.seen.weak) }

  predicate NoneRewrites(w: World, p: string) { forall id :: id in w.calls ==> !Rewrites(w.calls[id], p) }

  ghost predicate Stays(w: World, p: string) {
    forall acts :: Quiet(acts) ==> After(w, acts).account.Some? && After(w, acts).account.value.password == p
  }

  lemma {:induction false} StepStays(w: World, a: Action, p: string)
    requires Set(w, p) && NoneRewrites(w, p) && !a.BeginChange? && !a.Reset?
    ensures Set(Step(w, a), p) && NoneRewrites(Step(w, a), p)
  {
    var v := Step(w, a);
    if a.Commit? && a.id in w.calls { assert !Rewrites(w.calls[a.id], p); }
    forall id | id in v.calls ensures !Rewrites(v.calls[id], p) {
      if id in w.calls { assert !Rewrites(w.calls[id], p); }
    }
  }

  lemma {:induction false} RunStays(w: World, acts: seq<Action>, p: string)
    requires Set(w, p) && NoneRewrites(w, p) && Quiet(acts)
    ensures Set(After(w, acts), p)
    decreases |acts|
  {
    if acts != [] {
      StepStays(w, acts[0], p);
      assert forall a :: a in acts[1..] ==> a in acts;
      RunStays(Step(w, acts[0]), acts[1..], p);
    }
  }

  lemma {:induction false} StaysExactly(w: World, p: string)
    requires Set(w, p)
    ensures Stays(w, p) <==> NoneRewrites(w, p)
  {
    if NoneRewrites(w, p) {
      forall acts | Quiet(acts) ensures After(w, acts).account.Some? && After(w, acts).account.value.password == p {
        RunStays(w, acts, p);
      }
    } else {
      var id :| id in w.calls && Rewrites(w.calls[id], p);
      var acts := [Commit(id, true)];
      assert acts[1..] == [] && After(w, acts) == Step(w, acts[0]);
      assert Quiet(acts) && After(w, acts).account.value.password != p;
    }
  }

  // ---------------------------------------------------------------- what a change leaves

  /** A change that commits sets the password and ends every session but the caller's; then the above applies. */
  lemma {:induction false} ChangeSets(w: World, id: nat)
    requires w.account.Some? && id in w.calls && w.calls[id].Change? && Passes(w.calls[id])
    ensures var v, c := Step(w, Commit(id, true)), w.calls[id];
      && Set(v, c.next) && v.calls == w.calls - {id}
      && |v.sessions| == |w.sessions|
      && (forall i :: 0 <= i < |v.sessions| ==>
            && v.sessions[i].password == w.sessions[i].password
            && (v.sessions[i].live <==> i == c.caller && w.sessions[i].live))
      && (InForce(v, c.next) <==> forall other :: other in w.calls && other != id ==> !Overrides(w.calls[other], c.next))
  {
    var v, c := Step(w, Commit(id, true)), w.calls[id];
    InForceExactly(v, c.next);
    assert forall other :: other in v.calls <==> other in w.calls && other != id;
  }

  /** A session that has ended, by a revocation or by a change, is never live again. */
  lemma {:induction false} EndedStaysEnded(w: World, acts: seq<Action>, session: nat)
    requires session < |w.sessions| && !w.sessions[session].live
    ensures session < |After(w, acts).sessions| && !After(w, acts).sessions[session].live
    decreases |acts|
  {
    if acts != [] { EndedStaysEnded(Step(w, acts[0]), acts[1..], session); }
  }

  lemma {:induction false} RevokedEnds(w: World, session: nat, acts: seq<Action>)
    requires session < |w.sessions|
    ensures var v := After(Step(w, Revoke(session)), acts); session < |v.sessions| && !v.sessions[session].live
  {
    EndedStaysEnded(Step(w, Revoke(session)), acts, session);
  }

  /** A login in flight brings the old password back, and opens a session with it. */
  lemma {:induction false} OldPasswordComesBack(was: string, now: string)
    requires was != now
    ensures var w := World(Some(Secret(was, true)), [], map[]);
      var v := After(After(w, [BeginLogin(1, was), BeginChange(2, was, now, 0)]), [Commit(2, true), Commit(1, true)]);
      v == World(Some(Secret(was, false)), [Session(was, true)], map[])
  {
    var w := World(Some(Secret(was, true)), [], map[]);
    AfterTwo(w, BeginLogin(1, was), BeginChange(2, was, now, 0));
    var a := After(w, [BeginLogin(1, was), BeginChange(2, was, now, 0)]);
    assert a.calls == map[1 := Login(Secret(was, true), was), 2 := Change(Secret(was, true), was, now, 0)];
    AfterTwo(a, Commit(2, true), Commit(1, true));
    var b := Step(a, Commit(2, true));
    assert b == World(Some(Secret(now, false)), [], map[1 := Login(Secret(was, true), was)]);
  }
}
