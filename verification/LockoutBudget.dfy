/**
 When a failed login is answered with a lockout, told by the events of an address alone.
 */
module LockoutBudget {
  import opened Options
  import opened Lockout
  import opened LockoutRuns

  // ---------------------------------------------------------------- what the events of a run were

  /** A login that is not refused for a running lockout. */
  predicate LetThrough(pol: Policy, evs: seq<Event>, i: nat)
    requires i < |evs|
  {
    evs[i].Login? && !Blocked(Run(pol, evs[..i]), evs[i].ip, evs[i].at)
  }

  /** A presented credential that was not the right one. A refused login presents none. */
  predicate IsGuess(pol: Policy, evs: seq<Event>, i: nat, ip: Ip)
    requires i < |evs|
  {
    evs[i].ip == ip && (evs[i].RefusedSetupToken? || (LetThrough(pol, evs, i) && evs[i].verdict != Correct))
  }

  predicate IsSuccess(pol: Policy, evs: seq<Event>, i: nat, ip: Ip)
    requires i < |evs|
  {
    evs[i].ip == ip && (evs[i].ClaimedHost? || (LetThrough(pol, evs, i) && evs[i].verdict == Correct))
  }

  /** What a login that is let through at the end of `evs` is answered. */
  function Answer(pol: Policy, evs: seq<Event>, now: int, ip: Ip, verdict: Verdict): Outcome {
    LoginStep(pol, Run(pol, evs), now, ip, verdict).1
  }

  predicate IsLockout(pol: Policy, evs: seq<Event>, i: nat, ip: Ip)
    requires i < |evs|
  {
    && evs[i].ip == ip && LetThrough(pol, evs, i)
    && Answer(pol, evs[..i], evs[i].at, ip, evs[i].verdict).LockedOut?
  }

  /** What ends the budget that was being spent. */
  predicate Resets(pol: Policy, evs: seq<Event>, i: nat, ip: Ip)
    requires i < |evs|
  {
    IsSuccess(pol, evs, i, ip) || IsLockout(pol, evs, i, ip)
  }

  /** The guesses that count when the last event of `evs` is judged: in the window, and after every earlier reset. */
  ghost function Spent(pol: Policy, evs: seq<Event>, ip: Ip): set<nat>
    requires evs != []
  {
    set i: nat | i < |evs| && IsGuess(pol, evs, i, ip)
      && evs[|evs| - 1].at - WindowMs(pol) <= evs[i].at
      && forall j :: 0 <= j < |evs| - 1 && Resets(pol, evs, j, ip) ==> evs[j].at < evs[i].at
  }

  // ---------------------------------------------------------------- rows and events

  /** What an event was does not depend on what comes later. */
  lemma {:induction false} Prefix(pol: Policy, evs: seq<Event>, n: nat, i: nat, ip: Ip)
    requires i < n <= |evs|
    ensures IsGuess(pol, evs[..n], i, ip) <==> IsGuess(pol, evs, i, ip)
    ensures Resets(pol, evs[..n], i, ip) <==> Resets(pol, evs, i, ip)
  {
    assert evs[..n][..i] == evs[..i];
  }

  ghost function GuessesSince(pol: Policy, evs: seq<Event>, ip: Ip, since: int): set<nat> {
    set i: nat | i < |evs| && IsGuess(pol, evs, i, ip) && since <= evs[i].at
  }

  lemma {:induction false} GuessesGrow(pol: Policy, evs: seq<Event>, ip: Ip, since: int)
    requires evs != []
    ensures var n := |evs| - 1;
      GuessesSince(pol, evs, ip, since) == GuessesSince(pol, evs[..n], ip, since)
        + if IsGuess(pol, evs, n, ip) && since <= evs[n].at then {n} else {}
  {
    var n := |evs| - 1;
    forall i: nat | i < n ensures IsGuess(pol, evs[..n], i, ip) <==> IsGuess(pol, evs, i, ip) {
      Prefix(pol, evs, n, i, ip);
    }
  }

  /** The row an event leaves, if it leaves one. */
  function RowFor(t: Tables, e: Event): (row: seq<Attempt>)
    ensures |row| <= 1 && forall r :: r in row ==> r.at == e.at && r.ip == e.ip
  {
    match e
    case Login(at, ip, verdict) =>
      if Blocked(t, ip, at) then
        if AuditedSince(t.attempts, ip, t.blocks[ip].updatedAt) then [] else [Attempt(at, ip, Locked)]
      else [Attempt(at, ip, match verdict case Correct => Ok case Wrong => BadPassword case Unclaimed => NoAccount)]
    case RefusedSetupToken(at, ip) => [Attempt(at, ip, BadSetupToken)]
    case ClaimedHost(at, ip) => [Attempt(at, ip, Ok)]
  }

  lemma {:induction false} StepAppends(pol: Policy, t: Tables, e: Event)
    ensures Step(pol, t, e).attempts == t.attempts + RowFor(t, e)
  {
  }

  lemma {:induction false} RowTells(pol: Policy, evs: seq<Event>, ip: Ip)
    requires evs != []
    ensures var n := |evs| - 1; var row := RowFor(Run(pol, evs[..n]), evs[n]);
      && (IsGuess(pol, evs, n, ip) <==> row != [] && row[0].ip == ip && row[0].reason in GUESSES)
      && (IsSuccess(pol, evs, n, ip) <==> row != [] && row[0].ip == ip && row[0].reason == Ok)
  {
  }

  lemma {:induction false} RowOf(pol: Policy, evs: seq<Event>, ip: Ip) returns (row: seq<Attempt>)
    requires evs != []
    ensures var n := |evs| - 1;
      && Run(pol, evs).attempts == Run(pol, evs[..n]).attempts + row && |row| <= 1
      && (forall r :: r in row ==> r.at == evs[n].at)
      && (IsGuess(pol, evs, n, ip) <==> row != [] && row[0].ip == ip && row[0].reason in GUESSES)
      && (IsSuccess(pol, evs, n, ip) <==> row != [] && row[0].ip == ip && row[0].reason == Ok)
  {
    var n := |evs| - 1;
    row := RowFor(Run(pol, evs[..n]), evs[n]);
    StepAppends(pol, Run(pol, evs[..n]), evs[n]);
    RowTells(pol, evs, ip);
  }

  lemma {:induction false} CountAppends(rows: seq<Attempt>, r: Attempt, ip: Ip, since: int)
    ensures CountSince(rows + [r], ip, since, GUESSES) == CountSince(rows, ip, since, GUESSES)
      + if r.ip == ip && r.at >= since && r.reason in GUESSES then 1 else 0
    ensures LastSuccess(rows + [r], ip) == if r.ip != ip || r.reason != Ok then LastSuccess(rows, ip)
      else if LastSuccess(rows, ip).Some? && LastSuccess(rows, ip).value > r.at then LastSuccess(rows, ip) else Some(r.at)
  {
    assert (rows + [r])[..|rows|] == rows;
  }

  /** The rows that count are the guesses. */
  lemma {:induction false} RowsAreGuesses(pol: Policy, evs: seq<Event>, ip: Ip, since: int)
    ensures CountSince(Run(pol, evs).attempts, ip, since, GUESSES) == |GuessesSince(pol, evs, ip, since)|
  {
    if evs == [] {
      assert GuessesSince(pol, evs, ip, since) == {};
    } else {
      var n := |evs| - 1;
      RowsAreGuesses(pol, evs[..n], ip, since);
      GuessesGrow(pol, evs, ip, since);
      var row := RowOf(pol, evs, ip);
      if row == [] {
        assert Run(pol, evs).attempts == Run(pol, evs[..n]).attempts;
      } else {
        assert row == [row[0]];
        CountAppends(Run(pol, evs[..n]).attempts, row[0], ip, since);
      }
    }
  }

  // ---------------------------------------------------------------- where the budget starts

  ghost predicate AfterResets(pol: Policy, evs: seq<Event>, ip: Ip, x: int) {
    forall j :: 0 <= j < |evs| && Resets(pol, evs, j, ip) ==> evs[j].at < x
  }

  /** What the tables say of it. */
  predicate AfterStored(t: Tables, ip: Ip, x: int) {
    && (ip in t.blocks ==> t.blocks[ip].updatedAt < x)
    && (LastSuccess(t.attempts, ip).Some? ==> LastSuccess(t.attempts, ip).value < x)
  }

  lemma {:induction false} AfterResetsGrows(pol: Policy, evs: seq<Event>, ip: Ip, x: int)
    requires evs != []
    ensures var n := |evs| - 1;
      AfterResets(pol, evs, ip, x) <==> AfterResets(pol, evs[..n], ip, x) && (Resets(pol, evs, n, ip) ==> evs[n].at < x)
  {
    var n := |evs| - 1;
    forall j | 0 <= j < n ensures Resets(pol, evs[..n], j, ip) <==> Resets(pol, evs, j, ip) { Prefix(pol, evs, n, j, ip); }
  }

  /** The block of an address after an event. */
  lemma {:induction false} BlockAfter(pol: Policy, evs: seq<Event>, ip: Ip)
    requires evs != []
    ensures var n := |evs| - 1;
      var t, u := Run(pol, evs[..n]), Run(pol, evs);
      if IsLockout(pol, evs, n, ip) then ip in u.blocks && u.blocks[ip].updatedAt == evs[n].at
      else if IsSuccess(pol, evs, n, ip) && evs[n].Login? then ip !in u.blocks
      else (ip in u.blocks <==> ip in t.blocks) && (ip in t.blocks ==> u.blocks[ip] == t.blocks[ip])
  {
  }

  lemma {:induction false} StoredIsReset(pol: Policy, evs: seq<Event>, ip: Ip, x: int)
    requires Chronological(evs)
    ensures AfterResets(pol, evs, ip, x) <==> AfterStored(Run(pol, evs), ip, x)
  {
    if evs != [] {
      var n := |evs| - 1;
      var t := Run(pol, evs[..n]);
      StoredIsReset(pol, evs[..n], ip, x);
      AfterResetsGrows(pol, evs, ip, x);
      BlockAfter(pol, evs, ip);
      RunIsSound(pol, evs[..n], ip, evs[n].at);
      LastSuccessIsSome(t.attempts, ip);
      var row := RowOf(pol, evs, ip);
      if row != [] {
        assert row == [row[0]];
        CountAppends(t.attempts, row[0], ip, 0);
      } else {
        assert Run(pol, evs).attempts == t.attempts;
      }
    }
  }

  lemma {:induction false} BudgetStartIs(pol: Policy, t: Tables, ip: Ip, now: int, reason: Reason, x: int)
    requires reason in GUESSES
    ensures BudgetStart(pol, Record(t, now, ip, reason), ip, now) <= x
       <==> now - WindowMs(pol) <= x && AfterStored(t, ip, x)
  {
    CountAppends(t.attempts, Attempt(now, ip, reason), ip, 0);
  }

  // ---------------------------------------------------------------- the answer

  lemma {:induction false} SpentAre(pol: Policy, evs: seq<Event>, ip: Ip, now: int, verdict: Verdict, reason: Reason)
    requires verdict != Correct && reason == (if verdict == Wrong then BadPassword else NoAccount)
    requires var all := evs + [Login(now, ip, verdict)]; Chronological(all) && LetThrough(pol, all, |evs|)
    ensures var all, start := evs + [Login(now, ip, verdict)], BudgetStart(pol, Record(Run(pol, evs), now, ip, reason), ip, now);
      Spent(pol, all, ip) == GuessesSince(pol, all, ip, start)
  {
    var all, t := evs + [Login(now, ip, verdict)], Run(pol, evs);
    assert all[..|evs|] == evs;
    assert Chronological(evs) by { assert forall i :: 0 <= i < |evs| ==> all[i] == evs[i]; }
    forall i: nat | i < |all|
      ensures BudgetStart(pol, Record(t, now, ip, reason), ip, now) <= all[i].at
         <==> now - WindowMs(pol) <= all[i].at
              && forall j :: 0 <= j < |all| - 1 && Resets(pol, all, j, ip) ==> all[j].at < all[i].at
    {
      BudgetStartIs(pol, t, ip, now, reason, all[i].at);
      StoredIsReset(pol, evs, ip, all[i].at);
      forall j | 0 <= j < |evs| ensures Resets(pol, evs, j, ip) <==> Resets(pol, all, j, ip) {
        Prefix(pol, all, |evs|, j, ip);
      }
    }
  }

  /**
   A wrong password that is let through is answered with a lockout if and only if, with it, at least `maxAttempts`
   guesses of its address lie within the window and after every lockout and every success of the address.
   */
  lemma {:induction false} LocksExactly(pol: Policy, evs: seq<Event>, ip: Ip, now: int, verdict: Verdict)
    requires verdict != Correct
    requires var all := evs + [Login(now, ip, verdict)]; Chronological(all) && LetThrough(pol, all, |evs|)
    ensures var all := evs + [Login(now, ip, verdict)];
      && (Answer(pol, evs, now, ip, verdict).LockedOut? <==>
            0 < pol.maxAttempts <= |Spent(pol, all, ip)|)
      && (Answer(pol, evs, now, ip, verdict) == BadCredentials <==>
            !(0 < pol.maxAttempts <= |Spent(pol, all, ip)|))
  {
    var all, reason := evs + [Login(now, ip, verdict)], if verdict == Wrong then BadPassword else NoAccount;
    var u := Record(Run(pol, evs), now, ip, reason);
    assert all[..|evs|] == evs;
    SpentAre(pol, evs, ip, now, verdict, reason);
    var start := BudgetStart(pol, u, ip, now);
    RowsAreGuesses(pol, all, ip, start);
    assert Run(pol, all).attempts == u.attempts;
  }

  lemma {:induction false} SpentIsLater(pol: Policy, all: seq<Event>, j: nat, ip: Ip, i: nat)
    requires all != [] && Chronological(all) && j < |all| - 1 && Resets(pol, all, j, ip) && i in Spent(pol, all, ip)
    ensures j < i < |all| && IsGuess(pol, all, i, ip)
  {
  }

  /**
   After a success, or after a lockout, the next `maxAttempts - 1` wrong passwords are answered as such, whatever was
   guessed before.
   */
  lemma {:induction false} ResetRenewsTheBudget(pol: Policy, evs: seq<Event>, j: nat, ip: Ip, now: int, verdict: Verdict)
    requires verdict != Correct && j < |evs| && Resets(pol, evs, j, ip)
    requires var all := evs + [Login(now, ip, verdict)]; Chronological(all) && LetThrough(pol, all, |evs|)
    requires |set i: nat | j < i < |evs| && IsGuess(pol, evs, i, ip)| < pol.maxAttempts - 1
    ensures Answer(pol, evs, now, ip, verdict) == BadCredentials
  {
    var all := evs + [Login(now, ip, verdict)];
    var since := set i: nat | j < i < |evs| && IsGuess(pol, evs, i, ip);
    LocksExactly(pol, evs, ip, now, verdict);
    assert all[..|evs|] == evs;
    Prefix(pol, all, |evs|, j, ip);
    forall i | i in Spent(pol, all, ip) ensures i in since + {|evs|} {
      SpentIsLater(pol, all, j, ip, i);
      if i < |evs| { Prefix(pol, all, |evs|, i, ip); }
    }
    Smaller(Spent(pol, all, ip), since + {|evs|});
  }

  lemma {:induction false} Smaller<T>(a: set<T>, b: set<T>)
    requires a <= b
    ensures |a| <= |b|
  {
    if a != {} {
      var x :| x in a;
      Smaller(a - {x}, b - {x});
    }
  }
}
