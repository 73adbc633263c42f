/**
 The lockout is per address: no address can spend, lengthen or shorten another one's budget.
 */
module LockoutIsolation {
  import opened Lockout
  import opened LockoutRuns

  function Only(evs: seq<Event>, ip: Ip): seq<Event> {
    if evs == [] then []
    else
      var e := evs[|evs| - 1];
      Only(evs[..|evs| - 1], ip) + if e.ip == ip then [e] else []
  }

  function RowsOf(rows: seq<Attempt>, ip: Ip): seq<Attempt> {
    if rows == [] then []
    else
      var r := rows[|rows| - 1];
      RowsOf(rows[..|rows| - 1], ip) + if r.ip == ip then [r] else []
  }

  /** Two tables an address cannot tell apart. */
  ghost predicate Alike(t: Tables, u: Tables, ip: Ip) {
    && RowsOf(t.attempts, ip) == RowsOf(u.attempts, ip)
    && (ip in t.blocks <==> ip in u.blocks)
    && (ip in t.blocks ==> t.blocks[ip] == u.blocks[ip])
  }

  lemma {:induction false} QueriesReadOwnRows(rows: seq<Attempt>, ip: Ip, since: int, reasons: set<Reason>)
    ensures CountSince(rows, ip, since, reasons) == CountSince(RowsOf(rows, ip), ip, since, reasons)
    ensures LastSuccess(rows, ip) == LastSuccess(RowsOf(rows, ip), ip)
  {
    if rows != [] {
      var init, r := rows[..|rows| - 1], rows[|rows| - 1];
      QueriesReadOwnRows(init, ip, since, reasons);
      if r.ip == ip {
        assert RowsOf(rows, ip)[..|RowsOf(init, ip)|] == RowsOf(init, ip);
      } else {
        assert RowsOf(rows, ip) == RowsOf(init, ip);
      }
    }
  }

  lemma {:induction false} OwnRows(rows: seq<Attempt>, ip: Ip)
    ensures forall r :: r in RowsOf(rows, ip) <==> r in rows && r.ip == ip
  {
    if rows != [] {
      OwnRows(rows[..|rows| - 1], ip);
      assert rows == rows[..|rows| - 1] + [rows[|rows| - 1]];
    }
  }

  lemma {:induction false} AuditReadsOwnRows(rows: seq<Attempt>, ip: Ip, since: int)
    ensures AuditedSince(rows, ip, since)
       <==> exists r :: r in RowsOf(rows, ip) && r.at >= since && r.reason == Locked
  {
    OwnRows(rows, ip);
  }

  lemma {:induction false} RowsOfAppend(rows: seq<Attempt>, r: Attempt, ip: Ip)
    ensures RowsOf(rows + [r], ip) == RowsOf(rows, ip) + if r.ip == ip then [r] else []
  {
    assert (rows + [r])[..|rows|] == rows;
  }

  lemma {:induction false} RecordAlike(t: Tables, u: Tables, ip: Ip, now: int, reason: Reason)
    requires Alike(t, u, ip)
    ensures Alike(Record(t, now, ip, reason), Record(u, now, ip, reason), ip)
  {
    RowsOfAppend(t.attempts, Attempt(now, ip, reason), ip);
    RowsOfAppend(u.attempts, Attempt(now, ip, reason), ip);
  }

  lemma {:induction false} BudgetAlike(pol: Policy, t: Tables, u: Tables, ip: Ip, now: int)
    requires Alike(t, u, ip)
    ensures BudgetStart(pol, t, ip, now) == BudgetStart(pol, u, ip, now)
  {
    QueriesReadOwnRows(t.attempts, ip, now, GUESSES);
    QueriesReadOwnRows(u.attempts, ip, now, GUESSES);
  }

  lemma {:induction false} ExhaustsAlike(pol: Policy, t: Tables, u: Tables, ip: Ip, now: int)
    requires Alike(t, u, ip)
    ensures Exhausts(pol, t, ip, now) <==> Exhausts(pol, u, ip, now)
  {
    BudgetAlike(pol, t, u, ip, now);
    var since := BudgetStart(pol, t, ip, now);
    QueriesReadOwnRows(t.attempts, ip, since, GUESSES);
    QueriesReadOwnRows(u.attempts, ip, since, GUESSES);
  }

  lemma {:induction false} BlockAlike(t: Tables, u: Tables, ip: Ip, b: Block)
    requires Alike(t, u, ip)
    ensures Alike(t.(blocks := t.blocks[ip := b]), u.(blocks := u.blocks[ip := b]), ip)
  {
  }

  lemma {:induction false} FailAlike(pol: Policy, t: Tables, u: Tables, ip: Ip, now: int, reason: Reason)
    requires Alike(t, u, ip)
    ensures var (t', o) := Fail(pol, t, now, ip, reason);
            var (u', p) := Fail(pol, u, now, ip, reason);
            Alike(t', u', ip) && o == p
  {
    var rt, ru := Record(t, now, ip, reason), Record(u, now, ip, reason);
    RecordAlike(t, u, ip, now, reason);
    ExhaustsAlike(pol, rt, ru, ip, now);
    var strikes := Strikes(t, ip) + 1;
    BlockAlike(rt, ru, ip, Block(now + LockMs(pol, strikes), strikes, now));
  }

  lemma {:induction false} LoginAlike(pol: Policy, t: Tables, u: Tables, ip: Ip, now: int, verdict: Verdict)
    requires Alike(t, u, ip)
    ensures var (t', o) := LoginStep(pol, t, now, ip, verdict);
            var (u', p) := LoginStep(pol, u, now, ip, verdict);
            Alike(t', u', ip) && o == p
  {
    if Blocked(t, ip, now) {
      AuditReadsOwnRows(t.attempts, ip, t.blocks[ip].updatedAt);
      AuditReadsOwnRows(u.attempts, ip, t.blocks[ip].updatedAt);
      RowsOfAppend(t.attempts, Attempt(now, ip, Locked), ip);
      RowsOfAppend(u.attempts, Attempt(now, ip, Locked), ip);
    } else {
      match verdict
      case Unclaimed => FailAlike(pol, t, u, ip, now, NoAccount);
      case Wrong => FailAlike(pol, t, u, ip, now, BadPassword);
      case Correct =>
        RowsOfAppend(t.attempts, Attempt(now, ip, Ok), ip);
        RowsOfAppend(u.attempts, Attempt(now, ip, Ok), ip);
    }
  }

  lemma {:induction false} ForeignStepAlike(pol: Policy, t: Tables, e: Event, ip: Ip)
    requires e.ip != ip
    ensures Alike(Step(pol, t, e), t, ip)
  {
    var r := ForeignStep(pol, t, e, ip);
    RowsOfAppend(t.attempts, r, ip);
  }

  lemma {:induction false} RunAlike(pol: Policy, evs: seq<Event>, ip: Ip)
    ensures Alike(Run(pol, evs), Run(pol, Only(evs, ip)), ip)
  {
    if evs != [] {
      var init, e := evs[..|evs| - 1], evs[|evs| - 1];
      RunAlike(pol, init, ip);
      var t, u := Run(pol, init), Run(pol, Only(init, ip));
      if e.ip != ip {
        ForeignStepAlike(pol, t, e, ip);
        assert Only(evs, ip) == Only(init, ip);
      } else {
        assert Only(evs, ip)[..|Only(init, ip)|] == Only(init, ip);
        if e.Login? {
          LoginAlike(pol, t, u, ip, e.at, e.verdict);
        } else {
          RowsOfAppend(t.attempts, Attempt(e.at, ip, if e.ClaimedHost? then Ok else BadSetupToken), ip);
          RowsOfAppend(u.attempts, Attempt(e.at, ip, if e.ClaimedHost? then Ok else BadSetupToken), ip);
        }
      }
    }
  }

  /** The answer a login gets depends on what its own address did before, and on nothing else. */
  lemma {:induction false} AddressesDoNotInterfere(pol: Policy, evs: seq<Event>, ip: Ip, now: int, verdict: Verdict)
    ensures LoginStep(pol, Run(pol, evs), now, ip, verdict).1
         == LoginStep(pol, Run(pol, Only(evs, ip)), now, ip, verdict).1
  {
    RunAlike(pol, evs, ip);
    LoginAlike(pol, Run(pol, evs), Run(pol, Only(evs, ip)), ip, now, verdict);
  }

  /** And no second of it is too many, where lockouts have whole milliseconds. */
  lemma {:induction false} RetryAfterIsTight(pol: Policy, t: Tables, ip: Ip, now: int, verdict: Verdict, later: int)
    requires pol.lockout as int % 1_000_000 == 0
    requires var (u, out) := LoginStep(pol, t, now, ip, verdict);
             out.LockedOut? && out.retryAfterSec > 1 && later <= now + (out.retryAfterSec - 1) * 1000
    ensures Blocked(LoginStep(pol, t, now, ip, verdict).0, ip, later)
  {
    if !Blocked(t, ip, now) {
      var strikes := Max(Strikes(t, ip) + 1, 1);
      var first := BaseLockout(pol.lockout as int) / 1_000_000;
      assert BaseLockout(pol.lockout as int) == first * 1_000_000;
      LengthIs(pol, first, strikes);
      DoubledScales(first, 1_000_000, strikes - 1);
    }
  }

  /** Whoever waits out the seconds a refusal names is not refused again for that lockout. */
  lemma {:induction false} RetryAfterIsEnough(pol: Policy, t: Tables, ip: Ip, now: int, verdict: Verdict, later: int)
    requires var (u, out) := LoginStep(pol, t, now, ip, verdict);
             out.LockedOut? && later >= now + out.retryAfterSec * 1000
    ensures !Blocked(LoginStep(pol, t, now, ip, verdict).0, ip, later)
  {
    var (u, out) := LoginStep(pol, t, now, ip, verdict);
    if !Blocked(t, ip, now) {
      var locked := Escalated(pol.lockout as int, Strikes(t, ip) + 1);
      assert u.blocks[ip].until == now + Milliseconds(locked);
      assert locked <= MAX_LOCKOUT;
    }
  }
}
