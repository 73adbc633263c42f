/**
 The login lockout of internal/auth/service.go over the tables of internal/store/auth.go.

 Durations are Go `time.Duration` values, int64 nanoseconds. Instants are Unix milliseconds.
 */
module Lockout {
  import opened Options

  newtype int64 = x: int | -0x8000_0000_0000_0000 <= x < 0x8000_0000_0000_0000

  type Ip = string

  /** `login_attempts.reason`. The `success` column is written as true with `Ok` and false otherwise. */
  datatype Reason = Ok | BadPassword | Locked | NoAccount | BadSetupToken

  datatype Attempt = Attempt(at: int, ip: Ip, reason: Reason)

  /** One `lockouts` row, keyed by address. */
  datatype Block = Block(until: int, strikes: int, updatedAt: int) {
    predicate Locked(now: int) { until > now }
  }

  datatype Tables = Tables(attempts: seq<Attempt>, blocks: map<Ip, Block>)

  datatype Policy = Policy(maxAttempts: int, window: int64, lockout: int64)

  /** What the hasher, or the absence of an account, says about one presented password. */
  datatype Verdict = Correct | Wrong | Unclaimed

  datatype Outcome = Granted | BadCredentials | LockedOut(retryAfterSec: int)

  /** The read transaction's answer: refuse (and say whether this episode is already audited) or go on. */
  datatype Gate = Refuse(until: int, audited: bool) | Pass

  // ---------------------------------------------------------------- durations

  const SECOND: int := 1_000_000_000
  const MAX_LOCKOUT: int := 24 * 3600 * SECOND
  const DEFAULT_LOCKOUT: int := 900 * SECOND

  function Min(a: int, b: int): int { if a < b then a else b }

  function Max(a: int, b: int): int { if a < b then b else a }

  /** `d` doubled `n` times, `d * 2^n`. */
  function Doubled(d: int, n: nat): int { if n == 0 then d else 2 * Doubled(d, n - 1) }

  /** `Duration.Milliseconds`: truncation toward zero. */
  function Milliseconds(d: int): int {
    if d >= 0 then d / 1_000_000 else -((-d) / 1_000_000)
  }

  function BaseLockout(base: int): int { if base <= 0 then DEFAULT_LOCKOUT else base }

  /** The escalation policy in closed form: the base doubled once per earlier strike, capped at a day. */
  function Escalated(base: int, strikes: int): int {
    Min(Doubled(BaseLockout(base), Max(strikes - 1, 0)), MAX_LOCKOUT)
  }

  function WindowMs(pol: Policy): int { Milliseconds(pol.window as int) }

  function LockMs(pol: Policy, strikes: int): int { Milliseconds(Escalated(pol.lockout as int, strikes)) }

  function RetryAfterSec(retry: int): int { Max((retry + SECOND - 1) / SECOND, 1) }

  lemma {:induction false} DoubledMonotone(d: int, m: nat, n: nat)
    requires 0 <= d && m <= n
    ensures 0 <= Doubled(d, m) <= Doubled(d, n)
  {
    if m < n {
      DoubledMonotone(d, m, n - 1);
    } else if 0 < m {
      DoubledMonotone(d, m - 1, n - 1);
    }
  }

  /** The doubling loop: no step of it leaves the int64 range, whatever the base and the strike count. */
  method LockoutFor(base: int64, strikes: int) returns (d: int64)
    ensures d as int == Escalated(base as int, strikes)
  {
    var b := base;
    if b <= 0 {
      b := 900_000_000_000;
    }
    d := b;
    var i := 1;
    while i < strikes && d < 86_400_000_000_000
      invariant 1 <= i && (i == 1 || i <= strikes) && d > 0
      invariant d as int == Doubled(b as int, i - 1)
      decreases strikes - i
    {
      d := d * 2;
      i := i + 1;
    }
    DoubledMonotone(b as int, i - 1, Max(strikes - 1, i - 1));
    if d > 86_400_000_000_000 {
      d := 86_400_000_000_000;
    }
  }

  // ---------------------------------------------------------------- queries

  const GUESSES: set<Reason> := {BadPassword, NoAccount, BadSetupToken}

  /** `CountFailedLoginAttempts`: rows of one address at or after `since` with one of `reasons`. */
  function CountSince(rows: seq<Attempt>, ip: Ip, since: int, reasons: set<Reason>): nat {
    if rows == [] then 0
    else
      var r := rows[|rows| - 1];
      CountSince(rows[..|rows| - 1], ip, since, reasons)
      + if r.ip == ip && r.at >= since && r.reason in reasons then 1 else 0
  }

  /** `LastSuccessfulLoginAt`: the latest `ok` row of one address. */
  function LastSuccess(rows: seq<Attempt>, ip: Ip): Option<int> {
    if rows == [] then None
    else
      var r := rows[|rows| - 1];
      var earlier := LastSuccess(rows[..|rows| - 1], ip);
      if r.ip != ip || r.reason != Ok then earlier
      else if earlier.Some? && earlier.value > r.at then earlier
      else Some(r.at)
  }

  /** `HasLoginAttemptSince` for the `locked` reason. */
  predicate AuditedSince(rows: seq<Attempt>, ip: Ip, since: int) {
    exists i :: 0 <= i < |rows| && rows[i].ip == ip && rows[i].at >= since && rows[i].reason == Locked
  }

  // ---------------------------------------------------------------- the transactions

  predicate Blocked(t: Tables, ip: Ip, now: int) { ip in t.blocks && t.blocks[ip].Locked(now) }

  function ReadGate(t: Tables, ip: Ip, now: int): Gate {
    if Blocked(t, ip, now)
    then Refuse(t.blocks[ip].until, AuditedSince(t.attempts, ip, t.blocks[ip].updatedAt))
    else Pass
  }

  /** Budget starts after the window edge, after the last lockout and after the last success. */
  function BudgetStart(pol: Policy, t: Tables, ip: Ip, now: int): int {
    var edge := now - WindowMs(pol);
    var afterLock := if ip in t.blocks then Max(edge, t.blocks[ip].updatedAt + 1) else edge;
    match LastSuccess(t.attempts, ip)
    case None => afterLock
    case Some(at) => Max(afterLock, at + 1)
  }

  function Strikes(t: Tables, ip: Ip): int { if ip in t.blocks then t.blocks[ip].strikes else 0 }

  predicate Exhausts(pol: Policy, t: Tables, ip: Ip, now: int) {
    pol.maxAttempts > 0 && CountSince(t.attempts, ip, BudgetStart(pol, t, ip, now), GUESSES) >= pol.maxAttempts
  }

  function Record(t: Tables, now: int, ip: Ip, reason: Reason): Tables {
    t.(attempts := t.attempts + [Attempt(now, ip, reason)])
  }

  /** The write transaction of a failed login. */
  function Fail(pol: Policy, t: Tables, now: int, ip: Ip, reason: Reason): (Tables, Outcome)
  {
    var u := Record(t, now, ip, reason);
    if !Exhausts(pol, u, ip, now) then (u, BadCredentials)
    else
      var strikes := Strikes(t, ip) + 1;
      (u.(blocks := u.blocks[ip := Block(now + LockMs(pol, strikes), strikes, now)]),
       LockedOut(RetryAfterSec(Escalated(pol.lockout as int, strikes))))
  }

  /** The write transaction of a successful login: the row, and the address's block cleared. */
  function Succeed(t: Tables, now: int, ip: Ip): Tables {
    Record(t, now, ip, Ok).(blocks := t.blocks - {ip})
  }

  /** The write, if any, of a refused login: the first refusal of an episode is audited. */
  function Refused(t: Tables, now: int, ip: Ip, audited: bool): Tables {
    if audited then t else Record(t, now, ip, Locked)
  }

  /** One login whose read, verification and write are not interleaved with another's. */
  function LoginStep(pol: Policy, t: Tables, now: int, ip: Ip, verdict: Verdict): (Tables, Outcome)
  {
    match ReadGate(t, ip, now)
    case Refuse(until, audited) =>
      (Refused(t, now, ip, audited), LockedOut(RetryAfterSec((until - now) * 1_000_000)))
    case Pass =>
      match verdict
      case Unclaimed => Fail(pol, t, now, ip, NoAccount)
      case Wrong => Fail(pol, t, now, ip, BadPassword)
      case Correct => (Succeed(t, now, ip), Granted)
  }

  /** The login half of the service, over the tables it writes. */
  class LoginService {
    var attempts: seq<Attempt>
    var blocks: map<Ip, Block>
    var passwordHash: string
    var sessions: seq<string>

    ghost function View(): Tables
      reads this
    {
      Tables(attempts, blocks)
    }

    constructor (passwordHash: string)
      ensures View() == Tables([], map[]) && this.passwordHash == passwordHash && sessions == []
    {
      attempts, blocks, this.passwordHash, sessions := [], map[], passwordHash, [];
    }

    method RecordAttempt(ip: Ip, nowMS: int, reason: Reason)
      modifies this`attempts
      ensures View() == Record(old(View()), nowMS, ip, reason)
    {
      attempts := attempts + [Attempt(nowMS, ip, reason)];
    }

    method FailLogin(ip: Ip, nowMS: int, pol: Policy, reason: Reason) returns (out: Outcome)
      modifies this`attempts, this`blocks
      ensures (View(), out) == Fail(pol, old(View()), nowMS, ip, reason)
    {
      RecordAttempt(ip, nowMS, reason);
      var since := nowMS - Milliseconds(pol.window as int);
      var strikes := 0;
      if ip in blocks {
        strikes := blocks[ip].strikes;
        if blocks[ip].updatedAt >= since {
          since := blocks[ip].updatedAt + 1;
        }
      }
      var last := LastSuccess(attempts, ip);
      if last.Some? && last.value >= since {
        since := last.value + 1;
      }
      var n := CountSince(attempts, ip, since, GUESSES);
      assert since == BudgetStart(pol, View(), ip, nowMS);
      if pol.maxAttempts <= 0 || n < pol.maxAttempts {
        return BadCredentials;
      }
      strikes := strikes + 1;
      var locked := LockoutFor(pol.lockout, strikes);
      blocks := blocks[ip := Block(nowMS + Milliseconds(locked as int), strikes, nowMS)];
      out := LockedOut(RetryAfterSec(locked as int));
    }

    /** `rehash` is the hash at the current cost, if the stored one is weaker and it could be made. */
    method Login(ip: Ip, nowMS: int, pol: Policy, verdict: Verdict, rehash: Option<string>, session: string)
      returns (out: Outcome)
      modifies this
      ensures (View(), out) == LoginStep(pol, old(View()), nowMS, ip, verdict)
      ensures sessions == if out.Granted? then old(sessions) + [session] else old(sessions)
      ensures passwordHash == if out.Granted? && rehash.Some? then rehash.value else old(passwordHash)
    {
      var gate := ReadGate(Tables(attempts, blocks), ip, nowMS);
      if gate.Refuse? {
        if !gate.audited {
          RecordAttempt(ip, nowMS, Locked);
        }
        return LockedOut(RetryAfterSec((gate.until - nowMS) * 1_000_000));
      }
      match verdict
      case Unclaimed => out := FailLogin(ip, nowMS, pol, NoAccount);
      case Wrong => out := FailLogin(ip, nowMS, pol, BadPassword);
      case Correct =>
        RecordAttempt(ip, nowMS, Ok);
        blocks := blocks - {ip};
        if rehash.Some? { passwordHash := rehash.value; }
        sessions := sessions + [session];
        out := Granted;
    }
  }
}
