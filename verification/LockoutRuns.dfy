/**
 What the lockout promises over whole runs: sequences of logins, refused setup tokens and claims
 from any number of addresses, one after another, on a clock that never goes back.
 */
module LockoutRuns {
  import opened Options
  import opened Lockout

  datatype Event =
    | Login(at: int, ip: Ip, verdict: Verdict)
    | RefusedSetupToken(at: int, ip: Ip)
    | ClaimedHost(at: int, ip: Ip)

  /** What one address's block went through: a lockout was committed, or a login cleared it. */
  datatype Entry = Opened(from: int, until: int) | Cleared(at: int)

  function Step(pol: Policy, t: Tables, e: Event): Tables {
    match e
    case Login(at, ip, verdict) => LoginStep(pol, t, at, ip, verdict).0
    case RefusedSetupToken(at, ip) => Record(t, at, ip, BadSetupToken)
    case ClaimedHost(at, ip) => Record(t, at, ip, Ok)
  }

  function Run(pol: Policy, evs: seq<Event>): Tables {
    if evs == [] then Tables([], map[])
    else Step(pol, Run(pol, evs[..|evs| - 1]), evs[|evs| - 1])
  }

  function Change(pol: Policy, t: Tables, e: Event, ip: Ip): seq<Entry> {
    if !e.Login? || e.ip != ip || Blocked(t, ip, e.at) then []
    else
      var (u, out) := LoginStep(pol, t, e.at, ip, e.verdict);
      if out == Granted then [Cleared(e.at)]
      else if out.LockedOut? && ip in u.blocks then [Opened(e.at, u.blocks[ip].until)]
      else []
  }

  function History(pol: Policy, evs: seq<Event>, ip: Ip): seq<Entry> {
    if evs == [] then []
    else
      var before := evs[..|evs| - 1];
      History(pol, before, ip) + Change(pol, Run(pol, before), evs[|evs| - 1], ip)
  }

  /** How many lockouts a history ends with since the last login that cleared the block. */
  function Streak(h: seq<Entry>): nat {
    if h == [] || h[|h| - 1].Cleared? then 0 else 1 + Streak(h[..|h| - 1])
  }

  ghost predicate Chronological(evs: seq<Event>) {
    forall i, j :: 0 <= i < j < |evs| ==> evs[i].at <= evs[j].at
  }

  // ---------------------------------------------------------------- counting rows

  const FAILURES: set<Reason> := {BadPassword, NoAccount}

  function CountBetween(rows: seq<Attempt>, ip: Ip, lo: int, hi: int, reasons: set<Reason>): nat {
    if rows == [] then 0
    else
      var r := rows[|rows| - 1];
      CountBetween(rows[..|rows| - 1], ip, lo, hi, reasons)
      + if r.ip == ip && lo <= r.at <= hi && r.reason in reasons then 1 else 0
  }

  /** Failed logins in the closed interval of length `window` that starts at `lo`. */
  function FailuresWithin(pol: Policy, rows: seq<Attempt>, ip: Ip, lo: int): nat {
    CountBetween(rows, ip, lo, lo + WindowMs(pol), FAILURES)
  }

  ghost predicate NoSuccess(rows: seq<Attempt>, ip: Ip, lo: int, hi: int) {
    forall i :: 0 <= i < |rows| && rows[i].ip == ip && lo <= rows[i].at <= hi ==> rows[i].reason != Ok
  }

  ghost predicate NoSuccessSince(rows: seq<Attempt>, ip: Ip, lo: int) {
    forall i :: 0 <= i < |rows| && rows[i].ip == ip && lo <= rows[i].at ==> rows[i].reason != Ok
  }

  lemma {:induction false} CountAppend(rows: seq<Attempt>, r: Attempt, ip: Ip, lo: int, hi: int, reasons: set<Reason>)
    ensures CountBetween(rows + [r], ip, lo, hi, reasons)
         == CountBetween(rows, ip, lo, hi, reasons)
            + if r.ip == ip && lo <= r.at <= hi && r.reason in reasons then 1 else 0
  {
    assert (rows + [r])[..|rows|] == rows;
  }

  lemma {:induction false} CountNested(rows: seq<Attempt>, ip: Ip, since: int, lo: int, hi: int)
    requires since <= lo
    ensures CountBetween(rows, ip, lo, hi, FAILURES) <= CountSince(rows, ip, since, GUESSES)
  {
    if rows != [] { CountNested(rows[..|rows| - 1], ip, since, lo, hi); }
  }

  lemma {:induction false} CountZero(rows: seq<Attempt>, ip: Ip, lo: int, hi: int, reasons: set<Reason>)
    requires forall i :: 0 <= i < |rows| && rows[i].ip == ip && lo <= rows[i].at <= hi ==> rows[i].reason !in reasons
    ensures CountBetween(rows, ip, lo, hi, reasons) == 0
  {
    if rows != [] { CountZero(rows[..|rows| - 1], ip, lo, hi, reasons); }
  }

  lemma {:induction false} LastSuccessIsSome(rows: seq<Attempt>, ip: Ip)
    ensures LastSuccess(rows, ip).Some? ==>
              exists i :: 0 <= i < |rows| && rows[i].ip == ip && rows[i].reason == Ok
                          && rows[i].at == LastSuccess(rows, ip).value
  {
    if rows != [] {
      var init := rows[..|rows| - 1];
      LastSuccessIsSome(init, ip);
      var r := rows[|rows| - 1];
      assert rows[|rows| - 1] == r;
      if LastSuccess(init, ip).Some? {
        var i :| 0 <= i < |init| && init[i].ip == ip && init[i].reason == Ok && init[i].at == LastSuccess(init, ip).value;
        assert rows[i] == init[i];
      }
    }
  }

  lemma {:induction false} LockMsGrows(pol: Policy, strikes: int)
    requires strikes >= 1
    ensures LockMs(pol, 1) <= LockMs(pol, strikes)
  {
    var base := BaseLockout(pol.lockout as int);
    DoubledMonotone(base, 0, strikes - 1);
    assert Doubled(base, 0) == base;
  }

  // ---------------------------------------------------------------- the invariant of one address

  ghost predicate RowsPast(rows: seq<Attempt>, now: int) {
    forall i :: 0 <= i < |rows| ==> rows[i].at <= now
  }

  /** The stored block is the last lockout of the history, at the length its place in the streak asks for. */
  ghost predicate BlockMatches(pol: Policy, t: Tables, h: seq<Entry>, ip: Ip, now: int) {
    && (ip in t.blocks <==> h != [] && h[|h| - 1].Opened?)
    && (ip in t.blocks ==>
          var b := t.blocks[ip];
          && h[|h| - 1] == Opened(b.updatedAt, b.until)
          && b.strikes == Streak(h)
          && b.updatedAt <= now)
  }

  ghost predicate Escalates(pol: Policy, h: seq<Entry>) {
    h == [] ||
    (var e := h[|h| - 1];
     Escalates(pol, h[..|h| - 1]) && (e.Opened? ==> e.until == e.from + LockMs(pol, Streak(h))))
  }

  /** Lockouts do not overlap, and all but the current one are over. */
  ghost predicate Disjoint(h: seq<Entry>, now: int) {
    && (forall i, j :: 0 <= i < j < |h| && h[i].Opened? && h[j].Opened? ==> h[i].until <= h[j].from)
    && (forall i :: 0 <= i < |h| - 1 && h[i].Opened? ==> h[i].until <= now)
  }

  /** At most one `locked` row per lockout, and none later than the block that caused it. */
  ghost predicate Audited(t: Tables, h: seq<Entry>, ip: Ip, now: int) {
    && (forall i :: 0 <= i < |h| && h[i].Opened? ==>
          CountBetween(t.attempts, ip, h[i].from, h[i].until - 1, {Locked}) <= 1)
    && (forall i :: 0 <= i < |t.attempts| && t.attempts[i].ip == ip && t.attempts[i].reason == Locked ==>
          t.attempts[i].at < now || Blocked(t, ip, t.attempts[i].at))
  }

  /** A window's worth of unforgiven failures has always been answered by a lockout. */
  ghost predicate Answered(pol: Policy, t: Tables, ip: Ip) {
    forall lo :: FailuresWithin(pol, t.attempts, ip, lo) >= pol.maxAttempts && NoSuccessSince(t.attempts, ip, lo)
      ==> ip in t.blocks && t.blocks[ip].updatedAt >= lo
  }

  ghost predicate Bounded(pol: Policy, t: Tables, ip: Ip) {
    forall lo :: NoSuccess(t.attempts, ip, lo, lo + WindowMs(pol)) ==>
                   FailuresWithin(pol, t.attempts, ip, lo) <= pol.maxAttempts
  }

  ghost predicate Sound(pol: Policy, t: Tables, h: seq<Entry>, ip: Ip, now: int) {
    && RowsPast(t.attempts, now)
    && BlockMatches(pol, t, h, ip, now)
    && Escalates(pol, h)
    && Disjoint(h, now)
    && Audited(t, h, ip, now)
  }

  // ---------------------------------------------------------------- one step keeps it

  lemma {:induction false} SoundLater(pol: Policy, t: Tables, h: seq<Entry>, ip: Ip, was: int, now: int)
    requires Sound(pol, t, h, ip, was) && was <= now
    ensures Sound(pol, t, h, ip, now)
  {
  }

  lemma {:induction false} RowElsewhere(t: Tables, h: seq<Entry>, r: Attempt, ip: Ip, pol: Policy, was: int)
    requires Sound(pol, t, h, ip, was) && was <= r.at
    requires r.ip != ip || r.reason != Locked
    ensures Sound(pol, t.(attempts := t.attempts + [r]), h, ip, r.at)
  {
    forall i | 0 <= i < |h| && h[i].Opened?
      ensures CountBetween(t.attempts + [r], ip, h[i].from, h[i].until - 1, {Locked}) <= 1
    {
      CountAppend(t.attempts, r, ip, h[i].from, h[i].until - 1, {Locked});
    }
  }

  /** The audit row of a refused login falls into the current lockout only, and is its first. */
  lemma {:induction false} AuditRowKeeps(t: Tables, h: seq<Entry>, ip: Ip, now: int)
    requires Audited(t, h, ip, now) && RowsPast(t.attempts, now) && Blocked(t, ip, now)
    requires h != [] && h[|h| - 1] == Opened(t.blocks[ip].updatedAt, t.blocks[ip].until)
    requires forall i :: 0 <= i < |h| - 1 && h[i].Opened? ==> h[i].until <= now
    requires !AuditedSince(t.attempts, ip, t.blocks[ip].updatedAt)
    ensures Audited(Record(t, now, ip, Locked), h, ip, now)
  {
    var r := Attempt(now, ip, Locked);
    CountZero(t.attempts, ip, t.blocks[ip].updatedAt, t.blocks[ip].until - 1, {Locked});
    forall i | 0 <= i < |h| && h[i].Opened?
      ensures CountBetween(t.attempts + [r], ip, h[i].from, h[i].until - 1, {Locked}) <= 1
    {
      CountAppend(t.attempts, r, ip, h[i].from, h[i].until - 1, {Locked});
    }
  }

  lemma {:induction false} RefusalKeeps(pol: Policy, t: Tables, h: seq<Entry>, ip: Ip, was: int, now: int)
    requires Sound(pol, t, h, ip, was) && was <= now && Blocked(t, ip, now)
    ensures Sound(pol, Refused(t, now, ip, AuditedSince(t.attempts, ip, t.blocks[ip].updatedAt)), h, ip, now)
  {
    SoundLater(pol, t, h, ip, was, now);
    if !AuditedSince(t.attempts, ip, t.blocks[ip].updatedAt) {
      AuditRowKeeps(t, h, ip, now);
    }
  }

  /** Appending one entry to a history at `now`, when every earlier lockout is over. */
  lemma {:induction false} EntryKeeps(pol: Policy, h: seq<Entry>, e: Entry, was: int, now: int)
    requires Escalates(pol, h) && Disjoint(h, was) && was <= now
    requires h != [] && h[|h| - 1].Opened? ==> h[|h| - 1].until <= now
    requires e.Opened? ==> e.from == now && e.until == now + LockMs(pol, Streak(h) + 1)
    ensures Escalates(pol, h + [e]) && Disjoint(h + [e], now)
    ensures Streak(h + [e]) == if e.Opened? then Streak(h) + 1 else 0
  {
    assert (h + [e])[..|h|] == h;
  }

  /** Once the old block is over, a change of block leaves every audit row behind it. */
  lemma {:induction false} AuditKeeps(t: Tables, u: Tables, h: seq<Entry>, e: Entry, ip: Ip, now: int)
    requires Audited(t, h, ip, now) && u.attempts == t.attempts && !Blocked(t, ip, now)
    requires RowsPast(t.attempts, now) && (e.Opened? ==> e.from == now)
    ensures Audited(u, h + [e], ip, now)
  {
    if e.Opened? {
      CountZero(t.attempts, ip, e.from, e.until - 1, {Locked});
    }
  }

  lemma {:induction false} StreakOf(h: seq<Entry>)
    ensures Streak(h) > 0 <==> h != [] && h[|h| - 1].Opened?
  {
  }

  function OpenedAt(pol: Policy, t: Tables, ip: Ip, now: int): Entry {
    Opened(now, now + LockMs(pol, Strikes(t, ip) + 1))
  }

  function BlockPut(pol: Policy, t: Tables, ip: Ip, now: int): Tables {
    t.(blocks := t.blocks[ip := Block(OpenedAt(pol, t, ip, now).until, Strikes(t, ip) + 1, now)])
  }

  lemma {:induction false} BlockSet(pol: Policy, t: Tables, h: seq<Entry>, ip: Ip, now: int)
    requires Sound(pol, t, h, ip, now) && !Blocked(t, ip, now)
    ensures Sound(pol, BlockPut(pol, t, ip, now), h + [OpenedAt(pol, t, ip, now)], ip, now)
  {
    StreakOf(h);
    var e := OpenedAt(pol, t, ip, now);
    EntryKeeps(pol, h, e, now, now);
    AuditKeeps(t, BlockPut(pol, t, ip, now), h, e, ip, now);
  }

  lemma {:induction false} SuccessKeeps(pol: Policy, t: Tables, h: seq<Entry>, ip: Ip, was: int, now: int)
    requires Sound(pol, t, h, ip, was) && was <= now && !Blocked(t, ip, now)
    ensures Sound(pol, Succeed(t, now, ip), h + [Cleared(now)], ip, now)
  {
    RowElsewhere(t, h, Attempt(now, ip, Ok), ip, pol, was);
    EntryKeeps(pol, h, Cleared(now), was, now);
    AuditKeeps(Record(t, now, ip, Ok), Succeed(t, now, ip), h, Cleared(now), ip, now);
  }

  lemma {:induction false} ChangeOfFailure(pol: Policy, t: Tables, ip: Ip, e: Event, reason: Reason)
    requires e.Login? && e.ip == ip && !Blocked(t, ip, e.at) && e.verdict != Correct
    requires reason == if e.verdict == Wrong then BadPassword else NoAccount
    ensures var u := Record(t, e.at, ip, reason);
            if Exhausts(pol, u, ip, e.at)
            then Step(pol, t, e) == BlockPut(pol, u, ip, e.at) && Change(pol, t, e, ip) == [OpenedAt(pol, u, ip, e.at)]
            else Step(pol, t, e) == u && Change(pol, t, e, ip) == []
  {
  }

  lemma {:induction false} LoginKeeps(pol: Policy, t: Tables, h: seq<Entry>, ip: Ip, was: int, e: Event)
    requires Sound(pol, t, h, ip, was) && was <= e.at && e.Login? && e.ip == ip && !Blocked(t, ip, e.at)
    ensures Sound(pol, Step(pol, t, e), h + Change(pol, t, e, ip), ip, e.at)
  {
    assert h + [] == h;
    if e.verdict == Correct {
      SuccessKeeps(pol, t, h, ip, was, e.at);
    } else {
      var reason := if e.verdict == Wrong then BadPassword else NoAccount;
      RowElsewhere(t, h, Attempt(e.at, ip, reason), ip, pol, was);
      BlockSet(pol, Record(t, e.at, ip, reason), h, ip, e.at);
      ChangeOfFailure(pol, t, ip, e, reason);
    }
  }

  lemma {:induction false} StepKeeps(pol: Policy, t: Tables, h: seq<Entry>, ip: Ip, was: int, e: Event)
    requires Sound(pol, t, h, ip, was) && was <= e.at
    ensures Sound(pol, Step(pol, t, e), h + Change(pol, t, e, ip), ip, e.at)
  {
    if e.Login? && e.ip == ip && !Blocked(t, ip, e.at) {
      LoginKeeps(pol, t, h, ip, was, e);
    } else {
      assert h + [] == h;
      if e.Login? && e.ip == ip {
        RefusalKeeps(pol, t, h, ip, was, e.at);
      } else if e.Login? {
        OtherAddressKeeps(pol, t, h, ip, was, e);
      } else {
        RowElsewhere(t, h, Attempt(e.at, e.ip, if e.ClaimedHost? then Ok else BadSetupToken), ip, pol, was);
      }
    }
  }

  /** An event from one address adds at most one row of its own and leaves every other address's block alone. */
  lemma {:induction false} ForeignStep(pol: Policy, t: Tables, e: Event, ip: Ip) returns (r: Attempt)
    requires e.ip != ip
    ensures var u := Step(pol, t, e);
            && r.ip == e.ip && r.at == e.at
            && (u.attempts == t.attempts || u.attempts == t.attempts + [r])
            && (ip in u.blocks <==> ip in t.blocks)
            && (ip in t.blocks ==> u.blocks[ip] == t.blocks[ip])
  {
    if e.RefusedSetupToken? {
      r := Attempt(e.at, e.ip, BadSetupToken);
    } else if e.ClaimedHost? {
      r := Attempt(e.at, e.ip, Ok);
    } else if Blocked(t, e.ip, e.at) {
      r := Attempt(e.at, e.ip, Locked);
    } else {
      r := Attempt(e.at, e.ip, match e.verdict case Correct => Ok case Wrong => BadPassword case Unclaimed => NoAccount);
    }
  }

  lemma {:induction false} OtherAddressKeeps(pol: Policy, t: Tables, h: seq<Entry>, ip: Ip, was: int, e: Event)
    requires Sound(pol, t, h, ip, was) && was <= e.at && e.ip != ip
    ensures Sound(pol, Step(pol, t, e), h, ip, e.at)
  {
    var r := ForeignStep(pol, t, e, ip);
    SoundLater(pol, t, h, ip, was, e.at);
    RowElsewhere(t, h, r, ip, pol, was);
  }

  lemma {:induction false} RunIsSound(pol: Policy, evs: seq<Event>, ip: Ip, now: int)
    requires Chronological(evs) && (evs != [] ==> evs[|evs| - 1].at <= now)
    ensures Sound(pol, Run(pol, evs), History(pol, evs, ip), ip, now)
  {
    if evs != [] {
      var before, e := evs[..|evs| - 1], evs[|evs| - 1];
      RunIsSound(pol, before, ip, e.at);
      StepKeeps(pol, Run(pol, before), History(pol, before, ip), ip, e.at, e);
      SoundLater(pol, Run(pol, evs), History(pol, evs, ip), ip, e.at, now);
    }
  }

  // ---------------------------------------------------------------- escalation and audit

  lemma {:induction false} EscalatesAt(pol: Policy, h: seq<Entry>, i: nat)
    requires Escalates(pol, h) && i < |h| && h[i].Opened?
    ensures h[i].until == h[i].from + LockMs(pol, Streak(h[..i + 1]))
    decreases |h|
  {
    if i == |h| - 1 {
      assert h[..i + 1] == h;
    } else {
      EscalatesAt(pol, h[..|h| - 1], i);
      assert h[..|h| - 1][..i + 1] == h[..i + 1];
    }
  }

  ghost predicate EscalatedByStreak(pol: Policy, h: seq<Entry>) {
    forall i :: 0 <= i < |h| && h[i].Opened? ==> h[i].until - h[i].from == LockMs(pol, Streak(h[..i + 1]))
  }

  ghost predicate OneAfterAnother(h: seq<Entry>) {
    forall i, j :: 0 <= i < j < |h| && h[i].Opened? && h[j].Opened? ==> h[i].until <= h[j].from
  }

  ghost predicate AuditedOnce(rows: seq<Attempt>, h: seq<Entry>, ip: Ip) {
    forall i :: 0 <= i < |h| && h[i].Opened? ==> CountBetween(rows, ip, h[i].from, h[i].until - 1, {Locked}) <= 1
  }

  lemma {:induction false} SoundHistory(pol: Policy, t: Tables, h: seq<Entry>, ip: Ip, now: int)
    requires Sound(pol, t, h, ip, now)
    ensures EscalatedByStreak(pol, h) && OneAfterAnother(h) && AuditedOnce(t.attempts, h, ip)
  {
    forall i | 0 <= i < |h| && h[i].Opened?
      ensures h[i].until - h[i].from == LockMs(pol, Streak(h[..i + 1]))
    {
      EscalatesAt(pol, h, i);
    }
  }

  /**
   In every run, the k-th lockout since an address last logged in has exactly the k-th escalated length,
   no lockout starts before the one before it ends, and each leaves at most one `locked` row behind it.
   */
  lemma {:induction false} LockoutsEscalate(pol: Policy, evs: seq<Event>, ip: Ip)
    requires Chronological(evs)
    ensures var h := History(pol, evs, ip);
            EscalatedByStreak(pol, h) && OneAfterAnother(h) && AuditedOnce(Run(pol, evs).attempts, h, ip)
  {
    var now := if evs == [] then 0 else evs[|evs| - 1].at;
    RunIsSound(pol, evs, ip, now);
    SoundHistory(pol, Run(pol, evs), History(pol, evs, ip), ip, now);
  }

  /**
   The length of a lockout under a base of whole seconds: the first is the base, or 15 minutes if none is set, and each
   next one twice as long, none longer than a day. Window and lockouts are told in whole milliseconds.
   */
  lemma {:induction false} LockLengthInMs(pol: Policy, seconds: int, k: nat)
    requires pol.lockout as int == seconds * 1_000_000_000 && k >= 1
    ensures var first := if seconds <= 0 then 900_000 else seconds * 1000;
      && LockMs(pol, 1) == (if first <= 86_400_000 then first else 86_400_000)
      && LockMs(pol, k + 1) == (if 2 * LockMs(pol, k) <= 86_400_000 then 2 * LockMs(pol, k) else 86_400_000)
  {
    var first := if seconds <= 0 then 900_000 else seconds * 1000;
    LengthIs(pol, first, k);
    LengthIs(pol, first, 1);
    LengthIs(pol, first, k + 1);
    assert Doubled(first, 0) == first;
  }

  lemma {:induction false} LengthIs(pol: Policy, first: int, k: nat)
    requires BaseLockout(pol.lockout as int) == first * 1_000_000 && first > 0 && k >= 1
    ensures LockMs(pol, k) == Min(Doubled(first, k - 1), 86_400_000) && Doubled(first, k - 1) > 0
  {
    DoubledScales(first, 1_000_000, k - 1);
    DoubledMonotone(first, 0, k - 1);
  }

  /** The window in milliseconds, cut off toward zero. */
  lemma {:induction false} WindowInMs(pol: Policy)
    ensures pol.window >= 0 ==> WindowMs(pol) * 1_000_000 <= pol.window as int < (WindowMs(pol) + 1) * 1_000_000
    ensures pol.window <= 0 ==> (WindowMs(pol) - 1) * 1_000_000 < pol.window as int <= WindowMs(pol) * 1_000_000
  {
  }

  /** An address is refused exactly while the last thing in its history is a lockout that has not ended. */
  lemma {:induction false} RefusedExactly(pol: Policy, evs: seq<Event>, ip: Ip, now: int)
    requires Chronological(evs) && (evs != [] ==> evs[|evs| - 1].at <= now)
    ensures var h := History(pol, evs, ip);
      Blocked(Run(pol, evs), ip, now) <==> h != [] && h[|h| - 1].Opened? && now < h[|h| - 1].until
  {
    RunIsSound(pol, evs, ip, now);
  }

  lemma {:induction false} DoubledScales(d: int, factor: int, n: nat)
    ensures Doubled(d * factor, n) == Doubled(d, n) * factor
  {
    if n > 0 {
      DoubledScales(d, factor, n - 1);
      assert 2 * (Doubled(d, n - 1) * factor) == (2 * Doubled(d, n - 1)) * factor;
    }
  }

  // ---------------------------------------------------------------- the sliding window

  ghost predicate BlockLongEnough(pol: Policy, t: Tables, ip: Ip) {
    ip in t.blocks ==> t.blocks[ip].until >= t.blocks[ip].updatedAt + LockMs(pol, 1)
  }

  lemma {:induction false} SoundBlockLongEnough(pol: Policy, t: Tables, h: seq<Entry>, ip: Ip, now: int)
    requires Sound(pol, t, h, ip, now)
    ensures BlockLongEnough(pol, t, ip)
  {
    if ip in t.blocks {
      LockMsGrows(pol, Streak(h));
    }
  }

  /** An address that is let through still has a failure left in every window that reaches `now`. */
  lemma {:induction false} UnblockedHasBudget(pol: Policy, t: Tables, ip: Ip, lo: int, now: int)
    requires RowsPast(t.attempts, now) && BlockLongEnough(pol, t, ip) && Answered(pol, t, ip)
    requires WindowMs(pol) < LockMs(pol, 1) && lo <= now <= lo + WindowMs(pol)
    requires NoSuccess(t.attempts, ip, lo, lo + WindowMs(pol)) && !Blocked(t, ip, now)
    ensures FailuresWithin(pol, t.attempts, ip, lo) < pol.maxAttempts
  {
    assert NoSuccessSince(t.attempts, ip, lo);
  }

  lemma {:induction false} FailureStaysBounded(pol: Policy, t: Tables, ip: Ip, now: int, reason: Reason)
    requires RowsPast(t.attempts, now) && BlockLongEnough(pol, t, ip) && !Blocked(t, ip, now) && reason in FAILURES
    requires 0 < pol.maxAttempts && WindowMs(pol) < LockMs(pol, 1)
    requires Answered(pol, t, ip) && Bounded(pol, t, ip)
    ensures Bounded(pol, Record(t, now, ip, reason), ip)
  {
    var r := Attempt(now, ip, reason);
    var rows := t.attempts + [r];
    assert forall i :: 0 <= i < |t.attempts| ==> rows[i] == t.attempts[i];
    forall lo | NoSuccess(rows, ip, lo, lo + WindowMs(pol))
      ensures FailuresWithin(pol, rows, ip, lo) <= pol.maxAttempts
    {
      CountAppend(t.attempts, r, ip, lo, lo + WindowMs(pol), FAILURES);
      assert NoSuccess(t.attempts, ip, lo, lo + WindowMs(pol));
      assert FailuresWithin(pol, t.attempts, ip, lo) <= pol.maxAttempts;
      if lo <= now <= lo + WindowMs(pol) {
        UnblockedHasBudget(pol, t, ip, lo, now);
      }
    }
  }

  lemma {:induction false} FailuresReach(rows: seq<Attempt>, ip: Ip, now: int, lo: int, hi: int)
    requires RowsPast(rows, now) && CountBetween(rows, ip, lo, hi, FAILURES) > 0
    ensures lo <= now
  {
    if now < lo { CountZero(rows, ip, lo, hi, FAILURES); }
  }

  /** A failure that fills a window since `lo` finds the budget spent, unless a lockout since `lo` already did. */
  lemma {:induction false} FailureIsAnswered(pol: Policy, t: Tables, ip: Ip, now: int, reason: Reason, lo: int)
    requires RowsPast(t.attempts, now) && reason in FAILURES && 0 < pol.maxAttempts
    requires Answered(pol, t, ip)
    requires var rows := Record(t, now, ip, reason).attempts;
             FailuresWithin(pol, rows, ip, lo) >= pol.maxAttempts && NoSuccessSince(rows, ip, lo)
    ensures var u := Fail(pol, t, now, ip, reason).0; ip in u.blocks && u.blocks[ip].updatedAt >= lo
  {
    var r := Attempt(now, ip, reason);
    var rows := t.attempts + [r];
    var recorded := Record(t, now, ip, reason);
    assert rows == recorded.attempts;
    assert forall i :: 0 <= i < |t.attempts| ==> rows[i] == t.attempts[i];
    assert NoSuccessSince(t.attempts, ip, lo);
    CountAppend(t.attempts, r, ip, lo, lo + WindowMs(pol), FAILURES);
    FailuresReach(rows, ip, now, lo, lo + WindowMs(pol));
    if ip !in t.blocks || t.blocks[ip].updatedAt < lo {
      assert FailuresWithin(pol, t.attempts, ip, lo) < pol.maxAttempts;
      assert lo <= now <= lo + WindowMs(pol);
      LastSuccessIsSome(rows, ip);
      var start := BudgetStart(pol, recorded, ip, now);
      assert start <= lo;
      CountNested(rows, ip, start, lo, lo + WindowMs(pol));
      assert Exhausts(pol, recorded, ip, now);
    }
  }

  lemma {:induction false} SameFailures(pol: Policy, rows: seq<Attempt>, r: Attempt, ip: Ip, lo: int)
    requires r.ip == ip ==> r.reason !in FAILURES
    ensures FailuresWithin(pol, rows + [r], ip, lo) == FailuresWithin(pol, rows, ip, lo)
    ensures NoSuccess(rows + [r], ip, lo, lo + WindowMs(pol)) ==> NoSuccess(rows, ip, lo, lo + WindowMs(pol))
    ensures NoSuccessSince(rows + [r], ip, lo) ==>
              NoSuccessSince(rows, ip, lo) && (r.ip == ip && r.reason == Ok ==> r.at < lo)
  {
    CountAppend(rows, r, ip, lo, lo + WindowMs(pol), FAILURES);
    assert forall i :: 0 <= i < |rows| ==> (rows + [r])[i] == rows[i];
    assert (rows + [r])[|rows|] == r;
  }

  /** Rows that are no failed login of `ip`, and a block that stays or goes with a success. */
  lemma {:induction false} OtherRowStaysBounded(pol: Policy, t: Tables, u: Tables, r: Attempt, ip: Ip)
    requires RowsPast(t.attempts, r.at) && 0 < pol.maxAttempts
    requires Answered(pol, t, ip) && Bounded(pol, t, ip)
    requires u.attempts == t.attempts + [r] && (r.ip == ip ==> r.reason !in FAILURES)
    requires (r.ip == ip && r.reason == Ok)
             || ((ip in u.blocks <==> ip in t.blocks) && (ip in t.blocks ==> u.blocks[ip] == t.blocks[ip]))
    ensures Answered(pol, u, ip) && Bounded(pol, u, ip)
  {
    forall lo | FailuresWithin(pol, u.attempts, ip, lo) >= pol.maxAttempts && NoSuccessSince(u.attempts, ip, lo)
      ensures ip in u.blocks && u.blocks[ip].updatedAt >= lo
    {
      SameFailures(pol, t.attempts, r, ip, lo);
      if r.ip == ip && r.reason == Ok {
        CountZero(t.attempts, ip, lo, lo + WindowMs(pol), FAILURES);
      }
    }
    forall lo | NoSuccess(u.attempts, ip, lo, lo + WindowMs(pol))
      ensures FailuresWithin(pol, u.attempts, ip, lo) <= pol.maxAttempts
    {
      SameFailures(pol, t.attempts, r, ip, lo);
    }
  }

  lemma {:induction false} StepStaysBounded(pol: Policy, t: Tables, ip: Ip, e: Event)
    requires RowsPast(t.attempts, e.at) && BlockLongEnough(pol, t, ip)
    requires 0 < pol.maxAttempts && WindowMs(pol) < LockMs(pol, 1)
    requires Answered(pol, t, ip) && Bounded(pol, t, ip)
    ensures var u := Step(pol, t, e); Answered(pol, u, ip) && Bounded(pol, u, ip)
  {
    var u := Step(pol, t, e);
    if !e.Login? {
      OtherRowStaysBounded(pol, t, u, Attempt(e.at, e.ip, if e.ClaimedHost? then Ok else BadSetupToken), ip);
    } else if Blocked(t, e.ip, e.at) {
      if u != t {
        OtherRowStaysBounded(pol, t, u, Attempt(e.at, e.ip, Locked), ip);
      }
    } else if e.verdict == Correct {
      OtherRowStaysBounded(pol, t, u, Attempt(e.at, e.ip, Ok), ip);
    } else {
      var reason := if e.verdict == Wrong then BadPassword else NoAccount;
      if e.ip == ip {
        FailureStaysBounded(pol, t, ip, e.at, reason);
        forall lo | FailuresWithin(pol, u.attempts, ip, lo) >= pol.maxAttempts && NoSuccessSince(u.attempts, ip, lo)
          ensures ip in u.blocks && u.blocks[ip].updatedAt >= lo
        {
          FailureIsAnswered(pol, t, ip, e.at, reason, lo);
        }
      } else {
        OtherRowStaysBounded(pol, t, u, Attempt(e.at, e.ip, reason), ip);
      }
    }
  }

  lemma {:induction false} RunStaysBounded(pol: Policy, evs: seq<Event>, ip: Ip)
    requires Chronological(evs)
    requires 0 < pol.maxAttempts && WindowMs(pol) < LockMs(pol, 1)
    ensures var t := Run(pol, evs); Answered(pol, t, ip) && Bounded(pol, t, ip)
  {
    if evs == [] {
      assert forall lo :: FailuresWithin(pol, [], ip, lo) == 0;
    } else {
      var before, e := evs[..|evs| - 1], evs[|evs| - 1];
      RunStaysBounded(pol, before, ip);
      RunIsSound(pol, before, ip, e.at);
      SoundBlockLongEnough(pol, Run(pol, before), History(pol, before, ip), ip, e.at);
      StepStaysBounded(pol, Run(pol, before), ip, e);
    }
  }

  /** Any closed interval of length `window` without a success holds at most `maxAttempts` failed logins. */
  ghost predicate WindowBound(pol: Policy) {
    forall evs: seq<Event>, ip: Ip, lo: int {:trigger FailuresWithin(pol, Run(pol, evs).attempts, ip, lo)} ::
      Chronological(evs) && NoSuccess(Run(pol, evs).attempts, ip, lo, lo + WindowMs(pol)) ==>
        FailuresWithin(pol, Run(pol, evs).attempts, ip, lo) <= pol.maxAttempts
  }

  function Burst(ip: Ip, n: nat): (evs: seq<Event>)
    ensures |evs| == n && forall i :: 0 <= i < n ==> evs[i] == Login(0, ip, Wrong)
  {
    if n == 0 then [] else Burst(ip, n - 1) + [Login(0, ip, Wrong)]
  }

  function BurstRows(ip: Ip, n: nat): (rows: seq<Attempt>)
    ensures |rows| == n && forall i :: 0 <= i < n ==> rows[i] == Attempt(0, ip, BadPassword)
  {
    if n == 0 then [] else BurstRows(ip, n - 1) + [Attempt(0, ip, BadPassword)]
  }

  lemma {:induction false} BurstRowsCount(ip: Ip, n: nat, lo: int, hi: int)
    requires lo <= 0 <= hi
    ensures CountSince(BurstRows(ip, n), ip, lo, GUESSES) == n
    ensures CountBetween(BurstRows(ip, n), ip, lo, hi, FAILURES) == n
  {
    if n > 0 {
      BurstRowsCount(ip, n - 1, lo, hi);
      assert BurstRows(ip, n)[..n - 1] == BurstRows(ip, n - 1);
    }
  }

  function BurstTables(pol: Policy, ip: Ip, n: nat): Tables {
    Tables(BurstRows(ip, n), if 0 < n == pol.maxAttempts then map[ip := Block(LockMs(pol, 1), 1, 0)] else map[])
  }

  lemma {:induction false} BurstFail(pol: Policy, ip: Ip, n: nat)
    requires n < pol.maxAttempts && 0 <= WindowMs(pol)
    ensures Step(pol, BurstTables(pol, ip, n), Login(0, ip, Wrong)) == BurstTables(pol, ip, n + 1)
  {
    BurstRowsCount(ip, n + 1, -WindowMs(pol), 0);
    LastSuccessIsSome(BurstRows(ip, n + 1), ip);
  }

  lemma {:induction false} BurstRun(pol: Policy, ip: Ip, n: nat)
    requires n <= pol.maxAttempts && 0 <= WindowMs(pol)
    ensures Run(pol, Burst(ip, n)) == BurstTables(pol, ip, n)
  {
    if n > 0 {
      BurstRun(pol, ip, n - 1);
      BurstFail(pol, ip, n - 1);
      var evs := Burst(ip, n);
      assert evs[..|evs| - 1] == Burst(ip, n - 1) && evs[|evs| - 1] == Login(0, ip, Wrong);
    }
  }

  lemma {:induction false} FailureAfterBlock(pol: Policy, t: Tables, ip: Ip, now: int)
    requires !Blocked(t, ip, now)
    ensures Step(pol, t, Login(now, ip, Wrong)).attempts == t.attempts + [Attempt(now, ip, BadPassword)]
  {
  }

  lemma {:induction false} BurstAndOneMore(pol: Policy, rows: seq<Attempt>, ip: Ip, m: nat)
    requires rows == BurstRows(ip, m) && LockMs(pol, 1) <= WindowMs(pol)
    ensures FailuresWithin(pol, rows + [Attempt(LockMs(pol, 1), ip, BadPassword)], ip, 0) == m + 1
  {
    BurstRowsCount(ip, m, 0, WindowMs(pol));
    CountAppend(rows, Attempt(LockMs(pol, 1), ip, BadPassword), ip, 0, WindowMs(pol), FAILURES);
  }

  /** A policy whose first lockout fits in its window lets a burst, and one more failure when the block ends, through. */
  lemma {:induction false} WindowBoundBroken(pol: Policy, ip: Ip, evs: seq<Event>)
    requires 0 < pol.maxAttempts && LockMs(pol, 1) <= WindowMs(pol)
    requires evs == Burst(ip, pol.maxAttempts) + [Login(LockMs(pol, 1), ip, Wrong)]
    ensures Chronological(evs)
    ensures NoSuccess(Run(pol, evs).attempts, ip, 0, 0 + WindowMs(pol))
    ensures FailuresWithin(pol, Run(pol, evs).attempts, ip, 0) == pol.maxAttempts + 1
  {
    var m := pol.maxAttempts;
    assert evs[..|evs| - 1] == Burst(ip, m);
    BurstRun(pol, ip, m);
    FailureAfterBlock(pol, Run(pol, Burst(ip, m)), ip, LockMs(pol, 1));
    BurstAndOneMore(pol, BurstRows(ip, m), ip, m);
  }

  /** The bound holds in every run of a policy exactly when the window is shorter than the first lockout. */
  lemma {:induction false} WindowBoundExactly(pol: Policy)
    requires 0 < pol.maxAttempts
    ensures WindowBound(pol) <==> WindowMs(pol) < LockMs(pol, 1)
  {
    if WindowMs(pol) < LockMs(pol, 1) {
      forall evs: seq<Event>, ip: Ip, lo: int
        | Chronological(evs) && NoSuccess(Run(pol, evs).attempts, ip, lo, lo + WindowMs(pol))
        ensures FailuresWithin(pol, Run(pol, evs).attempts, ip, lo) <= pol.maxAttempts
      {
        RunStaysBounded(pol, evs, ip);
      }
    } else {
      var ip := "10.0.0.7";
      WindowBoundBroken(pol, ip, Burst(ip, pol.maxAttempts) + [Login(LockMs(pol, 1), ip, Wrong)]);
    }
  }
}
