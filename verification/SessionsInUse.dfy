/**
 A session in regular use: how far apart its requests may be.
 */
module SessionsInUse {
  import opened Options
  import opened Sessions

  function Used(pol: Policy, s: Session, now: int): Session {
    if TouchDue(pol, s, now) then s.(lastSeenAt := now) else s
  }

  predicate Resolves(pol: Policy, s: Session, now: int) { s.Live(now) && !Idle(pol, s, now) }

  /** `Resolves` and `Used` are what one request with a touch that gets written finds and leaves. */
  lemma {:induction false} UseIsARequest(
    hash: string -> string, pol: Policy, rows: Rows, id: string, secret: string, now: int)
    requires id != "" && secret != "" && '.' !in id && id in rows && hash(secret) == rows[id].tokenHash
    ensures Resolve(hash, pol, rows, ComposeCookie(id, secret), now) == Some(id) <==> Resolves(pol, rows[id], now)
    ensures Resolves(pol, rows[id], now) ==>
              (if TouchDue(pol, rows[id], now) then Touch(rows, id, now) else rows) == rows[id := Used(pol, rows[id], now)]
    ensures forall pending, minted ::
      var w := World(rows, pending, minted, now);
      Apply(hash, pol, w, Request(ComposeCookie(id, secret)))
        == if Resolves(pol, rows[id], now) && rows[id].lastSeenAt + pol.touch <= now
           then w.(pending := pending + multiset{Pending(id, now)}) else w
  {
    CookieRoundTrip(id, secret);
  }

  /** Every one of `times` finds the session valid, each use touching the row when that is due. */
  predicate AllResolve(pol: Policy, s: Session, times: seq<int>)
    decreases |times|
  {
    times == [] || (Resolves(pol, s, times[0]) && AllResolve(pol, Used(pol, s, times[0]), times[1..]))
  }

  /** The touches that so many uses write. */
  function Touches(pol: Policy, s: Session, times: seq<int>): nat
    decreases |times|
  {
    if times == [] then 0
    else (if Used(pol, s, times[0]) != s then 1 else 0) + Touches(pol, Used(pol, s, times[0]), times[1..])
  }

  predicate Ordered(times: seq<int>, from: int) { times == [] || (from <= times[0] && Ordered(times[1..], times[0])) }

  /** However often a session is used, its row is written no more than once per touch interval. */
  lemma {:induction false} TouchesAreRare(pol: Policy, s: Session, times: seq<int>, from: int)
    requires pol.touch >= 0 && s.lastSeenAt <= from && Ordered(times, from)
    ensures times != [] ==> Touches(pol, s, times) * pol.touch <= times[|times| - 1] - s.lastSeenAt
    decreases |times|
  {
    if times != [] {
      TouchesAreRare(pol, Used(pol, s, times[0]), times[1..], times[0]);
    }
  }

  /** Uses in order from `from`, none more than `gap` after the one before and all before `end`. */
  predicate Regular(times: seq<int>, from: int, gap: int, end: int) {
    times == [] || (from <= times[0] <= from + gap && times[0] < end && Regular(times[1..], times[0], gap, end))
  }

  ghost predicate KeptAlive(pol: Policy, gap: int) {
    forall tokenHash: string, now: int, times: seq<int> ::
      Regular(times, now, gap, now + pol.ttl) ==> AllResolve(pol, Minted(pol, tokenHash, now), times)
  }

  function TouchLag(pol: Policy): int { if pol.touch < 1 then 1 else pol.touch }

  lemma {:induction false} RegularUseResolves(pol: Policy, s: Session, times: seq<int>, from: int, gap: int)
    requires 0 < pol.idle && gap <= pol.idle - TouchLag(pol)
    requires s.revokedAt.None? && from < s.lastSeenAt + TouchLag(pol) && s.lastSeenAt <= from
    requires Regular(times, from, gap, s.expiresAt)
    ensures AllResolve(pol, s, times)
    decreases |times|
  {
    if times != [] {
      RegularUseResolves(pol, Used(pol, s, times[0]), times[1..], times[0], gap);
    }
  }

  /** Uses one millisecond apart up to `n` after `from`, and one more at `last`. */
  function Taps(from: int, n: nat, last: int): seq<int>
    decreases n
  {
    if n == 0 then [last] else [from + 1] + Taps(from + 1, n - 1, last)
  }

  lemma {:induction false} TapsAreRegular(from: int, n: nat, last: int, gap: int, end: int)
    requires 1 <= gap && from + n < last <= from + n + gap && last < end
    ensures Regular(Taps(from, n, last), from, gap, end)
    decreases n
  {
    if n == 0 {
      assert Taps(from, n, last)[1..] == [];
    } else {
      TapsAreRegular(from + 1, n - 1, last, gap, end);
      assert Taps(from, n, last)[1..] == Taps(from + 1, n - 1, last);
    }
  }

  lemma {:induction false} TapsGoIdle(pol: Policy, s: Session, from: int, n: nat, last: int)
    requires s.lastSeenAt <= from && from + n < s.lastSeenAt + TouchLag(pol)
    requires 0 < pol.idle && last == s.lastSeenAt + pol.idle
    ensures !AllResolve(pol, s, Taps(from, n, last))
    decreases n
  {
    if n > 0 {
      var times := Taps(from, n, last);
      assert times[1..] == Taps(from + 1, n - 1, last);
      TapsGoIdle(pol, s, from + 1, n - 1, last);
    }
  }

  lemma {:induction false} LongIdleResolves(pol: Policy, s: Session, times: seq<int>, from: int, gap: int)
    requires pol.idle <= 0 || s.expiresAt <= s.lastSeenAt + pol.idle
    requires s.revokedAt.None? && s.lastSeenAt <= from
    ensures Regular(times, from, gap, s.expiresAt) ==> AllResolve(pol, s, times)
    decreases |times|
  {
    if times != [] && Regular(times, from, gap, s.expiresAt) {
      LongIdleResolves(pol, Used(pol, s, times[0]), times[1..], times[0], gap);
    }
  }

  /**
   A session stays alive until it expires exactly if there is no idle window that ends before it does, or its uses are
   no further apart than the idle window less the touch interval.
   */
  lemma {:induction false} KeptAliveExactly(pol: Policy, gap: int)
    requires 1 <= gap
    ensures KeptAlive(pol, gap) <==> pol.idle <= 0 || pol.ttl <= pol.idle || gap <= pol.idle - TouchLag(pol)
  {
    if pol.idle <= 0 || pol.ttl <= pol.idle || gap <= pol.idle - TouchLag(pol) {
      forall tokenHash: string, now: int, times: seq<int> | Regular(times, now, gap, now + pol.ttl)
        ensures AllResolve(pol, Minted(pol, tokenHash, now), times)
      {
        if pol.idle <= 0 || pol.ttl <= pol.idle {
          LongIdleResolves(pol, Minted(pol, tokenHash, now), times, now, gap);
        } else {
          RegularUseResolves(pol, Minted(pol, tokenHash, now), times, now, gap);
        }
      }
    } else {
      var n := if TouchLag(pol) <= pol.idle then TouchLag(pol) - 1 else pol.idle - 1;
      TapsAreRegular(0, n, pol.idle, gap, pol.ttl);
      TapsGoIdle(pol, Minted(pol, "", 0), 0, n, pol.idle);
    }
  }
}
