/**
 The lifetime of a session: absolute expiry, the idle window, the throttled touch and revocation,
 with touches of other requests still in flight. Instants and durations are milliseconds.
 */
module Sessions {
  import opened Options
  import opened Text

  datatype Session = Session(tokenHash: string, createdAt: int, lastSeenAt: int, expiresAt: int, revokedAt: Option<int>) {
    predicate Live(now: int) { revokedAt.None? && expiresAt > now }
  }

  datatype Policy = Policy(ttl: int, idle: int, touch: int)

  type Rows = map<string, Session>

  // ---------------------------------------------------------------- the cookie

  /** `<id>.<secret>`, cut at the first separator, with neither half empty. */
  function SplitCookie(v: string): Option<(string, string)> {
    match Cut(v, '.')
    case None => None
    case Some((id, secret)) => if id == "" || secret == "" then None else Some((id, secret))
  }

  function ComposeCookie(id: string, secret: string): string { id + "." + secret }

  /** The split gives the halves back exactly when both are there and the id has no separator in it. */
  lemma {:induction false} CookieRoundTrip(id: string, secret: string)
    ensures SplitCookie(ComposeCookie(id, secret)) == Some((id, secret))
       <==> id != "" && secret != "" && '.' !in id
  {
    if '.' !in id {
      CutFirst(id, '.', secret);
    } else {
      var v := ComposeCookie(id, secret);
      var j :| 0 <= j < |id| && id[j] == '.';
      assert v[j] == '.';
      assert IndexOf(v, '.') <= j;
    }
  }

  // ---------------------------------------------------------------- one request

  predicate Idle(pol: Policy, s: Session, now: int) { pol.idle > 0 && s.lastSeenAt + pol.idle <= now }

  /** The read half of `ResolveSession`: the id a cookie authenticates as, or nothing, whatever went wrong. */
  function Resolve(hash: string -> string, pol: Policy, rows: Rows, cookie: string, now: int): Option<string> {
    match SplitCookie(cookie)
    case None => None
    case Some((id, secret)) =>
      if id in rows && hash(secret) == rows[id].tokenHash && rows[id].Live(now) && !Idle(pol, rows[id], now)
      then Some(id) else None
  }

  predicate TouchDue(pol: Policy, s: Session, now: int) { now - s.lastSeenAt >= pol.touch }

  /** `TouchSession`: it never brings a revoked row back. */
  function Touch(rows: Rows, id: string, at: int): Rows {
    if id in rows && rows[id].revokedAt.None? then rows[id := rows[id].(lastSeenAt := at)] else rows
  }

  function Revoke(rows: Rows, id: string, at: int): Rows {
    if id in rows && rows[id].revokedAt.None? then rows[id := rows[id].(revokedAt := Some(at))] else rows
  }

  /** `RevokeSessionsExcept`: the whole of `ChangePassword`'s and, with no id, `ResetPassword`'s eviction. */
  function RevokeExcept(rows: Rows, keep: string, at: int): Rows {
    map id | id in rows ::
      if rows[id].revokedAt.None? && id != keep then rows[id].(revokedAt := Some(at)) else rows[id]
  }

  function Minted(pol: Policy, tokenHash: string, now: int): Session {
    Session(tokenHash, now, now, now + pol.ttl, None)
  }

  /** The session half of the service, over the table it writes. */
  class SessionService {
    var rows: Rows
    const hash: string -> string

    constructor (hash: string -> string)
      ensures rows == map[] && this.hash == hash
    {
      rows, this.hash := map[], hash;
    }

    /** `writable` says whether the touch reaches the database; a session it does not reach is still valid. */
    method ResolveSession(cookie: string, now: int, pol: Policy, writable: bool) returns (out: Option<Session>)
      modifies this
      ensures var id := Resolve(hash, pol, old(rows), cookie, now);
              && (out.Some? <==> id.Some?)
              && rows == (if id.Some? && writable && TouchDue(pol, old(rows)[id.value], now)
                          then Touch(old(rows), id.value, now) else old(rows))
              && (id.Some? ==> id.value in rows && out.value == rows[id.value])
      ensures var halves := SplitCookie(cookie);
        out.Some? <==>
          && halves.Some?
          && var (id, secret) := halves.value;
          && id in old(rows) && hash(secret) == old(rows)[id].tokenHash && old(rows)[id].revokedAt.None?
          && now < old(rows)[id].expiresAt && (pol.idle <= 0 || now < old(rows)[id].lastSeenAt + pol.idle)
    {
      if cookie == "" {
        return None;
      }
      var halves := SplitCookie(cookie);
      if halves.None? {
        return None;
      }
      var (id, secret) := halves.value;
      if id !in rows {
        return None;
      }
      var sess := rows[id];
      if hash(secret) != sess.tokenHash || !sess.Live(now) {
        return None;
      }
      if pol.idle > 0 && sess.lastSeenAt + pol.idle <= now {
        return None;
      }
      if now - sess.lastSeenAt >= pol.touch && writable {
        rows := Touch(rows, id, now);
        sess := sess.(lastSeenAt := now);
      }
      out := Some(sess);
    }

    method MintSession(id: string, secret: string, now: int, pol: Policy) returns (cookie: string)
      requires id !in rows
      modifies this
      ensures rows == old(rows)[id := Minted(pol, hash(secret), now)] && cookie == ComposeCookie(id, secret)
    {
      rows := rows[id := Session(hash(secret), now, now, now + pol.ttl, None)];
      cookie := ComposeCookie(id, secret);
    }

    method RevokeSession(id: string, now: int) returns (changed: bool)
      modifies this
      ensures rows == Revoke(old(rows), id, now) && (changed <==> rows != old(rows))
    {
      changed := id in rows && rows[id].revokedAt.None?;
      if changed {
        rows := rows[id := rows[id].(revokedAt := Some(now))];
      }
    }
  }

  // ---------------------------------------------------------------- requests in flight

  /** A touch decided on by a request and not yet written. */
  datatype Pending = Pending(id: string, at: int)

  /** `minted` is every id ever given out: ids are ULIDs and never come back. */
  datatype World = World(rows: Rows, pending: multiset<Pending>, minted: set<string>, clock: int)

  datatype Action =
    | Request(cookie: string)
    | WriteTouch(touch: Pending)
    | LoseTouch(touch: Pending)
    | Mint(id: string, tokenHash: string)
    | RevokeOne(id: string)
    | RevokeOthers(keep: string)
    | Purge(before: int)
    | Tick(clock: int)

  predicate Enabled(w: World, a: Action) {
    match a
    case Request(_) => true
    case WriteTouch(p) => p in w.pending
    case LoseTouch(p) => p in w.pending
    case Mint(id, _) => id !in w.minted
    case RevokeOne(_) => true
    case RevokeOthers(_) => true
    case Purge(before) => before <= w.clock
    case Tick(clock) => w.clock <= clock
  }

  function Apply(hash: string -> string, pol: Policy, w: World, a: Action): World
    requires Enabled(w, a)
  {
    match a
    case Request(cookie) =>
      var id := Resolve(hash, pol, w.rows, cookie, w.clock);
      if id.Some? && TouchDue(pol, w.rows[id.value], w.clock)
      then w.(pending := w.pending + multiset{Pending(id.value, w.clock)}) else w
    case WriteTouch(p) => w.(rows := Touch(w.rows, p.id, p.at), pending := w.pending - multiset{p})
    case LoseTouch(p) => w.(pending := w.pending - multiset{p})
    case Mint(id, tokenHash) =>
      w.(rows := w.rows[id := Minted(pol, tokenHash, w.clock)], minted := w.minted + {id})
    case RevokeOne(id) => w.(rows := Revoke(w.rows, id, w.clock))
    case RevokeOthers(keep) => w.(rows := RevokeExcept(w.rows, keep, w.clock))
    case Purge(before) => w.(rows := map id | id in w.rows && w.rows[id].expiresAt >= before :: w.rows[id])
    case Tick(clock) => w.(clock := clock)
  }

  ghost predicate Valid(hash: string -> string, pol: Policy, w: World, acts: seq<Action>)
    decreases |acts|
  {
    acts == [] || (Enabled(w, acts[0]) && Valid(hash, pol, Apply(hash, pol, w, acts[0]), acts[1..]))
  }

  ghost function Exec(hash: string -> string, pol: Policy, w: World, acts: seq<Action>): World
    requires Valid(hash, pol, w, acts)
    decreases |acts|
  {
    if acts == [] then w else Exec(hash, pol, Apply(hash, pol, w, acts[0]), acts[1..])
  }

  /** The cookie authenticates at the end of some continuation of `w`. */
  ghost predicate CanResolve(hash: string -> string, pol: Policy, w: World, cookie: string) {
    exists acts :: Valid(hash, pol, w, acts) && ResolvesAfter(hash, pol, w, acts, cookie)
  }

  ghost predicate ResolvesAfter(hash: string -> string, pol: Policy, w: World, acts: seq<Action>, cookie: string)
    requires Valid(hash, pol, w, acts)
  {
    var v := Exec(hash, pol, w, acts);
    Resolve(hash, pol, v.rows, cookie, v.clock).Some?
  }

  /** What a caller can see in the tables: the row still lives, and it or a touch in flight is recent enough. */
  ghost predicate Revivable(pol: Policy, w: World, id: string) {
    && id in w.rows && w.rows[id].Live(w.clock)
    && (!Idle(pol, w.rows[id], w.clock)
        || exists p :: p in w.pending && p.id == id && w.clock < p.at + pol.idle)
  }

  /** A new touch belongs to a row that resolves now. */
  lemma {:induction false} TouchesAfter(hash: string -> string, pol: Policy, w: World, a: Action, p: Pending)
    requires Enabled(w, a) && p in Apply(hash, pol, w, a).pending
    ensures p in w.pending
      || (p.at == w.clock && p.id in w.rows && w.rows[p.id].Live(w.clock) && !Idle(pol, w.rows[p.id], w.clock))
  {
  }

  /** Time, revocations, purges and other sessions never help; a touch in flight is all that can. */
  lemma {:induction false} RowAfter(hash: string -> string, pol: Policy, w: World, a: Action, id: string)
    requires Enabled(w, a) && id in w.minted && id in Apply(hash, pol, w, a).rows
    ensures var r, v := Apply(hash, pol, w, a).rows[id], Apply(hash, pol, w, a);
      && w.clock <= v.clock && id in w.rows && r.expiresAt == w.rows[id].expiresAt
      && (r.revokedAt.None? ==> w.rows[id].revokedAt.None?)
      && (r.lastSeenAt == w.rows[id].lastSeenAt || (a.WriteTouch? && a.touch.id == id && r.lastSeenAt == a.touch.at))
  {
  }

  lemma {:induction false} StepStaysDead(hash: string -> string, pol: Policy, w: World, a: Action, id: string)
    requires Enabled(w, a) && id in w.minted && !Revivable(pol, w, id)
    ensures var v := Apply(hash, pol, w, a); id in v.minted && !Revivable(pol, v, id)
  {
    var v := Apply(hash, pol, w, a);
    if id in v.rows {
      RowAfter(hash, pol, w, a, id);
      forall p | p in v.pending && p.id == id && v.clock < p.at + pol.idle
        ensures p in w.pending || !w.rows[id].Live(w.clock)
      {
        TouchesAfter(hash, pol, w, a, p);
      }
    }
  }

  lemma {:induction false} RunStaysDead(hash: string -> string, pol: Policy, w: World, acts: seq<Action>, id: string)
    requires Valid(hash, pol, w, acts) && id in w.minted && !Revivable(pol, w, id)
    ensures !Revivable(pol, Exec(hash, pol, w, acts), id)
    decreases |acts|
  {
    if acts != [] {
      StepStaysDead(hash, pol, w, acts[0], id);
      RunStaysDead(hash, pol, Apply(hash, pol, w, acts[0]), acts[1..], id);
    }
  }

  /** A row's token hash is the one it was minted with for as long as the row is there. */
  lemma {:induction false} RunKeepsHash(hash: string -> string, pol: Policy, w: World, acts: seq<Action>, id: string)
    requires Valid(hash, pol, w, acts) && id in w.minted
    ensures var v := Exec(hash, pol, w, acts);
            id in v.minted && (id in v.rows ==> id in w.rows && v.rows[id].tokenHash == w.rows[id].tokenHash)
    decreases |acts|
  {
    if acts != [] {
      RunKeepsHash(hash, pol, Apply(hash, pol, w, acts[0]), acts[1..], id);
    }
  }

  /**
   Exactly when a cookie can still authenticate at some later point of some interleaving. Once it cannot,
   by expiry, by revocation, or by idleness with no recent touch in flight, it never will again.
   */
  lemma {:induction false} CanResolveExactly(hash: string -> string, pol: Policy, w: World, id: string, secret: string)
    requires id != "" && secret != "" && '.' !in id && id in w.minted
    ensures CanResolve(hash, pol, w, ComposeCookie(id, secret))
       <==> Revivable(pol, w, id) && hash(secret) == w.rows[id].tokenHash
  {
    var cookie := ComposeCookie(id, secret);
    CookieRoundTrip(id, secret);
    if CanResolve(hash, pol, w, cookie) {
      var acts :| Valid(hash, pol, w, acts) && ResolvesAfter(hash, pol, w, acts, cookie);
      RunKeepsHash(hash, pol, w, acts, id);
      if !Revivable(pol, w, id) {
        RunStaysDead(hash, pol, w, acts, id);
      }
    } else if Revivable(pol, w, id) && hash(secret) == w.rows[id].tokenHash {
      assert !ResolvesAfter(hash, pol, w, [], cookie);
      var p :| p in w.pending && p.id == id && w.clock < p.at + pol.idle;
      ResolvesByTouch(hash, pol, w, id, secret, p);
    }
  }

  lemma {:induction false} ResolvesByTouch(
    hash: string -> string, pol: Policy, w: World, id: string, secret: string, p: Pending)
    requires id != "" && secret != "" && '.' !in id && id in w.rows
    requires w.rows[id].Live(w.clock) && hash(secret) == w.rows[id].tokenHash
    requires p in w.pending && p.id == id && w.clock < p.at + pol.idle
    ensures Valid(hash, pol, w, [WriteTouch(p)]) && ResolvesAfter(hash, pol, w, [WriteTouch(p)], ComposeCookie(id, secret))
  {
    CookieRoundTrip(id, secret);
    var v := Apply(hash, pol, w, WriteTouch(p));
    var acts := [WriteTouch(p)];
    assert acts[1..] == [];
    assert Valid(hash, pol, v, []) && Exec(hash, pol, v, []) == v;
  }

  /** After `ResetPassword` no session that existed ever resolves again, touches in flight or not. */
  lemma {:induction false} ResetEndsEverySession(
    hash: string -> string, pol: Policy, w: World, id: string, secret: string)
    requires id != "" && secret != "" && '.' !in id && id in w.minted
    ensures !CanResolve(hash, pol, Apply(hash, pol, w, RevokeOthers("")), ComposeCookie(id, secret))
  {
    CanResolveExactly(hash, pol, Apply(hash, pol, w, RevokeOthers("")), id, secret);
  }

  /** After `ChangePassword` the caller's session can resolve just when it could before, and no other one can. */
  lemma {:induction false} ChangeKeepsOnlyTheCaller(
    hash: string -> string, pol: Policy, w: World, caller: string, id: string, secret: string)
    requires id != "" && secret != "" && '.' !in id && id in w.minted
    ensures CanResolve(hash, pol, Apply(hash, pol, w, RevokeOthers(caller)), ComposeCookie(id, secret))
       <==> id == caller && CanResolve(hash, pol, w, ComposeCookie(id, secret))
  {
    var v := Apply(hash, pol, w, RevokeOthers(caller));
    CanResolveExactly(hash, pol, v, id, secret);
    CanResolveExactly(hash, pol, w, id, secret);
    assert id == caller && id in w.rows ==> v.rows[id] == w.rows[id];
  }
}
