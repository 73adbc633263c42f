/**
 How a session ends: what becomes of its row over any run, and when exactly its cookie resolves, told by the instant it
 was minted, the revocations and the touches that were written.
 */
module SessionsEnd {
  import opened Options
  import opened Sessions

  predicate Revokes(a: Action, id: string) { (a.RevokeOne? && a.id == id) || (a.RevokeOthers? && a.keep != id) }

  predicate Unrevoked(acts: seq<Action>, id: string) { forall a :: a in acts ==> !Revokes(a, id) }

  /** The instant of the last touch written, or `from`. */
  function LastSeen(acts: seq<Action>, id: string, from: int): int
    decreases |acts|
  {
    if acts == [] then from
    else LastSeen(acts[1..], id, if acts[0].WriteTouch? && acts[0].touch.id == id then acts[0].touch.at else from)
  }

  /** What a run of actions makes of a row, if the row is still there. */
  predicate Becomes(s: Session, r: Session, acts: seq<Action>, id: string) {
    && r.tokenHash == s.tokenHash && r.createdAt == s.createdAt && r.expiresAt == s.expiresAt
    && (r.revokedAt.None? <==> s.revokedAt.None? && Unrevoked(acts, id))
    && (s.revokedAt.Some? ==> r == s)
    && (r.revokedAt.None? ==> r.lastSeenAt == LastSeen(acts, id, s.lastSeenAt))
  }

  lemma {:induction false} StepOfRow(hash: string -> string, pol: Policy, w: World, a: Action, id: string)
    requires Enabled(w, a) && id in w.rows && id in w.minted
    ensures var v := Apply(hash, pol, w, a);
      && id in v.minted && w.clock <= v.clock
      && (v.clock <= w.rows[id].expiresAt ==> id in v.rows)
      && (id in v.rows ==> Becomes(w.rows[id], v.rows[id], [a], id))
  {
    var v := Apply(hash, pol, w, a);
    assert [a][1..] == [] && a in [a];
    assert Unrevoked([a], id) <==> !Revokes(a, id);
    assert LastSeen([a], id, w.rows[id].lastSeenAt)
        == if a.WriteTouch? && a.touch.id == id then a.touch.at else w.rows[id].lastSeenAt;
  }

  lemma {:induction false} BecomesChain(s: Session, r: Session, q: Session, acts: seq<Action>, id: string)
    requires acts != [] && Becomes(s, r, [acts[0]], id) && Becomes(r, q, acts[1..], id)
    ensures Becomes(s, q, acts, id)
  {
    assert [acts[0]][1..] == [];
    assert acts == [acts[0]] + acts[1..];
    if r.revokedAt.None? {
      assert r.lastSeenAt == LastSeen([acts[0]], id, s.lastSeenAt);
    }
  }

  /** An id that is given out and has no row never gets one again. */
  lemma {:induction false} GoneStaysGone(hash: string -> string, pol: Policy, w: World, acts: seq<Action>, id: string)
    requires Valid(hash, pol, w, acts) && id in w.minted
    ensures var v := Exec(hash, pol, w, acts);
      w.clock <= v.clock && id in v.minted && (id !in w.rows ==> id !in v.rows)
    decreases |acts|
  {
    if acts != [] { GoneStaysGone(hash, pol, Apply(hash, pol, w, acts[0]), acts[1..], id); }
  }

  /**
   Over any run a row keeps its hash, its creation and its expiry; it is there as long as it has not expired; it is
   revoked exactly if it is named by a revocation, and from then on it does not change at all; until then it was last
   seen at the last touch that was written.
   */
  lemma {:induction false} RowOverARun(hash: string -> string, pol: Policy, w: World, acts: seq<Action>, id: string)
    requires Valid(hash, pol, w, acts) && id in w.rows && id in w.minted
    ensures var v := Exec(hash, pol, w, acts);
      && (v.clock <= w.rows[id].expiresAt ==> id in v.rows)
      && (id in v.rows ==> Becomes(w.rows[id], v.rows[id], acts, id))
    decreases |acts|
  {
    if acts != [] {
      var u, v := Apply(hash, pol, w, acts[0]), Exec(hash, pol, w, acts);
      StepOfRow(hash, pol, w, acts[0], id);
      GoneStaysGone(hash, pol, u, acts[1..], id);
      if id in u.rows {
        RowOverARun(hash, pol, u, acts[1..], id);
        if id in v.rows { BecomesChain(w.rows[id], u.rows[id], v.rows[id], acts, id); }
      }
    }
  }

  /**
   After any run that follows its mint, a cookie resolves if and only if less than `ttl` has passed, nothing revoked it,
   and the idle window since the last touch written, or since the mint, is not over.
   */
  lemma {:induction false} ResolvesExactly(
    hash: string -> string, pol: Policy, w: World, id: string, secret: string, acts: seq<Action>)
    requires id != "" && secret != "" && '.' !in id && id !in w.minted
    requires Valid(hash, pol, Apply(hash, pol, w, Mint(id, hash(secret))), acts)
    ensures var v := Exec(hash, pol, Apply(hash, pol, w, Mint(id, hash(secret))), acts);
      Resolve(hash, pol, v.rows, ComposeCookie(id, secret), v.clock) == Some(id)
      <==> && v.clock < w.clock + pol.ttl && Unrevoked(acts, id)
           && (pol.idle <= 0 || v.clock < LastSeen(acts, id, w.clock) + pol.idle)
  {
    CookieRoundTrip(id, secret);
    RowOverARun(hash, pol, Apply(hash, pol, w, Mint(id, hash(secret))), acts, id);
  }

  /** Once `ttl` has passed since its mint a cookie never resolves again, whatever touches are in flight. */
  lemma {:induction false} EndsForGood(
    hash: string -> string, pol: Policy, w: World, id: string, secret: string, acts: seq<Action>)
    requires id != "" && secret != "" && '.' !in id && id !in w.minted
    requires Valid(hash, pol, Apply(hash, pol, w, Mint(id, hash(secret))), acts)
    ensures var v := Exec(hash, pol, Apply(hash, pol, w, Mint(id, hash(secret))), acts);
      w.clock + pol.ttl <= v.clock || !Unrevoked(acts, id) ==> !CanResolve(hash, pol, v, ComposeCookie(id, secret))
  {
    var m := Apply(hash, pol, w, Mint(id, hash(secret)));
    var v := Exec(hash, pol, m, acts);
    RowOverARun(hash, pol, m, acts, id);
    GoneStaysGone(hash, pol, m, acts, id);
    CanResolveExactly(hash, pol, v, id, secret);
  }
}
