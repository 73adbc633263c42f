/**
 A session that was refused for idleness and resolves again.
 */
module SessionsReturn {
  import opened Options
  import opened Sessions

  const NOBODY := World(map[], multiset{}, {}, 0)

  /** A request decides on a touch and is slow to write it; meanwhile the session goes idle. */
  function SlowTouch(pol: Policy, id: string, secret: string, tokenHash: string): seq<Action> {
    [Mint(id, tokenHash), Tick(pol.idle - 1), Request(ComposeCookie(id, secret)), Tick(pol.idle)]
  }

  function Slowed(pol: Policy, id: string, tokenHash: string): World {
    World(map[id := Minted(pol, tokenHash, 0)], multiset{Pending(id, pol.idle - 1)}, {id}, pol.idle)
  }

  lemma {:induction false} SlowTouchIs(hash: string -> string, pol: Policy, id: string, secret: string)
    requires id != "" && secret != "" && '.' !in id && 1 < pol.idle < pol.ttl && pol.touch < pol.idle
    ensures var acts := SlowTouch(pol, id, secret, hash(secret));
      Valid(hash, pol, NOBODY, acts) && Exec(hash, pol, NOBODY, acts) == Slowed(pol, id, hash(secret))
  {
    var cookie, acts := ComposeCookie(id, secret), SlowTouch(pol, id, secret, hash(secret));
    CookieRoundTrip(id, secret);
    var a := Apply(hash, pol, NOBODY, acts[0]);
    var b := Apply(hash, pol, a, acts[1]);
    assert Resolve(hash, pol, b.rows, cookie, b.clock) == Some(id);
    var c := Apply(hash, pol, b, acts[2]);
    var d := Apply(hash, pol, c, acts[3]);
    assert d == Slowed(pol, id, hash(secret));
    var t3, t2, t1 := [acts[3]], [acts[2], acts[3]], [acts[1], acts[2], acts[3]];
    assert t3[1..] == [] && t2[1..] == t3 && t1[1..] == t2 && acts[1..] == t1;
    assert Valid(hash, pol, d, []) && Valid(hash, pol, c, t3) && Valid(hash, pol, b, t2) && Valid(hash, pol, a, t1);
    assert Exec(hash, pol, c, t3) == d && Exec(hash, pol, b, t2) == d && Exec(hash, pol, a, t1) == d;
  }

  /** So a cookie that was refused for idleness can resolve again, once that touch is written. */
  lemma {:induction false} IdleSessionComesBack(hash: string -> string, pol: Policy, id: string, secret: string)
    requires id != "" && secret != "" && '.' !in id && 1 < pol.idle < pol.ttl && pol.touch < pol.idle
    ensures var acts := SlowTouch(pol, id, secret, hash(secret));
      Valid(hash, pol, NOBODY, acts)
      && var w := Exec(hash, pol, NOBODY, acts); var touch := Pending(id, pol.idle - 1);
      && Resolve(hash, pol, w.rows, ComposeCookie(id, secret), w.clock).None?
      && Enabled(w, WriteTouch(touch))
      && Resolve(hash, pol, Apply(hash, pol, w, WriteTouch(touch)).rows, ComposeCookie(id, secret), w.clock) == Some(id)
  {
    CookieRoundTrip(id, secret);
    SlowTouchIs(hash, pol, id, secret);
  }
}
