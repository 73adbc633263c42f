/**
 The route table: what may be registered, in what order it is documented, and the path templates of the document.
 */
module Routes {
  import opened Options
  import opened Text
  import opened Sorting

  datatype Auth = Public | Setup | Session | Token | NoAuth

  datatype Route = Route(
    verb: string, pattern: string, auth: Auth, operation: string, handled: bool,
    idempotent: bool, rateLimit: Option<string>, status: int)

  // ---------------------------------------------------------------- patterns

  /** A path segment: text, `{$}`, a wildcard, or what may not be registered. */
  datatype Segment = Literal | End | Wild(name: string, multi: bool) | Bad

  function TrimSuffix(s: string, suffix: string): string {
    if HasSuffix(s, suffix) then s[..|s| - |suffix|] else s
  }

  predicate BadName(name: string) { name == "" || exists c :: c in name && c in "{}/. " }

  function Classify(seg: string): Segment {
    var open := IndexOf(seg, '{');
    if open == |seg| then (if '}' in seg then Bad else Literal)
    else if open != 0 || !HasSuffix(seg, "}") then Bad
    else
      var name := seg[1..|seg| - 1];
      if name == "$" then End
      else
        var base := TrimSuffix(name, "...");
        if BadName(base) then Bad else Wild(base, HasSuffix(name, "..."))
  }

  predicate DoubleSlash(s: string) { |s| > 1 && ((s[0] == '/' && s[1] == '/') || DoubleSlash(s[1..])) }

  predicate FinalOnly(s: Segment) { s.End? || (s.Wild? && s.multi) }

  function Classes(segs: seq<string>): (r: seq<Segment>)
    ensures |r| == |segs|
  {
    if segs == [] then [] else [Classify(segs[0])] + Classes(segs[1..])
  }

  lemma {:induction false} ClassAt(segs: seq<string>, i: nat)
    requires i < |segs|
    ensures Classes(segs)[i] == Classify(segs[i])
  {
    if i > 0 { ClassAt(segs[1..], i - 1); }
  }

  /** The names of the wildcards, in order. */
  function Names(segs: seq<Segment>): seq<string> {
    if segs == [] then []
    else
      var n := |segs| - 1;
      Names(segs[..n]) + if segs[n].Wild? then [segs[n].name] else []
  }

  predicate Distinct(s: seq<string>) { forall i, j :: 0 <= i < j < |s| ==> s[i] != s[j] }

  /** Whole-segment wildcards with names of their own; `{$}` and `{name...}` only at the end. */
  predicate Good(segs: seq<Segment>) {
    && segs != []
    && (forall i :: 0 <= i < |segs| ==> !segs[i].Bad?)
    && (forall i :: 0 <= i < |segs| - 1 ==> !FinalOnly(segs[i]))
    && Distinct(Names(segs))
  }

  predicate Accepted(pattern: string) {
    pattern != "" && pattern[0] == '/' && !DoubleSlash(pattern) && Good(Classes(Split(pattern[1..], '/')))
  }

  method ReadSegment(seg: string) returns (s: Segment)
    ensures s == Classify(seg)
  {
    var open := IndexOf(seg, '{');
    if open == |seg| {
      if '}' in seg { return Bad; }
      return Literal;
    }
    if open != 0 || !HasSuffix(seg, "}") { return Bad; }
    var name := seg[1..|seg| - 1];
    if name == "$" { return End; }
    var multi := HasSuffix(name, "...");
    if multi { name := TrimSuffix(name, "..."); }
    if BadName(name) { return Bad; }
    return Wild(name, multi);
  }

  method ValidatePattern(pattern: string) returns (ok: bool)
    ensures ok <==> Accepted(pattern)
  {
    if pattern == "" || pattern[0] != '/' || DoubleSlash(pattern) { return false; }
    ok := ValidateSegments(Split(pattern[1..], '/'));
  }

  method ReadSegmentAt(segs: seq<string>, i: nat) returns (s: Segment)
    requires i < |segs|
    ensures s == Classes(segs)[i]
  {
    ClassAt(segs, i);
    s := ReadSegment(segs[i]);
  }

  method ValidateSegments(segs: seq<string>) returns (ok: bool)
    requires segs != []
    ensures ok <==> Good(Classes(segs))
  {
    var names := {};
    ghost var cs := Classes(segs);
    for i := 0 to |segs|
      invariant forall j :: 0 <= j < i ==> !cs[j].Bad?
      invariant forall j :: 0 <= j < i && j < |cs| - 1 ==> !FinalOnly(cs[j])
      invariant Distinct(Names(cs[..i])) && names == set n | n in Names(cs[..i])
    {
      NamesGrow(cs, i);
      var s := ReadSegmentAt(segs, i);
      if s.Bad? || (FinalOnly(s) && i < |segs| - 1) { return false; }
      if s.Wild? {
        if s.name in names { return false; }
        names := names + {s.name};
      }
    }
    assert cs[..|cs|] == cs;
    return true;
  }

  /** One more segment; a name that is taken stays taken. */
  lemma {:induction false} NamesGrow(segs: seq<Segment>, i: nat)
    requires i < |segs|
    ensures Names(segs[..i + 1]) == Names(segs[..i]) + if segs[i].Wild? then [segs[i].name] else []
    ensures segs[i].Wild? && segs[i].name in Names(segs[..i]) ==> !Distinct(Names(segs))
    ensures Distinct(Names(segs[..i])) && (segs[i].Wild? ==> segs[i].name !in Names(segs[..i])) ==> Distinct(Names(segs[..i + 1]))
  {
    assert segs[..i + 1][..i] == segs[..i];
    NamesPrefix(segs, i + 1);
    var before, all := Names(segs[..i]), Names(segs);
    if segs[i].Wild? && segs[i].name in before {
      var j :| 0 <= j < |before| && before[j] == segs[i].name;
      assert all[j] == Names(segs[..i + 1])[j] && all[|before|] == Names(segs[..i + 1])[|before|];
    }
  }

  lemma {:induction false} NamesPrefix(segs: seq<Segment>, i: nat)
    requires i <= |segs|
    ensures Names(segs[..i]) <= Names(segs)
  {
    if i < |segs| {
      var n := |segs| - 1;
      assert segs[..n][..i] == segs[..i];
      NamesPrefix(segs[..n], i);
      assert Names(segs[..n]) <= Names(segs);
    } else {
      assert segs[..i] == segs;
    }
  }

  // ---------------------------------------------------------------- parameters and templates

  datatype Param = Param(name: string, multi: bool)

  /** What is between the braces of a segment that is at least three characters long. */
  function Inside(seg: string): Option<string> {
    if |seg| < 3 || seg[0] != '{' || seg[|seg| - 1] != '}' then None else Some(seg[1..|seg| - 1])
  }

  function ParamOf(seg: string): seq<Param> {
    var name := Inside(seg);
    if name.None? || name.value == "$" then []
    else [Param(TrimSuffix(name.value, "..."), HasSuffix(name.value, "..."))]
  }

  function ParamsOf(segs: seq<string>): seq<Param> {
    if segs == [] then []
    else
      var n := |segs| - 1;
      ParamsOf(segs[..n]) + ParamOf(segs[n])
  }

  lemma {:induction false} ParamsGrow(segs: seq<string>, i: nat)
    requires i < |segs|
    ensures ParamsOf(segs[..i + 1]) == ParamsOf(segs[..i]) + ParamOf(segs[i])
    ensures ParamOf(segs[i]) == [] ==> ParamsOf(segs[..i + 1]) == ParamsOf(segs[..i])
  {
    assert segs[..i + 1][..i] == segs[..i];
  }

  function TrimPrefix(s: string, prefix: string): string { if prefix <= s then s[|prefix|..] else s }

  method PathParams(pattern: string) returns (out: seq<Param>)
    ensures out == ParamsOf(Split(TrimPrefix(pattern, "/"), '/'))
  {
    var segs := Split(TrimPrefix(pattern, "/"), '/');
    out := [];
    for i := 0 to |segs|
      invariant out == ParamsOf(segs[..i])
    {
      ParamsGrow(segs, i);
      var seg := segs[i];
      if |seg| < 3 || seg[0] != '{' || seg[|seg| - 1] != '}' { continue; }
      var name := seg[1..|seg| - 1];
      if name == "$" { continue; }
      out := out + [Param(TrimSuffix(name, "..."), HasSuffix(name, "..."))];
    }
    assert segs[..|segs|] == segs;
  }

  function Render(seg: string): string {
    var name := Inside(seg);
    if name.None? then seg
    else if name.value == "$" then ""
    else "{" + TrimSuffix(name.value, "...") + "}"
  }

  function RenderAll(segs: seq<string>): (r: seq<string>)
    ensures |r| == |segs|
  {
    if segs == [] then [] else [Render(segs[0])] + RenderAll(segs[1..])
  }

  function TrimEnd(s: string): string { if |s| > 1 && HasSuffix(s, "/") then s[..|s| - 1] else s }

  function Template(pattern: string): string { TrimEnd(Join(RenderAll(Split(pattern, '/')), '/')) }

  method RenderSegment(seg: string) returns (out: string)
    ensures out == Render(seg)
  {
    if |seg| >= 3 && seg[0] == '{' && seg[|seg| - 1] == '}' {
      var name := seg[1..|seg| - 1];
      if name == "$" { return ""; }
      return "{" + TrimSuffix(name, "...") + "}";
    }
    return seg;
  }

  method RenderInPlace(segs: array<string>)
    modifies segs
    ensures segs[..] == RenderAll(old(segs[..]))
  {
    ghost var was := segs[..];
    for i := 0 to segs.Length
      invariant segs[..] == RenderAll(was)[..i] + was[i..]
    {
      assert segs[..][i] == was[i];
      ghost var before := segs[..];
      var seg := segs[i];
      segs[i] := RenderSegment(seg);
      RenderAt(was, i);
      assert segs[..] == before[i := RenderAll(was)[i]];
      OneMore(RenderAll(was), was, i);
    }
  }

  lemma {:induction false} OneMore(all: seq<string>, was: seq<string>, i: nat)
    requires i < |was| == |all|
    ensures (all[..i] + was[i..])[i := all[i]] == all[..i + 1] + was[i + 1..]
  {
  }

  method OpenApiPath(pattern: string) returns (out: string)
    ensures out == Template(pattern)
  {
    var parts := Split(pattern, '/');
    var segs := new string[|parts|](i requires 0 <= i < |parts| => parts[i]);
    assert segs[..] == parts;
    RenderInPlace(segs);
    out := TrimEnd(Join(segs[..], '/'));
  }

  lemma {:induction false} RenderAt(segs: seq<string>, i: nat)
    requires i < |segs|
    ensures RenderAll(segs)[i] == Render(segs[i])
  {
    if i > 0 { RenderAt(segs[1..], i - 1); }
  }

  // ---------------------------------------------------------------- the registry

  const METHODS := ["GET", "HEAD", "POST", "PUT", "PATCH", "DELETE", "OPTIONS"]

  lemma {:induction false} MethodsAreNamed()
    ensures "" !in METHODS
  {
  }

  function OrderFrom(m: string, i: nat): nat
    requires i <= |METHODS|
    decreases |METHODS| - i
  {
    if i == |METHODS| then 99 else if METHODS[i] == m then i else OrderFrom(m, i + 1)
  }

  function MethodOrder(m: string): nat { OrderFrom(m, 0) }

  method OrderOf(m: string) returns (order: nat)
    ensures order == MethodOrder(m)
    ensures if m in METHODS then order < 7 && METHODS[order] == m else order == 99
  {
    for i := 0 to |METHODS|
      invariant MethodOrder(m) == OrderFrom(m, i) && m !in METHODS[..i]
    {
      if METHODS[i] == m { return i; }
    }
    return 99;
  }

  function Key(rt: Route): string { rt.verb + " " + rt.pattern }

  /** What a route must be by itself. */
  predicate Registrable(rt: Route) {
    && rt.verb in METHODS && rt.handled && rt.operation != "" && !rt.auth.NoAuth? && !rt.auth.Token?
    && Accepted(rt.pattern)
    && (rt.idempotent ==> rt.verb == "POST")
    && rt.rateLimit != Some("")
    && 200 <= rt.status <= 299
  }

  /** What a table of routes is: each one registrable, no two with the same key or the same operation. */
  predicate Table(routes: seq<Route>) {
    && (forall rt :: rt in routes ==> Registrable(rt))
    && forall i, j :: 0 <= i < j < |routes| ==> Key(routes[i]) != Key(routes[j]) && routes[i].operation != routes[j].operation
  }

  class Registry {
    var routes: seq<Route>
    var byKey: set<string>
    var byOp: set<string>

    predicate Valid()
      reads this
    {
      && Table(routes)
      && byKey == (set rt | rt in routes :: Key(rt))
      && byOp == (set rt | rt in routes :: rt.operation)
    }

    constructor ()
      ensures Valid() && routes == []
    {
      routes, byKey, byOp := [], {}, {};
    }

    /** A route is added exactly when the table with it is a table; otherwise nothing changes. */
    method Add(rt: Route) returns (ok: bool)
      requires Valid()
      modifies this
      ensures Valid()
      ensures ok <==> Table(old(routes) + [rt])
      ensures ok <==>
        && rt.verb in ["GET", "HEAD", "POST", "PUT", "PATCH", "DELETE", "OPTIONS"] && rt.handled && rt.operation != ""
        && rt.auth in {Public, Setup, Session} && Accepted(rt.pattern)
        && (rt.idempotent ==> rt.verb == "POST") && rt.rateLimit != Some("") && 200 <= rt.status < 300
        && (forall r :: r in old(routes) ==> r.verb + " " + r.pattern != rt.verb + " " + rt.pattern)
        && (forall r :: r in old(routes) ==> r.operation != rt.operation)
      ensures routes == if ok then old(routes) + [rt] else old(routes)
      ensures !ok ==> byKey == old(byKey) && byOp == old(byOp)
    {
      assert (routes + [rt])[|routes|] == rt;
      assert rt in routes + [rt];
      assert Table(routes + [rt]) ==> Registrable(rt);
      MethodsAreNamed();
      if rt.verb == "" || rt.verb !in METHODS || !rt.handled || rt.operation == "" || rt.auth.NoAuth? || rt.auth.Token? {
        return false;
      }
      var accepted := ValidatePattern(rt.pattern);
      if !accepted { return false; }
      if rt.idempotent && rt.verb != "POST" { return false; }
      if rt.rateLimit == Some("") { return false; }
      if rt.status < 200 || rt.status > 299 { return false; }
      TableGrows(routes, rt);
      if Key(rt) in byKey { return false; }
      if rt.operation in byOp { return false; }
      byKey := byKey + {Key(rt)};
      byOp := byOp + {rt.operation};
      routes := routes + [rt];
      return true;
    }

    /** The routes in the order of the document, which any other registration order of them has too. */
    method Sorted() returns (out: seq<Route>)
      requires Valid()
      ensures multiset(out) == multiset(routes) && IsSorted(out, RouteLeq)
      ensures forall other :: Table(other) && (forall rt :: rt in other <==> rt in routes) ==> Sort(other, RouteLeq) == out
    {
      out := Sort(routes, RouteLeq);
      RouteOrder();
      SortIsSorted(routes, RouteLeq);
      forall other | Table(other) && forall rt :: rt in other <==> rt in routes ensures Sort(other, RouteLeq) == out {
        DocumentForgetsOrder(other, routes);
      }
    }
  }

  lemma {:induction false} TableGrows(routes: seq<Route>, rt: Route)
    requires Table(routes) && Registrable(rt)
    ensures Table(routes + [rt]) <==>
      Key(rt) !in (set r | r in routes :: Key(r)) && rt.operation !in (set r | r in routes :: r.operation)
  {
    var more := routes + [rt];
    if Table(more) {
      forall r | r in routes ensures Key(r) != Key(rt) && r.operation != rt.operation {
        var i :| 0 <= i < |routes| && routes[i] == r;
        assert more[i] == r && more[|routes|] == rt;
      }
    }
    if Key(rt) !in (set r | r in routes :: Key(r)) && rt.operation !in (set r | r in routes :: r.operation) {
      forall i, j | 0 <= i < j < |more| ensures Key(more[i]) != Key(more[j]) && more[i].operation != more[j].operation {
        assert more[i] in routes;
        if j < |routes| { assert more[j] == routes[j] && more[i] == routes[i]; }
      }
    }
  }

  // ---------------------------------------------------------------- the order of the document

  predicate RouteLeq(a: Route, b: Route) {
    if a.pattern != b.pattern then Leq(a.pattern, b.pattern) else MethodOrder(a.verb) <= MethodOrder(b.verb)
  }

  lemma {:induction false} RouteOrder()
    ensures Preorder(RouteLeq)
  {
    StringOrder();
    forall a, b ensures RouteLeq(a, b) || RouteLeq(b, a) { LeqTotal(a.pattern, b.pattern); }
    forall a, b, c | RouteLeq(a, b) && RouteLeq(b, c) ensures RouteLeq(a, c) {
      if a.pattern != b.pattern && b.pattern != c.pattern {
        LeqTransitive(a.pattern, b.pattern, c.pattern);
        LeqTotal(a.pattern, b.pattern);
      }
    }
  }

  lemma {:induction false} OrderIsIndex(m: string)
    requires m in METHODS
    ensures MethodOrder(m) < |METHODS| && METHODS[MethodOrder(m)] == m
  {
    OrderFromIsIndex(m, 0);
  }

  lemma {:induction false} OrderFromIsIndex(m: string, i: nat)
    requires i <= |METHODS| && m in METHODS[i..]
    ensures OrderFrom(m, i) < |METHODS| && METHODS[OrderFrom(m, i)] == m
    decreases |METHODS| - i
  {
    if METHODS[i] != m { OrderFromIsIndex(m, i + 1); }
  }

  lemma {:induction false} TableIsUntied(routes: seq<Route>)
    requires Table(routes)
    ensures Untied(routes, RouteLeq)
  {
    forall a, b | a in routes && b in routes && RouteLeq(a, b) && RouteLeq(b, a) ensures a == b {
      LeqTotal(a.pattern, b.pattern);
      OrderIsIndex(a.verb);
      OrderIsIndex(b.verb);
      assert Key(a) == Key(b);
    }
  }

  lemma {:induction false} MultisetOfTable(a: seq<Route>, b: seq<Route>)
    requires Table(a) && Table(b) && forall rt :: rt in a <==> rt in b
    ensures multiset(a) == multiset(b)
  {
    forall rt ensures multiset(a)[rt] == multiset(b)[rt] {
      OnceInTable(a, rt);
      OnceInTable(b, rt);
    }
  }

  lemma {:induction false} OnceInTable(routes: seq<Route>, rt: Route)
    requires Table(routes)
    ensures multiset(routes)[rt] == if rt in routes then 1 else 0
  {
    if routes != [] {
      var n := |routes| - 1;
      OnceInTable(routes[..n], rt);
      assert routes == routes[..n] + [routes[n]];
    }
  }

  /** The document depends on which routes are registered and not on when. */
  lemma {:induction false} DocumentForgetsOrder(a: seq<Route>, b: seq<Route>)
    requires Table(a) && Table(b) && forall rt :: rt in a <==> rt in b
    ensures Sort(a, RouteLeq) == Sort(b, RouteLeq)
  {
    RouteOrder();
    TableIsUntied(a);
    MultisetOfTable(a, b);
    SortForgetsOrder(a, b, RouteLeq);
  }
}
