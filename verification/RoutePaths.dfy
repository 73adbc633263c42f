/**
 What the document keeps of a pattern: its template, its parameters and their order.
 */
module RoutePaths {
  import opened Options
  import opened Text
  import opened Routes

  // ---------------------------------------------------------------- one segment

  /** A wildcard called `$` can only be written as `{$...}`. */
  lemma {:induction false} SegmentCases(seg: string)
    requires '/' !in seg && !Classify(seg).Bad?
    ensures Classify(seg).Literal? ==> Render(seg) == seg && Inside(seg).None?
    ensures Classify(seg).End? ==> Render(seg) == "" && Inside(seg) == Some("$")
    ensures Classify(seg).Wild? ==>
      && Render(seg) == "{" + Classify(seg).name + "}" && !BadName(Classify(seg).name)
      && (Classify(seg).name == "$" ==> Classify(seg).multi)
    ensures Classify(seg).Wild? ==>
      && Inside(seg).Some? && Inside(seg) != Some("$")
      && TrimSuffix(Inside(seg).value, "...") == Classify(seg).name
      && HasSuffix(Inside(seg).value, "...") == Classify(seg).multi
  {
    if Classify(seg).Literal? {
      assert '{' !in seg;
    } else {
      assert seg[0] == '{' && seg[|seg| - 1] == '}';
    }
  }

  lemma {:induction false} NoDots(name: string)
    requires '.' !in name
    ensures !HasSuffix(name, "...")
  {
    assert |name| > 2 ==> name[|name| - 3..][0] == name[|name| - 3] && name[|name| - 3] in name;
  }

  lemma {:induction false} BracedName(name: string)
    requires !BadName(name)
    ensures Classify("{" + name + "}") == if name == "$" then End else Wild(name, false)
  {
    var seg := "{" + name + "}";
    assert '.' in "{}/. ";
    NoDots(name);
    assert IndexOf(seg, '{') == 0 && |seg| > 0;
    assert seg[|seg| - 1..] == "}";
    assert seg[1..|seg| - 1] == name;
  }

  predicate Nameable(name: string) {
    && name != "" && '{' !in name && '}' !in name && '/' !in name && '.' !in name && ' ' !in name
  }

  lemma {:induction false} NameableExactly(name: string)
    ensures Nameable(name) <==> !BadName(name)
  {
    var bad := "{}/. ";
    assert bad[0] == '{' && bad[1] == '}' && bad[2] == '/' && bad[3] == '.' && bad[4] == ' ';
    if BadName(name) && name != "" {
      var c :| c in name && c in bad;
    }
  }

  lemma {:induction false} BracedDots(name: string)
    requires !BadName(name)
    ensures Classify("{" + name + "...}") == Wild(name, true)
  {
    var seg := "{" + name + "...}";
    var inner := name + "...";
    assert IndexOf(seg, '{') == 0 && seg[|seg| - 1..] == "}" && seg[1..|seg| - 1] == inner;
    assert inner[|inner| - 3..] == "..." && inner[..|inner| - 3] == name;
    assert inner != "$";
  }

  /** The segments that may be registered, as they are spelled: text without braces, `{$}`, `{name}` and `{name...}`. */
  lemma {:induction false} SpelledExactly(seg: string, name: string)
    ensures Classify(seg).Literal? <==> '{' !in seg && '}' !in seg
    ensures Classify(seg).End? <==> seg == "{$}"
    ensures Classify(seg) == Wild(name, false) <==> seg == "{" + name + "}" && Nameable(name) && name != "$"
    ensures Classify(seg) == Wild(name, true) <==> seg == "{" + name + "...}" && Nameable(name)
  {
    NameableExactly(name);
    if Nameable(name) {
      BracedName(name);
      BracedDots(name);
    }
    assert "{$}"[1..2] == "$" && IndexOf("{$}", '{') == 0;
    var open := IndexOf(seg, '{');
    if open == 0 && |seg| > 0 && HasSuffix(seg, "}") { BracesAround(seg); }
  }

  lemma {:induction false} BracesAround(seg: string)
    requires seg != "" && seg[0] == '{' && HasSuffix(seg, "}")
    ensures seg == "{" + seg[1..|seg| - 1] + "}"
    ensures HasSuffix(seg[1..|seg| - 1], "...") ==> seg == "{" + TrimSuffix(seg[1..|seg| - 1], "...") + "...}"
  {
    var inner := seg[1..|seg| - 1];
    if HasSuffix(inner, "...") { assert inner == inner[..|inner| - 3] + "..."; }
  }

  lemma {:induction false} BracedHasNoSlash(name: string)
    requires !BadName(name)
    ensures '/' !in "{" + name + "}"
  {
    assert '/' in "{}/. ";
  }

  /** The class of what a segment is rendered as. */
  function Shown(c: Segment): Segment {
    match c
    case Wild(name, _) => if name == "$" then End else Wild(name, false)
    case End => Literal
    case _ => c
  }

  lemma {:induction false} RenderedClass(seg: string)
    requires '/' !in seg && !Classify(seg).Bad?
    ensures Classify(Render(seg)) == Shown(Classify(seg)) && '/' !in Render(seg)
    ensures Render(seg) == "" <==> Classify(seg).End? || seg == ""
  {
    SegmentCases(seg);
    if Classify(seg).Wild? {
      BracedName(Classify(seg).name);
      BracedHasNoSlash(Classify(seg).name);
    }
  }

  // ---------------------------------------------------------------- all segments

  function ShownAll(cs: seq<Segment>): (r: seq<Segment>)
    ensures |r| == |cs|
  {
    if cs == [] then [] else ShownAll(cs[..|cs| - 1]) + [Shown(cs[|cs| - 1])]
  }

  lemma {:induction false} ShownAt(cs: seq<Segment>, i: nat)
    requires i < |cs|
    ensures ShownAll(cs)[i] == Shown(cs[i])
  {
    if i < |cs| - 1 { ShownAt(cs[..|cs| - 1], i); }
  }

  predicate Plain(segs: seq<string>) { forall s :: s in segs ==> '/' !in s }

  predicate NoneBad(cs: seq<Segment>) { forall c :: c in cs ==> !c.Bad? }

  lemma {:induction false} ClassesOfRendered(segs: seq<string>)
    requires Plain(segs) && NoneBad(Classes(segs))
    ensures Classes(RenderAll(segs)) == ShownAll(Classes(segs)) && Plain(RenderAll(segs))
  {
    var rendered, cs := RenderAll(segs), Classes(segs);
    forall i | 0 <= i < |segs| ensures Classes(rendered)[i] == ShownAll(cs)[i] && '/' !in rendered[i] {
      ClassAt(segs, i);
      ClassAt(rendered, i);
      RenderAt(segs, i);
      ShownAt(cs, i);
      assert segs[i] in segs && cs[i] in cs;
      RenderedClass(segs[i]);
    }
    forall s | s in rendered ensures '/' !in s {
      var i :| 0 <= i < |rendered| && rendered[i] == s;
    }
  }

  /** Names survive, but for a wildcard called `$`, which stops being one. */
  lemma {:induction false} NamesOfShown(cs: seq<Segment>)
    requires forall i :: 0 <= i < |cs| - 1 && cs[i].Wild? ==> cs[i].name != "$"
    ensures Names(ShownAll(cs)) ==
      if cs != [] && cs[|cs| - 1].Wild? && cs[|cs| - 1].name == "$" then Names(cs[..|cs| - 1]) else Names(cs)
  {
    if cs != [] {
      var n := |cs| - 1;
      NamesOfShown(cs[..n]);
      assert ShownAll(cs)[..n] == ShownAll(cs[..n]);
    }
  }

  predicate Sane(cs: seq<Segment>) { forall c :: c in cs && c.Wild? && c.name == "$" ==> c.multi }

  /** The last wildcard is called `$`. */
  predicate Dollar(cs: seq<Segment>) { cs != [] && cs[|cs| - 1].Wild? && cs[|cs| - 1].name == "$" }

  lemma {:induction false} ClassesAreSane(segs: seq<string>)
    requires Plain(segs) && NoneBad(Classes(segs))
    ensures Sane(Classes(segs))
  {
    var cs := Classes(segs);
    forall c | c in cs && c.Wild? && c.name == "$" ensures c.multi {
      var i :| 0 <= i < |cs| && cs[i] == c;
      ClassAt(segs, i);
      assert segs[i] in segs;
      SegmentCases(segs[i]);
    }
  }

  lemma {:induction false} ShownIsGood(cs: seq<Segment>)
    requires Good(cs) && Sane(cs)
    ensures Good(ShownAll(cs))
    ensures Names(ShownAll(cs)) == if Dollar(cs) then Names(cs[..|cs| - 1]) else Names(cs)
  {
    var shown, n := ShownAll(cs), |cs| - 1;
    forall i | 0 <= i < |cs| ensures !shown[i].Bad? && (i < n ==> !FinalOnly(shown[i])) {
      ShownAt(cs, i);
      assert cs[i] in cs && !cs[i].Bad?;
      if i < n { assert !FinalOnly(cs[i]); }
    }
    forall i | 0 <= i < n && cs[i].Wild? ensures cs[i].name != "$" {
      assert cs[i] in cs && !FinalOnly(cs[i]);
    }
    NamesOfShown(cs);
    if Dollar(cs) { NamesPrefix(cs, n); }
  }

  // ---------------------------------------------------------------- slashes

  /** Only the last segment may be empty. */
  predicate EmptyOnlyLast(segs: seq<string>) {
    |segs| > 1 ==> segs[0] != "" && EmptyOnlyLast(segs[1..])
  }

  lemma {:induction false} PlainSkip(seg: string, t: string)
    requires '/' !in seg
    ensures DoubleSlash(seg + t) <==> DoubleSlash(t)
  {
    if seg == "" {
      assert seg + t == t;
    } else {
      assert (seg + t)[1..] == seg[1..] + t;
      assert (seg + t)[0] == seg[0] && seg[0] in seg;
      PlainSkip(seg[1..], t);
    }
  }

  lemma {:induction false} DoubleSlashExactly(segs: seq<string>)
    requires Plain(segs) && segs != []
    ensures DoubleSlash("/" + Join(segs, '/')) <==> !EmptyOnlyLast(segs)
  {
    var seg := segs[0];
    if |segs| == 1 {
      var s := "/" + seg;
      assert s[1..] == seg + "";
      assert |seg| > 0 ==> seg[0] in seg && s[1] == seg[0];
      PlainSkip(seg, "");
    } else {
      var t := "/" + Join(segs[1..], '/');
      var s := "/" + Join(segs, '/');
      assert Join(segs, '/') == seg + t;
      assert s[1..] == seg + t;
      assert seg == "" ==> s[1] == '/';
      assert seg != "" ==> s[1] == seg[0] && seg[0] in seg;
      PlainSkip(seg, t);
      DoubleSlashExactly(segs[1..]);
    }
  }

  lemma {:induction false} SplitSlash(rest: string)
    ensures Split("/" + rest, '/') == [""] + Split(rest, '/')
  {
    assert "/" + rest == "" + ['/'] + rest;
    SplitFirst("", '/', rest);
  }

  lemma {:induction false} SplitIsPlain(s: string)
    ensures Plain(Split(s, '/')) && Join(Split(s, '/'), '/') == s
  {
    JoinOfSplit(s, '/');
  }

  /** A pattern is its segments. */
  lemma {:induction false} SegmentsOf(pattern: string)
    requires Accepted(pattern)
    ensures var segs := Split(pattern[1..], '/');
      && pattern == "/" + Join(segs, '/') && Plain(segs) && EmptyOnlyLast(segs) && Good(Classes(segs))
      && Split(pattern, '/') == [""] + segs
  {
    var segs := Split(pattern[1..], '/');
    SplitIsPlain(pattern[1..]);
    assert pattern == "/" + pattern[1..];
    DoubleSlashExactly(segs);
    SplitSlash(pattern[1..]);
  }

  lemma {:induction false} PatternOf(segs: seq<string>)
    requires segs != [] && Plain(segs)
    ensures var pattern := "/" + Join(segs, '/');
      && Split(pattern[1..], '/') == segs && Split(pattern, '/') == [""] + segs
      && (Accepted(pattern) <==> EmptyOnlyLast(segs) && Good(Classes(segs)))
  {
    var pattern := "/" + Join(segs, '/');
    assert pattern[1..] == Join(segs, '/');
    SplitOfJoin(segs, '/');
    DoubleSlashExactly(segs);
    SplitSlash(pattern[1..]);
  }

  // ---------------------------------------------------------------- the template

  /** A closing slash is dropped, unless it is all there is. */
  function Trimmed(segs: seq<string>): seq<string> {
    if |segs| > 1 && segs[|segs| - 1] == "" then segs[..|segs| - 1] else segs
  }

  lemma {:induction false} JoinLast(segs: seq<string>, last: string)
    requires segs != []
    ensures Join(segs + [last], '/') == Join(segs, '/') + "/" + last
  {
    if |segs| > 1 {
      assert (segs + [last])[1..] == segs[1..] + [last];
      JoinLast(segs[1..], last);
    } else {
      assert (segs + [last])[1..] == [last];
    }
  }

  lemma {:induction false} TrimmedPath(segs: seq<string>)
    requires segs != [] && Plain(segs)
    ensures TrimEnd("/" + Join(segs, '/')) == "/" + Join(Trimmed(segs), '/')
  {
    var n := |segs| - 1;
    var out, last := "/" + Join(segs, '/'), segs[n];
    assert last in segs;
    if n > 0 {
      assert segs == segs[..n] + [last];
      JoinLast(segs[..n], last);
    }
    if last != "" {
      assert out[|out| - 1] == last[|last| - 1] && last[|last| - 1] in last;
      assert out[|out| - 1..] == [out[|out| - 1]];
    } else if n > 0 {
      assert out == "/" + Join(segs[..n], '/') + "/";
      assert out[|out| - 1..] == "/";
    }
  }

  /** The empty text before the first slash stays. */
  lemma {:induction false} RenderedPath(segs: seq<string>)
    requires segs != []
    ensures Join(RenderAll([""] + segs), '/') == "/" + Join(RenderAll(segs), '/')
  {
    var all := [""] + segs;
    assert all[1..] == segs && Render("") == "";
    var rendered := RenderAll(all);
    assert rendered == [""] + RenderAll(segs);
    assert rendered[1..] == RenderAll(segs);
  }

  lemma {:induction false} TemplateOf(segs: seq<string>)
    requires segs != [] && Plain(segs) && NoneBad(Classes(segs))
    ensures Template("/" + Join(segs, '/')) == "/" + Join(Trimmed(RenderAll(segs)), '/')
  {
    var pattern := "/" + Join(segs, '/');
    PatternOf(segs);
    assert Split(pattern, '/') == [""] + segs;
    RenderedPath(segs);
    ClassesOfRendered(segs);
    TrimmedPath(RenderAll(segs));
  }

  lemma {:induction false} EmptyOnlyLastAt(segs: seq<string>)
    ensures EmptyOnlyLast(segs) <==> forall i :: 0 <= i < |segs| - 1 ==> segs[i] != ""
  {
    if |segs| > 1 {
      EmptyOnlyLastAt(segs[1..]);
      if forall i :: 0 <= i < |segs| - 1 ==> segs[i] != "" {
        forall i | 0 <= i < |segs[1..]| - 1 ensures segs[1..][i] != "" { assert segs[1..][i] == segs[i + 1]; }
      }
      if EmptyOnlyLast(segs) {
        forall i | 0 <= i < |segs| - 1 ensures segs[i] != "" {
          if i > 0 { assert segs[i] == segs[1..][i - 1]; }
        }
      }
    }
  }

  /** A rendered segment is empty only where the pattern ends. */
  lemma {:induction false} RenderedIsEmptyOnlyLast(segs: seq<string>)
    requires Plain(segs) && Good(Classes(segs)) && EmptyOnlyLast(segs)
    ensures EmptyOnlyLast(RenderAll(segs))
  {
    var rendered := RenderAll(segs);
    EmptyOnlyLastAt(segs);
    EmptyOnlyLastAt(rendered);
    forall i | 0 <= i < |segs| - 1 ensures rendered[i] != "" {
      RenderAt(segs, i);
      ClassAt(segs, i);
      assert segs[i] in segs && !FinalOnly(Classes(segs)[i]) && !Classes(segs)[i].Bad?;
      RenderedClass(segs[i]);
    }
  }

  lemma {:induction false} GoodHasNoneBad(cs: seq<Segment>)
    requires Good(cs)
    ensures NoneBad(cs)
  {
    forall c | c in cs ensures !c.Bad? {
      var i :| 0 <= i < |cs| && cs[i] == c;
    }
  }

  lemma {:induction false} ClassesPrefix(segs: seq<string>, n: nat)
    requires n <= |segs|
    ensures Classes(segs[..n]) == Classes(segs)[..n]
  {
    forall i | 0 <= i < n ensures Classes(segs[..n])[i] == Classes(segs)[i] {
      ClassAt(segs, i);
      ClassAt(segs[..n], i);
    }
  }

  lemma {:induction false} TrimmedIsGood(segs: seq<string>)
    requires Plain(segs) && Good(Classes(segs)) && EmptyOnlyLast(segs)
    ensures var t := Trimmed(segs); Good(Classes(t)) && EmptyOnlyLast(t) && Names(Classes(t)) == Names(Classes(segs))
    ensures var t := Trimmed(segs); t != [] && Plain(t) && (|t| > 1 ==> t[|t| - 1] != "")
  {
    var n := |segs| - 1;
    EmptyOnlyLastAt(segs);
    if n > 0 && segs[n] == "" {
      var cs := Classes(segs);
      ClassesPrefix(segs, n);
      ClassAt(segs, n);
      NamesPrefix(cs, n);
      EmptyOnlyLastAt(segs[..n]);
      assert Classify("").Literal?;
      assert cs[n] == Literal && Names(cs) == Names(cs[..n]);
    }
  }

  // ---------------------------------------------------------------- the document

  /** The segments of a template. */
  function Cut(segs: seq<string>): seq<string> { Trimmed(RenderAll(segs)) }

  lemma {:induction false} RenderedIsGood(segs: seq<string>)
    requires Plain(segs) && Good(Classes(segs)) && EmptyOnlyLast(segs)
    ensures var r := RenderAll(segs); Plain(r) && EmptyOnlyLast(r) && Good(Classes(r))
    ensures var cs := Classes(segs);
      Names(Classes(RenderAll(segs))) == if Dollar(cs) then Names(cs[..|cs| - 1]) else Names(cs)
  {
    GoodHasNoneBad(Classes(segs));
    ClassesAreSane(segs);
    ClassesOfRendered(segs);
    ShownIsGood(Classes(segs));
    RenderedIsEmptyOnlyLast(segs);
  }

  /** They make a pattern, with the names that are left. */
  lemma {:induction false} CutIsGood(segs: seq<string>)
    requires Plain(segs) && Good(Classes(segs)) && EmptyOnlyLast(segs)
    ensures var t := Cut(segs); t != [] && Plain(t) && EmptyOnlyLast(t) && Good(Classes(t))
    ensures var t := Cut(segs); |t| > 1 ==> t[|t| - 1] != ""
    ensures var cs := Classes(segs); Names(Classes(Cut(segs))) == if Dollar(cs) then Names(cs[..|cs| - 1]) else Names(cs)
  {
    var r := RenderAll(segs);
    RenderedIsGood(segs);
    TrimmedIsGood(r);
  }

  lemma {:induction false} TemplateSegments(pattern: string)
    requires Accepted(pattern)
    ensures Template(pattern) == "/" + Join(Cut(Split(pattern[1..], '/')), '/') && Accepted(Template(pattern))
  {
    SegmentsOf(pattern);
    var segs := Split(pattern[1..], '/');
    GoodHasNoneBad(Classes(segs));
    CutIsGood(segs);
    TemplateOf(segs);
    PatternOf(Cut(segs));
  }

  /** A template is accepted as a pattern again. */
  lemma {:induction false} TemplateIsAccepted(pattern: string)
    requires Accepted(pattern)
    ensures Accepted(Template(pattern))
  {
    TemplateSegments(pattern);
  }

  lemma {:induction false} RenderTwice(seg: string)
    requires '/' !in seg && !Classify(seg).Bad?
    ensures Render(Render(seg)) == if Classify(seg).Wild? && Classify(seg).name == "$" then "" else Render(seg)
  {
    RenderedClass(seg);
    SegmentCases(seg);
    var c := Classify(seg);
    if c.Wild? {
      SegmentCases(Render(seg));
      BracedName(c.name);
    }
  }

  lemma {:induction false} ClassWithin(segs: seq<string>, i: nat)
    requires i < |segs| && Plain(segs) && Good(Classes(segs))
    ensures Classes(segs)[i] == Classify(segs[i]) && !Classify(segs[i]).Bad? && '/' !in segs[i]
    ensures Classify(segs[i]).Wild? && Classify(segs[i]).name == "$" ==> i == |segs| - 1 && Dollar(Classes(segs))
  {
    ClassAt(segs, i);
    assert segs[i] in segs;
    SegmentCases(segs[i]);
    assert !Classes(segs)[i].Bad? && (i < |segs| - 1 ==> !FinalOnly(Classes(segs)[i]));
  }

  lemma {:induction false} RenderedTwice(segs: seq<string>)
    requires segs != [] && Plain(segs) && Good(Classes(segs)) && EmptyOnlyLast(segs)
    ensures var t := Trimmed(RenderAll(segs)); Trimmed(RenderAll(t)) == t <==> !Dollar(Classes(segs))
  {
    var all, n := RenderAll(segs), |segs| - 1;
    var t := Trimmed(all);
    forall i | 0 <= i < |t|
      ensures RenderAll(t)[i] == if i == n && Dollar(Classes(segs)) then "" else t[i]
    {
      RenderAt(t, i);
      RenderAt(segs, i);
      ClassWithin(segs, i);
      RenderTwice(segs[i]);
    }
    RenderAt(segs, n);
    ClassWithin(segs, n);
    RenderedClass(segs[n]);
    if Dollar(Classes(segs)) {
      assert all[n] != "" && t == all && RenderAll(t)[n] == "";
    } else {
      assert RenderAll(t) == t;
      RenderedIsEmptyOnlyLast(segs);
      EmptyOnlyLastAt(all);
    }
  }

  lemma {:induction false} PathsDiffer(a: seq<string>, b: seq<string>)
    requires a != [] && b != [] && Plain(a) && Plain(b)
    ensures "/" + Join(a, '/') == "/" + Join(b, '/') <==> a == b
  {
    PatternOf(a);
    PatternOf(b);
  }

  /** The last segment is `{$...}`. */
  predicate NamesDollar(pattern: string)
    requires pattern != ""
  {
    var segs := Split(pattern[1..], '/');
    segs[|segs| - 1] == "{$...}"
  }

  lemma {:induction false} DollarIs(pattern: string)
    requires Accepted(pattern)
    ensures NamesDollar(pattern) <==> Dollar(Classes(Split(pattern[1..], '/')))
  {
    SegmentsOf(pattern);
    var segs := Split(pattern[1..], '/');
    var last := segs[|segs| - 1];
    ClassWithin(segs, |segs| - 1);
    SegmentCases(last);
    DollarSegment(last);
  }

  lemma {:induction false} DollarSegment(seg: string)
    requires '/' !in seg && !Classify(seg).Bad?
    ensures seg == "{$...}" <==> Classify(seg).Wild? && Classify(seg).name == "$"
  {
    SegmentCases(seg);
    if seg == "{$...}" {
      assert seg[1..|seg| - 1] == "$...";
      assert "$..."[1..] == "..." && "$..."[..1] == "$";
    }
    if Classify(seg).Wild? && Classify(seg).name == "$" {
      FromInside(seg, Inside(seg).value);
      FromSuffix(Inside(seg).value, "...");
    }
  }

  lemma {:induction false} FromInside(seg: string, inner: string)
    requires Inside(seg) == Some(inner)
    ensures seg == "{" + inner + "}"
  {
  }

  lemma {:induction false} FromSuffix(s: string, suffix: string)
    requires HasSuffix(s, suffix)
    ensures s == TrimSuffix(s, suffix) + suffix
  {
  }

  /** Rendering a template changes nothing any more, unless the pattern calls its last wildcard `$`. */
  lemma {:induction false} TemplateIsIdempotentExactly(pattern: string)
    requires Accepted(pattern)
    ensures Template(Template(pattern)) == Template(pattern) <==> !NamesDollar(pattern)
  {
    SegmentsOf(pattern);
    DollarIs(pattern);
    TemplateSegments(pattern);
    var segs := Split(pattern[1..], '/');
    var t := Cut(segs);
    CutIsGood(segs);
    RenderedTwice(segs);
    GoodHasNoneBad(Classes(t));
    ClassesOfRendered(t);
    TemplateOf(t);
    assert Plain(Trimmed(RenderAll(t)));
    PathsDiffer(Trimmed(RenderAll(t)), t);
  }

  /** Such a pattern is accepted, and its template is the end mark. */
  lemma {:induction false} DollarIsAccepted()
    ensures Accepted("/{$...}") && NamesDollar("/{$...}") && Template("/{$...}") == "/{$}"
  {
    var segs := ["{$...}"];
    DollarClass("{$...}");
    OneSegment("{$...}");
    NamesOfDollar();
    PatternOf(segs);
    assert "/" + "{$...}" == "/{$...}";
    TemplateOf(segs);
    OneSegment(Render("{$...}"));
    DollarRenders("{$...}");
  }

  lemma {:induction false} OneSegment(seg: string)
    ensures Classes([seg]) == [Classify(seg)] && RenderAll([seg]) == [Render(seg)] && Trimmed([seg]) == [seg]
    ensures EmptyOnlyLast([seg]) && Join([seg], '/') == seg
  {
    assert [seg][1..] == [];
  }

  lemma {:induction false} DollarRenders(seg: string)
    requires seg == "{$...}"
    ensures "/" + Render(seg) == "/{$}"
  {
    DollarClass(seg);
    SegmentCases(seg);
    assert "{" + "$" + "}" == "{$}" && "/" + "{$}" == "/{$}";
  }

  lemma {:induction false} NamesOfDollar()
    ensures Good([Wild("$", true)])
  {
    assert [Wild("$", true)][..0] == [];
    assert Names([Wild("$", true)]) == ["$"];
  }

  lemma {:induction false} DollarClass(seg: string)
    requires seg == "{$...}"
    ensures Classify(seg) == Wild("$", true) && '/' !in seg && Plain([seg])
  {
    assert seg[1..|seg| - 1] == "$...";
    assert "$..."[1..] == "..." && "$..."[..1] == "$";
    assert seg[|seg| - 1..] == "}";
  }

  // ---------------------------------------------------------------- the parameters

  function ParamNames(ps: seq<Param>): (r: seq<string>)
    ensures |r| == |ps|
  {
    if ps == [] then [] else ParamNames(ps[..|ps| - 1]) + [ps[|ps| - 1].name]
  }

  function Params(pattern: string): seq<Param> { ParamsOf(Split(TrimPrefix(pattern, "/"), '/')) }

  predicate NoneMulti(ps: seq<Param>) { forall p :: p in ps ==> !p.multi }

  lemma {:induction false} ParamNamesJoin(ps: seq<Param>, p: Param)
    ensures ParamNames(ps + [p]) == ParamNames(ps) + [p.name]
  {
    assert (ps + [p])[..|ps|] == ps;
  }

  lemma {:induction false} ParamOfClass(seg: string)
    requires '/' !in seg && !Classify(seg).Bad?
    ensures var c := Classify(seg); ParamOf(seg) == if c.Wild? then [Param(c.name, c.multi)] else []
  {
    SegmentCases(seg);
  }

  function ParamsOfClasses(cs: seq<Segment>): seq<Param> {
    if cs == [] then []
    else
      var n := |cs| - 1;
      ParamsOfClasses(cs[..n]) + if cs[n].Wild? then [Param(cs[n].name, cs[n].multi)] else []
  }

  lemma {:induction false} ParamsAreOfClasses(segs: seq<string>)
    requires Plain(segs) && NoneBad(Classes(segs))
    ensures ParamsOf(segs) == ParamsOfClasses(Classes(segs))
  {
    if segs != [] {
      var n := |segs| - 1;
      var cs := Classes(segs);
      ClassesPrefix(segs, n);
      assert cs[n] in cs && segs[n] in segs;
      ParamsAreOfClasses(segs[..n]);
      ClassAt(segs, n);
      ParamOfClass(segs[n]);
    }
  }

  lemma {:induction false} ParamsAreNames(cs: seq<Segment>)
    ensures ParamNames(ParamsOfClasses(cs)) == Names(cs)
    ensures (forall c :: c in cs ==> !(c.Wild? && c.multi)) ==> NoneMulti(ParamsOfClasses(cs))
  {
    if cs != [] {
      var n := |cs| - 1;
      ParamsAreNames(cs[..n]);
      assert cs[n] in cs && forall c :: c in cs[..n] ==> c in cs;
      if cs[n].Wild? {
        ParamNamesJoin(ParamsOfClasses(cs[..n]), Param(cs[n].name, cs[n].multi));
      } else {
        assert ParamsOfClasses(cs) == ParamsOfClasses(cs[..n]) && Names(cs) == Names(cs[..n]);
      }
    }
  }

  lemma {:induction false} ParamsOfPath(segs: seq<string>)
    requires segs != [] && Plain(segs)
    ensures Params("/" + Join(segs, '/')) == ParamsOf(segs)
  {
    var pattern := "/" + Join(segs, '/');
    PatternOf(segs);
    assert TrimPrefix(pattern, "/") == pattern[1..];
  }

  /** The parameters of a pattern have distinct names, and only the last can take more than one segment. */
  lemma {:induction false} OnlyLastIsMulti(pattern: string)
    requires Accepted(pattern)
    ensures var ps := Params(pattern); Distinct(ParamNames(ps)) && (ps != [] ==> NoneMulti(ps[..|ps| - 1]))
  {
    SegmentsOf(pattern);
    var segs := Split(pattern[1..], '/');
    var cs := Classes(segs);
    ParamsOfPath(segs);
    GoodHasNoneBad(cs);
    ParamsAreOfClasses(segs);
    ParamsAreNames(cs);
    OnlyLastClassIsMulti(cs);
  }

  lemma {:induction false} OnlyLastClassIsMulti(cs: seq<Segment>)
    requires Good(cs)
    ensures var ps := ParamsOfClasses(cs); ps != [] ==> NoneMulti(ps[..|ps| - 1])
  {
    var n, ps := |cs| - 1, ParamsOfClasses(cs);
    var front := ParamsOfClasses(cs[..n]);
    forall c | c in cs[..n] ensures !(c.Wild? && c.multi) {
      var i :| 0 <= i < n && cs[i] == c;
      assert !FinalOnly(cs[i]);
    }
    ParamsAreNames(cs[..n]);
    if ps != [] { assert forall p :: p in ps[..|ps| - 1] ==> p in front; }
  }

  /**
   The document names the parameters of the pattern, in the same order, and none of them takes more than one segment;
   but a wildcard called `$` is lost.
   */
  lemma {:induction false} TemplateKeepsNamesExactly(pattern: string)
    requires Accepted(pattern)
    ensures ParamNames(Params(Template(pattern))) == ParamNames(Params(pattern)) <==> !NamesDollar(pattern)
    ensures NoneMulti(Params(Template(pattern)))
  {
    SegmentsOf(pattern);
    DollarIs(pattern);
    TemplateSegments(pattern);
    var segs := Split(pattern[1..], '/');
    var t, cs := Cut(segs), Classes(segs);
    CutIsGood(segs);
    ParamsOfPath(segs);
    ParamsOfPath(t);
    GoodHasNoneBad(cs);
    GoodHasNoneBad(Classes(t));
    ParamsAreOfClasses(segs);
    ParamsAreOfClasses(t);
    ParamsAreNames(cs);
    ParamsAreNames(Classes(t));
    NoneMultiInTemplate(segs);
    if Dollar(cs) { assert |Names(cs)| == |Names(cs[..|cs| - 1])| + 1; }
  }

  lemma {:induction false} NoneMultiInTemplate(segs: seq<string>)
    requires Plain(segs) && NoneBad(Classes(segs))
    ensures forall c :: c in Classes(Trimmed(RenderAll(segs))) ==> !(c.Wild? && c.multi)
  {
    var all, cs := RenderAll(segs), Classes(segs);
    var t := Trimmed(all);
    ClassesOfRendered(segs);
    ClassesPrefix(all, |t|);
    assert t == all[..|t|];
    ShownIsSingle(cs);
    assert forall c :: c in ShownAll(cs)[..|t|] ==> c in ShownAll(cs);
  }

  lemma {:induction false} ShownIsSingle(cs: seq<Segment>)
    ensures forall c :: c in ShownAll(cs) ==> !(c.Wild? && c.multi)
  {
    forall c | c in ShownAll(cs) ensures !(c.Wild? && c.multi) {
      var i :| 0 <= i < |cs| && ShownAll(cs)[i] == c;
      ShownAt(cs, i);
    }
  }
}
