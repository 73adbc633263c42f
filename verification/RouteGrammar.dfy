/**
 The patterns that may be registered, as a grammar of their own.
 */
module RouteGrammar {
  import opened Options
  import opened Text
  import opened Routes
  import opened RoutePaths

  datatype Part = Words(text: string) | Dollar | One(name: string) | Rest(name: string)

  function Spell(p: Part): string {
    match p
    case Words(text) => text
    case Dollar => "{$}"
    case One(name) => "{" + name + "}"
    case Rest(name) => "{" + name + "...}"
  }

  function SpellAll(parts: seq<Part>): (segs: seq<string>)
    ensures |segs| == |parts| && forall i :: 0 <= i < |parts| ==> segs[i] == Spell(parts[i])
  {
    if parts == [] then [] else SpellAll(parts[..|parts| - 1]) + [Spell(parts[|parts| - 1])]
  }

  predicate LegalPart(p: Part) {
    match p
    case Words(text) => '{' !in text && '}' !in text && '/' !in text
    case Dollar => true
    case One(name) => Nameable(name) && name != "$"
    case Rest(name) => Nameable(name)
  }

  predicate Named(p: Part) { p.One? || p.Rest? }

  /** Only the last part may be empty, `{$}` or several segments. */
  predicate EndsWell(parts: seq<Part>) {
    forall i :: 0 <= i < |parts| - 1 ==> parts[i] != Words("") && !parts[i].Dollar? && !parts[i].Rest?
  }

  predicate NoNameTwice(parts: seq<Part>) {
    forall i, j :: 0 <= i < j < |parts| && Named(parts[i]) && Named(parts[j]) ==> parts[i].name != parts[j].name
  }

  predicate AllLegal(parts: seq<Part>) { forall i :: 0 <= i < |parts| ==> LegalPart(parts[i]) }

  predicate Legal(parts: seq<Part>) { parts != [] && AllLegal(parts) && EndsWell(parts) && NoNameTwice(parts) }

  function ClassOf(p: Part): Segment {
    match p
    case Words(_) => Literal
    case Dollar => End
    case One(name) => Wild(name, false)
    case Rest(name) => Wild(name, true)
  }

  lemma {:induction false} SpellClass(p: Part)
    requires LegalPart(p)
    ensures Classify(Spell(p)) == ClassOf(p) && '/' !in Spell(p)
  {
    SpelledExactly(Spell(p), if Named(p) then p.name else "");
  }

  function PartOf(seg: string): Part {
    match Classify(seg)
    case End => Dollar
    case Wild(name, multi) => if multi then Rest(name) else One(name)
    case _ => Words(seg)
  }

  lemma {:induction false} PartIsLegal(seg: string)
    requires '/' !in seg && !Classify(seg).Bad?
    ensures LegalPart(PartOf(seg)) && Spell(PartOf(seg)) == seg
  {
    SpelledExactly(seg, if Classify(seg).Wild? then Classify(seg).name else "");
  }

  predicate EmptyAtEnd(segs: seq<string>) { forall i :: 0 <= i < |segs| - 1 ==> segs[i] != "" }

  predicate FinalAtEnd(cs: seq<Segment>) { forall i :: 0 <= i < |cs| - 1 ==> !FinalOnly(cs[i]) }

  lemma {:induction false} EmptyOnlyLastIs(segs: seq<string>)
    ensures EmptyOnlyLast(segs) <==> EmptyAtEnd(segs)
  {
    if |segs| > 1 {
      EmptyOnlyLastIs(segs[1..]);
      if segs[0] != "" && EmptyAtEnd(segs[1..]) {
        forall i | 0 <= i < |segs| - 1 ensures segs[i] != "" { assert i > 0 ==> segs[i] == segs[1..][i - 1]; }
      }
      if EmptyAtEnd(segs) {
        forall i | 0 <= i < |segs[1..]| - 1 ensures segs[1..][i] != "" { assert segs[1..][i] == segs[i + 1]; }
      }
    }
  }

  lemma {:induction false} NameAmong(cs: seq<Segment>, name: string)
    ensures name in Names(cs) <==> exists i :: 0 <= i < |cs| && cs[i].Wild? && cs[i].name == name
  {
    if cs != [] {
      var n := |cs| - 1;
      NameAmong(cs[..n], name);
      if i :| 0 <= i < |cs| && cs[i].Wild? && cs[i].name == name {
        assert i < n ==> cs[..n][i] == cs[i];
      }
    }
  }

  lemma {:induction false} NamesDistinct(cs: seq<Segment>)
    ensures Distinct(Names(cs)) <==>
      forall i, j :: 0 <= i < j < |cs| && cs[i].Wild? && cs[j].Wild? ==> cs[i].name != cs[j].name
  {
    if cs != [] {
      var n := |cs| - 1;
      NamesDistinct(cs[..n]);
      assert cs[..n + 1] == cs;
      NamesGrow(cs, n);
      NamesPrefix(cs, n);
      if cs[n].Wild? { NameAmong(cs[..n], cs[n].name); }
      DistinctFront(Names(cs), |Names(cs[..n])|);
    }
  }

  lemma {:induction false} DistinctFront(s: seq<string>, n: nat)
    requires n <= |s|
    ensures Distinct(s) ==> Distinct(s[..n])
  {
  }

  predicate ClassesOf(cs: seq<Segment>, parts: seq<Part>) {
    |cs| == |parts| && forall i :: 0 <= i < |parts| ==> cs[i] == ClassOf(parts[i])
  }

  lemma {:induction false} SpelledClasses(parts: seq<Part>)
    requires AllLegal(parts)
    ensures ClassesOf(Classes(SpellAll(parts)), parts) && Plain(SpellAll(parts))
  {
    var segs := SpellAll(parts);
    forall i | 0 <= i < |parts| ensures Classes(segs)[i] == ClassOf(parts[i]) && '/' !in segs[i] {
      ClassAt(segs, i);
      SpellClass(parts[i]);
    }
  }

  lemma {:induction false} NamesOnce(cs: seq<Segment>, parts: seq<Part>)
    requires ClassesOf(cs, parts)
    ensures Distinct(Names(cs)) <==> NoNameTwice(parts)
  {
    NamesDistinct(cs);
    forall i | 0 <= i < |parts| ensures cs[i].Wild? <==> Named(parts[i]) { assert cs[i] == ClassOf(parts[i]); }
    forall i | 0 <= i < |parts| && Named(parts[i]) ensures cs[i].name == parts[i].name { assert cs[i] == ClassOf(parts[i]); }
  }

  lemma {:induction false} EndsGood(cs: seq<Segment>, parts: seq<Part>)
    requires ClassesOf(cs, parts)
    ensures EndsWell(parts) <==> EmptyAtEnd(SpellAll(parts)) && FinalAtEnd(cs)
  {
    var segs, n := SpellAll(parts), |parts|;
    forall i | 0 <= i < n
      ensures (segs[i] == "" <==> parts[i] == Words("")) && (FinalOnly(cs[i]) <==> parts[i].Dollar? || parts[i].Rest?)
    {
      assert cs[i] == ClassOf(parts[i]) && segs[i] == Spell(parts[i]);
    }
    if EmptyAtEnd(segs) && FinalAtEnd(cs) {
      forall i | 0 <= i < n - 1 ensures parts[i] != Words("") && !parts[i].Dollar? && !parts[i].Rest? {
        assert segs[i] != "" && !FinalOnly(cs[i]);
      }
    }
  }

  lemma {:induction false} GoodIs(cs: seq<Segment>, parts: seq<Part>)
    requires parts != [] && ClassesOf(cs, parts)
    ensures Good(cs) <==> FinalAtEnd(cs) && Distinct(Names(cs))
  {
    forall i | 0 <= i < |cs| ensures !cs[i].Bad? { assert cs[i] == ClassOf(parts[i]); }
  }

  /** Legal parts are good segments. */
  lemma {:induction false} LegalIsGood(parts: seq<Part>)
    requires parts != [] && AllLegal(parts)
    ensures var segs := SpellAll(parts); Legal(parts) <==> EmptyOnlyLast(segs) && Good(Classes(segs))
  {
    var segs := SpellAll(parts);
    var cs := Classes(segs);
    SpelledClasses(parts);
    EmptyOnlyLastIs(segs);
    NamesOnce(cs, parts);
    EndsGood(cs, parts);
    GoodIs(cs, parts);
  }

  function PartsOf(segs: seq<string>): (parts: seq<Part>)
    ensures |parts| == |segs| && forall i :: 0 <= i < |segs| ==> parts[i] == PartOf(segs[i])
  {
    if segs == [] then [] else PartsOf(segs[..|segs| - 1]) + [PartOf(segs[|segs| - 1])]
  }

  /** Good segments are legal parts. */
  lemma {:induction false} GoodIsLegal(segs: seq<string>)
    requires Plain(segs) && NoneBad(Classes(segs))
    ensures SpellAll(PartsOf(segs)) == segs && AllLegal(PartsOf(segs))
  {
    forall i | 0 <= i < |segs| ensures LegalPart(PartOf(segs[i])) && Spell(PartOf(segs[i])) == segs[i] {
      ClassAt(segs, i);
      assert Classes(segs)[i] in Classes(segs) && segs[i] in segs;
      PartIsLegal(segs[i]);
    }
  }

  /**
   A pattern may be registered if and only if it is spelled by legal parts: text without braces, `{$}`, `{name}` and
   `{name...}`, each name once, and the last but one of these, like an empty segment, only at the end.
   */
  lemma {:induction false} AcceptedExactly(pattern: string)
    ensures Accepted(pattern) <==> exists parts :: Legal(parts) && pattern == "/" + Join(SpellAll(parts), '/')
  {
    if Accepted(pattern) {
      SegmentsOf(pattern);
      var segs := Split(pattern[1..], '/');
      GoodHasNoneBad(Classes(segs));
      GoodIsLegal(segs);
      LegalIsGood(PartsOf(segs));
    }
    if parts :| Legal(parts) && pattern == "/" + Join(SpellAll(parts), '/') {
      SpelledClasses(parts);
      LegalIsGood(parts);
      PatternOf(SpellAll(parts));
    }
  }
}
