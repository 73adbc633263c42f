/** `sort.Strings` and `sort.SliceStable`: what they return is fixed by what is sorted. */
module Sorting {

  ghost predicate Preorder<T(!new)>(leq: (T, T) -> bool) {
    && (forall a, b :: leq(a, b) || leq(b, a))
    && (forall a, b, c :: leq(a, b) && leq(b, c) ==> leq(a, c))
  }

  /** No two of the elements are tied. */
  predicate Untied<T(==)>(s: seq<T>, leq: (T, T) -> bool) {
    forall a, b :: a in s && b in s && leq(a, b) && leq(b, a) ==> a == b
  }

  predicate IsSorted<T>(s: seq<T>, leq: (T, T) -> bool) {
    forall i, j :: 0 <= i < j < |s| ==> leq(s[i], s[j])
  }

  function Insert<T(!new)>(x: T, s: seq<T>, leq: (T, T) -> bool): (r: seq<T>)
    ensures multiset(r) == multiset{x} + multiset(s)
  {
    if s == [] then [x]
    else if leq(x, s[0]) then [x] + s
    else
      assert s == [s[0]] + s[1..];
      [s[0]] + Insert(x, s[1..], leq)
  }

  function Sort<T(!new)>(s: seq<T>, leq: (T, T) -> bool): (r: seq<T>)
    ensures multiset(r) == multiset(s)
  {
    if s == [] then []
    else
      assert s == [s[0]] + s[1..];
      Insert(s[0], Sort(s[1..], leq), leq)
  }

  lemma {:induction false} MemberOfMultiset<T>(s: seq<T>, x: T)
    ensures x in s <==> x in multiset(s)
  {
  }

  lemma {:induction false} InsertIsSorted<T(!new)>(x: T, s: seq<T>, leq: (T, T) -> bool)
    requires Preorder(leq) && IsSorted(s, leq)
    ensures IsSorted(Insert(x, s, leq), leq)
  {
    if s != [] && !leq(x, s[0]) {
      var rest := Insert(x, s[1..], leq);
      InsertIsSorted(x, s[1..], leq);
      forall y | y in rest ensures leq(s[0], y) {
        MemberOfMultiset(rest, y);
        MemberOfMultiset(s[1..], y);
      }
    }
  }

  lemma {:induction false} SortIsSorted<T(!new)>(s: seq<T>, leq: (T, T) -> bool)
    requires Preorder(leq)
    ensures IsSorted(Sort(s, leq), leq)
  {
    if s != [] {
      SortIsSorted(s[1..], leq);
      InsertIsSorted(s[0], Sort(s[1..], leq), leq);
    }
  }

  lemma {:induction false} HeadIsLeast<T(!new)>(s: seq<T>, leq: (T, T) -> bool, x: T)
    requires Preorder(leq) && IsSorted(s, leq) && x in s
    ensures leq(s[0], x)
  {
    var i :| 0 <= i < |s| && s[i] == x;
    assert leq(s[0], s[0]);
  }

  lemma {:induction false} TailOf<T>(s: seq<T>)
    requires s != []
    ensures multiset(s[1..]) == multiset(s) - multiset{s[0]} && forall x :: x in s[1..] ==> x in s
  {
    assert s == [s[0]] + s[1..];
  }

  lemma {:induction false} SortedIsUnique<T(!new)>(a: seq<T>, b: seq<T>, leq: (T, T) -> bool)
    requires Preorder(leq) && Untied(a, leq) && IsSorted(a, leq) && IsSorted(b, leq) && multiset(a) == multiset(b)
    ensures a == b
  {
    assert |a| == |multiset(a)| == |multiset(b)| == |b|;
    if a != [] {
      MemberOfMultiset(b, a[0]);
      MemberOfMultiset(a, b[0]);
      HeadIsLeast(a, leq, b[0]);
      HeadIsLeast(b, leq, a[0]);
      TailOf(a);
      TailOf(b);
      SortedIsUnique(a[1..], b[1..], leq);
    }
  }

  /** Whatever order the elements come in, sorting gives the same list. */
  lemma {:induction false} SortForgetsOrder<T(!new)>(a: seq<T>, b: seq<T>, leq: (T, T) -> bool)
    requires Preorder(leq) && Untied(a, leq) && multiset(a) == multiset(b)
    ensures Sort(a, leq) == Sort(b, leq)
  {
    SortIsSorted(a, leq);
    SortIsSorted(b, leq);
    forall x | x in Sort(a, leq) ensures x in a {
      MemberOfMultiset(Sort(a, leq), x);
      MemberOfMultiset(a, x);
    }
    SortedIsUnique(Sort(a, leq), Sort(b, leq), leq);
  }

  // ---------------------------------------------------------------- strings

  /** The order of the bytes of two UTF-8 strings is the order of their characters. */
  predicate Leq(a: string, b: string) {
    a == "" || (b != "" && (a[0] < b[0] || (a[0] == b[0] && Leq(a[1..], b[1..]))))
  }

  lemma {:induction false} LeqTotal(a: string, b: string)
    ensures Leq(a, b) || Leq(b, a)
    ensures Leq(a, b) && Leq(b, a) ==> a == b
  {
    if a != "" && b != "" && a[0] == b[0] {
      LeqTotal(a[1..], b[1..]);
      assert a == [a[0]] + a[1..] && b == [b[0]] + b[1..];
    }
  }

  lemma {:induction false} LeqTransitive(a: string, b: string, c: string)
    requires Leq(a, b) && Leq(b, c)
    ensures Leq(a, c)
  {
    if a != "" && a[0] == b[0] == c[0] { LeqTransitive(a[1..], b[1..], c[1..]); }
  }

  lemma {:induction false} StringOrder()
    ensures Preorder(Leq) && forall a, b :: Leq(a, b) && Leq(b, a) ==> a == b
  {
    forall a, b ensures (Leq(a, b) || Leq(b, a)) && (Leq(a, b) && Leq(b, a) ==> a == b) { LeqTotal(a, b); }
    forall a, b, c | Leq(a, b) && Leq(b, c) ensures Leq(a, c) { LeqTransitive(a, b, c); }
  }

  function SortStrings(s: seq<string>): (r: seq<string>)
    ensures multiset(r) == multiset(s)
  {
    Sort(s, Leq)
  }

  /** The elements of a set, in an order that stands for the order a map is ranged over. */
  ghost function Listed<T(!new)>(s: set<T>): (r: seq<T>)
    ensures multiset(r) == multiset(s)
  {
    if s == {} then []
    else
      var x :| x in s;
      assert s == {x} + (s - {x});
      [x] + Listed(s - {x})
  }

  ghost function SortSet(s: set<string>): (r: seq<string>)
    ensures multiset(r) == multiset(s)
  {
    SortStrings(Listed(s))
  }

  /** A set collected in any order and sorted. */
  lemma {:induction false} SortOfAnyOrder(order: seq<string>, s: set<string>)
    requires multiset(order) == multiset(s)
    ensures SortStrings(order) == SortSet(s)
  {
    StringOrder();
    SortForgetsOrder(order, Listed(s), Leq);
  }

  /** Ranging over a set in no particular order. */
  method Collect(s: set<string>) returns (out: seq<string>)
    ensures multiset(out) == multiset(s)
  {
    var rest := s;
    out := [];
    while rest != {}
      invariant rest <= s && multiset(out) == multiset(s - rest)
      decreases rest
    {
      var u :| u in rest;
      assert s - (rest - {u}) == (s - rest) + {u};
      rest := rest - {u};
      out := out + [u];
    }
    assert s - rest == s;
  }

  lemma {:induction false} MembersOfSortSet(s: set<string>, x: string)
    ensures x in SortSet(s) <==> x in s
  {
    MemberOfMultiset(SortSet(s), x);
  }

  lemma {:induction false} MembersOfSort(s: seq<string>, x: string)
    ensures x in SortStrings(s) <==> x in s
  {
    MemberOfMultiset(SortStrings(s), x);
    MemberOfMultiset(s, x);
  }
}
