/**
 The durable event log and the client that pages backwards through it while it grows.
 */
module Pager {
  import opened Options
  import opened Arithmetic

  /** Ids sort by creation. */
  datatype Event = Event(id: nat, category: string, subjectType: string, subjectId: string)

  datatype Filter = Filter(category: Option<string>, subjectType: string, subjectId: string, before: Option<nat>, limit: int)

  datatype Page = Page(items: seq<Event>, next: Option<nat>)

  datatype Answer = Answered(page: Page) | NoSuchCategory

  const DEFAULT_LIMIT := 200

  // ---------------------------------------------------------------- one page

  predicate Matches(e: Event, f: Filter) {
    && (f.category.Some? ==> e.category == f.category.value)
    && (f.subjectType != "" && f.subjectId != "" ==> e.subjectType == f.subjectType && e.subjectId == f.subjectId)
    && (f.before.Some? ==> e.id < f.before.value)
  }

  /** The rows that match, newest first. */
  function Matching(log: seq<Event>, f: Filter): seq<Event> {
    if log == [] then []
    else
      var n := |log| - 1;
      (if Matches(log[n], f) then [log[n]] else []) + Matching(log[..n], f)
  }

  function Size(limit: int): nat { if limit <= 0 then DEFAULT_LIMIT else limit }

  function Take(s: seq<Event>, n: nat): seq<Event> { if n < |s| then s[..n] else s }

  function Rows(log: seq<Event>, f: Filter): seq<Event> { Take(Matching(log, f), Size(f.limit)) }

  function PageOf(log: seq<Event>, f: Filter): Page {
    var items := Rows(log, f);
    Page(items, if items != [] && (f.limit == 0 || |items| >= f.limit) then Some(items[|items| - 1].id) else None)
  }

  /** The request names a subject but never the type of one. */
  function Request(category: string, subjectId: string, before: Option<nat>, limit: int): Filter {
    Filter(if category == "" then None else Some(category), "", subjectId, before, limit)
  }

  /** What a request narrows the log to. */
  predicate Asked(e: Event, category: string, before: Option<nat>) {
    (category == "" || e.category == category) && (before.None? || e.id < before.value)
  }

  /** The newest rows that were asked for, newest first, and all of them if they are fewer than the limit. */
  ghost predicate AreNewest(items: seq<Event>, log: seq<Event>, category: string, before: Option<nat>, limit: int) {
    var size := if limit <= 0 then 200 else limit;
    && (forall e :: e in items ==> e in log && Asked(e, category, before))
    && (forall e, x :: e in log && Asked(e, category, before) && e !in items && x in items ==> e.id < x.id)
    && (forall e :: e in log && Asked(e, category, before) && e !in items ==> |items| == size)
    && |items| <= size && Descending(items)
  }

  /** A page has a cursor to its last item unless it has fewer items than the limit, or none. */
  ghost predicate IsPage(page: Page, log: seq<Event>, category: string, before: Option<nat>, limit: int) {
    && AreNewest(page.items, log, category, before, limit)
    && page.next == if page.items != [] && (limit <= 0 || |page.items| == limit)
                    then Some(page.items[|page.items| - 1].id) else None
  }

  lemma {:induction false} RowsAreNewest(log: seq<Event>, f: Filter, category: string, before: Option<nat>, limit: int)
    requires Ascending(log) && f.limit == limit && forall e :: Matches(e, f) <==> Asked(e, category, before)
    ensures AreNewest(Rows(log, f), log, category, before, limit)
  {
    var all, items := Matching(log, f), Rows(log, f);
    MatchingIsNewestFirst(log, f);
    assert forall i :: 0 <= i < |items| ==> items[i] == all[i];
    forall e | e in items ensures e in log && Asked(e, category, before) { TakenIsThere(all, items, e); }
    forall e, x | e in log && Asked(e, category, before) && e !in items && x in items ensures e.id < x.id {
      LeftIsLater(all, |items|, e);
      var i :| 0 <= i < |items| && items[i] == x;
    }
    forall e | e in log && Asked(e, category, before) && e !in items ensures |items| == Size(limit) {
      LeftIsLater(all, |items|, e);
    }
  }

  lemma {:induction false} TakenIsThere(all: seq<Event>, items: seq<Event>, e: Event)
    requires items <= all && e in items
    ensures e in all
  {
  }

  lemma {:induction false} LeftIsLater(all: seq<Event>, n: nat, e: Event)
    requires Descending(all) && n <= |all| && e in all && e !in all[..n]
    ensures n < |all| && forall i :: 0 <= i < n ==> e.id < all[i].id
  {
    var j :| 0 <= j < |all| && all[j] == e;
    assert j >= n;
  }

  lemma {:induction false} PageIsPage(log: seq<Event>, category: string, subjectId: string, before: Option<nat>, limit: int)
    requires Ascending(log)
    ensures IsPage(PageOf(log, Request(category, subjectId, before, limit)), log, category, before, limit)
  {
    RowsAreNewest(log, Request(category, subjectId, before, limit), category, before, limit);
  }

  method ListEvents(
    log: seq<Event>, categories: set<string>, category: string, subjectId: string, before: Option<nat>, limit: int)
    returns (answer: Answer)
    ensures answer == if category != "" && category !in categories then NoSuchCategory
                      else Answered(PageOf(log, Request(category, subjectId, before, limit)))
    ensures answer.Answered? && Ascending(log) ==> IsPage(answer.page, log, category, before, limit)
  {
    var f := Filter(None, "", subjectId, before, limit);
    if category != "" {
      if category !in categories { return NoSuchCategory; }
      f := f.(category := Some(category));
    }
    var items := Rows(log, f);
    var next := None;
    var n := |items|;
    if n > 0 && (f.limit == 0 || n >= f.limit) { next := Some(items[n - 1].id); }
    if Ascending(log) { PageIsPage(log, category, subjectId, before, limit); }
    return Answered(Page(items, next));
  }

  // ---------------------------------------------------------------- keyset paging

  predicate Ascending(log: seq<Event>) { forall i, j :: 0 <= i < j < |log| ==> log[i].id < log[j].id }

  function From(f: Filter, before: Option<nat>): Filter { f.(before := before) }

  /** A cursor below which everything of `log` lies changes nothing. */
  lemma {:induction false} CursorAbove(log: seq<Event>, f: Filter, b: Option<nat>, c: Option<nat>)
    requires forall e :: e in log ==> (b.Some? ==> e.id < b.value) && (c.Some? ==> e.id < c.value)
    ensures Matching(log, From(f, b)) == Matching(log, From(f, c))
  {
    if log != [] {
      var n := |log| - 1;
      assert log[n] in log;
      CursorAbove(log[..n], f, b, c);
    }
  }

  /** What is appended after the event at the cursor is not seen from the cursor. */
  lemma {:induction false} GrowthIsUnseen(log: seq<Event>, more: seq<Event>, f: Filter, cursor: nat)
    requires forall e :: e in more ==> cursor <= e.id
    ensures Matching(log + more, From(f, Some(cursor))) == Matching(log, From(f, Some(cursor)))
  {
    if more == [] {
      assert log + more == log;
    } else {
      var n := |more| - 1;
      assert (log + more)[..|log| + n] == log + more[..n];
      assert more[n] in more;
      GrowthIsUnseen(log, more[..n], f, cursor);
    }
  }

  lemma {:induction false} MatchingAreRows(log: seq<Event>, f: Filter)
    ensures forall e :: e in Matching(log, f) ==> e in log && Matches(e, f)
  {
    if log != [] { MatchingAreRows(log[..|log| - 1], f); }
  }

  lemma {:induction false} NewestDrops(log: seq<Event>, f: Filter, b: Option<nat>)
    requires log != [] && Ascending(log) && Matches(log[|log| - 1], From(f, b))
    ensures var n := |log| - 1;
      Matching(log, From(f, Some(log[n].id))) == Matching(log[..n], From(f, b))
  {
    var n := |log| - 1;
    CursorAbove(log[..n], f, b, Some(log[n].id));
  }

  /** One more row on top of a log changes nothing of what lies below a cursor in it. */
  lemma {:induction false} CursorStep(log: seq<Event>, f: Filter, b: Option<nat>, k: nat, cursor: nat)
    requires log != [] && cursor < log[|log| - 1].id
    requires var n := |log| - 1;
      var skip, rest := if Matches(log[n], From(f, b)) then 1 else 0, Matching(log[..n], From(f, b));
      && 0 < k - skip <= |rest| && rest[k - skip - 1].id == cursor
      && Matching(log[..n], From(f, Some(cursor))) == rest[k - skip..]
    ensures var all := Matching(log, From(f, b));
      0 < k <= |all| && all[k - 1].id == cursor && Matching(log, From(f, Some(cursor))) == all[k..]
  {
    var n := |log| - 1;
    var rest, below := Matching(log[..n], From(f, b)), Matching(log[..n], From(f, Some(cursor)));
    assert !Matches(log[n], From(f, Some(cursor)));
    assert Matching(log, From(f, Some(cursor))) == below;
    if Matches(log[n], From(f, b)) {
      assert Matching(log, From(f, b)) == [log[n]] + rest;
      assert ([log[n]] + rest)[k..] == rest[k - 1..];
    } else {
      assert Matching(log, From(f, b)) == rest;
    }
  }

  lemma {:induction false} MatchingIsBelow(log: seq<Event>, f: Filter, i: nat)
    requires Ascending(log) && log != [] && i < |Matching(log[..|log| - 1], f)|
    ensures Matching(log[..|log| - 1], f)[i].id < log[|log| - 1].id
  {
    var n := |log| - 1;
    MatchingAreRows(log[..n], f);
    assert Matching(log[..n], f)[i] in Matching(log[..n], f);
  }

  /** The matching rows below the k-th one are the ones that follow it. */
  lemma {:induction false} CursorDrops(log: seq<Event>, f: Filter, b: Option<nat>, k: nat)
    requires Ascending(log) && 0 < k <= |Matching(log, From(f, b))|
    ensures var all := Matching(log, From(f, b));
      Matching(log, From(f, Some(all[k - 1].id))) == all[k..]
  {
    var n := |log| - 1;
    if k == 1 && Matches(log[n], From(f, b)) {
      NewestDrops(log, f, b);
    } else {
      var skip, rest := if Matches(log[n], From(f, b)) then 1 else 0, Matching(log[..n], From(f, b));
      CursorDrops(log[..n], f, b, k - skip);
      MatchingIsBelow(log, From(f, b), k - skip - 1);
      CursorStep(log, f, b, k, rest[k - skip - 1].id);
    }
  }

  // ---------------------------------------------------------------- following the cursor

  /** At request `i` the log is `log(i)`; between requests it only grows, by events with higher ids. */
  ghost predicate Grows(log: nat -> seq<Event>) {
    forall i: nat :: Ascending(log(i)) && log(i) <= log(i + 1)
  }

  /** The pages of a client that starts at `before` with request `i`, follows every cursor, and may stop early. */
  ghost predicate Follows(pages: seq<Page>, log: nat -> seq<Event>, f: Filter, before: Option<nat>, i: nat)
    decreases |pages|
  {
    && pages != []
    && pages[0] == PageOf(log(i), From(f, before))
    && (|pages| > 1 ==> pages[0].next.Some? && Follows(pages[1..], log, f, pages[0].next, i + 1))
  }

  function Items(pages: seq<Page>): seq<Event> {
    if pages == [] then [] else pages[0].items + Items(pages[1..])
  }

  /** The requests that read `n` rows: with a limit the last page is not full, without one it is empty. */
  function Requests(n: nat, limit: int): nat {
    if n == 0 || n < limit then 1 else 1 + Requests(if n < Size(limit) then 0 else n - Size(limit), limit)
  }

  lemma {:induction false} DivMinus(a: nat, d: nat)
    requires 0 < d <= a
    ensures a / d == (a - d) / d + 1
  {
    var q := (a - d) / d;
    assert a - d == q * d + (a - d) % d;
    DivIs(a, d, q + 1, (a - d) % d);
  }

  /** In closed form: one request more than there are full pages, or, without a limit, than there are pages. */
  lemma {:induction false} RequestsAre(n: nat, limit: int)
    ensures limit > 0 ==> Requests(n, limit) == n / limit + 1
    ensures limit <= 0 ==> Requests(n, limit) == (n + DEFAULT_LIMIT - 1) / DEFAULT_LIMIT + 1
  {
    if limit > 0 {
      if n < limit {
        DivIs(n, limit, 0, n);
      } else {
        RequestsAre(n - limit, limit);
        DivMinus(n, limit);
      }
    } else if n > 0 {
      RequestsAre(if n < DEFAULT_LIMIT then 0 else n - DEFAULT_LIMIT, limit);
    }
  }

  /** From a cursor on, the next request sees the rest and nothing that came since. */
  lemma {:induction false} RestAfterPage(log: nat -> seq<Event>, f: Filter, before: Option<nat>, i: nat, k: nat)
    requires Grows(log) && 0 < k <= |Matching(log(i), From(f, before))|
    ensures var all := Matching(log(i), From(f, before));
      Matching(log(i + 1), From(f, Some(all[k - 1].id))) == all[k..]
  {
    var all := Matching(log(i), From(f, before));
    var cursor := all[k - 1].id;
    var now, more := log(i), log(i + 1)[|log(i)|..];
    assert log(i + 1) == now + more;
    MatchingAreRows(now, From(f, before));
    assert all[k - 1] in all && all[k - 1] in now;
    var at :| 0 <= at < |now| && now[at] == all[k - 1];
    forall e | e in more ensures cursor <= e.id {
      var j :| 0 <= j < |more| && more[j] == e;
      assert log(i + 1)[|now| + j] == e && log(i + 1)[at] == now[at];
      assert Ascending(log(i + 1));
    }
    GrowthIsUnseen(now, more, f, cursor);
    CursorDrops(now, f, before, k);
  }

  /** The rows that so many full pages hold. */
  function Span(pages: nat, limit: int): nat {
    if pages == 0 then 0 else Size(limit) + Span(pages - 1, limit)
  }

  lemma {:induction false} PagesCounted(pages: seq<Page>, log: nat -> seq<Event>, f: Filter, before: Option<nat>, i: nat)
    requires Grows(log) && Follows(pages, log, f, before, i)
    ensures var n := Requests(|Matching(log(i), From(f, before))|, f.limit);
      |pages| <= n && (pages[|pages| - 1].next.None? <==> |pages| == n)
    decreases |pages|
  {
    FirstPage(log(i), From(f, before));
    if |pages| > 1 {
      var rest := pages[1..];
      RestAfterPage(log, f, before, i, |pages[0].items|);
      PagesCounted(rest, log, f, pages[0].next, i + 1);
      assert rest[|rest| - 1] == pages[|pages| - 1];
    }
  }

  lemma {:induction false} PagesRead(pages: seq<Page>, log: nat -> seq<Event>, f: Filter, before: Option<nat>, i: nat)
    requires Grows(log) && Follows(pages, log, f, before, i)
    ensures Items(pages) == Take(Matching(log(i), From(f, before)), Span(|pages|, f.limit))
    decreases |pages|
  {
    var all := Matching(log(i), From(f, before));
    FirstPage(log(i), From(f, before));
    var k, rest := |pages[0].items|, pages[1..];
    if |pages| > 1 {
      RestAfterPage(log, f, before, i, k);
      PagesRead(rest, log, f, pages[0].next, i + 1);
    }
    JoinItems(pages, all, f.limit);
  }

  lemma {:induction false} JoinItems(pages: seq<Page>, all: seq<Event>, limit: int)
    requires pages != [] && pages[0].items == Take(all, Size(limit))
    requires |pages| > 1 ==> Items(pages[1..]) == Take(all[|pages[0].items|..], Span(|pages| - 1, limit))
    ensures Items(pages) == Take(all, Span(|pages|, limit))
  {
    var rest := pages[1..];
    if |pages| == 1 {
      assert Items(rest) == [] && Span(1, limit) == Size(limit);
    } else {
      JoinPages(all, |pages[0].items|, Size(limit), Span(|rest|, limit));
    }
  }

  lemma {:induction false} JoinPages(s: seq<Event>, k: nat, size: nat, more: nat)
    requires k == |Take(s, size)|
    ensures Take(s, size) + Take(s[k..], more) == Take(s, size + more)
  {
    if k < size { assert s[k..] == []; }
  }

  lemma {:induction false} FirstPage(log: seq<Event>, f: Filter)
    ensures var all, p, size := Matching(log, f), PageOf(log, f), Size(f.limit);
      && p.items == Take(all, size)
      && (p.next.None? <==> |all| == 0 || |all| < f.limit)
      && (p.next.Some? ==> p.items != [] && p.next.value == all[|p.items| - 1].id)
  {
  }

  lemma {:induction false} MatchingHasEach(log: seq<Event>, f: Filter, e: Event)
    requires e in log && Matches(e, f)
    ensures e in Matching(log, f)
  {
    var n := |log| - 1;
    if e != log[n] { MatchingHasEach(log[..n], f, e); }
  }

  predicate Descending(s: seq<Event>) { forall i, j :: 0 <= i < j < |s| ==> s[j].id < s[i].id }

  lemma {:induction false} MatchingDescends(log: seq<Event>, f: Filter)
    requires Ascending(log)
    ensures Descending(Matching(log, f))
  {
    if log != [] {
      var n := |log| - 1;
      MatchingDescends(log[..n], f);
      MatchingAreRows(log[..n], f);
      var rest := Matching(log[..n], f);
      assert forall i :: 0 <= i < |rest| ==> rest[i] in rest && rest[i] in log[..n];
      assert forall x :: x in log[..n] ==> x.id < log[n].id;
    }
  }

  /**
   A client that follows the cursor to its end sees every matching event that was there at its first request, newest
   first and each once, whatever is appended meanwhile, and needs exactly the requests counted by `Requests`.
   */
  lemma {:induction false} PagingIsExact(pages: seq<Page>, log: nat -> seq<Event>, f: Filter)
    requires Grows(log) && Follows(pages, log, f, None, 0)
    ensures var first := From(f, None); var all := Matching(log(0), first);
      && |pages| <= Requests(|all|, f.limit)
      && (pages[|pages| - 1].next.None? <==> |pages| == Requests(|all|, f.limit))
      && Items(pages) == Take(all, Span(|pages|, f.limit))
      && (pages[|pages| - 1].next.None? ==> Items(pages) == all)
  {
    var all := Matching(log(0), From(f, None));
    PagesCounted(pages, log, f, None, 0);
    PagesRead(pages, log, f, None, 0);
    EnoughRequests(|all|, f.limit);
  }

  /**
   `Matching` is every row of the log below the cursor, of the category and of the subject if its type is given too, from
   the newest to the oldest.
   */
  lemma {:induction false} MatchingIsNewestFirst(log: seq<Event>, f: Filter)
    requires Ascending(log)
    ensures Descending(Matching(log, f))
    ensures forall e :: e in Matching(log, f) <==>
      && e in log && (f.before.None? || e.id < f.before.value) && (f.category.None? || e.category == f.category.value)
      && (f.subjectType == "" || f.subjectId == "" || (e.subjectType == f.subjectType && e.subjectId == f.subjectId))
  {
    MatchingAreRows(log, f);
    MatchingDescends(log, f);
    forall e | e in log && Matches(e, f) ensures e in Matching(log, f) { MatchingHasEach(log, f, e); }
  }

  lemma {:induction false} EnoughRequests(n: nat, limit: int)
    ensures Span(Requests(n, limit), limit) >= n
  {
    if !(n == 0 || n < limit) {
      EnoughRequests(if n < Size(limit) then 0 else n - Size(limit), limit);
    } else {
      assert Span(1, limit) == Size(limit);
    }
  }

  /** The subject of a request narrows nothing: the store looks at it only together with a type. */
  lemma {:induction false} SubjectIsIgnored(
    log: seq<Event>, category: string, subjectId: string, before: Option<nat>, limit: int)
    ensures PageOf(log, Request(category, subjectId, before, limit)) == PageOf(log, Request(category, "", before, limit))
  {
    SameMatching(log, Request(category, subjectId, before, limit), Request(category, "", before, limit));
  }

  lemma {:induction false} SameMatching(log: seq<Event>, f: Filter, g: Filter)
    requires forall e :: Matches(e, f) <==> Matches(e, g)
    ensures Matching(log, f) == Matching(log, g)
  {
    if log != [] { SameMatching(log[..|log| - 1], f, g); }
  }
}
