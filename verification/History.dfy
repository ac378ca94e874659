/** Cursor paging of a conversation's history (`getConversationMessages`,
    server/conversations.go). The database is a set of rows (the id is a primary key)
    and a query result is any sequence its ORDER BY and LIMIT admit, so rows with equal
    timestamps may come in any order and may fall on either side of the limit. */
module History {

  datatype Message = Message(id: string, conversation: string, at: int, content: string)

  datatype Cursor = Start | Before(at: int)

  /** One step of the row iterator: a row, or one that cannot be scanned. */
  datatype Fetched = Row(m: Message) | ScanError

  datatype Outcome = Page(messages: seq<Message>) | Failed

  function Elems(s: seq<Message>): set<Message> { set m | m in s }

  ghost predicate Distinct(s: seq<Message>) {
    forall i, j :: 0 <= i < j < |s| ==> s[i] != s[j]
  }

  ghost predicate Ascending(s: seq<Message>) {
    forall i, j :: 0 <= i < j < |s| ==> s[i].at <= s[j].at
  }

  ghost predicate Descending(s: seq<Message>) {
    forall i, j :: 0 <= i < j < |s| ==> s[i].at >= s[j].at
  }

  function Older(table: set<Message>, conv: string, before: int): set<Message> {
    set m | m in table && m.conversation == conv && m.at < before
  }

  function All(table: set<Message>, conv: string): set<Message> {
    set m | m in table && m.conversation == conv
  }

  function Limit(limit: int): nat { if limit <= 0 then 50 else limit }

  /** As many distinct rows of `from` as the limit allows. */
  ghost predicate Limited(from: set<Message>, limit: nat, s: seq<Message>) {
    Distinct(s) && Elems(s) <= from && |s| == (if limit <= |from| then limit else |from|)
  }

  /** ORDER BY created_at DESC LIMIT n. */
  ghost predicate NewestFirst(from: set<Message>, limit: nat, s: seq<Message>) {
    && Limited(from, limit, s) && Descending(s)
    && forall m, x :: m in from && m !in s && x in s ==> m.at <= x.at
  }

  /** ORDER BY created_at ASC LIMIT n. */
  ghost predicate OldestFirst(from: set<Message>, limit: nat, s: seq<Message>) {
    && Limited(from, limit, s) && Ascending(s)
    && forall m, x :: m in from && m !in s && x in s ==> x.at <= m.at
  }

  /** The newest rows of `from`, in chronological order. */
  ghost predicate NewestPage(from: set<Message>, limit: nat, s: seq<Message>) {
    && Limited(from, limit, s) && Ascending(s)
    && forall m, x :: m in from && m !in s && x in s ==> m.at <= x.at
  }

  function Rows(fs: seq<Fetched>): seq<Message>
    requires ScanError !in fs
  {
    seq(|fs|, i requires 0 <= i < |fs| => fs[i].m)
  }

  function Reversed(s: seq<Message>): seq<Message> {
    seq(|s|, i requires 0 <= i < |s| => s[|s| - 1 - i])
  }

  method ReverseInPlace(a: array<Message>)
    modifies a
    ensures a[..] == Reversed(old(a[..]))
  {
    var n, i := a.Length, 0;
    while i < n - 1 - i
      invariant 0 <= i <= n && 2 * i <= n + 1
      invariant forall k :: 0 <= k < i && k < n ==> a[k] == old(a[n - 1 - k]) && a[n - 1 - k] == old(a[k])
      invariant forall k :: i <= k < n - i ==> a[k] == old(a[k])
    {
      var j := n - 1 - i;
      a[i], a[j] := a[j], a[i];
      i := i + 1;
    }
  }

  lemma ReversedPage(from: set<Message>, limit: nat, s: seq<Message>)
    requires NewestFirst(from, limit, s)
    ensures NewestPage(from, limit, Reversed(s))
  {
    var r := Reversed(s);
    forall m ensures m in r <==> m in s {
      if m in s {
        var i :| 0 <= i < |s| && s[i] == m;
        assert r[|s| - 1 - i] == m;
      }
    }
    assert Elems(r) == Elems(s);
  }

  /** What the database does with a query: refuses it, or yields rows and then ends the
      iteration, with or without an error. */
  datatype Query = Refused | Yields(fetched: seq<Fetched>, endError: bool)

  predicate Clean(q: Query) { q.Yields? && ScanError !in q.fetched && !q.endError }

  /** Only a clean result is bound by ORDER BY and LIMIT. A page from a cursor is the
      newest of the older messages, chronological; without a cursor it is the oldest
      ones; a refused query, one bad row or an iteration cut short fails the whole call. */
  method GetConversationMessages(table: set<Message>, conv: string, limit: int, cursor: Cursor, q: Query)
    returns (r: Outcome)
    requires Clean(q) && cursor.Before? ==>
               NewestFirst(Older(table, conv, cursor.at), Limit(limit), Rows(q.fetched))
    requires Clean(q) && cursor.Start? ==> OldestFirst(All(table, conv), Limit(limit), Rows(q.fetched))
    ensures r.Page? <==> Clean(q)
    ensures r.Page? && cursor.Before? ==> NewestPage(Older(table, conv, cursor.at), Limit(limit), r.messages)
    ensures r.Page? && cursor.Start? ==> OldestFirst(All(table, conv), Limit(limit), r.messages)
  {
    if q.Refused? {
      return Failed;
    }
    var fetched := q.fetched;
    var messages: seq<Message> := [];
    for i := 0 to |fetched|
      invariant ScanError !in fetched[..i]
      invariant |messages| == i && forall k :: 0 <= k < i ==> fetched[k].Row? && messages[k] == fetched[k].m
    {
      if fetched[i].ScanError? {
        return Failed;
      }
      messages := messages + [fetched[i].m];
    }
    assert fetched[..|fetched|] == fetched;
    assert messages == Rows(fetched);
    if cursor.Before? && |messages| > 0 {
      var a := new Message[|messages|](i requires 0 <= i < |messages| => messages[i]);
      assert a[..] == messages;
      ReverseInPlace(a);
      messages := a[..];
    }
    if q.endError {
      return Failed;
    }
    if cursor.Before? { ReversedPage(Older(table, conv, cursor.at), Limit(limit), Rows(fetched)); }
    r := Page(messages);
  }

  // ---------------------------------------------------------------------- walks

  /** Pages asked for one after the other, each from the oldest timestamp of the one
      before, none of them empty. */
  ghost predicate Walk(table: set<Message>, conv: string, limit: int, before: int, pages: seq<seq<Message>>)
    decreases |pages|
  {
    pages == [] ||
    (&& NewestPage(Older(table, conv, before), Limit(limit), pages[0]) && pages[0] != []
     && Walk(table, conv, limit, pages[0][0].at, pages[1..]))
  }

  /** A walk that goes on until nothing is older. */
  ghost predicate CompleteWalk(table: set<Message>, conv: string, limit: int, before: int, pages: seq<seq<Message>>)
    decreases |pages|
  {
    if pages == [] then Older(table, conv, before) == {}
    else && NewestPage(Older(table, conv, before), Limit(limit), pages[0]) && pages[0] != []
         && CompleteWalk(table, conv, limit, pages[0][0].at, pages[1..])
  }

  /** Everything the walk has shown, in chronological order. */
  function Joined(pages: seq<seq<Message>>): seq<Message> {
    if pages == [] then [] else Joined(pages[1..]) + pages[0]
  }

  /** Messages that share a page's oldest timestamp but did not fit on it. */
  function Ties(table: set<Message>, conv: string, before: int, page: seq<Message>): set<Message>
    requires page != []
  {
    set m | m in Older(table, conv, before) && m.at == page[0].at && m !in page
  }

  /** What the pages of a walk leave behind, for the next cursor to step over. */
  ghost function Skipped(table: set<Message>, conv: string, before: int, pages: seq<seq<Message>>): set<Message>
    requires forall i :: 0 <= i < |pages| ==> pages[i] != []
    decreases |pages|
  {
    if pages == [] then {}
    else
      Ties(table, conv, before, pages[0]) + Skipped(table, conv, pages[0][0].at, pages[1..])
  }

  lemma PageSplits(table: set<Message>, conv: string, limit: int, before: int, page: seq<Message>)
    requires NewestPage(Older(table, conv, before), Limit(limit), page) && page != []
    ensures var rest := Older(table, conv, page[0].at);
            var ties := Ties(table, conv, before, page);
            && Older(table, conv, before) == Elems(page) + ties + rest
            && Elems(page) !! ties !! rest
            && |rest| < |Older(table, conv, before)|
    ensures Ascending(page) && Distinct(page)
    ensures forall m, x :: m in Older(table, conv, page[0].at) && x in page ==> m.at < x.at
  {
    var older := Older(table, conv, before);
    var rest := Older(table, conv, page[0].at);
    assert page[0] in Elems(page);
    assert page[0].at < before;
    forall m | m in Elems(page) ensures m.at >= page[0].at {
      var i :| 0 <= i < |page| && page[i] == m;
    }
    assert rest <= older - {page[0]};
    Smaller(rest, older - {page[0]});
    assert |older - {page[0]}| == |older| - 1;
  }

  lemma {:induction false} Smaller(a: set<Message>, b: set<Message>)
    requires a <= b
    ensures |a| <= |b|
    decreases |a|
  {
    if a != {} {
      var x :| x in a;
      Smaller(a - {x}, b - {x});
    }
  }

  /** A walk cannot go on for ever: every page asked for makes the rest smaller. */
  lemma {:induction false} WalkTerminates(table: set<Message>, conv: string, limit: int, before: int,
                                          pages: seq<seq<Message>>)
    requires Walk(table, conv, limit, before, pages)
    ensures |pages| <= |Older(table, conv, before)|
    decreases |pages|
  {
    if pages != [] {
      PageSplits(table, conv, limit, before, pages[0]);
      WalkTerminates(table, conv, limit, pages[0][0].at, pages[1..]);
    }
  }

  /** While something is older, the next page shows some of it. */
  lemma PageShowsSomething(table: set<Message>, conv: string, limit: int, before: int, page: seq<Message>)
    requires NewestPage(Older(table, conv, before), Limit(limit), page)
    ensures page == [] <==> Older(table, conv, before) == {}
  {}

  lemma Regroup(page: set<Message>, ties: set<Message>, shown: set<Message>, skipped: set<Message>)
    requires page !! ties !! (shown + skipped) && shown !! skipped
    ensures (shown + page) + (ties + skipped) == page + ties + (shown + skipped)
    ensures (shown + page) !! (ties + skipped)
  {}

  lemma Appended(s: seq<Message>, page: seq<Message>)
    requires Ascending(s) && Distinct(s) && Ascending(page) && Distinct(page)
    requires forall m, x :: m in s && x in page ==> m.at < x.at
    ensures Ascending(s + page) && Distinct(s + page) && Elems(s + page) == Elems(s) + Elems(page)
  {
    var joined := s + page;
    forall i, j | 0 <= i < j < |joined| ensures joined[i].at <= joined[j].at && joined[i] != joined[j] {
      if i < |s| <= j {
        assert joined[i] in s && joined[j] in page;
      }
    }
  }

  lemma {:induction false} NoEmptyPage(table: set<Message>, conv: string, limit: int, before: int,
                                       pages: seq<seq<Message>>)
    requires CompleteWalk(table, conv, limit, before, pages)
    ensures forall i :: 0 <= i < |pages| ==> pages[i] != []
    decreases |pages|
  {
    if pages != [] {
      NoEmptyPage(table, conv, limit, pages[0][0].at, pages[1..]);
      forall i | 0 < i < |pages| ensures pages[i] != [] { assert pages[1..][i - 1] != []; }
    }
  }

  /** A finished walk shows every older message once, in chronological order, except
      precisely those that share a page's oldest timestamp and did not fit on it. */
  lemma {:induction false} WalkShowsOlder(table: set<Message>, conv: string, limit: int, before: int,
                                          pages: seq<seq<Message>>)
    requires CompleteWalk(table, conv, limit, before, pages)
    requires forall i :: 0 <= i < |pages| ==> pages[i] != []
    ensures Ascending(Joined(pages)) && Distinct(Joined(pages))
    ensures Elems(Joined(pages)) + Skipped(table, conv, before, pages) == Older(table, conv, before)
    ensures Elems(Joined(pages)) !! Skipped(table, conv, before, pages)
    decreases |pages|
  {
    if pages != [] {
      var page, rest := pages[0], Joined(pages[1..]);
      WalkShowsOlder(table, conv, limit, page[0].at, pages[1..]);
      PageSplits(table, conv, limit, before, page);
      forall m | m in rest ensures m in Older(table, conv, page[0].at) { assert m in Elems(rest); }
      Appended(rest, page);
      Regroup(Elems(page), Ties(table, conv, before, page), Elems(rest), Skipped(table, conv, page[0].at, pages[1..]));
    }
  }

  ghost predicate OneATime(from: set<Message>) {
    forall m, n :: m in from && n in from && m.at == n.at ==> m == n
  }

  lemma NoTies(table: set<Message>, conv: string, before: int, page: seq<Message>)
    requires page != [] && page[0] in Older(table, conv, before)
    requires OneATime(Older(table, conv, before))
    ensures Ties(table, conv, before, page) == {}
  {}

  lemma {:induction false} DistinctTimesSkipNothing(table: set<Message>, conv: string, limit: int, before: int,
                                                    pages: seq<seq<Message>>)
    requires CompleteWalk(table, conv, limit, before, pages)
    requires forall i :: 0 <= i < |pages| ==> pages[i] != []
    requires OneATime(Older(table, conv, before))
    ensures Skipped(table, conv, before, pages) == {}
    decreases |pages|
  {
    if pages != [] {
      assert pages[0][0] in Elems(pages[0]);
      assert pages[0][0] in Older(table, conv, before);
      NoTies(table, conv, before, pages[0]);
      DistinctTimesSkipNothing(table, conv, limit, pages[0][0].at, pages[1..]);
    }
  }

  /** With one message a timestamp the pages join to exactly the older history. */
  lemma DistinctTimesLoseNothing(table: set<Message>, conv: string, limit: int, before: int, pages: seq<seq<Message>>)
    requires CompleteWalk(table, conv, limit, before, pages)
    requires OneATime(Older(table, conv, before))
    ensures Elems(Joined(pages)) == Older(table, conv, before)
    ensures Ascending(Joined(pages)) && Distinct(Joined(pages))
  {
    NoEmptyPage(table, conv, limit, before, pages);
    DistinctTimesSkipNothing(table, conv, limit, before, pages);
    WalkShowsOlder(table, conv, limit, before, pages);
  }

  // ------------------------------------------------- what a walk loses, beforehand

  function NotBefore(from: set<Message>, t: int): set<Message> { set m | m in from && m.at >= t }

  ghost function Latest(from: set<Message>): (m: Message)
    requires from != {}
    ensures m in from && forall x :: x in from ==> x.at <= m.at
  {
    var x :| x in from;
    if from == {x} then x
    else
      var m := Latest(from - {x});
      if m.at >= x.at then m else x
  }

  /** One way to choose the page. */
  ghost function SomePage(from: set<Message>, limit: nat): seq<Message>
    decreases limit
  {
    if limit == 0 || from == {} then [] else SomePage(from - {Latest(from)}, limit - 1) + [Latest(from)]
  }

  /** The newest of all behind a page of the others. */
  lemma LatestLast(from: set<Message>, m: Message, rest: seq<Message>, limit: nat)
    requires m in from && limit > 0 && forall x :: x in from ==> x.at <= m.at
    requires NewestPage(from - {m}, limit - 1, rest)
    ensures NewestPage(from, limit, rest + [m])
  {
    var s := rest + [m];
    assert |from - {m}| == |from| - 1;
    forall i | 0 <= i < |rest| ensures rest[i] in from - {m} { assert rest[i] in Elems(rest); }
    assert Elems(s) == Elems(rest) + {m};
    assert Distinct(s) && Ascending(s);
    forall x, y | x in from && x !in s && y in s ensures x.at <= y.at {
      assert x in from - {m} && x !in rest && (y in rest || y == m);
    }
  }

  lemma {:induction false} SomePageIsOne(from: set<Message>, limit: nat)
    ensures NewestPage(from, limit, SomePage(from, limit))
    decreases limit
  {
    if limit > 0 && from != {} {
      SomePageIsOne(from - {Latest(from)}, limit - 1);
      LatestLast(from, Latest(from), SomePage(from - {Latest(from)}, limit - 1), limit);
    }
  }

  lemma {:induction false} DistinctCount(s: seq<Message>)
    requires Distinct(s)
    ensures |Elems(s)| == |s|
  {
    if s != [] {
      var front, last := s[..|s| - 1], s[|s| - 1];
      DistinctCount(front);
      assert Elems(s) == Elems(front) + {last} && last !in Elems(front);
    }
  }

  /** However ties are broken, a page goes back to the same time and cuts off the same
      number of messages of that time. */
  lemma PageCut(from: set<Message>, limit: nat, page: seq<Message>)
    requires NewestPage(from, limit, page) && page != []
    ensures page[0] in from && |Elems(page)| == |page|
    ensures Elems(page) <= NotBefore(from, page[0].at)
    ensures forall m :: m in from && m.at > page[0].at ==> m in page
  {
    DistinctCount(page);
    assert page[0] in Elems(page);
    forall m | m in Elems(page) ensures m in NotBefore(from, page[0].at) {
      var i :| 0 <= i < |page| && page[i] == m;
    }
  }

  lemma SameEnd(from: set<Message>, limit: nat, page: seq<Message>, other: seq<Message>)
    requires NewestPage(from, limit, page) && NewestPage(from, limit, other) && page != []
    ensures other != [] && other[0].at == page[0].at && |other| == |page|
  {
    PageCut(from, limit, page);
    PageCut(from, limit, other);
    NoLater(from, limit, page, other);
    NoLater(from, limit, other, page);
  }

  lemma NoLater(from: set<Message>, limit: nat, page: seq<Message>, other: seq<Message>)
    requires NewestPage(from, limit, page) && NewestPage(from, limit, other) && page != [] && other != []
    ensures page[0].at <= other[0].at
  {
    if page[0].at > other[0].at {
      PageCut(from, limit, page);
      PageCut(from, limit, other);
      forall m | m in Elems(page) ensures m in Elems(other) - {other[0]} {
        assert m in NotBefore(from, page[0].at) && m.at > other[0].at;
      }
      assert |Elems(other) - {other[0]}| == |other| - 1 by { assert other[0] in Elems(other); }
      Smaller(Elems(page), Elems(other) - {other[0]});
    }
  }

  /** The time a page from this cursor goes back to. */
  ghost function PageEnd(table: set<Message>, conv: string, limit: int, before: int): (t: int)
    requires Older(table, conv, before) != {}
    ensures t < before && |Older(table, conv, t)| < |Older(table, conv, before)|
  {
    var page := SomePage(Older(table, conv, before), Limit(limit));
    SomePageIsOne(Older(table, conv, before), Limit(limit));
    PageSplits(table, conv, limit, before, page);
    assert page[0] in Elems(page);
    page[0].at
  }

  /** How many messages a walk from here loses, as the table alone determines it: at every
      page end, those of that time that are over the limit. */
  ghost function Lost(table: set<Message>, conv: string, limit: int, before: int): nat
    decreases |Older(table, conv, before)|
  {
    var older := Older(table, conv, before);
    if older == {} then 0
    else
      var end := PageEnd(table, conv, limit, before);
      Over(|NotBefore(older, end)|, Limit(limit)) + Lost(table, conv, limit, end)
  }

  function Over(n: nat, limit: nat): nat { if n > limit then n - limit else 0 }

  lemma TiesAreOver(table: set<Message>, conv: string, limit: int, before: int, page: seq<Message>)
    requires NewestPage(Older(table, conv, before), Limit(limit), page) && page != []
    ensures PageEnd(table, conv, limit, before) == page[0].at
    ensures |Ties(table, conv, before, page)| == Over(|NotBefore(Older(table, conv, before), page[0].at)|, Limit(limit))
  {
    var older, ties := Older(table, conv, before), Ties(table, conv, before, page);
    SomePageIsOne(older, Limit(limit));
    SameEnd(older, Limit(limit), page, SomePage(older, Limit(limit)));
    PageCut(older, Limit(limit), page);
    assert NotBefore(older, page[0].at) == Elems(page) + ties && Elems(page) !! ties;
    Smaller(NotBefore(older, page[0].at), older);
  }

  /** However the database breaks ties, every finished walk loses the same number. */
  lemma {:induction false} WalkLoses(table: set<Message>, conv: string, limit: int, before: int,
                                     pages: seq<seq<Message>>)
    requires CompleteWalk(table, conv, limit, before, pages)
    requires forall i :: 0 <= i < |pages| ==> pages[i] != []
    ensures |Skipped(table, conv, before, pages)| == Lost(table, conv, limit, before)
    decreases |pages|
  {
    if pages != [] {
      var page := pages[0];
      var ties, rest := Ties(table, conv, before, page), Skipped(table, conv, page[0].at, pages[1..]);
      assert page[0] in Elems(page);
      TiesAreOver(table, conv, limit, before, page);
      WalkLoses(table, conv, limit, page[0].at, pages[1..]);
      WalkShowsOlder(table, conv, limit, page[0].at, pages[1..]);
      PageSplits(table, conv, limit, before, page);
      assert ties !! rest;
    }
  }

  /** A finished walk shows the whole older history if and only if no page end cuts
      through a group of messages of one time; `Lost` says so from the table. Otherwise
      it shows that many fewer. */
  lemma WalkShowsAllIff(table: set<Message>, conv: string, limit: int, before: int, pages: seq<seq<Message>>)
    requires CompleteWalk(table, conv, limit, before, pages)
    ensures Ascending(Joined(pages)) && Distinct(Joined(pages)) && Elems(Joined(pages)) <= Older(table, conv, before)
    ensures |Joined(pages)| == |Older(table, conv, before)| - Lost(table, conv, limit, before)
    ensures Elems(Joined(pages)) == Older(table, conv, before) <==> Lost(table, conv, limit, before) == 0
  {
    NoEmptyPage(table, conv, limit, before, pages);
    WalkShowsOlder(table, conv, limit, before, pages);
    WalkLoses(table, conv, limit, before, pages);
    DistinctCount(Joined(pages));
  }

  /** There always is a finished walk. */
  lemma {:induction false} WalkExists(table: set<Message>, conv: string, limit: int, before: int)
    returns (pages: seq<seq<Message>>)
    ensures CompleteWalk(table, conv, limit, before, pages)
    decreases |Older(table, conv, before)|
  {
    pages := [];
    if Older(table, conv, before) != {} {
      var page := SomePage(Older(table, conv, before), Limit(limit));
      SomePageIsOne(Older(table, conv, before), Limit(limit));
      PageSplits(table, conv, limit, before, page);
      var rest := WalkExists(table, conv, limit, page[0].at);
      pages := [page] + rest;
      assert pages[1..] == rest;
    }
  }

  /** More messages of one time than fit on a page always cost some, wherever the walk
      starts: a batch, which stores all its rows with one time, is such a group. */
  lemma {:induction false} CrowdedTimeIsCut(table: set<Message>, conv: string, limit: int, before: int, t: int)
    requires |set m | m in Older(table, conv, before) && m.at == t| > Limit(limit)
    ensures Lost(table, conv, limit, before) > 0
    decreases |Older(table, conv, before)|
  {
    var older, crowd := Older(table, conv, before), set m | m in Older(table, conv, before) && m.at == t;
    Smaller(crowd, older);
    var end := PageEnd(table, conv, limit, before);
    if end <= t {
      Smaller(crowd, NotBefore(older, end));
    } else {
      assert crowd == set m | m in Older(table, conv, end) && m.at == t;
      CrowdedTimeIsCut(table, conv, limit, end, t);
    }
  }

  /** Two messages at one time, pages of one: the second is never shown. */
  lemma TiesCanBeLost(a: Message, b: Message)
    requires a != b && a.at == b.at && a.conversation == b.conversation
    ensures CompleteWalk({a, b}, a.conversation, 1, a.at + 1, [[a]]) && b !in Joined([[a]])
  {
    var table, conv, pages := {a, b}, a.conversation, [[a]];
    assert Older(table, conv, a.at + 1) == table;
    assert Older(table, conv, a.at) == {};
    assert pages[1..] == [] && Joined(pages) == [a];
    assert a in [a] && Elems([a]) == {a};
    assert CompleteWalk(table, conv, 1, a.at, pages[1..]);
  }
}
