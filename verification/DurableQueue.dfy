/** The offline queue and its table `offline_queue` together (server/queue_persist.go),
    through crashes. Enqueue with its insert is one step, and so is Drain with its
    delete, since the code holds no lock across the two. */
module DurableQueue {
  import opened Common
  import opened OfflineQueue

  /** A queued message, when it was first queued, and whether its own insert worked. The
      bytes carry neither: a reload stamps the memory copy afresh, and nothing remembers a
      failed insert. They are what the claims are about. */
  datatype Letter<T> = Letter(content: T, first: int, saved: bool)

  /** A row, in insertion (id) order; the stored time is in whole seconds. */
  datatype Row<T> = Row(recipient: string, letter: Letter<T>, seconds: int)

  function Of<T>(table: seq<Row<T>>, r: string): seq<Letter<T>> {
    if table == [] then []
    else
      var (front, last) := (Of(table[..|table| - 1], r), table[|table| - 1]);
      if last.recipient == r then front + [last.letter] else front
  }

  function WithoutRecipient<T>(table: seq<Row<T>>, r: string): seq<Row<T>> {
    if table == [] then []
    else
      var (front, last) := (WithoutRecipient(table[..|table| - 1], r), table[|table| - 1]);
      if last.recipient == r then front else front + [last]
  }

  /** DELETE ... WHERE queued_at < cutoff. */
  function Since<T>(table: seq<Row<T>>, cutoff: int): seq<Row<T>> {
    if table == [] then []
    else
      var (front, last) := (Since(table[..|table| - 1], cutoff), table[|table| - 1]);
      if last.seconds < cutoff then front else front + [last]
  }

  /** What a reload reads from the clock at the i-th row; it is over at `now`. */
  function StampAt(stamps: seq<int>, i: nat, now: int): int { if i < |stamps| then stamps[i] else now }

  /** Enqueue of every row in order, with fresh stamps. */
  function Reloaded<T>(q: Buffers<Letter<T>>, table: seq<Row<T>>, stamps: seq<int>, now: int, max: nat)
    : Buffers<Letter<T>>
  {
    if table == [] then q
    else
      var (n, row) := (|table| - 1, table[|table| - 1]);
      Enqueued(Reloaded(q, table[..n], stamps, now, max), row.recipient, row.letter, StampAt(stamps, n, now), max)
  }

  class QueueStore<T(!new)> {
    var table: seq<Row<T>>

    /** The recipient has one more row, the last; nobody else's rows change. */
    method PersistQueue(recipient: string, letter: Letter<T>, now: int, broken: bool)
      modifies this
      ensures table == if broken then old(table) else old(table) + [Row(recipient, letter, now / SECOND)]
      ensures forall x :: Of(table, x) == if x == recipient && !broken then Of(old(table), x) + [letter]
                                          else Of(old(table), x)
      ensures RowsTimed(old(table)) && letter.first <= now ==> RowsTimed(table)
    {
      if !broken {
        var row := Row(recipient, letter, now / SECOND);
        forall x ensures Of(table + [row], x) == if x == recipient then Of(table, x) + [letter] else Of(table, x) {
          OfSnoc(table, row, x);
        }
        table := table + [row];
      }
    }

    /** The recipient has no rows left; everybody else has the same as before. */
    method DeleteQueueMessages(recipient: string, broken: bool)
      modifies this
      ensures table == if broken then old(table) else WithoutRecipient(old(table), recipient)
      ensures forall x :: Of(table, x) == if x == recipient && !broken then [] else Of(old(table), x)
    {
      if !broken {
        forall x ensures Of(WithoutRecipient(table, recipient), x) == if x == recipient then [] else Of(table, x) {
          OfWithout(table, recipient, x);
        }
        table := WithoutRecipient(table, recipient);
      }
    }

    /** Exactly the rows of whole seconds before the cutoff go; the newest rows of a
        recipient that are all within the age stay as they are. */
    method CleanStaleQueueMessages(now: int, maxAge: int, broken: bool)
      modifies this
      ensures table == if broken then old(table) else Since(old(table), (now - maxAge) / SECOND)
      ensures forall row :: row in old(table) ==>
                (row in table <==> broken || row.seconds >= (now - maxAge) / SECOND)
      ensures forall row :: row in table ==> row in old(table)
      ensures RowsTimed(old(table)) ==>
                forall x, ls :: Suffix(ls, Of(old(table), x)) && Within(ls, now, maxAge) ==> Suffix(ls, Of(table, x))
    {
      var cutoff := (now - maxAge) / SECOND;
      if !broken {
        SinceMeans(table, now, maxAge);
        table := Since(table, cutoff);
      }
    }

    method LoadQueueFromDB(q: Queue<Letter<T>>, stamps: seq<int>, now: int)
      requires q.Valid()
      modifies q
      ensures q.Valid() && q.buffers == Reloaded(old(q.buffers), table, stamps, now, q.maxLen)
    {
      for i := 0 to |table|
        invariant q.Valid() && q.buffers == Reloaded(old(q.buffers), table[..i], stamps, now, q.maxLen)
      {
        assert table[..i + 1][..i] == table[..i];
        q.Enqueue(table[i].recipient, table[i].letter, if i < |stamps| then stamps[i] else now);
      }
      assert table[..|table|] == table;
    }
  }

  // ----------------------------------------------------------------------- runs

  datatype State<T> = State(queue: Buffers<Letter<T>>, table: seq<Row<T>>, clock: int)

  function Start<T>(clock: int): State<T> { State(map[], [], clock) }

  /** `at` is the clock Enqueue reads, `stored` the later one persistQueue reads; a reload
      reads it once a row. */
  datatype Event<T> =
    | Enqueue(recipient: string, content: T, at: int, stored: int, insertFails: bool)
    | Drain(recipient: string, now: int, deleteFails: bool)
    | Clean(now: int, fails: bool)
    | Crash(stamps: seq<int>, now: int)

  function Begins<T>(e: Event<T>): int { if e.Enqueue? then e.at else e.now }
  function Ends<T>(e: Event<T>): int { if e.Enqueue? then e.stored else e.now }

  predicate Enabled<T>(s: State<T>, e: Event<T>) {
    && s.clock <= Begins(e) <= Ends(e)
    && (e.Crash? ==> forall i :: 0 <= i < |e.stamps| ==> s.clock <= e.stamps[i] <= e.now)
  }

  function Kept<T>(table: seq<Row<T>>, now: int, fails: bool): seq<Row<T>> {
    if fails then table else Since(table, (now - TTL) / SECOND)
  }

  /** Drain deletes the rows only if it returned something. */
  function Step<T>(s: State<T>, e: Event<T>): State<T> {
    match e
    case Enqueue(r, content, at, stored, fails) =>
      var letter := Letter(content, at, !fails);
      State(Enqueued(s.queue, r, letter, at, MAX_LEN),
            if fails then s.table else s.table + [Row(r, letter, stored / SECOND)], stored)
    case Drain(r, now, fails) =>
      State(s.queue - {r},
            if fails || Live(Get(s.queue, r), now, TTL) == [] then s.table else WithoutRecipient(s.table, r), now)
    case Clean(now, fails) => State(s.queue, Kept(s.table, now, fails), now)
    case Crash(stamps, now) => State(Reloaded(map[], s.table, stamps, now, MAX_LEN), s.table, now)
  }

  /** The objects as a state of the machine. */
  function Abs<T(!new)>(q: Queue<Letter<T>>, store: QueueStore<T>, clock: int): State<T>
    reads q, store
  {
    State(q.buffers, store.table, clock)
  }

  /** The server as configured: 100 messages, seven days. */
  predicate Serves<T>(q: Queue<Letter<T>>)
    reads q
  {
    q.Valid() && q.maxLen == MAX_LEN && q.ttl == TTL
  }

  /** Start-up after a crash, whatever queue there was: a new queue, loaded from the table. */
  method Restart<T(!new)>(store: QueueStore<T>, stamps: seq<int>, now: int, ghost lost: Queue<Letter<T>>,
                          ghost clock: int)
    returns (q: Queue<Letter<T>>)
    ensures fresh(q) && Serves(q) && Abs(q, store, now) == Step(Abs(lost, store, clock), Crash(stamps, now))
  {
    q := new Queue(100, 7 * 24 * 3600 * SECOND);
    store.LoadQueueFromDB(q, stamps, now);
  }

  predicate Run<T>(s: State<T>, es: seq<Event<T>>)
    decreases |es|
  {
    es == [] || (Enabled(s, es[0]) && Run(Step(s, es[0]), es[1..]))
  }

  function After<T>(s: State<T>, es: seq<Event<T>>): State<T>
    decreases |es|
  {
    if es == [] then s else After(Step(s, es[0]), es[1..])
  }

  // ----------------------------------------------------------------- rows

  predicate Suffix<T(==)>(a: seq<T>, b: seq<T>) {
    |a| <= |b| && b[|b| - |a|..] == a
  }

  ghost predicate Within<T>(ls: seq<Letter<T>>, now: int, age: int) {
    forall i :: 0 <= i < |ls| ==> now - ls[i].first <= age
  }

  /** A row's whole-second time is no earlier than the second its message was queued in. */
  ghost predicate RowsTimed<T>(table: seq<Row<T>>) {
    forall i :: 0 <= i < |table| ==> table[i].seconds >= table[i].letter.first / SECOND
  }

  lemma {:induction false} OfWithout<T>(table: seq<Row<T>>, r: string, x: string)
    ensures Of(WithoutRecipient(table, r), x) == if x == r then [] else Of(table, x)
  {
    if table != [] {
      var front, last := table[..|table| - 1], table[|table| - 1];
      OfWithout(front, r, x);
      OfSnoc(WithoutRecipient(front, r), last, x);
    }
  }

  lemma {:induction false} WithoutTimed<T>(table: seq<Row<T>>, r: string)
    requires RowsTimed(table)
    ensures RowsTimed(WithoutRecipient(table, r))
  {
    if table != [] { WithoutTimed(table[..|table| - 1], r); }
  }

  lemma OfSnoc<T>(table: seq<Row<T>>, row: Row<T>, r: string)
    ensures Of(table + [row], r) == if row.recipient == r then Of(table, r) + [row.letter] else Of(table, r)
  {
    assert (table + [row])[..|table|] == table;
  }

  lemma SuffixSnoc<T>(a: seq<T>, b: seq<T>, x: T)
    requires Suffix(a, b)
    ensures Suffix(a + [x], b + [x])
  {}

  lemma SuffixInit<T>(a: seq<T>, b: seq<T>, x: T)
    requires Suffix(a, b + [x]) && a != []
    ensures a[|a| - 1] == x && a == a[..|a| - 1] + [x] && Suffix(a[..|a| - 1], b)
  {
    var c := b + [x];
    assert a[|a| - 1] == c[|c| - |a|..][|a| - 1];
    assert c[|c| - |a|..][..|a| - 1] == b[|b| - (|a| - 1)..];
  }

  /** Cleaning takes away old rows only, so it cannot touch a suffix of young ones. */
  lemma {:induction false} SinceKeepsYoung<T>(table: seq<Row<T>>, r: string, now: int, age: int, ls: seq<Letter<T>>)
    requires RowsTimed(table) && Suffix(ls, Of(table, r)) && Within(ls, now, age)
    ensures Suffix(ls, Of(Since(table, (now - age) / SECOND), r))
    decreases |table|
  {
    if table != [] && ls != [] {
      var front, last := table[..|table| - 1], table[|table| - 1];
      var kept := Since(front, (now - age) / SECOND);
      OfSnoc(kept, last, r);
      if last.recipient == r {
        SuffixInit(ls, Of(front, r), last.letter);
        assert last.seconds >= (now - age) / SECOND;
        SinceKeepsYoung(front, r, now, age, ls[..|ls| - 1]);
        SuffixSnoc(ls[..|ls| - 1], Of(kept, r), last.letter);
      } else {
        SinceKeepsYoung(front, r, now, age, ls);
      }
    }
  }

  lemma {:induction false} SinceHas<T>(table: seq<Row<T>>, cutoff: int)
    ensures forall row :: row in table ==> (row in Since(table, cutoff) <==> row.seconds >= cutoff)
    ensures forall row :: row in Since(table, cutoff) ==> row in table
  {
    if table != [] {
      SinceHas(table[..|table| - 1], cutoff);
      assert table == table[..|table| - 1] + [table[|table| - 1]];
    }
  }

  lemma SinceMeans<T>(table: seq<Row<T>>, now: int, age: int)
    ensures var kept := Since(table, (now - age) / SECOND);
            && (forall row :: row in table ==> (row in kept <==> row.seconds >= (now - age) / SECOND))
            && (forall row :: row in kept ==> row in table)
            && (RowsTimed(table) ==>
                  forall x, ls :: Suffix(ls, Of(table, x)) && Within(ls, now, age) ==> Suffix(ls, Of(kept, x)))
  {
    var cutoff := (now - age) / SECOND;
    SinceHas(table, cutoff);
    if RowsTimed(table) {
      forall x, ls | Suffix(ls, Of(table, x)) && Within(ls, now, age) ensures Suffix(ls, Of(Since(table, cutoff), x)) {
        SinceKeepsYoung(table, x, now, age, ls);
      }
    }
  }
}
