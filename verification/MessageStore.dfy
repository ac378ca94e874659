/** Storing chat messages one by one and in a transaction (`storeMessage` and
    `storeMessagesBatch`, server/conversations.go), with the attachments they claim. */
module MessageStore {
  import opened Common
  import opened Frames

  /** A row of `messages`; the metadata column is the sender pair and the attachment
      list, which the routed message already holds. `claims` are the attachments whose
      update the database carried out, which no column records. */
  datatype Row = Row(id: string, msg: Routed, createdAt: int, claims: seq<string>)

  /** An attachment, the message it is linked to, and how many messages existed when it
      was uploaded. */
  datatype Attachment = Attachment(since: nat, link: Option<string>)

  datatype Db = Db(messages: seq<Row>, attachments: map<string, Attachment>)

  function Ids(rows: seq<Row>): set<string> { set r | r in rows :: r.id }

  /** UPDATE attachments SET message_id = id WHERE id = a AND message_id IS NULL. */
  function Link(atts: map<string, Attachment>, id: string, a: string): map<string, Attachment> {
    if a in atts && atts[a].link == None then atts[a := atts[a].(link := Some(id))] else atts
  }

  function LinkAll(atts: map<string, Attachment>, id: string, claimed: seq<string>): map<string, Attachment> {
    if claimed == [] then atts
    else Link(LinkAll(atts, id, claimed[..|claimed| - 1]), id, claimed[|claimed| - 1])
  }

  /** The updates that did not fail; the code ignores the errors of the others. */
  function Claims(attachments: seq<string>, failed: set<nat>): seq<string> {
    if attachments == [] then []
    else
      var n := |attachments| - 1;
      Claims(attachments[..n], failed) + (if n in failed then [] else [attachments[n]])
  }

  function Stored(db: Db, msg: Routed, id: string, now: int, failed: set<nat>): Db {
    var claims := Claims(msg.attachments, failed);
    Db(db.messages + [Row(id, msg, now, claims)], LinkAll(db.attachments, id, claims))
  }

  /** Single inserts one after the other, each with its own id and clock reading. */
  function StoredAll(db: Db, msgs: seq<Routed>, ids: seq<string>, times: seq<int>, failed: seq<set<nat>>): Db
    requires |msgs| == |ids| == |times| == |failed|
  {
    if msgs == [] then db
    else
      var n := |msgs| - 1;
      Stored(StoredAll(db, msgs[..n], ids[..n], times[..n], failed[..n]), msgs[n], ids[n], times[n], failed[n])
  }

  /** Fresh ids: new to the table and different from each other. */
  ghost predicate FreshIds(db: Db, ids: seq<string>) {
    && (forall i :: 0 <= i < |ids| ==> ids[i] !in Ids(db.messages))
    && (forall i, j :: 0 <= i < j < |ids| ==> ids[i] != ids[j])
  }

  datatype Fault = Healthy | BeginFault | PrepareFault | InsertFault(at: nat) | CommitFault

  predicate Breaks(f: Fault, n: nat) {
    match f case Healthy => false case InsertFault(at) => at < n case _ => true
  }

  lemma ClaimsOneMore(atts: map<string, Attachment>, id: string, attachments: seq<string>, failed: set<nat>, i: nat)
    requires i < |attachments|
    ensures var before, after := Claims(attachments[..i], failed), Claims(attachments[..i + 1], failed);
            LinkAll(atts, id, after) ==
            if i in failed then LinkAll(atts, id, before) else Link(LinkAll(atts, id, before), id, attachments[i])
  {
    assert attachments[..i + 1][..i] == attachments[..i];
    var before := Claims(attachments[..i], failed);
    assert (before + [attachments[i]])[..|before|] == before;
    assert before + [] == before;
  }

  /** The insert and the link loop that single and batch storing share. */
  method InsertAndLink(db: Db, msg: Routed, id: string, now: int, failed: set<nat>) returns (r: Db)
    ensures r == Stored(db, msg, id, now, failed)
  {
    var atts := db.attachments;
    for i := 0 to |msg.attachments|
      invariant atts == LinkAll(db.attachments, id, Claims(msg.attachments[..i], failed))
    {
      ClaimsOneMore(db.attachments, id, msg.attachments, failed, i);
      if i !in failed {
        atts := Link(atts, id, msg.attachments[i]);
      }
    }
    assert msg.attachments[..|msg.attachments|] == msg.attachments;
    r := Db(db.messages + [Row(id, msg, now, Claims(msg.attachments, failed))], atts);
  }

  lemma IdsOfStored(db: Db, msg: Routed, id: string, now: int, failed: set<nat>)
    ensures Ids(Stored(db, msg, id, now, failed).messages) == Ids(db.messages) + {id}
  {
    var rows := Stored(db, msg, id, now, failed).messages;
    assert rows[|rows| - 1].id == id;
    forall x | x in Ids(db.messages) ensures x in Ids(rows) {
      var r :| r in db.messages && r.id == x;
      assert r in rows;
    }
  }

  lemma FreshOneMore(db: Db, ids: seq<string>, i: nat)
    requires i < |ids|
    ensures FreshIds(db, ids[..i + 1]) <==>
            FreshIds(db, ids[..i]) && ids[i] !in Ids(db.messages) && ids[i] !in ids[..i]
    ensures FreshIds(db, ids) ==> FreshIds(db, ids[..i + 1])
  {
    var some, more := ids[..i], ids[..i + 1];
    assert more == some + [ids[i]];
    if FreshIds(db, more) {
      assert forall k :: 0 <= k < i ==> some[k] == more[k];
      assert more[i] !in Ids(db.messages);
    }
  }

  lemma StoredOneMore(db: Db, msgs: seq<Routed>, ids: seq<string>, i: nat, now: int, failed: seq<set<nat>>)
    requires |msgs| == |ids| == |failed| && i < |msgs|
    ensures StoredAll(db, msgs[..i + 1], ids[..i + 1], seq(i + 1, _ => now), failed[..i + 1]) ==
            Stored(StoredAll(db, msgs[..i], ids[..i], seq(i, _ => now), failed[..i]), msgs[i], ids[i], now, failed[i])
  {
    assert msgs[..i + 1][..i] == msgs[..i] && ids[..i + 1][..i] == ids[..i] && failed[..i + 1][..i] == failed[..i];
    assert seq(i + 1, _ => now)[..i] == seq(i, _ => now);
  }

  /** The new rows come last, in order. */
  lemma {:induction false} StoredAllRows(db: Db, msgs: seq<Routed>, ids: seq<string>, times: seq<int>,
                                         failed: seq<set<nat>>)
    requires |msgs| == |ids| == |times| == |failed|
    ensures var rows := StoredAll(db, msgs, ids, times, failed).messages;
            && |rows| == |db.messages| + |ids| && rows[..|db.messages|] == db.messages
            && forall i :: 0 <= i < |ids| ==> rows[|db.messages| + i].id == ids[i]
    decreases |msgs|
  {
    if msgs != [] {
      var n := |msgs| - 1;
      StoredAllRows(db, msgs[..n], ids[..n], times[..n], failed[..n]);
    }
  }

  /** What has been written after i inserts. */
  ghost predicate Filled(db: Db, tx: Db, msgs: seq<Routed>, ids: seq<string>, i: nat, now: int, failed: seq<set<nat>>)
    requires |msgs| == |ids| == |failed| && i <= |msgs|
  {
    && tx == StoredAll(db, msgs[..i], ids[..i], seq(i, _ => now), failed[..i])
    && (forall x :: x in Ids(tx.messages) <==> x in Ids(db.messages) || x in ids[..i])
    && FreshIds(db, ids[..i])
  }

  lemma FillOne(db: Db, tx: Db, msgs: seq<Routed>, ids: seq<string>, i: nat, now: int, failed: seq<set<nat>>)
    requires |msgs| == |ids| == |failed| && i < |msgs| && Filled(db, tx, msgs, ids, i, now, failed)
    ensures ids[i] in Ids(tx.messages) ==> !FreshIds(db, ids)
    ensures ids[i] !in Ids(tx.messages) ==>
              Filled(db, Stored(tx, msgs[i], ids[i], now, failed[i]), msgs, ids, i + 1, now, failed)
  {
    FreshOneMore(db, ids, i);
    if ids[i] !in Ids(tx.messages) {
      StoredOneMore(db, msgs, ids, i, now, failed);
      IdsOfStored(tx, msgs[i], ids[i], now, failed[i]);
      assert ids[..i + 1] == ids[..i] + [ids[i]];
    }
  }

  /** The loop inside the transaction, up to the first insert that fails. */
  method FillTransaction(db: Db, msgs: seq<Routed>, ids: seq<string>, now: int, fault: Fault, failed: seq<set<nat>>)
    returns (ok: bool, tx: Db)
    requires |ids| == |msgs| == |failed|
    ensures ok <==> !(fault.InsertFault? && fault.at < |msgs|) && FreshIds(db, ids)
    ensures ok ==> tx == StoredAll(db, msgs, ids, seq(|msgs|, _ => now), failed)
  {
    tx := db;
    for i := 0 to |msgs|
      invariant Filled(db, tx, msgs, ids, i, now, failed)
      invariant fault.InsertFault? ==> fault.at >= i
    {
      FillOne(db, tx, msgs, ids, i, now, failed);
      if fault == InsertFault(i) || ids[i] in Ids(tx.messages) {
        return false, db;
      }
      tx := InsertAndLink(tx, msgs[i], ids[i], now, failed[i]);
    }
    assert msgs[..|msgs|] == msgs && ids[..|msgs|] == ids && failed[..|msgs|] == failed;
    ok := true;
  }

  class Database {
    var db: Db

    /** The row first, then the links; nothing at all when the insert is refused, by the
        primary key or otherwise. */
    method StoreMessage(msg: Routed, id: string, now: int, broken: bool, failed: set<nat>) returns (ok: bool)
      modifies this
      ensures ok <==> !broken && id !in Ids(old(db).messages)
      ensures db == if ok then Stored(old(db), msg, id, now, failed) else old(db)
    {
      if broken || id in Ids(db.messages) {
        return false;
      }
      db := InsertAndLink(db, msg, id, now, failed);
      return true;
    }

    /** All rows in one transaction, all with the same clock reading. It commits exactly
        when nothing breaks and the generated ids are fresh, and then it has the effect of
        single inserts and returns their ids in order; otherwise the deferred rollback
        leaves the database alone. */
    method StoreMessagesBatch(msgs: seq<Routed>, ids: seq<string>, now: int, fault: Fault, failed: seq<set<nat>>)
      returns (ok: bool, stored: seq<string>)
      requires |ids| == |msgs| == |failed|
      modifies this
      ensures ok <==> msgs == [] || (!Breaks(fault, |msgs|) && FreshIds(old(db), ids))
      ensures db == if ok then StoredAll(old(db), msgs, ids, seq(|msgs|, _ => now), failed) else old(db)
      ensures stored == if ok then ids else []
      ensures ok ==> |db.messages| == |old(db).messages| + |stored|
                     && forall i :: 0 <= i < |stored| ==> db.messages[|old(db).messages| + i].id == stored[i]
    {
      if |msgs| == 0 {
        return true, [];
      }
      if fault.BeginFault? || fault.PrepareFault? {
        return false, [];
      }
      var filled, tx := FillTransaction(db, msgs, ids, now, fault, failed);
      if !filled {
        return false, [];
      }
      if fault.CommitFault? {
        return false, [];
      }
      StoredAllRows(db, msgs, ids, seq(|msgs|, _ => now), failed);
      db := tx;
      return true, ids;
    }
  }

  // -------------------------------------------------- a batch refines single inserts

  /** The database with every creation time blanked out. */
  function Untimed(db: Db): Db {
    db.(messages := seq(|db.messages|, i requires 0 <= i < |db.messages| => db.messages[i].(createdAt := 0)))
  }

  /** Apart from creation times, it does not matter when the rows are written; so a
      committed batch is the same as its messages stored one by one. */
  lemma {:induction false} TimesDoNotMatter(db: Db, msgs: seq<Routed>, ids: seq<string>, times: seq<int>,
                                            others: seq<int>, failed: seq<set<nat>>)
    requires |msgs| == |ids| == |times| == |others| == |failed|
    ensures Untimed(StoredAll(db, msgs, ids, times, failed)) == Untimed(StoredAll(db, msgs, ids, others, failed))
    decreases |msgs|
  {
    if msgs != [] {
      var n := |msgs| - 1;
      TimesDoNotMatter(db, msgs[..n], ids[..n], times[..n], others[..n], failed[..n]);
      var a := StoredAll(db, msgs[..n], ids[..n], times[..n], failed[..n]);
      var b := StoredAll(db, msgs[..n], ids[..n], others[..n], failed[..n]);
      UntimedStored(a, b, msgs[n], ids[n], times[n], others[n], failed[n]);
    }
  }

  lemma UntimedStored(a: Db, b: Db, msg: Routed, id: string, t: int, u: int, failed: set<nat>)
    requires Untimed(a) == Untimed(b)
    ensures Untimed(Stored(a, msg, id, t, failed)) == Untimed(Stored(b, msg, id, u, failed))
  {
    var (x, y) := (Untimed(Stored(a, msg, id, t, failed)), Untimed(Stored(b, msg, id, u, failed)));
    assert |a.messages| == |Untimed(a).messages| == |b.messages|;
    forall i | 0 <= i < |x.messages| ensures x.messages[i] == y.messages[i] {
      if i < |a.messages| {
        assert Untimed(a).messages[i] == Untimed(b).messages[i];
      }
    }
    assert x.messages == y.messages;
  }

  // ------------------------------------------------------------- first claim stays

  datatype Event =
    | Store(msg: Routed, id: string, now: int, broken: bool, failed: set<nat>)
    | Batch(msgs: seq<Routed>, ids: seq<string>, now: int, fault: Fault, failures: seq<set<nat>>)
    | Upload(attachment: string)

  ghost function Step(db: Db, e: Event): Db {
    match e
    case Store(msg, id, now, broken, failed) =>
      if broken || id in Ids(db.messages) then db else Stored(db, msg, id, now, failed)
    case Batch(msgs, ids, now, fault, failed) =>
      if !(|msgs| == |ids| == |failed|) || Breaks(fault, |msgs|) || !FreshIds(db, ids) then db
      else StoredAll(db, msgs, ids, seq(|msgs|, _ => now), failed)
    case Upload(a) =>
      if a in db.attachments then db
      else db.(attachments := db.attachments[a := Attachment(|db.messages|, None)])
  }

  ghost function After(db: Db, es: seq<Event>): Db {
    if es == [] then db else Step(After(db, es[..|es| - 1]), es[|es| - 1])
  }

  /** The same messages sent through `StoreMessage` one after the other. */
  function Singles(msgs: seq<Routed>, ids: seq<string>, times: seq<int>, failed: seq<set<nat>>): seq<Event>
    requires |msgs| == |ids| == |times| == |failed|
  {
    seq(|msgs|, i requires 0 <= i < |msgs| => Store(msgs[i], ids[i], times[i], false, failed[i]))
  }

  lemma {:induction false} SinglesStoreAll(db: Db, msgs: seq<Routed>, ids: seq<string>, times: seq<int>,
                                           failed: seq<set<nat>>)
    requires |msgs| == |ids| == |times| == |failed| && FreshIds(db, ids)
    ensures After(db, Singles(msgs, ids, times, failed)) == StoredAll(db, msgs, ids, times, failed)
    ensures forall x :: x in Ids(StoredAll(db, msgs, ids, times, failed).messages) <==>
                          x in Ids(db.messages) || x in ids
    decreases |msgs|
  {
    if msgs != [] {
      var n := |msgs| - 1;
      FreshOneMore(db, ids, n);
      assert ids[..n + 1] == ids && ids == ids[..n] + [ids[n]];
      SinglesStoreAll(db, msgs[..n], ids[..n], times[..n], failed[..n]);
      IdsOfStored(StoredAll(db, msgs[..n], ids[..n], times[..n], failed[..n]), msgs[n], ids[n], times[n], failed[n]);
      assert Singles(msgs, ids, times, failed)[..n] == Singles(msgs[..n], ids[..n], times[..n], failed[..n]);
    }
  }

  /** With fresh ids a committed batch equals the run of single stores, at any clock
      readings and with the same link updates failing, apart from the creation times; a
      batch that fails changes nothing. */
  lemma BatchRefinesSingles(db: Db, msgs: seq<Routed>, ids: seq<string>, times: seq<int>, now: int, fault: Fault,
                            failed: seq<set<nat>>)
    requires |msgs| == |ids| == |times| == |failed| && FreshIds(db, ids)
    ensures var batch := Step(db, Batch(msgs, ids, now, fault, failed));
            if Breaks(fault, |msgs|) then batch == db
            else Untimed(batch) == Untimed(After(db, Singles(msgs, ids, times, failed)))
  {
    SinglesStoreAll(db, msgs, ids, times, failed);
    TimesDoNotMatter(db, msgs, ids, times, seq(|msgs|, _ => now), failed);
  }

  /** The earliest of these rows that claimed the attachment. */
  function FirstClaim(rows: seq<Row>, a: string): Option<string> {
    if rows == [] then None
    else
      var earlier := FirstClaim(rows[..|rows| - 1], a);
      if earlier.Some? then earlier
      else if a in rows[|rows| - 1].claims then Some(rows[|rows| - 1].id)
      else None
  }

  ghost predicate LinkedToFirst(db: Db, a: string) {
    a in db.attachments ==>
      && db.attachments[a].since <= |db.messages|
      && db.attachments[a].link == FirstClaim(db.messages[db.attachments[a].since..], a)
  }

  lemma {:induction false} LinkAllOne(atts: map<string, Attachment>, id: string, claimed: seq<string>, a: string)
    ensures var linked := LinkAll(atts, id, claimed);
            && linked.Keys == atts.Keys
            && (a in atts ==>
                  linked[a] == (if atts[a].link == None && a in claimed then atts[a].(link := Some(id)) else atts[a]))
  {
    if claimed != [] {
      var n := |claimed| - 1;
      LinkAllOne(atts, id, claimed[..n], a);
      LinkAllKeys(atts, id, claimed[..n]);
      assert claimed == claimed[..n] + [claimed[n]];
    }
  }

  lemma {:induction false} LinkAllKeys(atts: map<string, Attachment>, id: string, claimed: seq<string>)
    ensures LinkAll(atts, id, claimed).Keys == atts.Keys
  {
    if claimed != [] { LinkAllKeys(atts, id, claimed[..|claimed| - 1]); }
  }

  lemma StoredKeepsFirst(db: Db, msg: Routed, id: string, now: int, failed: set<nat>, a: string)
    requires LinkedToFirst(db, a)
    ensures LinkedToFirst(Stored(db, msg, id, now, failed), a)
  {
    LinkAllOne(db.attachments, id, Claims(msg.attachments, failed), a);
    if a in db.attachments {
      var since := db.attachments[a].since;
      var rows := Stored(db, msg, id, now, failed).messages[since..];
      assert rows[..|rows| - 1] == db.messages[since..];
    }
  }

  lemma {:induction false} StoredAllKeepsFirst(db: Db, msgs: seq<Routed>, ids: seq<string>, times: seq<int>,
                                               failed: seq<set<nat>>, a: string)
    requires |msgs| == |ids| == |times| == |failed| && LinkedToFirst(db, a)
    ensures LinkedToFirst(StoredAll(db, msgs, ids, times, failed), a)
    decreases |msgs|
  {
    if msgs != [] {
      var n := |msgs| - 1;
      StoredAllKeepsFirst(db, msgs[..n], ids[..n], times[..n], failed[..n], a);
      StoredKeepsFirst(StoredAll(db, msgs[..n], ids[..n], times[..n], failed[..n]), msgs[n], ids[n], times[n],
                       failed[n], a);
    }
  }

  /** Over any mix of single and batch stores, failed or not, and uploads, an attachment is
      linked to the first message stored since its upload that names it and whose update of
      it did not fail, if any. */
  lemma {:induction false} FirstClaimWins(es: seq<Event>, a: string)
    ensures LinkedToFirst(After(Db([], map[]), es), a)
  {
    if es != [] {
      var db, e := After(Db([], map[]), es[..|es| - 1]), es[|es| - 1];
      FirstClaimWins(es[..|es| - 1], a);
      match e
      case Store(msg, id, now, broken, failed) => StoredKeepsFirst(db, msg, id, now, failed, a);
      case Batch(msgs, ids, now, fault, failed) =>
        if |msgs| == |ids| == |failed| {
          StoredAllKeepsFirst(db, msgs, ids, seq(|msgs|, _ => now), failed, a);
        }
      case Upload(_) => assert db.messages[|db.messages|..] == [];
    }
  }

  lemma {:induction false} StoredAllKeepsLink(db: Db, msgs: seq<Routed>, ids: seq<string>, times: seq<int>,
                                              failed: seq<set<nat>>, a: string)
    requires |msgs| == |ids| == |times| == |failed| && a in db.attachments && db.attachments[a].link.Some?
    ensures var db' := StoredAll(db, msgs, ids, times, failed);
            a in db'.attachments && db'.attachments[a] == db.attachments[a]
    decreases |msgs|
  {
    if msgs != [] {
      var n := |msgs| - 1;
      StoredAllKeepsLink(db, msgs[..n], ids[..n], times[..n], failed[..n], a);
      LinkAllOne(StoredAll(db, msgs[..n], ids[..n], times[..n], failed[..n]).attachments, ids[n],
                 Claims(msgs[n].attachments, failed[n]), a);
    }
  }

  /** A link once made stays as it is, along whatever happens later. */
  lemma {:induction false} LinkStays(db: Db, es: seq<Event>, a: string)
    requires a in db.attachments && db.attachments[a].link.Some?
    ensures a in After(db, es).attachments && After(db, es).attachments[a].link == db.attachments[a].link
    decreases |es|
  {
    if es != [] {
      var front, e := es[..|es| - 1], es[|es| - 1];
      LinkStays(db, front, a);
      var d := After(db, front);
      match e
      case Store(msg, id, _, _, failed) => LinkAllOne(d.attachments, id, Claims(msg.attachments, failed), a);
      case Batch(msgs, ids, now, _, failed) =>
        if |msgs| == |ids| == |failed| {
          StoredAllKeepsLink(d, msgs, ids, seq(|msgs|, _ => now), failed, a);
        }
      case Upload(_) =>
    }
  }
}
