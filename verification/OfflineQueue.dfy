/** The bounded per-recipient FIFO of server/queue.go. `T` is what is queued. */
module OfflineQueue {
  import opened Common

  /** As newHub configures it: 100 messages a recipient, seven days. */
  const MAX_LEN := 100
  const TTL := 7 * 24 * 3600 * SECOND

  datatype Queued<T> = Queued(data: T, queuedAt: int)
  type Buffers<T> = map<string, seq<Queued<T>>>

  function Get<T>(q: Buffers<T>, r: string): seq<Queued<T>> {
    if r in q then q[r] else []
  }

  /** The newest `max` of them. */
  function Newest<T>(s: seq<T>, max: nat): seq<T> {
    if |s| > max then s[|s| - max..] else s
  }

  function Enqueued<T>(q: Buffers<T>, r: string, data: T, now: int, max: nat): Buffers<T> {
    q[r := Newest(Get(q, r) + [Queued(data, now)], max)]
  }

  predicate Fresh<T>(m: Queued<T>, now: int, ttl: int) { now - m.queuedAt <= ttl }

  /** What Drain returns: the messages within the TTL, in order. */
  function Live<T>(buf: seq<Queued<T>>, now: int, ttl: int): seq<T> {
    if buf == [] then []
    else
      var (front, last) := (Live(buf[..|buf| - 1], now, ttl), buf[|buf| - 1]);
      if Fresh(last, now, ttl) then front + [last.data] else front
  }

  /** What Drain discards. */
  function Expired<T>(buf: seq<Queued<T>>, now: int, ttl: int): seq<T> {
    if buf == [] then []
    else
      var (front, last) := (Expired(buf[..|buf| - 1], now, ttl), buf[|buf| - 1]);
      if Fresh(last, now, ttl) then front else front + [last.data]
  }

  class Queue<T> {
    var buffers: Buffers<T>
    const maxLen: nat
    const ttl: int

    /** No recipient has an empty buffer. */
    predicate Valid()
      reads this
    {
      maxLen > 0 && forall r :: r in buffers ==> buffers[r] != []
    }

    constructor (maxLen: int, ttl: int)
      ensures Valid() && buffers == map[] && this.maxLen > 0 && this.ttl > 0
      ensures this.maxLen == (if maxLen <= 0 then MAX_LEN else maxLen) && this.ttl == (if ttl <= 0 then TTL else ttl)
    {
      buffers := map[];
      this.maxLen := if maxLen <= 0 then MAX_LEN else maxLen;
      this.ttl := if ttl <= 0 then TTL else ttl;
    }

    method Enqueue(recipient: string, data: T, now: int)
      requires Valid()
      modifies this
      ensures Valid()
      ensures buffers == Enqueued(old(buffers), recipient, data, now, maxLen)
    {
      var buf := if recipient in buffers then buffers[recipient] else [];
      buf := buf + [Queued(data, now)];
      if |buf| > maxLen {
        buf := buf[|buf| - maxLen..];
      }
      buffers := buffers[recipient := buf];
    }

    /** Empties the recipient's buffer and hands over what has not expired, in order. */
    method Drain(recipient: string, now: int) returns (result: seq<T>)
      requires Valid()
      modifies this
      ensures Valid() && buffers == old(buffers) - {recipient}
      ensures result == Live(Get(old(buffers), recipient), now, ttl)
    {
      result := [];
      assert recipient !in buffers ==> buffers - {recipient} == buffers;
      if recipient !in buffers || |buffers[recipient]| == 0 {
        return;
      }
      var buf := buffers[recipient];
      for i := 0 to |buf|
        invariant result == Live(buf[..i], now, ttl) && buffers == old(buffers)
      {
        assert buf[..i + 1][..i] == buf[..i];
        if now - buf[i].queuedAt > ttl {
          continue;
        }
        result := result + [buf[i].data];
      }
      assert buf[..|buf|] == buf;
      buffers := buffers - {recipient};
    }

    method Purge(recipient: string)
      requires Valid()
      modifies this
      ensures Valid()
      ensures Get(buffers, recipient) == [] && forall r :: r != recipient ==> Get(buffers, r) == Get(old(buffers), r)
    {
      buffers := buffers - {recipient};
    }
  }

  /** Drain splits the buffer: nothing is both kept and discarded, nothing vanishes. */
  lemma {:induction false} DrainSplits<T>(buf: seq<Queued<T>>, now: int, ttl: int)
    ensures |Live(buf, now, ttl)| + |Expired(buf, now, ttl)| == |buf|
    ensures multiset(Live(buf, now, ttl)) + multiset(Expired(buf, now, ttl))
            == multiset(seq(|buf|, i requires 0 <= i < |buf| => buf[i].data))
  {
    if buf != [] {
      var front := buf[..|buf| - 1];
      DrainSplits(front, now, ttl);
      assert seq(|buf|, i requires 0 <= i < |buf| => buf[i].data)
          == seq(|front|, i requires 0 <= i < |front| => front[i].data) + [buf[|buf| - 1].data];
    }
  }
}
