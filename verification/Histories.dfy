/**
 Concurrent histories and what it means for one to be linearizable.

 An operation is one line read from one connection. It is named by the
 connection and by its index among the lines read from that connection.
 */
module Histories {
  import opened AtomicMap

  datatype OpId = OpId(conn: nat, index: nat)

  /** What happens at the boundary of the server: a line is read, a reply is written. */
  datatype Event =
    | Invoke(op: OpId, line: string)
    | Respond(op: OpId, reply: string)

  /** One operation of a sequential history. */
  datatype Entry = Entry(op: OpId, line: string, reply: string)

  // ----- sequential histories -----

  function Replay(log: seq<Entry>): Db {
    if log == [] then map[]
    else LineEffect(log[|log| - 1].line, Replay(log[..|log| - 1]))
  }

  /** Every reply is the one the map gives at that point. */
  predicate Legal(log: seq<Entry>) {
    log == [] ||
    var front := log[..|log| - 1];
    Legal(front) && log[|log| - 1].reply == LineAnswer(log[|log| - 1].line, Replay(front))
  }

  // ----- projections onto one connection -----

  function LinesOf(log: seq<Entry>, c: nat): seq<string> {
    if log == [] then []
    else
      var e, front := log[|log| - 1], LinesOf(log[..|log| - 1], c);
      if e.op.conn == c then front + [e.line] else front
  }

  function AnswersOf(log: seq<Entry>, c: nat): (r: seq<string>)
    ensures |r| == |LinesOf(log, c)|
  {
    if log == [] then []
    else
      var e, front := log[|log| - 1], AnswersOf(log[..|log| - 1], c);
      if e.op.conn == c then front + [e.reply] else front
  }

  function InvokedBy(h: seq<Event>, c: nat): seq<string> {
    if h == [] then []
    else
      var e, front := h[|h| - 1], InvokedBy(h[..|h| - 1], c);
      if e.Invoke? && e.op.conn == c then front + [e.line] else front
  }

  function RepliesTo(h: seq<Event>, c: nat): seq<string> {
    if h == [] then []
    else
      var e, front := h[|h| - 1], RepliesTo(h[..|h| - 1], c);
      if e.Respond? && e.op.conn == c then front + [e.reply] else front
  }

  /** Operations are numbered per connection, in order. */
  predicate NumberedLog(log: seq<Entry>) {
    log == [] ||
    var front, e := log[..|log| - 1], log[|log| - 1];
    NumberedLog(front) && e.op.index == |LinesOf(front, e.op.conn)|
  }

  predicate NumberedHistory(h: seq<Event>) {
    h == [] ||
    var front, e := h[..|h| - 1], h[|h| - 1];
    && NumberedHistory(front)
    && e.op.index == if e.Invoke? then |InvokedBy(front, e.op.conn)| else |RepliesTo(front, e.op.conn)|
  }

  // ----- linearizability -----

  /** An operation that ended before another began comes first in the sequential history. */
  ghost predicate KeepsRealTime(h: seq<Event>, log: seq<Entry>) {
    forall i, j, p, q ::
      && 0 <= i < j < |h| && h[i].Respond? && h[j].Invoke?
      && 0 <= p < |log| && 0 <= q < |log|
      && log[p].op == h[i].op && log[q].op == h[j].op
      ==> p < q
  }

  ghost predicate Linearizes(log: seq<Entry>, h: seq<Event>) {
    && Legal(log)
    && (forall p, q :: 0 <= p < q < |log| ==> log[p].op != log[q].op)
    && (forall p :: 0 <= p < |log| ==> Invoke(log[p].op, log[p].line) in h)
    && (forall i :: 0 <= i < |h| && h[i].Respond? ==>
          exists p :: 0 <= p < |log| && log[p].op == h[i].op && log[p].reply == h[i].reply)
    && KeepsRealTime(h, log)
  }

  /** Some legal sequential history explains every reply and keeps real-time order. */
  ghost predicate Linearizable(h: seq<Event>) {
    exists log :: Linearizes(log, h)
  }

  // ----- appending one step -----

  lemma AppendEntry(log: seq<Entry>, e: Entry)
    ensures Replay(log + [e]) == LineEffect(e.line, Replay(log))
    ensures Legal(log) && e.reply == LineAnswer(e.line, Replay(log)) ==> Legal(log + [e])
    ensures NumberedLog(log) && e.op.index == |LinesOf(log, e.op.conn)| ==> NumberedLog(log + [e])
    ensures forall c: nat ::
              LinesOf(log + [e], c) == if e.op.conn == c then LinesOf(log, c) + [e.line] else LinesOf(log, c)
    ensures forall c: nat ::
              AnswersOf(log + [e], c) == if e.op.conn == c then AnswersOf(log, c) + [e.reply] else AnswersOf(log, c)
  {
    assert (log + [e])[..|log|] == log;
  }

  lemma AppendEvent(h: seq<Event>, e: Event)
    ensures NumberedHistory(h) &&
            e.op.index == (if e.Invoke? then |InvokedBy(h, e.op.conn)| else |RepliesTo(h, e.op.conn)|)
            ==> NumberedHistory(h + [e])
    ensures forall c: nat ::
              InvokedBy(h + [e], c) ==
              if e.Invoke? && e.op.conn == c then InvokedBy(h, c) + [e.line] else InvokedBy(h, c)
    ensures forall c: nat ::
              RepliesTo(h + [e], c) ==
              if e.Respond? && e.op.conn == c then RepliesTo(h, c) + [e.reply] else RepliesTo(h, c)
  {
    assert (h + [e])[..|h|] == h;
  }

  // ----- what numbering gives -----

  lemma {:induction false} EntryBounds(log: seq<Entry>, p: nat)
    requires NumberedLog(log) && p < |log|
    ensures var op := log[p].op;
            && op.index < |LinesOf(log, op.conn)|
            && LinesOf(log, op.conn)[op.index] == log[p].line
            && AnswersOf(log, op.conn)[op.index] == log[p].reply
  {
    var n := |log| - 1;
    if p < n {
      EntryBounds(log[..n], p);
    }
  }

  lemma {:induction false} EventBounds(h: seq<Event>, i: nat)
    requires NumberedHistory(h) && i < |h|
    ensures var e := h[i];
            match e
            case Invoke(op, line) => op.index < |InvokedBy(h, op.conn)| && InvokedBy(h, op.conn)[op.index] == line
            case Respond(op, reply) => op.index < |RepliesTo(h, op.conn)| && RepliesTo(h, op.conn)[op.index] == reply
  {
    var n := |h| - 1;
    if i < n {
      EventBounds(h[..n], i);
    }
  }

  lemma {:induction false} EntriesDistinct(log: seq<Entry>, p: nat, q: nat)
    requires NumberedLog(log) && p < q < |log|
    ensures log[p].op != log[q].op
  {
    var n := |log| - 1;
    if q < n {
      EntriesDistinct(log[..n], p, q);
    } else {
      EntryBounds(log[..n], p);
    }
  }

  lemma {:induction false} FindEntry(log: seq<Entry>, c: nat, k: nat) returns (p: nat)
    requires NumberedLog(log) && k < |LinesOf(log, c)|
    ensures p < |log| && log[p] == Entry(OpId(c, k), LinesOf(log, c)[k], AnswersOf(log, c)[k])
  {
    var n := |log| - 1;
    if k < |LinesOf(log[..n], c)| {
      p := FindEntry(log[..n], c, k);
    } else {
      p := n;
    }
  }

  lemma {:induction false} FindInvoke(h: seq<Event>, c: nat, k: nat)
    requires NumberedHistory(h) && k < |InvokedBy(h, c)|
    ensures Invoke(OpId(c, k), InvokedBy(h, c)[k]) in h
  {
    var n := |h| - 1;
    if k < |InvokedBy(h[..n], c)| {
      FindInvoke(h[..n], c, k);
    } else {
      assert h[n] == Invoke(OpId(c, k), InvokedBy(h, c)[k]);
    }
  }

  // ----- real-time order, one step at a time -----

  /** Reading a new line: the new operation is not in the log yet. */
  lemma RealTimeInvoke(h: seq<Event>, log: seq<Entry>, e: Event)
    requires KeepsRealTime(h, log) && e.Invoke?
    requires NumberedLog(log) && |LinesOf(log, e.op.conn)| <= e.op.index
    ensures KeepsRealTime(h + [e], log)
  {
    forall q | 0 <= q < |log| ensures log[q].op != e.op { EntryBounds(log, q); }
  }

  /** Writing a reply: nothing begins after it yet. */
  lemma RealTimeRespond(h: seq<Event>, log: seq<Entry>, e: Event)
    requires KeepsRealTime(h, log) && e.Respond?
    ensures KeepsRealTime(h + [e], log)
  {
  }

  /** Taking effect: the operation has not ended yet, so it may come last. */
  lemma RealTimeTake(h: seq<Event>, log: seq<Entry>, e: Entry)
    requires KeepsRealTime(h, log)
    requires NumberedLog(log) && e.op.index == |LinesOf(log, e.op.conn)|
    requires NumberedHistory(h) && |RepliesTo(h, e.op.conn)| <= e.op.index
    ensures KeepsRealTime(h, log + [e])
  {
    forall i | 0 <= i < |h| && h[i].Respond? ensures h[i].op != e.op { EventBounds(h, i); }
    forall p | 0 <= p < |log| ensures log[p].op != e.op { EntryBounds(log, p); }
    var log' := log + [e];
    forall i, j, p, q |
      && 0 <= i < j < |h| && h[i].Respond? && h[j].Invoke?
      && 0 <= p < |log'| && 0 <= q < |log'|
      && log'[p].op == h[i].op && log'[q].op == h[j].op
      ensures p < q
    {
      assert p < |log| && log[p].op == h[i].op;
      if q < |log| { assert log[q].op == h[j].op; }
    }
  }

  /** Per connection, the log holds the lines read, up to the last, and answers every reply written. */
  ghost predicate Agree(h: seq<Event>, log: seq<Entry>, c: nat) {
    && LinesOf(log, c) <= InvokedBy(h, c)
    && RepliesTo(h, c) <= AnswersOf(log, c)
  }

  /** A legal, numbered log that agrees with the history on every connection linearizes it. */
  lemma AgreeingLogLinearizes(h: seq<Event>, log: seq<Entry>)
    requires Legal(log) && NumberedLog(log) && NumberedHistory(h) && KeepsRealTime(h, log)
    requires forall c: nat :: Agree(h, log, c)
    ensures Linearizes(log, h)
  {
    forall p, q | 0 <= p < q < |log| ensures log[p].op != log[q].op { EntriesDistinct(log, p, q); }
    forall p | 0 <= p < |log| ensures Invoke(log[p].op, log[p].line) in h {
      var op := log[p].op;
      EntryBounds(log, p);
      assert Agree(h, log, op.conn);
      FindInvoke(h, op.conn, op.index);
    }
    forall i | 0 <= i < |h| && h[i].Respond?
      ensures exists p :: 0 <= p < |log| && log[p].op == h[i].op && log[p].reply == h[i].reply
    {
      var op := h[i].op;
      EventBounds(h, i);
      assert Agree(h, log, op.conn);
      var p := FindEntry(log, op.conn, op.index);
    }
  }
}
