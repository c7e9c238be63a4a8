/** One line in, one line out: no reply of the server is ever more than one line. */
module Framing {
  import opened Protocol
  import opened AtomicMap
  import opened Histories
  import opened Machine
  import opened Locks
  import opened Effects
  import opened Linearizability

  /** The scanner's contract, carried along: neither buffered nor returned lines hold an LF. */
  ghost predicate LinesClean(s: State) {
    && (forall c: nat, i :: Has(s, c) && 0 <= i < |s.conns[c].buffered| ==> NoLf(s.conns[c].buffered[i]))
    && (forall i :: 0 <= i < |s.history| && s.history[i].Invoke? ==> NoLf(s.history[i].line))
  }

  /** The step neither fills nor drains a buffer, and reads no line. */
  ghost predicate BuffersKept(s: State, t: State) {
    && |s.conns| <= |t.conns|
    && (forall c: nat :: Has(s, c) ==> t.conns[c].buffered == s.conns[c].buffered)
    && (forall c: nat :: Has(t, c) && !Has(s, c) ==> t.conns[c].buffered == [])
    && s.history <= t.history
    && (forall i :: |s.history| <= i < |t.history| ==> t.history[i].Respond?)
  }

  lemma KeptStaysClean(s: State, t: State)
    requires LinesClean(s) && BuffersKept(s, t)
    ensures LinesClean(t)
  {
  }

  lemma LoopClean(s: State, c: nat)
    requires LinesClean(s) && Has(s, c) && InLoop(s.conns[c].pc)
    ensures LinesClean(LoopStep(s, c))
  {
    var t := LoopStep(s, c);
    if s.conns[c].pc.Scanning? && t.conns[c].pc.Parsing? {
      assert t.conns[c].buffered == s.conns[c].buffered[1..];
      assert t.history == s.history + [Invoke(OpId(c, |InvokedBy(s.history, c)|), s.conns[c].buffered[0])];
      assert Only(s, t, c);
    } else {
      assert Only(s, t, c);
      KeptStaysClean(s, t);
    }
  }

  lemma StoreBuffers(s: State, c: nat)
    requires Has(s, c) && InStore(s.conns[c].pc)
    ensures BuffersKept(s, StoreStep(s, c))
  {
    StoreFrame(s, c);
    assert StoreStep(s, c).conns[c].buffered == s.conns[c].buffered;
  }

  lemma DeferredBuffers(s: State, c: nat)
    requires Has(s, c) && InDeferred(s.conns[c].pc)
    ensures BuffersKept(s, DeferredStep(s, c))
  {
  }

  lemma AcceptorBuffers(s: State)
    requires AcceptorReady(s) && AcceptorHasConn(s)
    ensures BuffersKept(s, AcceptorStep(s))
  {
  }

  lemma OtherClean(s: State, a: Action)
    requires LinesClean(s) && Enabled(s, a) && !a.Handle? && !a.Acceptor? && !a.Fill?
    ensures LinesClean(Next(s, a))
  {
    assert BuffersKept(s, Next(s, a));
    KeptStaysClean(s, Next(s, a));
  }

  lemma StepClean(s: State, a: Action)
    requires LinesClean(s) && Enabled(s, a)
    ensures LinesClean(Next(s, a))
  {
    match a
    case Handle(c) =>
      if InLoop(s.conns[c].pc) { LoopClean(s, c); }
      else if InStore(s.conns[c].pc) { StoreBuffers(s, c); KeptStaysClean(s, StoreStep(s, c)); }
      else { DeferredBuffers(s, c); KeptStaysClean(s, DeferredStep(s, c)); }
    case Acceptor => AcceptorBuffers(s); KeptStaysClean(s, AcceptorStep(s));
    case Fill(_, _) =>
    case _ => OtherClean(s, a);
  }

  lemma {:induction false} RunClean(s: State, run: seq<Action>, t: State)
    requires LinesClean(s) && Runs(s, run, t)
    ensures LinesClean(t)
    decreases |run|
  {
    if run != [] {
      StepClean(s, run[0]);
      RunClean(Next(s, run[0]), run[1..], t);
    }
  }

  ghost predicate LinesNoLf(log: seq<Entry>) {
    forall p :: 0 <= p < |log| ==> NoLf(log[p].line)
  }

  lemma {:induction false} CleanReplay(log: seq<Entry>)
    requires LinesNoLf(log)
    ensures CleanDb(Replay(log))
  {
    if log != [] {
      var front := log[..|log| - 1];
      CleanReplay(front);
      LineKeepsClean(log[|log| - 1].line, Replay(front));
      assert Replay(log) == LineEffect(log[|log| - 1].line, Replay(front));
    }
  }

  lemma CleanReply(log: seq<Entry>, p: nat)
    requires Legal(log) && LinesNoLf(log) && p < |log|
    ensures OneLine(log[p].reply)
  {
    LegalAt(log, p);
    CleanReplay(log[..p]);
    LineKeepsClean(log[p].line, Replay(log[..p]));
  }

  lemma InvokedLinesClean(s: State)
    requires Reachable(s)
    ensures LinesClean(s)
  {
    var cap, run :| Runs(Init(cap), run, s);
    RunClean(Init(cap), run, s);
  }

  lemma ReachableLogClean(s: State)
    requires Reachable(s)
    ensures CleanDb(s.store.data)
    ensures forall p :: 0 <= p < |s.log| ==> OneLine(s.log[p].reply)
  {
    InvokedLinesClean(s);
    ServerIsLinearizable(s);
    forall p | 0 <= p < |s.log| ensures NoLf(s.log[p].line) {
      assert Invoke(s.log[p].op, s.log[p].line) in s.history;
    }
    CleanReplay(s.log);
    forall p | 0 <= p < |s.log| ensures OneLine(s.log[p].reply) { CleanReply(s.log, p); }
  }

  /**
   In every reachable state no key or value in the map holds an LF, no value ends in CR, and
   every reply written, or about to be, is exactly one line.
   */
  lemma EveryReplyIsOneLine(s: State)
    requires Reachable(s)
    ensures CleanDb(s.store.data)
    ensures forall i :: 0 <= i < |s.history| && s.history[i].Respond? ==> OneLine(s.history[i].reply)
    ensures forall c: nat :: Has(s, c) && s.conns[c].pc.Writing? ==> OneLine(s.conns[c].pc.reply)
  {
    ReachableLogClean(s);
    ServerIsLinearizable(s);
    forall c: nat | Has(s, c) && s.conns[c].pc.Writing? ensures OneLine(s.conns[c].pc.reply) {
      PendingReplyInLog(s, c);
    }
  }

  lemma PendingReplyInLog(s: State, c: nat)
    requires Reachable(s) && Has(s, c) && s.conns[c].pc.Writing?
    ensures exists p :: 0 <= p < |s.log| && s.log[p].reply == s.conns[c].pc.reply
  {
    ReachableInv(s);
    ReachableConn(s, c);
    LastAnswer(s, c);
    var p := FindEntry(s.log, c, |RepliesTo(s.history, c)|);
  }

  lemma LastAnswer(s: State, c: nat)
    requires Has(s, c) && ConnLog(s, c) && s.conns[c].pc.Writing?
    ensures AnswersOf(s.log, c) == RepliesTo(s.history, c) + [s.conns[c].pc.reply]
  {
  }

  /** The bridge's trimming of a reply takes off its terminator and nothing else. */
  lemma BridgeTrimsTerminator(s: State, i: nat)
    requires Reachable(s) && i < |s.history| && s.history[i].Respond?
    ensures TrimEol(s.history[i].reply) + "\n" == s.history[i].reply
  {
    EveryReplyIsOneLine(s);
    TrimReply(s.history[i].reply);
  }
}
