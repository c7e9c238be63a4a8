/** No line is lost, reordered or invented between the client and the scan loop. */
module Delivery {
  import opened Histories
  import opened Machine
  import opened Locks
  import opened Effects
  import opened Linearizability
  import opened Termination

  /** The lines that the reads of one step bring to connection c. */
  function Brings(a: Action, c: nat): seq<string> {
    if a.Fill? && a.c == c then a.lines else []
  }

  /** The complete lines that reach connection c over a run. */
  function Delivered(run: seq<Action>, c: nat): seq<string> {
    if run == [] then [] else Brings(run[0], c) + Delivered(run[1..], c)
  }

  function Buffered(s: State, c: nat): seq<string> {
    if Has(s, c) then s.conns[c].buffered else []
  }

  /** What connection c has read, and then what it has still to read. */
  function Input(s: State, c: nat): seq<string> {
    InvokedBy(s.history, c) + Buffered(s, c)
  }

  // ----- every step -----

  /** The step leaves the input of every connection as it is. */
  predicate SameBuffers(s: State, t: State) {
    && |s.conns| <= |t.conns| && t.history == s.history
    && (forall c :: 0 <= c < |s.conns| ==> t.conns[c].buffered == s.conns[c].buffered)
    && (forall c :: |s.conns| <= c < |t.conns| ==> t.conns[c].buffered == [])
  }

  lemma ScanInput(s: State, c: nat, d: nat)
    requires Has(s, c) && s.conns[c].pc.Scanning?
    ensures Input(Scan(s, c), d) == Input(s, d)
  {
    var k, t := s.conns[c], Scan(s, c);
    if k.buffered != [] && |k.buffered[0]| <= s.cap {
      AppendEvent(s.history, Invoke(OpId(c, |InvokedBy(s.history, c)|), k.buffered[0]));
      assert k.buffered == [k.buffered[0]] + k.buffered[1..];
      if d == c {
        assert InvokedBy(t.history, c) == InvokedBy(s.history, c) + [k.buffered[0]];
        assert Buffered(t, c) == k.buffered[1..];
      }
    }
  }

  lemma LoopInput(s: State, c: nat, d: nat)
    requires Has(s, c) && InLoop(s.conns[c].pc)
    ensures Input(LoopStep(s, c), d) == Input(s, d)
  {
    if s.conns[c].pc.Scanning? {
      ScanInput(s, c, d);
    } else {
      LoopReads(s, c);
      assert SameBuffers(s, LoopStep(s, c));
    }
  }

  lemma StoreBuffers(s: State, c: nat)
    requires Has(s, c) && InStore(s.conns[c].pc)
    ensures SameBuffers(s, StoreStep(s, c))
  {
    StoreReadsNothing(s, c);
    assert StoreStep(s, c).conns[c].buffered == s.conns[c].buffered;
  }

  lemma DeferredBuffers(s: State, c: nat)
    requires Has(s, c) && InDeferred(s.conns[c].pc)
    ensures SameBuffers(s, DeferredStep(s, c))
  {
  }

  lemma WrittenInput(s: State, c: nat, d: nat)
    requires Has(s, c) && s.conns[c].pc.Writing?
    ensures Input(WriteReply(s, c), d) == Input(s, d)
  {
    AppendEvent(s.history, Respond(OpId(c, |RepliesTo(s.history, c)|), s.conns[c].pc.reply));
  }

  lemma AcceptorBuffers(s: State)
    requires AcceptorReady(s) && AcceptorHasConn(s)
    ensures SameBuffers(s, AcceptorStep(s))
  {
  }

  lemma OtherBuffers(s: State, a: Action)
    requires Enabled(s, a) && !a.Handle? && !a.Acceptor? && !a.Written? && !a.Fill?
    ensures SameBuffers(s, Next(s, a))
  {
  }

  /** Only a read adds to the input of a connection, and it adds what it brings. */
  lemma StepInput(s: State, a: Action, d: nat)
    requires Enabled(s, a)
    ensures Input(Next(s, a), d) == Input(s, d) + Brings(a, d)
  {
    match a
    case Handle(c) =>
      if InLoop(s.conns[c].pc) { LoopInput(s, c, d); }
      else if InStore(s.conns[c].pc) { StoreBuffers(s, c); }
      else { DeferredBuffers(s, c); }
    case Written(c) => WrittenInput(s, c, d);
    case Acceptor => AcceptorBuffers(s);
    case Fill(_, _) =>
    case _ => OtherBuffers(s, a);
  }

  lemma {:induction false} RunInput(s: State, run: seq<Action>, t: State, c: nat)
    requires Runs(s, run, t)
    ensures Input(t, c) == Input(s, c) + Delivered(run, c)
    decreases |run|
  {
    if run == [] {
      assert Delivered(run, c) == [];
    } else {
      StepInput(s, run[0], c);
      RunInput(Next(s, run[0]), run[1..], t, c);
      Regroup(Input(s, c), Brings(run[0], c), Delivered(run[1..], c));
    }
  }

  lemma Regroup(a: seq<string>, b: seq<string>, c: seq<string>)
    ensures (a + b) + c == a + (b + c)
  {
  }

  /** At every point of every run, what reached a connection is what it has read, in order, and then its buffer. */
  lemma NoLineIsLost(cap: nat, run: seq<Action>, t: State, c: nat)
    requires Runs(Init(cap), run, t)
    ensures Delivered(run, c) == InvokedBy(t.history, c) + Buffered(t, c)
  {
    RunInput(Init(cap), run, t, c);
  }

  // ----- why the loop is left -----

  predicate AfterLoop(pc: Pc) {
    InDeferred(pc) || pc.Finished?
  }

  predicate TooLong(k: Conn, cap: nat) {
    k.buffered != [] && |k.buffered[0]| > cap
  }

  /** The loop was left because the next line is too long, or because the connection is dead. */
  ghost predicate LeftFor(s: State, c: nat)
    requires Has(s, c)
  {
    var k := s.conns[c];
    || TooLong(k, s.cap)
    || ((k.closed || k.gone)
        && (k.buffered == [] || |RepliesTo(s.history, c)| < |InvokedBy(s.history, c)|))
  }

  ghost predicate LeftInv(s: State) {
    forall c: nat :: Has(s, c) && AfterLoop(s.conns[c].pc) ==> LeftFor(s, c)
  }

  /** What happened to connection d on the wire is what it was, and it is no less dead. */
  predicate NoLess(s: State, t: State, d: nat)
    requires Has(s, d)
  {
    && Has(t, d) && t.cap == s.cap
    && t.conns[d].buffered == s.conns[d].buffered
    && (s.conns[d].closed ==> t.conns[d].closed) && (s.conns[d].gone ==> t.conns[d].gone)
    && InvokedBy(t.history, d) == InvokedBy(s.history, d) && RepliesTo(t.history, d) == RepliesTo(s.history, d)
  }

  lemma LeftKept(s: State, t: State, d: nat)
    requires Has(s, d) && LeftFor(s, d) && NoLess(s, t, d)
    ensures LeftFor(t, d)
  {
  }

  /** At most one more event, and that of connection c. */
  predicate OneEvent(s: State, t: State, c: nat) {
    || t.history == s.history
    || (|t.history| == |s.history| + 1 && t.history[..|s.history|] == s.history
        && t.history[|s.history|].op.conn == c)
  }

  lemma OthersKept(s: State, t: State, c: nat, d: nat)
    requires Only(s, t, c) && OneEvent(s, t, c) && c != d && Has(s, d)
    ensures NoLess(s, t, d)
  {
    if t.history != s.history {
      assert t.history == s.history + [t.history[|s.history|]];
      AppendEvent(s.history, t.history[|s.history|]);
    }
  }

  lemma LeavesLoop(s: State, c: nat)
    requires Has(s, c) && ConnLog(s, c) && InLoop(s.conns[c].pc) && HandlerReady(s, c)
    ensures Only(s, LoopStep(s, c), c) && OneEvent(s, LoopStep(s, c), c)
    ensures AfterLoop(LoopStep(s, c).conns[c].pc) ==> LeftFor(LoopStep(s, c), c)
  {
    LoopReads(s, c);
    LoopFrame(s, c);
    match s.conns[c].pc
    case Scanning => ScanLeaves(s, c);
    case Parsing =>
    case Writing(_) => WriteLeaves(s, c);
  }

  lemma ScanLeaves(s: State, c: nat)
    requires Has(s, c) && s.conns[c].pc.Scanning? && HandlerReady(s, c)
    ensures Scan(s, c).conns[c].pc.CloseLock? ==> LeftFor(Scan(s, c), c)
  {
  }

  lemma WriteLeaves(s: State, c: nat)
    requires Has(s, c) && ConnLog(s, c) && s.conns[c].pc.Writing? && HandlerReady(s, c)
    ensures LeftFor(Goto(s, c, CloseLock), c)
  {
    assert AnswersOf(s.log, c) == RepliesTo(s.history, c) + [s.conns[c].pc.reply];
  }

  lemma DeferredKeeps(s: State, c: nat)
    requires Has(s, c) && InDeferred(s.conns[c].pc)
    ensures Only(s, DeferredStep(s, c), c) && OneEvent(s, DeferredStep(s, c), c) && NoLess(s, DeferredStep(s, c), c)
  {
  }

  /** Connection d was past its loop before a step that is not its own, and loses nothing by it. */
  lemma AsideKept(s: State, a: Action, d: nat)
    requires Enabled(s, a) && !a.Handle? && !a.Written? && !a.Acceptor?
    requires Has(s, d) && AfterLoop(s.conns[d].pc)
    ensures NoLess(s, Next(s, a), d)
  {
  }

  /** No connection comes to be past its loop by such a step. */
  lemma AsideLeaves(s: State, a: Action, d: nat)
    requires Enabled(s, a) && !a.Handle? && !a.Written? && !a.Acceptor?
    requires Has(Next(s, a), d) && AfterLoop(Next(s, a).conns[d].pc)
    ensures Has(s, d) && AfterLoop(s.conns[d].pc)
  {
  }

  lemma AcceptorKeepsLeft(s: State, d: nat)
    requires AdmissionInv(s) && AcceptorReady(s) && AcceptorHasConn(s)
    requires Has(AcceptorStep(s), d) && AfterLoop(AcceptorStep(s).conns[d].pc)
    ensures Has(s, d) && AfterLoop(s.conns[d].pc) && NoLess(s, AcceptorStep(s), d)
  {
  }

  /** What a handler's own step does to its connection. */
  ghost predicate OwnMove(s: State, t: State, c: nat) {
    && Only(s, t, c) && OneEvent(s, t, c)
    && (AfterLoop(t.conns[c].pc) ==> LeftFor(t, c) || (InDeferred(s.conns[c].pc) && NoLess(s, t, c)))
  }

  lemma OwnLoop(s: State, c: nat)
    requires Has(s, c) && ConnLog(s, c) && InLoop(s.conns[c].pc) && HandlerReady(s, c)
    ensures OwnMove(s, LoopStep(s, c), c)
  {
    LeavesLoop(s, c);
  }

  lemma OwnStore(s: State, c: nat)
    requires Has(s, c) && InStore(s.conns[c].pc)
    ensures OwnMove(s, StoreStep(s, c), c)
  {
    StoreReadsNothing(s, c);
    StoreStays(s, c);
  }

  lemma OwnDeferred(s: State, c: nat)
    requires Has(s, c) && InDeferred(s.conns[c].pc)
    ensures OwnMove(s, DeferredStep(s, c), c)
  {
    DeferredKeeps(s, c);
  }

  lemma HandleOwn(s: State, c: nat)
    requires Has(s, c) && ConnLog(s, c) && HandlerReady(s, c)
    ensures OwnMove(s, HandlerStep(s, c), c)
  {
    if InLoop(s.conns[c].pc) { OwnLoop(s, c); }
    else if InStore(s.conns[c].pc) { OwnStore(s, c); }
    else { OwnDeferred(s, c); }
  }

  lemma HandleLeaves(s: State, c: nat, d: nat)
    requires Inv(s) && LeftInv(s) && Has(s, c) && HandlerReady(s, c)
    requires Has(HandlerStep(s, c), d) && AfterLoop(HandlerStep(s, c).conns[d].pc)
    ensures LeftFor(HandlerStep(s, c), d)
  {
    assert ConnLog(s, c);
    HandleOwn(s, c);
    LeavesEither(s, HandlerStep(s, c), c, d);
  }

  lemma LeavesEither(s: State, t: State, c: nat, d: nat)
    requires LeftInv(s) && OwnMove(s, t, c)
    requires Has(t, d) && AfterLoop(t.conns[d].pc)
    ensures LeftFor(t, d)
  {
    if d != c {
      OthersKept(s, t, c, d);
      LeftKept(s, t, d);
    } else if !LeftFor(t, c) {
      LeftKept(s, t, d);
    }
  }

  lemma StoreStays(s: State, c: nat)
    requires Has(s, c) && InStore(s.conns[c].pc)
    ensures InStore(StoreStep(s, c).conns[c].pc) || StoreStep(s, c).conns[c].pc.Writing?
  {
  }

  lemma WrittenLeaves(s: State, c: nat, d: nat)
    requires LeftInv(s) && Has(s, c) && s.conns[c].pc.Writing?
    requires Has(WriteReply(s, c), d) && AfterLoop(WriteReply(s, c).conns[d].pc)
    ensures LeftFor(WriteReply(s, c), d)
  {
    WrittenFrame(s, c);
    OthersKept(s, WriteReply(s, c), c, d);
    LeftKept(s, WriteReply(s, c), d);
  }

  lemma LeftStep(s: State, a: Action)
    requires Inv(s) && LeftInv(s) && Enabled(s, a)
    ensures LeftInv(Next(s, a))
  {
    var t := Next(s, a);
    forall d: nat | Has(t, d) && AfterLoop(t.conns[d].pc) ensures LeftFor(t, d) {
      match a
      case Handle(c) => HandleLeaves(s, c, d);
      case Written(c) => WrittenLeaves(s, c, d);
      case Acceptor => AcceptorKeepsLeft(s, d); LeftKept(s, t, d);
      case _ => AsideLeaves(s, a, d); AsideKept(s, a, d); LeftKept(s, t, d);
    }
  }

  lemma {:induction false} LeftRun(s: State, run: seq<Action>, t: State)
    requires Inv(s) && LeftInv(s) && Runs(s, run, t)
    ensures LeftInv(t)
    decreases |run|
  {
    if run != [] {
      StepInv(s, run[0]);
      LeftStep(s, run[0]);
      LeftRun(Next(s, run[0]), run[1..], t);
    }
  }

  /**
   A handler leaves its loop only when the next line is too long, or on a dead connection; and
   then it has read every line that reached it, unless a reply could not be written.
   */
  lemma LeavesOnlyWhenDone(cap: nat, run: seq<Action>, t: State, c: nat)
    requires Runs(Init(cap), run, t) && Has(t, c) && AfterLoop(t.conns[c].pc)
    ensures var delivered, read := Delivered(run, c), InvokedBy(t.history, c);
            && read <= delivered
            && (|| (|read| < |delivered| && |delivered[|read|]| > cap)
                || ((t.conns[c].closed || t.conns[c].gone)
                    && (read == delivered || |RepliesTo(t.history, c)| < |read|)))
  {
    NoLineIsLost(cap, run, t, c);
    InitInv(cap);
    LeftRun(Init(cap), run, t);
    CapKept(Init(cap), run, t);
  }

  lemma {:induction false} CapKept(s: State, run: seq<Action>, t: State)
    requires Runs(s, run, t)
    ensures t.cap == s.cap
    decreases |run|
  {
    if run != [] {
      CapStep(s, run[0]);
      CapKept(Next(s, run[0]), run[1..], t);
    }
  }

  lemma CapStep(s: State, a: Action)
    requires Enabled(s, a)
    ensures Next(s, a).cap == s.cap
  {
    match a
    case Handle(c) =>
      if InLoop(s.conns[c].pc) { LoopFrame(s, c); }
      else if InStore(s.conns[c].pc) { StoreFrame(s, c); }
    case Written(c) => WrittenFrame(s, c);
    case _ =>
  }
}
