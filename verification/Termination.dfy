/** Once the gate is shut the server drains: a measure goes down, and nothing blocks it. */
module Termination {
  import opened Wrappers
  import opened Histories
  import opened Machine
  import opened Locks
  import opened Effects
  import opened Linearizability
  import opened Draining

  // ----- the measure -----

  function HandlerRank(pc: Pc): nat {
    match pc
    case Accepted => 15
    case Registered => 14
    case Admitted => 13
    case Scanning => 12
    case Parsing => 11
    case Locking(_) => 10
    case Reading(_) => 9
    case Putting(_, _) => 9
    case Checking(_) => 9
    case Removing(_) => 8
    case GetUnlock(_) => 7
    case SetUnlock => 7
    case DelUnlock(_) => 7
    case Writing(_) => 6
    case CloseLock => 5
    case CloseDelete => 4
    case CloseUnlock => 3
    case CloseConn => 2
    case WgDone => 1
    case Finished => 0
    case Refused => 0
  }

  function AcceptorRank(pc: AcceptorPc): nat {
    match pc
    case Got(_) => 10
    case Deciding(_) => 9
    case Inserting(_) => 8
    case Adding(_) => 7
    case AdmitUnlock(_) => 6
    case Spawning(_) => 5
    case AtAccept => 4
    case AcceptFailed => 3
    case RefuseUnlock(_) => 2
    case RefuseClose(_) => 1
    case Stopped(_) => 0
  }

  function ShutdownRank(pc: ShutdownPc): nat {
    if pc.StartingDrain? then 2 else if pc.Selecting? then 1 else 0
  }

  function DrainRank(pc: DrainPc): nat {
    match pc
    case NotStarted => 3
    case Waiting => 2
    case Announcing => 1
    case Drained => 0
  }

  function HandlerRanks(conns: seq<Conn>): nat {
    if conns == [] then 0
    else HandlerRanks(conns[..|conns| - 1]) + HandlerRank(conns[|conns| - 1].pc)
  }

  function Measure(s: State): nat {
    HandlerRanks(s.conns) + AcceptorRank(s.gate.acceptor) + ShutdownRank(s.gate.shutdown) + DrainRank(s.gate.drain)
  }

  lemma {:induction false} RanksUpdate(conns: seq<Conn>, i: nat, k: Conn)
    requires i < |conns|
    ensures HandlerRanks(conns[i := k]) == HandlerRanks(conns) + HandlerRank(k.pc) - HandlerRank(conns[i].pc)
  {
    var n := |conns| - 1;
    if i == n {
      assert conns[i := k][..n] == conns[..n];
    } else {
      RanksUpdate(conns[..n], i, k);
      assert conns[i := k][..n] == conns[..n][i := k];
    }
  }

  // ----- it goes down on every step of the server -----

  /** A handler's own step, other than a successful write, moves it strictly toward its end. */
  predicate Lower(s: State, t: State, c: nat) {
    Only(s, t, c) && HandlerRank(t.conns[c].pc) < HandlerRank(s.conns[c].pc)
  }

  lemma LoopLowers(s: State, c: nat)
    requires Has(s, c) && InLoop(s.conns[c].pc)
    ensures Lower(s, LoopStep(s, c), c)
  {
    LoopFrame(s, c);
    LoopRank(s.conns[c].pc, LoopStep(s, c).conns[c].pc);
  }

  lemma LoopRank(from: Pc, to: Pc)
    requires LoopMoves(from, to)
    ensures HandlerRank(to) < HandlerRank(from)
  {
  }

  lemma StoreLowers(s: State, c: nat)
    requires Has(s, c) && InStore(s.conns[c].pc)
    ensures Lower(s, StoreStep(s, c), c)
  {
    StoreFrame(s, c);
  }

  lemma DeferredLowers(s: State, c: nat)
    requires Has(s, c) && InDeferred(s.conns[c].pc)
    ensures var t := DeferredStep(s, c);
            Lower(s, t, c) && t.gate.acceptor == s.gate.acceptor
            && t.gate.shutdown == s.gate.shutdown && t.gate.drain == s.gate.drain
  {
  }

  lemma HandleLowers(s: State, c: nat)
    requires Has(s, c) && HandlerReady(s, c)
    ensures Measure(HandlerStep(s, c)) < Measure(s)
  {
    if InLoop(s.conns[c].pc) { LoopLowers(s, c); LoopFrame(s, c); }
    else if InStore(s.conns[c].pc) { StoreLowers(s, c); StoreFrame(s, c); }
    else { DeferredLowers(s, c); }
    RanksUpdate(s.conns, c, HandlerStep(s, c).conns[c]);
  }

  lemma AcceptorLowers(s: State)
    requires Inv(s) && AcceptorReady(s) && AcceptorHasConn(s)
    ensures Measure(AcceptorStep(s)) < Measure(s)
  {
    if Carried(s.gate.acceptor).Some? {
      var c := Carried(s.gate.acceptor).value;
      AcceptorOnly(s, c);
      AcceptorRanksFall(s, c);
      RanksUpdate(s.conns, c, AcceptorStep(s).conns[c]);
    }
  }

  lemma AcceptorRanksFall(s: State, c: nat)
    requires AdmissionInv(s) && AcceptorReady(s) && AcceptorHasConn(s) && Carried(s.gate.acceptor) == Some(c)
    ensures var t := AcceptorStep(s);
            && Has(t, c) && HandlerRank(t.conns[c].pc) <= HandlerRank(s.conns[c].pc)
            && AcceptorRank(t.gate.acceptor) < AcceptorRank(s.gate.acceptor)
            && t.gate.shutdown == s.gate.shutdown && t.gate.drain == s.gate.drain
  {
    AcceptorOnly(s, c);
  }

  lemma OtherLowers(s: State, a: Action)
    requires Shut(s) && Inv(s) && Enabled(s, a) && IsServerStep(a)
    requires !a.Handle? && !a.Acceptor? && !a.Written?
    ensures Measure(Next(s, a)) < Measure(s)
  {
  }

  /** No write succeeds any more: every connection still being served is closed. */
  lemma WritesFail(s: State, c: nat)
    requires Inv(s) && Shut(s) && Has(s, c) && InBody(s.conns[c].pc)
    ensures s.conns[c].closed
  {
    assert c in s.gate.registered;
  }

  lemma ServerLowers(s: State, a: Action)
    requires Inv(s) && Shut(s) && Enabled(s, a) && IsServerStep(a)
    ensures Measure(Next(s, a)) < Measure(s)
  {
    match a
    case Handle(c) => HandleLowers(s, c);
    case Acceptor => AcceptorLowers(s);
    case Written(c) => WritesFail(s, c); assert false;
    case _ => OtherLowers(s, a);
  }

  lemma ClientKeepsMeasure(s: State, a: Action)
    requires Enabled(s, a) && !IsServerStep(a)
    ensures Measure(Next(s, a)) == Measure(s)
  {
    ClientFrame(s, a);
    RanksUpdate(s.conns, a.c, Next(s, a).conns[a.c]);
  }

  function ServerSteps(run: seq<Action>): nat {
    if run == [] then 0 else (if IsServerStep(run[0]) then 1 else 0) + ServerSteps(run[1..])
  }

  lemma {:induction false} MeasureRun(s: State, run: seq<Action>, t: State)
    requires Inv(s) && Shut(s) && Runs(s, run, t)
    ensures ServerSteps(run) + Measure(t) <= Measure(s)
    decreases |run|
  {
    if run != [] {
      StepInv(s, run[0]);
      ShutStep(s, run[0]);
      if IsServerStep(run[0]) { ServerLowers(s, run[0]); } else { ClientKeepsMeasure(s, run[0]); }
      MeasureRun(Next(s, run[0]), run[1..], t);
    }
  }

  /** However the clients and the scheduler behave, the server takes at most this many more steps. */
  lemma DrainIsBounded(s: State, run: seq<Action>, t: State)
    requires Reachable(s) && Shut(s) && Runs(s, run, t)
    ensures ServerSteps(run) <= Measure(s)
  {
    ReachableInv(s);
    MeasureRun(s, run, t);
  }

  // ----- nothing blocks it -----

  lemma {:induction false} SomeLive(conns: seq<Conn>) returns (c: nat)
    requires CountLive(conns) > 0
    ensures c < |conns| && Live(conns[c].pc)
  {
    var n := |conns| - 1;
    if Live(conns[n].pc) {
      c := n;
    } else {
      c := SomeLive(conns[..n]);
    }
  }

  /** A step that draining needs: not the context ending, not an accept error, not a lucky write. */
  predicate Draws(a: Action) {
    a.Handle? || a.Acceptor? || a.Shutdown? || a.Drain?
  }

  predicate Held(m: Memory) {
    m.writer.Some? || m.readers != {}
  }

  predicate WriterWaits(pc: Pc) {
    pc.Locking? && !pc.cmd.Get?
  }

  /**
   The store lock at its strictest: it is taken only when free, and by a reader only when no
   writer waits. A RWMutex never refuses such a step.
   */
  ghost predicate LockAdmits(s: State, a: Action) {
    a.Handle? && Has(s, a.c) && s.conns[a.c].pc.Locking? ==>
      && !Held(s.store)
      && (WriterWaits(s.conns[a.c].pc) || forall d: nat :: Has(s, d) ==> !WriterWaits(s.conns[d].pc))
  }

  /** Whoever holds mu can go on. */
  lemma MuHolderMoves(s: State) returns (a: Action)
    requires Inv(s) && Shut(s) && s.gate.mu.Some?
    ensures Draws(a) && Enabled(s, a) && LockAdmits(s, a)
  {
    match s.gate.mu.value
    case ByHandler(c) =>
      assert Has(s, c) && HoldsMu(s.conns[c].pc);
      a := Handle(c);
    case ByAcceptor => a := Action.Acceptor;
  }

  /** Whoever holds the store lock can go on. */
  lemma StoreHolderMoves(s: State) returns (a: Action)
    requires Inv(s) && Held(s.store)
    ensures Draws(a) && Enabled(s, a) && LockAdmits(s, a)
  {
    if s.store.writer.Some? {
      var c := s.store.writer.value;
      assert HoldsWrite(s.conns[c].pc);
      a := Handle(c);
    } else {
      var c :| c in s.store.readers;
      assert HoldsRead(s.conns[c].pc);
      a := Handle(c);
    }
  }

  /** Once the store lock is free, a waiting writer takes it before a waiting reader. */
  lemma LockMoves(s: State, c: nat) returns (a: Action)
    requires Inv(s) && Has(s, c) && s.conns[c].pc.Locking?
    ensures Draws(a) && Enabled(s, a) && LockAdmits(s, a)
  {
    if Held(s.store) {
      a := StoreHolderMoves(s);
    } else if d: nat :| Has(s, d) && WriterWaits(s.conns[d].pc) {
      a := Handle(d);
    } else {
      a := Handle(c);
    }
  }

  lemma LiveMoves(s: State, c: nat) returns (a: Action)
    requires Inv(s) && Shut(s) && Has(s, c) && Live(s.conns[c].pc)
    ensures Draws(a) && Enabled(s, a) && LockAdmits(s, a)
  {
    var pc := s.conns[c].pc;
    if InBody(pc) { WritesFail(s, c); }
    if pc.Admitted? {
      a := Action.Acceptor;
    } else if pc.Locking? {
      a := LockMoves(s, c);
    } else if HandlerReady(s, c) {
      a := Handle(c);
    } else {
      a := MuHolderMoves(s);
    }
  }

  /**
   Until drained, some step that draining needs is enabled, also when waiting writers hold
   back readers.
   */
  lemma DrainNeverBlocks(s: State) returns (a: Action)
    requires Reachable(s) && Shut(s) && !s.gate.drain.Drained?
    ensures Draws(a) && Enabled(s, a) && LockAdmits(s, a)
  {
    ReachableInv(s);
    a := SomeDraw(s);
  }

  lemma SomeDraw(s: State) returns (a: Action)
    requires Inv(s) && Shut(s) && !s.gate.drain.Drained?
    ensures Draws(a) && Enabled(s, a) && LockAdmits(s, a)
  {
    if s.gate.wg > 0 {
      var c := SomeLive(s.conns);
      a := LiveMoves(s, c);
    } else if s.gate.drain.NotStarted? {
      a := Action.Shutdown;
    } else {
      a := Drain;
    }
  }

  /** Nothing is left that draining could do, under the stricter lock. */
  ghost predicate Stuck(s: State) {
    forall a: Action :: Draws(a) && Enabled(s, a) ==> !LockAdmits(s, a)
  }

  predicate AtRest(pc: AcceptorPc) {
    pc.AtAccept? || pc.Stopped?
  }

  lemma StuckAcceptor(s: State)
    requires Inv(s) && Shut(s) && Stuck(s)
    ensures AtRest(s.gate.acceptor)
  {
    if !AtRest(s.gate.acceptor) {
      var a := Action.Acceptor;
      if !AcceptorReady(s) { a := MuHolderMoves(s); }
      assert Draws(a) && Enabled(s, a) && LockAdmits(s, a);
    }
  }

  /** With the acceptor at rest, no connection is left half admitted. */
  lemma RestClosesAll(s: State, c: nat)
    requires Inv(s) && Idle(s) && AtRest(s.gate.acceptor) && Has(s, c)
    ensures s.conns[c].closed
  {
    assert s.conns[c].pc.Accepted? ==> Carried(s.gate.acceptor) == Some(c);
  }

  /**
   Every run that cannot be continued has drained, in at most `Measure(s)` steps of the server:
   no scheduler and no client can keep the server from it. By then every connection ever
   accepted is closed, admitted or not.
   */
  lemma DrainTerminates(s: State, run: seq<Action>, t: State)
    requires Reachable(s) && Shut(s) && Runs(s, run, t)
    ensures ServerSteps(run) <= Measure(s)
    ensures Stuck(t) ==> t.gate.drain.Drained? && t.gate.wg == 0 && Idle(t)
    ensures Stuck(t) ==> AtRest(t.gate.acceptor) && forall c: nat :: Has(t, c) ==> t.conns[c].closed
  {
    ReachableInv(s);
    MeasureRun(s, run, t);
    ShutRun(s, run, t);
    RunInv(s, run, t);
    if Stuck(t) { StuckIsDrained(t); }
  }

  lemma StuckIsDrained(s: State)
    requires Inv(s) && Shut(s) && Stuck(s)
    ensures s.gate.drain.Drained? && s.gate.wg == 0 && Idle(s)
    ensures AtRest(s.gate.acceptor) && forall c: nat :: Has(s, c) ==> s.conns[c].closed
    ensures s.gate.shutdown.ReturnedNil? || s.gate.shutdown.ReturnedErr?
  {
    if !s.gate.drain.Drained? { var a := SomeDraw(s); }
    if ShutdownReady(s) {
      var a := Action.Shutdown;
      assert Draws(a) && Enabled(s, a) && LockAdmits(s, a);
    }
    ZeroIsIdle(s);
    StuckAcceptor(s);
    forall c: nat | Has(s, c) ensures s.conns[c].closed { RestClosesAll(s, c); }
  }

  /**
   And Shutdown has returned: the context's error if the context ended while it was waiting,
   and nil otherwise.
   */
  lemma ShutdownReturns(s: State, run: seq<Action>, t: State)
    requires Reachable(s) && Shut(s) && Runs(s, run, t) && Stuck(t)
    ensures if s.gate.shutdown.ReturnedErr? || Expire in run
            then t.gate.shutdown.ReturnedErr? else t.gate.shutdown.ReturnedNil?
  {
    ReachableInv(s);
    ShutRun(s, run, t);
    RunInv(s, run, t);
    StuckIsDrained(t);
    ErrExactly(s, run, t);
  }

  /**
   When the pending Accept has failed too, as on a closed listener it must, Serve has returned:
   nil, unless it had returned an accept error before Shutdown.
   */
  lemma ServeReturns(s: State, run: seq<Action>, t: State)
    requires Reachable(s) && Shut(s) && Runs(s, run, t) && Stuck(t) && !Enabled(t, AcceptFail)
    ensures t.gate.acceptor.Stopped?
    ensures t.gate.acceptor.clean <==> s.gate.acceptor != Stopped(false)
  {
    DrainTerminates(s, run, t);
    ReachableInv(s);
    ServeReturnsNil(s, run, t);
  }

  /** A run of steps that draining needs, each allowed by the stricter lock. */
  ghost predicate DrainsBy(s: State, run: seq<Action>, t: State)
    decreases |run|
  {
    if run == [] then s == t
    else
      && Enabled(s, run[0]) && Draws(run[0]) && LockAdmits(s, run[0])
      && DrainsBy(Next(s, run[0]), run[1..], t)
  }

  /** Such a run to a drained server always exists, without any step of a client; Shutdown returns nil in it. */
  lemma DrainIsPossible(s: State) returns (run: seq<Action>, t: State)
    requires Reachable(s) && Shut(s)
    ensures DrainsBy(s, run, t) && Runs(s, run, t) && t.gate.drain.Drained? && t.gate.wg == 0 && Idle(t)
    ensures t.gate.shutdown == if s.gate.shutdown.ReturnedErr? then ReturnedErr else ReturnedNil
  {
    ReachableInv(s);
    run, t := DrainRun(s);
  }

  lemma {:induction false} DrainRun(s: State) returns (run: seq<Action>, t: State)
    requires Inv(s) && Shut(s)
    ensures DrainsBy(s, run, t) && Runs(s, run, t) && t.gate.drain.Drained? && t.gate.wg == 0 && Idle(t)
    ensures t.gate.shutdown == if s.gate.shutdown.ReturnedErr? then ReturnedErr else ReturnedNil
    decreases Measure(s)
  {
    if s.gate.drain.Drained? && !s.gate.shutdown.Selecting? {
      run, t := [], s;
      ZeroIsIdle(s);
    } else {
      var a := Action.Shutdown;
      if !s.gate.drain.Drained? { a := SomeDraw(s); }
      ErrStep(s, a);
      StepInv(s, a);
      ShutStep(s, a);
      ServerLowers(s, a);
      run, t := DrainRun(Next(s, a));
      run := [a] + run;
    }
  }

  // ----- at most one more command per connection -----

  /** A handler that can still begin a command. */
  function Budget(k: Conn): nat {
    if BeforeLoop(k.pc) || k.pc.Scanning? then 1 else 0
  }

  function Potential(s: State, c: nat): nat
    requires Has(s, c)
  {
    |InvokedBy(s.history, c)| + Budget(s.conns[c])
  }

  /** The step reads no line, and no handler goes back to where it could. */
  predicate ReadsNothing(s: State, t: State, c: nat) {
    && Only(s, t, c) && t.history == s.history
    && Budget(t.conns[c]) <= Budget(s.conns[c])
  }

  /** The scan reads one line or none. */
  predicate ReadsOne(s: State, t: State, c: nat) {
    && Only(s, t, c) && s.conns[c].pc.Scanning? && t.conns[c].pc.Parsing?
    && t.history == s.history + [Invoke(OpId(c, |InvokedBy(s.history, c)|), t.conns[c].line)]
  }

  lemma LoopReads(s: State, c: nat)
    requires Has(s, c) && InLoop(s.conns[c].pc)
    ensures ReadsOne(s, LoopStep(s, c), c) || ReadsNothing(s, LoopStep(s, c), c)
  {
    LoopFrame(s, c);
  }

  lemma ReadingSpends(s: State, t: State, c: nat, d: nat)
    requires Has(s, d) && ReadsOne(s, t, c)
    ensures Has(t, d) && Potential(t, d) <= Potential(s, d)
  {
    AppendEvent(s.history, Invoke(OpId(c, |InvokedBy(s.history, c)|), t.conns[c].line));
  }

  lemma ScanSpends(s: State, c: nat, d: nat)
    requires Has(s, c) && Has(s, d) && InLoop(s.conns[c].pc)
    ensures Has(LoopStep(s, c), d) && Potential(LoopStep(s, c), d) <= Potential(s, d)
  {
    LoopReads(s, c);
    if ReadsOne(s, LoopStep(s, c), c) { ReadingSpends(s, LoopStep(s, c), c, d); }
  }

  lemma StoreReadsNothing(s: State, c: nat)
    requires Has(s, c) && InStore(s.conns[c].pc)
    ensures ReadsNothing(s, StoreStep(s, c), c)
  {
    StoreFrame(s, c);
  }

  lemma DeferredReadsNothing(s: State, c: nat)
    requires Has(s, c) && InDeferred(s.conns[c].pc)
    ensures ReadsNothing(s, DeferredStep(s, c), c)
  {
    DeferredFrame(s, c);
  }

  lemma AcceptorReadsNothing(s: State, d: nat)
    requires Inv(s) && AcceptorReady(s) && AcceptorHasConn(s) && Has(s, d)
    ensures Has(AcceptorStep(s), d) && Potential(AcceptorStep(s), d) <= Potential(s, d)
  {
    if Carried(s.gate.acceptor).Some? {
      AcceptorFrame(s, Carried(s.gate.acceptor).value);
    }
  }

  lemma OtherReadsNothing(s: State, a: Action, d: nat)
    requires Shut(s) && Inv(s) && Enabled(s, a) && Has(s, d)
    requires !a.Handle? && !a.Acceptor? && !a.Written?
    ensures Has(Next(s, a), d) && Potential(Next(s, a), d) <= Potential(s, d)
  {
    if !IsServerStep(a) { ClientFrame(s, a); }
  }

  lemma StepSpends(s: State, a: Action, d: nat)
    requires Inv(s) && Shut(s) && Enabled(s, a) && Has(s, d)
    ensures Has(Next(s, a), d) && Potential(Next(s, a), d) <= Potential(s, d)
  {
    match a
    case Handle(c) =>
      if InLoop(s.conns[c].pc) { ScanSpends(s, c, d); }
      else if InStore(s.conns[c].pc) { StoreReadsNothing(s, c); }
      else { DeferredReadsNothing(s, c); }
    case Acceptor => AcceptorReadsNothing(s, d);
    case Written(c) => WritesFail(s, c); assert false;
    case _ => OtherReadsNothing(s, a, d);
  }

  lemma {:induction false} RunSpends(s: State, run: seq<Action>, t: State, d: nat)
    requires Inv(s) && Shut(s) && Runs(s, run, t) && Has(s, d)
    ensures Has(t, d) && Potential(t, d) <= Potential(s, d)
    decreases |run|
  {
    if run != [] {
      StepInv(s, run[0]);
      ShutStep(s, run[0]);
      StepSpends(s, run[0], d);
      RunSpends(Next(s, run[0]), run[1..], t, d);
    }
  }

  /** After the gate is shut a connection begins at most one more command, whatever its scanner has buffered. */
  lemma AtMostOneMoreCommand(s: State, run: seq<Action>, t: State, c: nat)
    requires Reachable(s) && Shut(s) && Runs(s, run, t) && Has(s, c)
    ensures |InvokedBy(t.history, c)| <= |InvokedBy(s.history, c)| + 1
  {
    ReachableInv(s);
    RunSpends(s, run, t, c);
  }
}
