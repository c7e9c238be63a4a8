/** Graceful shutdown: the admission gate, what Serve returns, and what a drained server means. */
module Draining {
  import opened Wrappers
  import opened Machine
  import opened Locks
  import opened Linearizability
  import opened GateClosing

  /** Shutdown's critical section is over. */
  predicate Shut(s: State) {
    AfterGate(s.gate.shutdown)
  }

  // ----- the admission gate -----

  /** What one step may still change once the gate is shut. */
  ghost predicate OnlyDrains(s: State, t: State) {
    && Shut(t)
    && t.gate.registered <= s.gate.registered
    && t.gate.wg <= s.gate.wg
    && |t.conns| == |s.conns|
    && (forall c: nat :: Has(s, c) && s.conns[c].closed ==> t.conns[c].closed)
    && (forall c: nat :: Has(s, c) && !AdmittedConn(s.conns[c]) ==> !AdmittedConn(t.conns[c]))
  }

  lemma QuietDrains(s: State, t: State, c: nat)
    requires Shut(s) && Quiet(s, t, c)
    ensures OnlyDrains(s, t)
  {
  }

  lemma DeferredDrains(s: State, c: nat)
    requires Shut(s) && Has(s, c) && InDeferred(s.conns[c].pc)
    ensures OnlyDrains(s, DeferredStep(s, c))
  {
  }

  lemma AcceptorDrains(s: State)
    requires Inv(s) && Shut(s) && AcceptorReady(s) && AcceptorHasConn(s)
    ensures OnlyDrains(s, AcceptorStep(s))
  {
  }

  lemma OtherDrains(s: State, a: Action)
    requires Inv(s) && Shut(s) && Enabled(s, a)
    requires a.Accept? || a.AcceptFail? || a.Shutdown? || a.ShutdownClose? || a.Expire? || a.Drain?
    ensures OnlyDrains(s, Next(s, a))
  {
  }

  lemma ShutStep(s: State, a: Action)
    requires Inv(s) && Shut(s) && Enabled(s, a)
    ensures OnlyDrains(s, Next(s, a))
  {
    match a
    case Acceptor => AcceptorDrains(s);
    case Handle(c) =>
      if InLoop(s.conns[c].pc) { LoopFrame(s, c); QuietDrains(s, LoopStep(s, c), c); }
      else if InStore(s.conns[c].pc) { StoreFrame(s, c); QuietDrains(s, StoreStep(s, c), c); }
      else { DeferredDrains(s, c); }
    case Written(c) => WrittenFrame(s, c); QuietDrains(s, WriteReply(s, c), c);
    case Fill(c, _) => ClientFrame(s, a); QuietDrains(s, Next(s, a), c);
    case Vanish(c) => ClientFrame(s, a); QuietDrains(s, Next(s, a), c);
    case _ => OtherDrains(s, a);
  }

  lemma {:induction false} ShutRun(s: State, run: seq<Action>, t: State)
    requires Inv(s) && Shut(s) && Runs(s, run, t)
    ensures OnlyDrains(s, t)
    decreases |run|
  {
    if run != [] {
      StepInv(s, run[0]);
      ShutStep(s, run[0]);
      ShutRun(Next(s, run[0]), run[1..], t);
    }
  }

  /**
   Over any run after the gate is shut: conns gains no member, the WaitGroup never goes up,
   no connection is admitted, and closed connections stay closed.
   */
  lemma AdmissionGate(s: State, run: seq<Action>, t: State)
    requires Reachable(s) && Shut(s) && Runs(s, run, t)
    ensures OnlyDrains(s, t)
  {
    ReachableInv(s);
    ShutRun(s, run, t);
  }

  /**
   Once the gate is shut, every admitted connection is closed, or its handler has left conns
   and is about to close it; `OpenAfterGate` says which are not. One not admitted is in the
   hands of the acceptor, which cannot admit it, or was refused and closed.
   */
  lemma ShutGateHolds(s: State, c: nat)
    requires Reachable(s) && Shut(s) && Has(s, c)
    ensures var k := s.conns[c];
            && (AdmittedConn(k) ==> k.closed || k.pc.CloseConn?)
            && (k.pc.Refused? ==> k.closed)
            && (k.pc.Accepted? ==>
                  var g := s.gate;
                  && Carried(g.acceptor) == Some(c)
                  && (g.acceptor.Got? || g.acceptor.Deciding? || g.acceptor.RefuseUnlock? || g.acceptor.RefuseClose?))
  {
    ReachableClose(s);
    assert CloseOk(s.conns[c], s.gate.shutdown);
    assert InConns(s.conns[c].pc) ==> c in s.gate.registered;
  }

  lemma {:induction false} RunsSnoc(s: State, run: seq<Action>, t: State, a: Action)
    requires Runs(s, run, t) && Enabled(t, a)
    ensures Runs(s, run + [a], Next(t, a))
    decreases |run|
  {
    if run != [] {
      RunsSnoc(Next(s, run[0]), run[1..], t, a);
      assert (run + [a])[1..] == run[1..] + [a];
    }
  }

  lemma ReachableNext(s: State, a: Action)
    requires Reachable(s) && Enabled(s, a)
    ensures Reachable(Next(s, a))
  {
    var cap, run :| Runs(Init(cap), run, s);
    RunsSnoc(Init(cap), run, s, a);
  }

  /** The state of the server with one connection, at the given counters. */
  function OneConn(pc: Pc, gone: bool, registered: set<nat>, wg: int, mu: Option<Owner>, acceptor: AcceptorPc): State {
    Init(0).(conns := [Conn(pc, false, gone, [], "")],
             gate := Gate(registered, wg, false, false, mu, acceptor, NotCalled, NotStarted))
  }

  lemma StepTo(s: State, a: Action, t: State)
    requires Reachable(s) && Enabled(s, a) && Next(s, a) == t
    ensures Reachable(t)
  {
    ReachableNext(s, a);
  }

  lemma InitReachable()
    ensures Reachable(Init(0))
  {
    assert Runs(Init(0), [], Init(0));
  }

  /** A client connects, and the acceptor takes mu for it. */
  lemma ReachDeciding()
    ensures Reachable(OneConn(Accepted, false, {}, 0, Some(ByAcceptor), Deciding(0)))
  {
    InitReachable();
    StepTo(Init(0), Accept, OneConn(Accepted, false, {}, 0, None, Got(0)));
    StepTo(OneConn(Accepted, false, {}, 0, None, Got(0)), Action.Acceptor,
           OneConn(Accepted, false, {}, 0, Some(ByAcceptor), Deciding(0)));
  }

  /** It is admitted. */
  lemma ReachAdmitted()
    ensures Reachable(OneConn(Admitted, false, {0}, 1, Some(ByAcceptor), AdmitUnlock(0)))
  {
    ReachDeciding();
    StepTo(OneConn(Accepted, false, {}, 0, Some(ByAcceptor), Deciding(0)), Action.Acceptor,
           OneConn(Accepted, false, {}, 0, Some(ByAcceptor), Inserting(0)));
    StepTo(OneConn(Accepted, false, {}, 0, Some(ByAcceptor), Inserting(0)), Action.Acceptor,
           OneConn(Registered, false, {0}, 0, Some(ByAcceptor), Adding(0)));
    StepTo(OneConn(Registered, false, {0}, 0, Some(ByAcceptor), Adding(0)), Action.Acceptor,
           OneConn(Admitted, false, {0}, 1, Some(ByAcceptor), AdmitUnlock(0)));
  }

  /** Its handler starts. */
  lemma ReachServing()
    ensures Reachable(OneConn(Scanning, false, {0}, 1, None, AtAccept))
  {
    ReachAdmitted();
    StepTo(OneConn(Admitted, false, {0}, 1, Some(ByAcceptor), AdmitUnlock(0)), Action.Acceptor,
           OneConn(Admitted, false, {0}, 1, None, Spawning(0)));
    StepTo(OneConn(Admitted, false, {0}, 1, None, Spawning(0)), Action.Acceptor,
           OneConn(Scanning, false, {0}, 1, None, AtAccept));
  }

  /** It goes away, and its handler begins its deferred calls. */
  lemma ReachClosing()
    ensures Reachable(OneConn(CloseDelete, true, {0}, 1, Some(ByHandler(0)), AtAccept))
  {
    ReachServing();
    StepTo(OneConn(Scanning, false, {0}, 1, None, AtAccept), Vanish(0),
           OneConn(Scanning, true, {0}, 1, None, AtAccept));
    StepTo(OneConn(Scanning, true, {0}, 1, None, AtAccept), Handle(0),
           OneConn(CloseLock, true, {0}, 1, None, AtAccept));
    StepTo(OneConn(CloseLock, true, {0}, 1, None, AtAccept), Handle(0),
           OneConn(CloseDelete, true, {0}, 1, Some(ByHandler(0)), AtAccept));
  }

  /** Its handler has left conns but not closed the connection yet. */
  lemma ReachLeaving()
    ensures Reachable(OneConn(CloseConn, true, {}, 1, None, AtAccept))
  {
    ReachClosing();
    StepTo(OneConn(CloseDelete, true, {0}, 1, Some(ByHandler(0)), AtAccept), Handle(0),
           OneConn(CloseUnlock, true, {}, 1, Some(ByHandler(0)), AtAccept));
    StepTo(OneConn(CloseUnlock, true, {}, 1, Some(ByHandler(0)), AtAccept), Handle(0),
           OneConn(CloseConn, true, {}, 1, None, AtAccept));
  }

  /** The same state with Shutdown further on. */
  function ShuttingDown(s: State, done: bool, lnClosed: bool, mu: Option<Owner>, pc: ShutdownPc): State {
    s.(gate := s.gate.(done := done, lnClosed := lnClosed, mu := mu, shutdown := pc))
  }

  /**
   Shutdown's critical section does not leave every admitted connection closed: one whose
   handler had already left conns is found neither there nor refused at the gate.
   `SectionClosesAll` says exactly when that happens.
   */
  lemma SomeConnectionOpenAtGate()
    ensures exists s: State ::
              Reachable(s) && Shut(s) && Has(s, 0) && AdmittedConn(s.conns[0]) && !s.conns[0].closed
  {
    ReachLeaving();
    var s := OneConn(CloseConn, true, {}, 1, None, AtAccept);
    var mine := Some(ByShutdown);
    StepTo(s, Action.Shutdown, ShuttingDown(s, false, false, mine, ClosingDone));
    StepTo(ShuttingDown(s, false, false, mine, ClosingDone), Action.Shutdown,
           ShuttingDown(s, true, false, mine, ClosingListener));
    StepTo(ShuttingDown(s, true, false, mine, ClosingListener), Action.Shutdown,
           ShuttingDown(s, true, true, mine, ClosingConns({})));
    StepTo(ShuttingDown(s, true, true, mine, ClosingConns({})), Action.Shutdown,
           ShuttingDown(s, true, true, mine, GateUnlock));
    StepTo(ShuttingDown(s, true, true, mine, GateUnlock), Action.Shutdown,
           ShuttingDown(s, true, true, None, StartingDrain));
    var t := ShuttingDown(s, true, true, None, StartingDrain);
    assert Reachable(t) && Shut(t) && Has(t, 0) && AdmittedConn(t.conns[0]) && !t.conns[0].closed;
  }

  // ----- what Serve returns -----

  /** Serve has not returned an error, and the gate is such that it never will. */
  predicate CleanServe(s: State) {
    s.gate.done && s.gate.acceptor != Stopped(false)
  }

  lemma CleanStep(s: State, a: Action)
    requires CleanServe(s) && Enabled(s, a)
    ensures CleanServe(Next(s, a))
  {
    match a
    case Handle(c) =>
      if InLoop(s.conns[c].pc) { LoopFrame(s, c); }
      else if InStore(s.conns[c].pc) { StoreFrame(s, c); }
    case Written(c) => WrittenFrame(s, c);
    case Fill(_, _) => ClientFrame(s, a);
    case Vanish(_) => ClientFrame(s, a);
    case _ =>
  }

  lemma {:induction false} CleanKept(s: State, run: seq<Action>, t: State)
    requires CleanServe(s) && Runs(s, run, t)
    ensures CleanServe(t)
    decreases |run|
  {
    if run != [] {
      CleanStep(s, run[0]);
      CleanKept(Next(s, run[0]), run[1..], t);
    }
  }

  lemma ServeErrorStep(s: State, a: Action)
    requires Enabled(s, a)
    ensures var now, next := s.gate.acceptor, Next(s, a).gate.acceptor;
            next.AcceptFailed? || next == Stopped(false) ==>
              now.AcceptFailed? || now == Stopped(false) || a.AcceptFail?
  {
    match a
    case Handle(c) =>
      if InLoop(s.conns[c].pc) { LoopFrame(s, c); }
      else if InStore(s.conns[c].pc) { StoreFrame(s, c); }
    case Written(c) => WrittenFrame(s, c);
    case Fill(_, _) => ClientFrame(s, a);
    case Vanish(_) => ClientFrame(s, a);
    case _ =>
  }

  lemma {:induction false} ServeErrorRun(s: State, run: seq<Action>, t: State)
    requires Runs(s, run, t) && AcceptFail !in run
    requires !s.gate.acceptor.AcceptFailed? && s.gate.acceptor != Stopped(false)
    ensures !t.gate.acceptor.AcceptFailed? && t.gate.acceptor != Stopped(false)
    decreases |run|
  {
    if run != [] {
      ServeErrorStep(s, run[0]);
      ServeErrorRun(Next(s, run[0]), run[1..], t);
    }
  }

  /** Serve goes on accepting: it returns an error only after an Accept failed, and nil only after Shutdown began. */
  lemma ServeGoesOn(cap: nat, run: seq<Action>, t: State)
    requires Runs(Init(cap), run, t) && t.gate.acceptor.Stopped?
    ensures if t.gate.acceptor.clean then t.gate.done else AcceptFail in run
  {
    assert Reachable(t);
    ReachableInv(t);
    if AcceptFail !in run { ServeErrorRun(Init(cap), run, t); }
  }

  lemma StoppedStep(s: State, a: Action)
    requires s.gate.acceptor.Stopped? && Enabled(s, a)
    ensures Next(s, a).gate.acceptor == s.gate.acceptor
  {
    match a
    case Handle(c) =>
      if InLoop(s.conns[c].pc) { LoopFrame(s, c); }
      else if InStore(s.conns[c].pc) { StoreFrame(s, c); }
    case Written(c) => WrittenFrame(s, c);
    case Fill(_, _) => ClientFrame(s, a);
    case Vanish(_) => ClientFrame(s, a);
    case _ =>
  }

  lemma {:induction false} StoppedKept(s: State, run: seq<Action>, t: State)
    requires s.gate.acceptor.Stopped? && Runs(s, run, t)
    ensures t.gate.acceptor == s.gate.acceptor
    decreases |run|
  {
    if run != [] {
      StoppedStep(s, run[0]);
      StoppedKept(Next(s, run[0]), run[1..], t);
    }
  }

  /**
   From the moment done is closed, Serve returns nil whenever it returns, however Accept fails,
   if and only if it had not returned an error before.
   */
  lemma ServeReturnsNil(s: State, run: seq<Action>, t: State)
    requires s.gate.done && Runs(s, run, t) && t.gate.acceptor.Stopped?
    ensures t.gate.acceptor.clean <==> s.gate.acceptor != Stopped(false)
  {
    if s.gate.acceptor == Stopped(false) { StoppedKept(s, run, t); } else { CleanKept(s, run, t); }
  }

  // ----- what Shutdown returns -----

  lemma ErrStep(s: State, a: Action)
    requires Enabled(s, a)
    ensures Next(s, a).gate.shutdown.ReturnedErr? <==> s.gate.shutdown.ReturnedErr? || a.Expire?
  {
    match a
    case Handle(c) =>
      if InLoop(s.conns[c].pc) { LoopFrame(s, c); }
      else if InStore(s.conns[c].pc) { StoreFrame(s, c); }
    case Written(c) => WrittenFrame(s, c);
    case Fill(_, _) => ClientFrame(s, a);
    case Vanish(_) => ClientFrame(s, a);
    case _ =>
  }

  /** Shutdown returns the context's error only if the context ended while it was waiting, and then always. */
  lemma {:induction false} ErrExactly(s: State, run: seq<Action>, t: State)
    requires Runs(s, run, t)
    ensures t.gate.shutdown.ReturnedErr? <==> s.gate.shutdown.ReturnedErr? || Expire in run
    decreases |run|
  {
    if run != [] {
      ErrStep(s, run[0]);
      ErrExactly(Next(s, run[0]), run[1..], t);
    }
  }

  // ----- drained -----

  lemma {:induction false} CountZero(conns: seq<Conn>, i: nat)
    requires CountLive(conns) == 0 && i < |conns|
    ensures !Live(conns[i].pc)
  {
    if i < |conns| - 1 { CountZero(conns[..|conns| - 1], i); }
  }

  /** Every admitted handler has ended, its connection is closed, and conns is empty. */
  ghost predicate Idle(s: State) {
    && (forall c: nat :: Has(s, c) && AdmittedConn(s.conns[c]) ==> s.conns[c].pc.Finished? && s.conns[c].closed)
    && s.gate.registered == {}
  }

  lemma ZeroIsIdle(s: State)
    requires Inv(s) && Shut(s) && s.gate.wg == 0
    ensures Idle(s)
  {
    forall c: nat | Has(s, c) && AdmittedConn(s.conns[c]) ensures s.conns[c].pc.Finished? && s.conns[c].closed {
      CountZero(s.conns, c);
      assert s.conns[c].pc.Registered? ==> Carried(s.gate.acceptor) == Some(c);
    }
  }

  /** The counter is exact in every reachable state, also between wg.Add and the start of the goroutine. */
  lemma CounterIsExact(s: State)
    requires Reachable(s)
    ensures s.gate.wg == CountLive(s.conns)
    ensures s.gate.wg == 0 ==> forall c: nat :: Has(s, c) ==> !Live(s.conns[c].pc)
  {
    ReachableInv(s);
    if s.gate.wg == 0 {
      forall c: nat | Has(s, c) ensures !Live(s.conns[c].pc) { CountZero(s.conns, c); }
    }
  }

  lemma IdleStep(s: State, a: Action)
    requires Inv(s) && Shut(s) && s.gate.wg == 0 && Enabled(s, a)
    ensures var t := Next(s, a); t.gate.wg == 0 && t.store == s.store && t.history == s.history
  {
    ZeroIsIdle(s);
    CountPositiveUnless(s, a);
    match a
    case Fill(_, _) => ClientFrame(s, a);
    case Vanish(_) => ClientFrame(s, a);
    case Acceptor => IdleAcceptor(s);
    case _ =>
  }

  lemma IdleAcceptor(s: State)
    requires Inv(s) && Shut(s) && AcceptorReady(s) && AcceptorHasConn(s)
    ensures var t := AcceptorStep(s); t.gate.wg == s.gate.wg && t.store == s.store && t.history == s.history
  {
  }

  lemma CountPositiveUnless(s: State, a: Action)
    requires Inv(s) && Shut(s) && s.gate.wg == 0 && Enabled(s, a)
    ensures !a.Handle? && !a.Written?
  {
    if a.Handle? || a.Written? { CountZero(s.conns, a.c); }
  }

  /** Nothing is served any more: no reply, no effect, no change to the map, in any continuation. */
  lemma {:induction false} Frozen(s: State, run: seq<Action>, t: State)
    requires Inv(s) && Shut(s) && s.gate.wg == 0 && Runs(s, run, t)
    ensures t.store == s.store && t.history == s.history && Idle(t)
    decreases |run|
  {
    if run == [] {
      ZeroIsIdle(s);
    } else {
      StepInv(s, run[0]);
      ShutStep(s, run[0]);
      IdleStep(s, run[0]);
      Frozen(Next(s, run[0]), run[1..], t);
    }
  }

  /** Shutdown returning nil means drained, now and for the rest of the run. */
  lemma DrainIsSound(s: State, run: seq<Action>, t: State)
    requires Reachable(s) && s.gate.shutdown.ReturnedNil? && Runs(s, run, t)
    ensures Idle(s) && Idle(t)
    ensures t.store == s.store && t.history == s.history
  {
    ReachableInv(s);
    ZeroIsIdle(s);
    Frozen(s, run, t);
  }
}
