/** Which connections Shutdown's critical section leaves closed, exactly. */
module GateClosing {
  import opened Wrappers
  import opened Machine
  import opened Locks
  import opened Linearizability

  predicate AdmittedConn(k: Conn) {
    !k.pc.Accepted? && !k.pc.Refused?
  }

  /** Out of conns, and not yet past its own Close. */
  predicate Leaving(pc: Pc) {
    pc.CloseUnlock? || pc.CloseConn?
  }

  /** Shutdown has not begun to close connections. */
  predicate BeforeRange(pc: ShutdownPc) {
    pc.NotCalled? || pc.ClosingDone? || pc.ClosingListener?
  }

  // ----- the invariant -----

  /** What the counters say about whether a connection is closed. */
  predicate CloseOk(k: Conn, shutdown: ShutdownPc) {
    && (k.pc.Accepted? ==> !k.closed)
    && (BeforeRange(shutdown) && InConns(k.pc) ==> !k.closed)
    && (!AfterGate(shutdown) && Leaving(k.pc) ==> !k.closed)
    && (AfterGate(shutdown) && k.pc.CloseUnlock? ==> k.closed)
  }

  ghost predicate CloseInv(s: State) {
    && (forall c: nat :: Has(s, c) ==> CloseOk(s.conns[c], s.gate.shutdown))
    && (s.gate.shutdown.ClosingConns? ==> s.gate.shutdown.left <= s.gate.registered)
  }

  lemma QuietClose(s: State, t: State, c: nat)
    requires CloseInv(s) && Quiet(s, t, c)
    ensures CloseInv(t)
  {
  }

  lemma DeferredClose(s: State, c: nat)
    requires Inv(s) && CloseInv(s) && Has(s, c) && InDeferred(s.conns[c].pc) && HandlerReady(s, c)
    ensures CloseInv(DeferredStep(s, c))
  {
    DeferredOnly(s, c);
    assert InConns(s.conns[c].pc) ==> c in s.gate.registered;
  }

  lemma AcceptorClose(s: State)
    requires Inv(s) && CloseInv(s) && AcceptorReady(s) && AcceptorHasConn(s)
    ensures CloseInv(AcceptorStep(s))
  {
  }

  lemma ShutdownStepClose(s: State)
    requires Inv(s) && CloseInv(s) && ShutdownReady(s)
    ensures CloseInv(ShutdownStep(s))
  {
  }

  lemma OtherClose(s: State, a: Action)
    requires Inv(s) && CloseInv(s) && Enabled(s, a)
    requires a.Accept? || a.AcceptFail? || a.ShutdownClose? || a.Expire? || a.Drain?
    ensures CloseInv(Next(s, a))
  {
  }

  lemma CloseStep(s: State, a: Action)
    requires Inv(s) && CloseInv(s) && Enabled(s, a)
    ensures CloseInv(Next(s, a))
  {
    match a
    case Acceptor => AcceptorClose(s);
    case Handle(c) =>
      if InLoop(s.conns[c].pc) { LoopFrame(s, c); QuietClose(s, LoopStep(s, c), c); }
      else if InStore(s.conns[c].pc) { StoreFrame(s, c); QuietClose(s, StoreStep(s, c), c); }
      else { DeferredClose(s, c); }
    case Written(c) => WrittenFrame(s, c); QuietClose(s, WriteReply(s, c), c);
    case Fill(c, _) => ClientFrame(s, a); QuietClose(s, Next(s, a), c);
    case Vanish(c) => ClientFrame(s, a); QuietClose(s, Next(s, a), c);
    case Shutdown => ShutdownStepClose(s);
    case _ => OtherClose(s, a);
  }

  lemma {:induction false} CloseRun(s: State, run: seq<Action>, t: State)
    requires Inv(s) && CloseInv(s) && Runs(s, run, t)
    ensures Inv(t) && CloseInv(t)
    decreases |run|
  {
    if run != [] {
      StepInv(s, run[0]);
      CloseStep(s, run[0]);
      CloseRun(Next(s, run[0]), run[1..], t);
    }
  }

  lemma ReachableClose(s: State)
    requires Reachable(s)
    ensures Inv(s) && CloseInv(s)
  {
    var cap, run :| Runs(Init(cap), run, s);
    InitInv(cap);
    CloseRun(Init(cap), run, s);
  }

  // ----- the end of the critical section -----

  /**
   When the section ends, an admitted connection is open just when its handler is between its
   delete and its Close.
   */
  lemma OpenAtGate(s: State, c: nat)
    requires Reachable(s) && s.gate.shutdown.GateUnlock? && Has(s, c) && AdmittedConn(s.conns[c])
    ensures s.conns[c].closed <==> !s.conns[c].pc.CloseConn?
  {
    ReachableClose(s);
    ClosedAtGate(s, c);
  }

  lemma ClosedAtGate(s: State, c: nat)
    requires Inv(s) && CloseInv(s) && s.gate.shutdown.GateUnlock? && Has(s, c) && AdmittedConn(s.conns[c])
    ensures s.conns[c].closed <==> !s.conns[c].pc.CloseConn?
  {
    assert CloseOk(s.conns[c], s.gate.shutdown);
    assert InConns(s.conns[c].pc) ==> c in s.gate.registered;
    assert HoldsMu(s.conns[c].pc) ==> s.gate.mu == Some(ByHandler(c));
  }

  ghost predicate AllClosed(s: State) {
    forall c: nat :: Has(s, c) && AdmittedConn(s.conns[c]) ==> s.conns[c].closed
  }

  ghost predicate NoneLeaving(s: State) {
    forall c: nat :: Has(s, c) ==> !s.conns[c].pc.CloseConn?
  }

  /** The section has closed every admitted connection just when no handler is there. */
  lemma AllClosedAtGate(s: State)
    requires Reachable(s) && s.gate.shutdown.GateUnlock?
    ensures AllClosed(s) <==> NoneLeaving(s)
  {
    ReachableClose(s);
    AllClosedIn(s, [], s);
  }

  // ----- after it -----

  /** Out of the critical section of its own cleanup. */
  predicate PastDelete(pc: Pc) {
    pc.CloseConn? || pc.WgDone? || pc.Finished?
  }

  /** Of the admitted connections, exactly those of `leaving` whose handler has not moved are open. */
  ghost predicate OnlyLeavingOpen(t: State, leaving: set<nat>) {
    && GateShut(t.gate.shutdown)
    && (forall c: nat :: c in leaving && Has(t, c) ==> PastDelete(t.conns[c].pc))
    && forall c: nat :: Has(t, c) && AdmittedConn(t.conns[c]) ==>
         (t.conns[c].closed <==> !(c in leaving && t.conns[c].pc.CloseConn?))
  }

  lemma QuietOpen(s: State, t: State, c: nat, leaving: set<nat>)
    requires OnlyLeavingOpen(s, leaving) && Quiet(s, t, c)
    ensures OnlyLeavingOpen(t, leaving)
  {
  }

  lemma DeferredOpen(s: State, c: nat, leaving: set<nat>)
    requires OnlyLeavingOpen(s, leaving) && Has(s, c) && InDeferred(s.conns[c].pc)
    ensures OnlyLeavingOpen(DeferredStep(s, c), leaving)
  {
    DeferredOnly(s, c);
  }

  lemma AcceptorOpen(s: State, leaving: set<nat>)
    requires Inv(s) && OnlyLeavingOpen(s, leaving) && AcceptorReady(s) && AcceptorHasConn(s)
    ensures OnlyLeavingOpen(AcceptorStep(s), leaving)
  {
  }

  lemma OtherOpen(s: State, a: Action, leaving: set<nat>)
    requires Inv(s) && OnlyLeavingOpen(s, leaving) && Enabled(s, a)
    requires a.Accept? || a.AcceptFail? || a.Shutdown? || a.ShutdownClose? || a.Expire? || a.Drain?
    ensures OnlyLeavingOpen(Next(s, a), leaving)
  {
  }

  lemma OpenStep(s: State, a: Action, leaving: set<nat>)
    requires Inv(s) && OnlyLeavingOpen(s, leaving) && Enabled(s, a)
    ensures OnlyLeavingOpen(Next(s, a), leaving)
  {
    match a
    case Acceptor => AcceptorOpen(s, leaving);
    case Handle(c) =>
      if InLoop(s.conns[c].pc) { LoopFrame(s, c); QuietOpen(s, LoopStep(s, c), c, leaving); }
      else if InStore(s.conns[c].pc) { StoreFrame(s, c); QuietOpen(s, StoreStep(s, c), c, leaving); }
      else { DeferredOpen(s, c, leaving); }
    case Written(c) => WrittenFrame(s, c); QuietOpen(s, WriteReply(s, c), c, leaving);
    case Fill(c, _) => ClientFrame(s, a); QuietOpen(s, Next(s, a), c, leaving);
    case Vanish(c) => ClientFrame(s, a); QuietOpen(s, Next(s, a), c, leaving);
    case _ => OtherOpen(s, a, leaving);
  }

  lemma {:induction false} OpenRun(s: State, run: seq<Action>, t: State, leaving: set<nat>)
    requires Inv(s) && OnlyLeavingOpen(s, leaving) && Runs(s, run, t)
    ensures OnlyLeavingOpen(t, leaving)
    decreases |run|
  {
    if run != [] {
      StepInv(s, run[0]);
      OpenStep(s, run[0], leaving);
      OpenRun(Next(s, run[0]), run[1..], t, leaving);
    }
  }

  /**
   In every run from the end of the section on, an admitted connection is open just when its
   handler was between delete and Close at that end, and has not moved since.
   */
  lemma OpenAfterGate(s: State, run: seq<Action>, t: State, c: nat)
    requires Reachable(s) && s.gate.shutdown.GateUnlock? && Runs(s, run, t)
    requires Has(t, c) && AdmittedConn(t.conns[c])
    ensures !t.conns[c].closed <==> t.conns[c].pc.CloseConn? && Has(s, c) && s.conns[c].pc.CloseConn?
  {
    ReachableClose(s);
    var leaving := set i: nat | i < |s.conns| && s.conns[i].pc.CloseConn?;
    forall i: nat | Has(s, i) && AdmittedConn(s.conns[i])
      ensures s.conns[i].closed <==> !s.conns[i].pc.CloseConn?
    {
      ClosedAtGate(s, i);
    }
    OpenRun(s, run, t, leaving);
  }

  // ----- known when Shutdown enters the section -----

  lemma QuietNoneLeaves(s: State, t: State, c: nat)
    requires NoneLeaving(s) && Quiet(s, t, c)
    ensures NoneLeaving(t)
  {
  }

  /** While Shutdown is inside, a handler cannot come out of its own critical section. */
  lemma NoneLeaves(s: State, a: Action)
    requires Inv(s) && Enabled(s, a) && ShutdownHoldsMu(s.gate.shutdown) && NoneLeaving(s)
    ensures NoneLeaving(Next(s, a))
  {
    match a
    case Acceptor => AcceptorNoneLeaves(s);
    case Handle(c) =>
      if InLoop(s.conns[c].pc) { LoopFrame(s, c); QuietNoneLeaves(s, LoopStep(s, c), c); }
      else if InStore(s.conns[c].pc) { StoreFrame(s, c); QuietNoneLeaves(s, StoreStep(s, c), c); }
      else { DeferredNoneLeaves(s, c); }
    case Written(c) => WrittenFrame(s, c); QuietNoneLeaves(s, WriteReply(s, c), c);
    case Fill(c, _) => ClientFrame(s, a); QuietNoneLeaves(s, Next(s, a), c);
    case Vanish(c) => ClientFrame(s, a); QuietNoneLeaves(s, Next(s, a), c);
    case _ => OtherNoneLeaves(s, a);
  }

  lemma OtherNoneLeaves(s: State, a: Action)
    requires Enabled(s, a) && NoneLeaving(s)
    requires a.Accept? || a.AcceptFail? || a.Shutdown? || a.ShutdownClose? || a.Expire? || a.Drain?
    ensures NoneLeaving(Next(s, a))
  {
  }

  lemma AcceptorNoneLeaves(s: State)
    requires Inv(s) && AcceptorReady(s) && AcceptorHasConn(s) && NoneLeaving(s)
    ensures NoneLeaving(AcceptorStep(s))
  {
  }

  lemma DeferredNoneLeaves(s: State, c: nat)
    requires Inv(s) && ShutdownHoldsMu(s.gate.shutdown) && NoneLeaving(s)
    requires Has(s, c) && InDeferred(s.conns[c].pc) && HandlerReady(s, c)
    ensures NoneLeaving(DeferredStep(s, c))
  {
    DeferredOnly(s, c);
    assert HoldsMu(s.conns[c].pc) ==> s.gate.mu == Some(ByHandler(c));
  }

  /** Shutdown enters its section once, and goes through it to the end. */
  lemma SectionOnce(s: State, a: Action)
    requires Enabled(s, a)
    ensures var now, next := s.gate.shutdown, Next(s, a).gate.shutdown;
            && (ShutdownHoldsMu(now) ==> ShutdownHoldsMu(next) || AfterGate(next))
            && (AfterGate(now) ==> AfterGate(next))
  {
    match a
    case Acceptor =>
    case Handle(c) =>
      if InLoop(s.conns[c].pc) { LoopFrame(s, c); }
      else if InStore(s.conns[c].pc) { StoreFrame(s, c); }
    case Written(c) => WrittenFrame(s, c);
    case Fill(_, _) => ClientFrame(s, a);
    case Vanish(_) => ClientFrame(s, a);
    case _ =>
  }

  lemma {:induction false} StaysAfterGate(s: State, run: seq<Action>, t: State)
    requires Runs(s, run, t) && AfterGate(s.gate.shutdown)
    ensures AfterGate(t.gate.shutdown)
    decreases |run|
  {
    if run != [] {
      SectionOnce(s, run[0]);
      StaysAfterGate(Next(s, run[0]), run[1..], t);
    }
  }

  lemma {:induction false} NoneLeavesRun(s: State, run: seq<Action>, t: State)
    requires Inv(s) && Runs(s, run, t) && ShutdownHoldsMu(s.gate.shutdown) && t.gate.shutdown.GateUnlock?
    requires NoneLeaving(s)
    ensures NoneLeaving(t)
    decreases |run|
  {
    if run != [] {
      var next := Next(s, run[0]);
      StepInv(s, run[0]);
      SectionOnce(s, run[0]);
      NoneLeaves(s, run[0]);
      if AfterGate(next.gate.shutdown) { StaysAfterGate(next, run[1..], t); }
      NoneLeavesRun(next, run[1..], t);
    }
  }

  function SectionRank(pc: ShutdownPc): nat {
    if pc.ClosingDone? then 3 else if pc.ClosingListener? then 2 else if pc.ClosingConns? then 1 else 0
  }

  /** Shutdown can finish its section before the handler of connection c moves again. */
  lemma {:induction false} FinishSection(s: State, c: nat) returns (run: seq<Action>, t: State)
    requires Inv(s) && ShutdownHoldsMu(s.gate.shutdown) && Has(s, c) && s.conns[c].pc.CloseConn?
    ensures Runs(s, run, t) && t.gate.shutdown.GateUnlock? && Has(t, c) && t.conns[c].pc.CloseConn?
    decreases SectionRank(s.gate.shutdown),
              if s.gate.shutdown.ClosingConns? then |s.gate.shutdown.left| else 0
  {
    if s.gate.shutdown.GateUnlock? {
      run, t := [], s;
    } else {
      var a := Action.Shutdown;
      if s.gate.shutdown.ClosingConns? && s.gate.shutdown.left != {} {
        var i :| i in s.gate.shutdown.left;
        a := ShutdownClose(i);
      }
      StepInv(s, a);
      run, t := FinishSection(Next(s, a), c);
      run := [a] + run;
    }
  }

  /** A run to the end of the section. */
  predicate EndsSection(s: State, run: seq<Action>, t: State) {
    Runs(s, run, t) && t.gate.shutdown.GateUnlock?
  }

  /**
   Decided when Shutdown enters the section: it leaves every admitted connection closed, in
   every run, just when no handler is between its delete and its Close at that moment.
   */
  lemma SectionClosesAll(s: State)
    requires Reachable(s) && s.gate.shutdown.ClosingDone?
    ensures NoneLeaving(s) <==>
            forall run: seq<Action>, t: State :: EndsSection(s, run, t) ==> AllClosed(t)
  {
    ReachableClose(s);
    if NoneLeaving(s) {
      forall run: seq<Action>, t: State | EndsSection(s, run, t) ensures AllClosed(t) {
        NoneLeavesRun(s, run, t);
        AllClosedIn(s, run, t);
      }
    } else {
      var c: nat :| Has(s, c) && s.conns[c].pc.CloseConn?;
      var run, t := FinishSection(s, c);
      AllClosedIn(s, run, t);
      assert EndsSection(s, run, t) && !NoneLeaving(t);
    }
  }

  lemma AllClosedIn(s: State, run: seq<Action>, t: State)
    requires Inv(s) && CloseInv(s) && Runs(s, run, t) && t.gate.shutdown.GateUnlock?
    ensures AllClosed(t) <==> NoneLeaving(t)
  {
    CloseRun(s, run, t);
    forall c: nat | Has(t, c) && AdmittedConn(t.conns[c])
      ensures t.conns[c].closed <==> !t.conns[c].pc.CloseConn?
    {
      ClosedAtGate(t, c);
    }
  }
}
