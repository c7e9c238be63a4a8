/** The locks, the conns map, the WaitGroup and the shutdown gate, in every reachable state. */
module Locks {
  import opened Wrappers
  import opened Protocol
  import opened Machine

  // ----- mu -----

  predicate HoldsMu(pc: Pc) {
    pc.CloseDelete? || pc.CloseUnlock?
  }

  predicate AcceptorHoldsMu(pc: AcceptorPc) {
    pc.Deciding? || pc.RefuseUnlock? || pc.Inserting? || pc.Adding? || pc.AdmitUnlock?
  }

  predicate ShutdownHoldsMu(pc: ShutdownPc) {
    pc.ClosingDone? || pc.ClosingListener? || pc.ClosingConns? || pc.GateUnlock?
  }

  /** The owner of mu is exactly the goroutine whose counter is inside a critical section. */
  ghost predicate MuInv(s: State) {
    && (forall c: nat :: s.gate.mu == Some(ByHandler(c)) <==> Has(s, c) && HoldsMu(s.conns[c].pc))
    && (s.gate.mu == Some(ByAcceptor) <==> AcceptorHoldsMu(s.gate.acceptor))
    && (s.gate.mu == Some(ByShutdown) <==> ShutdownHoldsMu(s.gate.shutdown))
  }

  // ----- admission -----

  predicate WithAcceptor(pc: Pc) {
    pc.Accepted? || pc.Registered? || pc.Admitted?
  }

  /** The counter of the connection that the acceptor carries. */
  function CarriedPc(pc: AcceptorPc): Pc {
    if pc.Adding? then Registered else if pc.AdmitUnlock? || pc.Spawning? then Admitted else Accepted
  }

  predicate InConns(pc: Pc) {
    !pc.Accepted? && !pc.Refused? && !pc.CloseUnlock? && !pc.CloseConn? && !pc.WgDone? && !pc.Finished?
  }

  /** Admitted, and wg.Done not run yet, whether its goroutine has started or not. */
  predicate Live(pc: Pc) {
    !pc.Accepted? && !pc.Refused? && !pc.Registered? && !pc.Finished?
  }

  function CountLive(conns: seq<Conn>): nat {
    if conns == [] then 0
    else CountLive(conns[..|conns| - 1]) + if Live(conns[|conns| - 1].pc) then 1 else 0
  }

  /** The acceptor carries every connection not handed over; conns holds those before their own delete. */
  ghost predicate AdmissionInv(s: State) {
    && (forall c: nat :: Has(s, c) && WithAcceptor(s.conns[c].pc) ==> Carried(s.gate.acceptor) == Some(c))
    && (Carried(s.gate.acceptor).Some? ==>
          var c := Carried(s.gate.acceptor).value;
          Has(s, c) && s.conns[c].pc == CarriedPc(s.gate.acceptor))
    && (forall c: nat :: c in s.gate.registered <==> Has(s, c) && InConns(s.conns[c].pc))
    && (forall c: nat :: Has(s, c) && (s.conns[c].pc.WgDone? || s.conns[c].pc.Finished? || s.conns[c].pc.Refused?)
          ==> s.conns[c].closed)
  }

  /** The WaitGroup counts the admitted handlers that have not run wg.Done. */
  predicate CountInv(s: State) {
    s.gate.wg == CountLive(s.conns)
  }

  // ----- shutdown -----

  /** Shutdown has closed every connection it found in conns. */
  predicate GateShut(pc: ShutdownPc) {
    pc.GateUnlock? || AfterGate(pc)
  }

  /** Shutdown's critical section has ended. */
  predicate AfterGate(pc: ShutdownPc) {
    pc.StartingDrain? || pc.Selecting? || pc.ReturnedNil? || pc.ReturnedErr?
  }

  ghost predicate GateInv(s: State) {
    var g := s.gate;
    && (g.done <==> !g.shutdown.NotCalled? && !g.shutdown.ClosingDone?)
    && (g.lnClosed <==> g.done && !g.shutdown.ClosingListener?)
    && (g.done ==> !g.acceptor.Inserting? && !g.acceptor.Adding? && !g.acceptor.AdmitUnlock?)
    && (g.acceptor.RefuseUnlock? || g.acceptor.RefuseClose? ==> g.done)
    && (g.acceptor.Stopped? && g.acceptor.clean ==> g.done)
    && (g.shutdown.ClosingConns? ==>
          forall c: nat :: c in g.registered && Has(s, c) ==> s.conns[c].closed || c in g.shutdown.left)
    && (g.shutdown.ClosingConns? ==> forall c: nat :: c in g.shutdown.left ==> Has(s, c))
    && (GateShut(g.shutdown) ==> forall c: nat :: c in g.registered && Has(s, c) ==> s.conns[c].closed)
    && (g.drain.NotStarted? <==> !AfterGate(g.shutdown) || g.shutdown.StartingDrain?)
    && (g.drain.Announcing? || g.drain.Drained? ==> g.wg == 0)
    && (g.shutdown.ReturnedNil? ==> g.drain.Drained?)
  }

  ghost predicate ServerInv(s: State) {
    MuInv(s) && AdmissionInv(s) && CountInv(s) && GateInv(s)
  }

  // ----- counting -----

  lemma {:induction false} CountUpdate(conns: seq<Conn>, i: nat, k: Conn)
    requires i < |conns|
    ensures CountLive(conns[i := k]) ==
            CountLive(conns) + (if Live(k.pc) then 1 else 0) - if Live(conns[i].pc) then 1 else 0
  {
    var n := |conns| - 1;
    if i == n {
      assert conns[i := k][..n] == conns[..n];
    } else {
      CountUpdate(conns[..n], i, k);
      assert conns[i := k][..n] == conns[..n][i := k];
    }
  }

  lemma {:induction false} CountPositive(conns: seq<Conn>, i: nat)
    requires i < |conns| && Live(conns[i].pc)
    ensures CountLive(conns) > 0
  {
    if i < |conns| - 1 { CountPositive(conns[..|conns| - 1], i); }
  }

  // ----- frames: which part of the state a handler's step may change -----

  /** At most the record of connection c changes. */
  predicate Only(s: State, t: State, c: nat) {
    Has(s, c) && Has(t, c) && t.conns == s.conns[c := t.conns[c]] && t.cap == s.cap
  }

  /** Admitted, started, and still before the critical section of its own cleanup. */
  predicate InBody(pc: Pc) {
    InLoop(pc) || InStore(pc) || pc.CloseLock?
  }

  /** A step that the server's own fields do not notice. */
  predicate Quiet(s: State, t: State, c: nat) {
    && Only(s, t, c) && t.gate == s.gate
    && t.conns[c].closed == s.conns[c].closed
    && (t.conns[c].pc == s.conns[c].pc || (InBody(s.conns[c].pc) && InBody(t.conns[c].pc)))
  }

  lemma LoopFrame(s: State, c: nat)
    requires Has(s, c) && InLoop(s.conns[c].pc)
    ensures var t := LoopStep(s, c);
            Quiet(s, t, c) && t.store == s.store && LoopMoves(s.conns[c].pc, t.conns[c].pc)
  {
    match s.conns[c].pc
    case Scanning => ScanFrame(s, c);
    case Parsing => ParseFrame(s, c);
    case Writing(_) =>
  }

  /** Where a step of the scan loop leads. */
  predicate LoopMoves(from: Pc, to: Pc) {
    || (from.Scanning? && (to.Parsing? || to.CloseLock?))
    || (from.Parsing? && (to.Locking? || to.Writing?))
    || (from.Writing? && to.CloseLock?)
  }

  lemma ScanFrame(s: State, c: nat)
    requires Has(s, c) && s.conns[c].pc.Scanning?
    ensures var t := Scan(s, c); Quiet(s, t, c) && t.store == s.store && LoopMoves(s.conns[c].pc, t.conns[c].pc)
  {
  }

  lemma ParseFrame(s: State, c: nat)
    requires Has(s, c) && s.conns[c].pc.Parsing?
    ensures var t := ParseLine(s, c); Quiet(s, t, c) && t.store == s.store && LoopMoves(s.conns[c].pc, t.conns[c].pc)
  {
    match Parse(s.conns[c].line)
    case Ok(cmd) => assert ParseLine(s, c) == Goto(s, c, Locking(cmd));
    case Err(e) => assert ParseLine(s, c) == Take(Goto(s, c, Writing(ReplyError(e))), c, ReplyError(e));
  }

  predicate InStoreLocked(pc: Pc) {
    InStore(pc) && !pc.Locking?
  }

  lemma StoreFrame(s: State, c: nat)
    requires Has(s, c) && InStore(s.conns[c].pc)
    ensures Quiet(s, StoreStep(s, c), c)
  {
  }

  lemma WrittenFrame(s: State, c: nat)
    requires Has(s, c) && s.conns[c].pc.Writing?
    ensures var t := WriteReply(s, c); Quiet(s, t, c) && t.store == s.store && t.conns[c].pc.Scanning?
  {
  }

  lemma ClientFrame(s: State, a: Action)
    requires Enabled(s, a) && !IsServerStep(a)
    ensures var t := Next(s, a);
            && Quiet(s, t, a.c) && t.store == s.store && t.conns[a.c].pc == s.conns[a.c].pc
            && t.history == s.history && t.log == s.log
  {
  }

  lemma QuietMu(s: State, t: State, c: nat)
    requires MuInv(s) && Quiet(s, t, c)
    ensures MuInv(t)
  {
  }

  lemma QuietAdmission(s: State, t: State, c: nat)
    requires AdmissionInv(s) && Quiet(s, t, c)
    ensures AdmissionInv(t)
  {
  }

  lemma QuietGate(s: State, t: State, c: nat)
    requires GateInv(s) && Quiet(s, t, c)
    ensures GateInv(t)
  {
  }

  lemma QuietKeeps(s: State, t: State, c: nat)
    requires ServerInv(s) && Quiet(s, t, c)
    ensures ServerInv(t)
  {
    QuietMu(s, t, c);
    QuietAdmission(s, t, c);
    QuietGate(s, t, c);
    CountUpdate(s.conns, c, t.conns[c]);
  }

  // ----- the other steps -----

  lemma DeferredOnly(s: State, c: nat)
    requires Has(s, c) && InDeferred(s.conns[c].pc)
    ensures Only(s, DeferredStep(s, c), c)
    ensures DeferredStep(s, c).gate.wg ==
            s.gate.wg + (if Live(DeferredStep(s, c).conns[c].pc) then 1 else 0) - if Live(s.conns[c].pc) then 1 else 0
  {
  }

  lemma DeferredMu(s: State, c: nat)
    requires ServerInv(s) && Has(s, c) && InDeferred(s.conns[c].pc) && HandlerReady(s, c)
    ensures MuInv(DeferredStep(s, c))
  {
  }

  /** The bookkeeping of admission, for a step that moves connection c. */
  lemma AdmissionMove(s: State, t: State, c: nat)
    requires AdmissionInv(s) && Only(s, t, c)
    requires !WithAcceptor(s.conns[c].pc) ==> t.gate.acceptor == s.gate.acceptor && !WithAcceptor(t.conns[c].pc)
    requires WithAcceptor(s.conns[c].pc) ==>
               && Carried(s.gate.acceptor) == Some(c)
               && if WithAcceptor(t.conns[c].pc)
                  then Carried(t.gate.acceptor) == Some(c) && t.conns[c].pc == CarriedPc(t.gate.acceptor)
                  else Carried(t.gate.acceptor) == None
    requires t.gate.registered == if InConns(t.conns[c].pc) then s.gate.registered + {c} else s.gate.registered - {c}
    requires t.conns[c].pc.WgDone? || t.conns[c].pc.Finished? || t.conns[c].pc.Refused? ==> t.conns[c].closed
    ensures AdmissionInv(t)
  {
  }

  lemma DeferredAdmission(s: State, c: nat)
    requires ServerInv(s) && Has(s, c) && InDeferred(s.conns[c].pc) && HandlerReady(s, c)
    ensures AdmissionInv(DeferredStep(s, c))
  {
    AdmissionMove(s, DeferredStep(s, c), c);
  }

  lemma DeferredGate(s: State, c: nat)
    requires ServerInv(s) && Has(s, c) && InDeferred(s.conns[c].pc) && HandlerReady(s, c)
    ensures GateInv(DeferredStep(s, c))
  {
    CountPositive(s.conns, c);
  }

  lemma DeferredKeeps(s: State, c: nat)
    requires ServerInv(s) && Has(s, c) && InDeferred(s.conns[c].pc) && HandlerReady(s, c)
    ensures ServerInv(DeferredStep(s, c))
  {
    DeferredMu(s, c);
    DeferredAdmission(s, c);
    DeferredGate(s, c);
    DeferredOnly(s, c);
    CountUpdate(s.conns, c, DeferredStep(s, c).conns[c]);
  }

  lemma AcceptorMu(s: State)
    requires ServerInv(s) && AcceptorReady(s)
    ensures AcceptorHasConn(s) && MuInv(AcceptorStep(s))
  {
  }

  lemma AcceptorAdmission(s: State)
    requires ServerInv(s) && AcceptorReady(s)
    ensures AcceptorHasConn(s) && AdmissionInv(AcceptorStep(s))
  {
    if Carried(s.gate.acceptor).Some? {
      var c := Carried(s.gate.acceptor).value;
      AcceptorOnly(s, c);
      AcceptorCarries(s, c);
      AdmissionMove(s, AcceptorStep(s), c);
    }
  }

  /** The acceptor touches no connection but the one it carries. */
  lemma AcceptorOnly(s: State, c: nat)
    requires AcceptorReady(s) && AcceptorHasConn(s) && Carried(s.gate.acceptor) == Some(c)
    ensures Only(s, AcceptorStep(s), c)
  {
  }

  /** Its counter and that of the connection move together. */
  lemma AcceptorCarries(s: State, c: nat)
    requires AdmissionInv(s) && AcceptorReady(s) && AcceptorHasConn(s) && Carried(s.gate.acceptor) == Some(c)
    ensures var t := AcceptorStep(s);
            && Has(t, c)
            && (if WithAcceptor(t.conns[c].pc)
                then Carried(t.gate.acceptor) == Some(c) && t.conns[c].pc == CarriedPc(t.gate.acceptor)
                else Carried(t.gate.acceptor) == None)
            && t.gate.registered ==
               (if InConns(t.conns[c].pc) then s.gate.registered + {c} else s.gate.registered - {c})
            && (t.conns[c].pc.Refused? ==> t.conns[c].closed)
            && !t.conns[c].pc.WgDone? && !t.conns[c].pc.Finished?
  {
  }

  lemma AcceptorGate(s: State)
    requires ServerInv(s) && AcceptorReady(s)
    ensures AcceptorHasConn(s) && GateInv(AcceptorStep(s))
  {
  }

  lemma AcceptorKeeps(s: State)
    requires ServerInv(s) && AcceptorReady(s)
    ensures AcceptorHasConn(s) && ServerInv(AcceptorStep(s))
  {
    AcceptorMu(s);
    AcceptorAdmission(s);
    AcceptorGate(s);
    if Carried(s.gate.acceptor).Some? {
      var c := Carried(s.gate.acceptor).value;
      CountUpdate(s.conns, c, AcceptorStep(s).conns[c]);
    }
  }

  lemma ShutdownKeeps(s: State)
    requires ServerInv(s) && ShutdownReady(s)
    ensures ServerInv(ShutdownStep(s))
  {
  }

  lemma RangeKeeps(s: State, a: Action)
    requires ServerInv(s) && a.ShutdownClose? && Enabled(s, a)
    ensures ServerInv(Next(s, a))
  {
    var t := Next(s, a);
    RangeFrame(s, a);
    RangeMu(s, t, a.c);
    RangeAdmission(s, t, a.c);
    RangeGate(s, t, a.c);
    CountUpdate(s.conns, a.c, t.conns[a.c]);
  }

  /** Shutdown closes one connection of its range and takes it off the range. */
  predicate Closes(s: State, t: State, c: nat) {
    && Only(s, t, c) && t.conns[c].pc == s.conns[c].pc && t.conns[c].closed
    && s.gate.shutdown.ClosingConns?
    && t.gate == s.gate.(shutdown := ClosingConns(s.gate.shutdown.left - {c}))
  }

  lemma RangeFrame(s: State, a: Action)
    requires a.ShutdownClose? && Enabled(s, a)
    ensures Closes(s, Next(s, a), a.c)
  {
  }

  lemma RangeMu(s: State, t: State, c: nat)
    requires MuInv(s) && Closes(s, t, c)
    ensures MuInv(t)
  {
  }

  lemma RangeAdmission(s: State, t: State, c: nat)
    requires AdmissionInv(s) && Closes(s, t, c)
    ensures AdmissionInv(t)
  {
  }

  lemma RangeGate(s: State, t: State, c: nat)
    requires GateInv(s) && Closes(s, t, c)
    ensures GateInv(t)
  {
  }

  lemma AcceptKeeps(s: State)
    requires ServerInv(s) && Enabled(s, Accept)
    ensures ServerInv(Next(s, Accept))
  {
    var t := Next(s, Accept);
    assert t.conns == s.conns + [Conn(Accepted, false, false, [], "")];
    assert t.gate == s.gate.(acceptor := Got(|s.conns|));
    AcceptMu(s, t);
    AcceptAdmission(s, t);
    assert t.conns[..|s.conns|] == s.conns;
  }

  predicate AddsConn(s: State, t: State) {
    && t.conns == s.conns + [Conn(Accepted, false, false, [], "")]
    && s.gate.acceptor.AtAccept? && t.gate == s.gate.(acceptor := Got(|s.conns|))
  }

  lemma AcceptMu(s: State, t: State)
    requires MuInv(s) && AddsConn(s, t)
    ensures MuInv(t)
  {
  }

  lemma AcceptAdmission(s: State, t: State)
    requires AdmissionInv(s) && AddsConn(s, t)
    ensures AdmissionInv(t)
  {
  }

  lemma OtherKeeps(s: State, a: Action)
    requires ServerInv(s) && Enabled(s, a) && (a.AcceptFail? || a.Expire? || a.Drain?)
    ensures ServerInv(Next(s, a))
  {
  }

  lemma HandleKeeps(s: State, c: nat)
    requires ServerInv(s) && Has(s, c) && HandlerReady(s, c)
    ensures ServerInv(HandlerStep(s, c))
  {
    var pc := s.conns[c].pc;
    if InLoop(pc) {
      LoopFrame(s, c);
      QuietKeeps(s, LoopStep(s, c), c);
    } else if InStore(pc) {
      StoreFrame(s, c);
      QuietKeeps(s, StoreStep(s, c), c);
    } else {
      DeferredKeeps(s, c);
    }
  }

  lemma ServerStep(s: State, a: Action)
    requires ServerInv(s) && Enabled(s, a)
    ensures ServerInv(Next(s, a))
  {
    match a
    case Accept => AcceptKeeps(s);
    case AcceptFail => OtherKeeps(s, a);
    case Acceptor => AcceptorKeeps(s);
    case Handle(c) => HandleKeeps(s, c);
    case Written(c) => WrittenFrame(s, c); QuietKeeps(s, WriteReply(s, c), c);
    case Shutdown => ShutdownKeeps(s);
    case ShutdownClose(c) => RangeKeeps(s, a);
    case Expire => OtherKeeps(s, a);
    case Drain => OtherKeeps(s, a);
    case Fill(c, _) => ClientFrame(s, a); QuietKeeps(s, Next(s, a), c);
    case Vanish(c) => ClientFrame(s, a); QuietKeeps(s, Next(s, a), c);
  }
}
