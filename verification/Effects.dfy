/** The store lock, the map and the log of effects, in every reachable state. */
module Effects {
  import opened Wrappers
  import opened Protocol
  import opened AtomicMap
  import opened Histories
  import opened Machine
  import opened Locks

  // ----- the store's RWMutex -----

  predicate HoldsRead(pc: Pc) {
    pc.Reading? || pc.GetUnlock?
  }

  predicate HoldsWrite(pc: Pc) {
    pc.Putting? || pc.SetUnlock? || pc.Checking? || pc.Removing? || pc.DelUnlock?
  }

  /** One writer alone or any readers; and a key found by Delete is still there when it is removed. */
  ghost predicate StoreInv(s: State) {
    && (forall c: nat :: s.store.writer == Some(c) <==> Has(s, c) && HoldsWrite(s.conns[c].pc))
    && (forall c: nat :: c in s.store.readers <==> Has(s, c) && HoldsRead(s.conns[c].pc))
    && (s.store.writer.Some? ==> s.store.readers == {})
    && (forall c: nat :: Has(s, c) && s.conns[c].pc.Removing? ==> s.conns[c].pc.key in s.store.data)
  }

  predicate TouchesStore(pc: Pc) {
    HoldsRead(pc) || HoldsWrite(pc)
  }

  /** A step that neither takes nor releases the store lock. */
  lemma StoreAside(s: State, t: State, c: nat)
    requires StoreInv(s) && Only(s, t, c) && t.store == s.store
    requires t.conns[c].pc == s.conns[c].pc || (!TouchesStore(s.conns[c].pc) && !TouchesStore(t.conns[c].pc))
    ensures StoreInv(t)
  {
  }

  /** A step that takes, uses or releases it. */
  lemma StoreMove(s: State, t: State, c: nat)
    requires StoreInv(s) && Only(s, t, c)
    requires var pc, pc', m := s.conns[c].pc, t.conns[c].pc, s.store;
             && t.store.writer == (if HoldsWrite(pc') then Some(c) else if HoldsWrite(pc) then None else m.writer)
             && t.store.readers == (if HoldsRead(pc') then m.readers + {c} else m.readers - {c})
             && (HoldsWrite(pc') && !HoldsWrite(pc) ==> m.writer.None? && m.readers == {})
             && (HoldsRead(pc') ==> m.writer.None?)
             && (t.store.data != m.data ==> HoldsWrite(pc))
             && (pc'.Removing? ==> pc'.key in t.store.data)
    ensures StoreInv(t)
  {
    if HoldsWrite(s.conns[c].pc) {
      assert s.store.writer == Some(c);
    }
  }

  lemma StoreStepKeepsStore(s: State, c: nat)
    requires StoreInv(s) && Has(s, c) && InStore(s.conns[c].pc) && HandlerReady(s, c)
    ensures StoreInv(StoreStep(s, c))
  {
    StoreFrame(s, c);
    assert HoldsWrite(s.conns[c].pc) ==> s.store.writer == Some(c);
    assert HoldsRead(s.conns[c].pc) ==> c in s.store.readers;
    StoreMove(s, StoreStep(s, c), c);
  }

  // ----- the log of effects -----

  /** Serving a line that has not taken effect yet. */
  predicate Pending(pc: Pc) {
    pc.Parsing? || pc.Locking? || pc.Reading? || pc.Putting? || pc.Checking? || pc.Removing?
  }

  /** Serving a line that has taken effect and is not answered yet. */
  predicate Effective(pc: Pc) {
    pc.GetUnlock? || pc.SetUnlock? || pc.DelUnlock? || pc.Writing?
  }

  function AnswerIn(pc: Pc): string
    requires Effective(pc)
  {
    match pc
    case GetUnlock(found) => GetReply(found)
    case SetUnlock => ReplyOK()
    case DelUnlock(present) => ReplyBit(present)
    case Writing(reply) => reply
  }

  /** The command in the program counter is the one on the line. */
  predicate Serves(pc: Pc, line: string) {
    match pc
    case Locking(cmd) => Parse(line) == Ok(cmd)
    case Reading(k) => Parse(line) == Ok(Get(k))
    case Putting(k, v) => Parse(line) == Ok(Set(k, v))
    case Checking(k) => Parse(line) == Ok(Del(k))
    case Removing(k) => Parse(line) == Ok(Del(k))
    case _ => true
  }

  predicate BeforeLoop(pc: Pc) {
    WithAcceptor(pc) || pc.Refused?
  }

  /** How far one connection is, given the lines read, the effects, their answers and the replies written. */
  predicate Progress(k: Conn, invoked: seq<string>, taken: seq<string>, answers: seq<string>, replies: seq<string>) {
    if BeforeLoop(k.pc) then invoked == [] && taken == [] && replies == []
    else if k.pc.Scanning? then invoked == taken && answers == replies
    else if Pending(k.pc) then invoked == taken + [k.line] && answers == replies && Serves(k.pc, k.line)
    else if Effective(k.pc) then invoked == taken && answers == replies + [AnswerIn(k.pc)]
    else invoked == taken && replies <= answers && |answers| <= |replies| + 1
  }

  ghost predicate ConnLog(s: State, c: nat) {
    var invoked, taken := InvokedBy(s.history, c), LinesOf(s.log, c);
    var answers, replies := AnswersOf(s.log, c), RepliesTo(s.history, c);
    if Has(s, c) then Progress(s.conns[c], invoked, taken, answers, replies)
    else invoked == [] && taken == [] && replies == []
  }

  /** The map is what the effects so far make of the empty map. */
  ghost predicate LogInv(s: State) {
    && Legal(s.log) && NumberedLog(s.log) && NumberedHistory(s.history)
    && KeepsRealTime(s.history, s.log)
    && s.store.data == Replay(s.log)
    && forall c: nat :: ConnLog(s, c)
  }

  /** A step that is neither an effect nor at the boundary. */
  predicate Silent(s: State, t: State) {
    t.history == s.history && t.log == s.log && t.store.data == s.store.data
  }

  lemma SilentKeeps(s: State, t: State, c: nat)
    requires LogInv(s) && Only(s, t, c) && Silent(s, t) && ConnLog(t, c)
    ensures LogInv(t)
  {
    forall d: nat | d != c ensures ConnLog(t, d) { assert ConnLog(s, d); }
  }

  /** A step of one connection that leaves its progress as it was. */
  predicate Advances(k: Conn, k': Conn) {
    || (k'.pc == k.pc && k'.line == k.line)
    || (BeforeLoop(k.pc) && (BeforeLoop(k'.pc) || k'.pc.Scanning?))
    || (Pending(k.pc) && Pending(k'.pc) && k'.line == k.line && Serves(k'.pc, k'.line))
    || (Effective(k.pc) && Effective(k'.pc) && AnswerIn(k'.pc) == AnswerIn(k.pc))
    || (!BeforeLoop(k.pc) && !Pending(k.pc) && (InDeferred(k'.pc) || k'.pc.Finished?))
  }

  lemma ProgressKept(k: Conn, k': Conn, invoked: seq<string>, taken: seq<string>,
                     answers: seq<string>, replies: seq<string>)
    requires Progress(k, invoked, taken, answers, replies) && Advances(k, k')
    requires |answers| == |taken|
    ensures Progress(k', invoked, taken, answers, replies)
  {
  }

  lemma SilentStep(s: State, t: State, c: nat)
    requires LogInv(s) && Only(s, t, c) && Silent(s, t) && Advances(s.conns[c], t.conns[c])
    ensures LogInv(t)
  {
    assert ConnLog(s, c);
    ProgressKept(s.conns[c], t.conns[c], InvokedBy(s.history, c), LinesOf(s.log, c),
                 AnswersOf(s.log, c), RepliesTo(s.history, c));
    SilentKeeps(s, t, c);
  }

  lemma ProgressTake(k: Conn, k': Conn, invoked: seq<string>, taken: seq<string>,
                     answers: seq<string>, replies: seq<string>)
    requires Progress(k, invoked, taken, answers, replies) && Pending(k.pc) && Effective(k'.pc)
    ensures Progress(k', invoked, taken + [k.line], answers + [AnswerIn(k'.pc)], replies)
  {
  }

  lemma ProgressInvoke(k: Conn, k': Conn, invoked: seq<string>, taken: seq<string>,
                       answers: seq<string>, replies: seq<string>)
    requires Progress(k, invoked, taken, answers, replies) && k.pc.Scanning? && k'.pc.Parsing?
    ensures Progress(k', invoked + [k'.line], taken, answers, replies)
  {
  }

  lemma ProgressRespond(k: Conn, k': Conn, invoked: seq<string>, taken: seq<string>,
                        answers: seq<string>, replies: seq<string>)
    requires Progress(k, invoked, taken, answers, replies) && k.pc.Writing? && k'.pc.Scanning?
    ensures Progress(k', invoked, taken, answers, replies + [k.pc.reply])
  {
  }

  /** Appending an entry of connection c says nothing about the others. */
  lemma OthersKept(s: State, t: State, c: nat, d: nat)
    requires Only(s, t, c) && d != c && ConnLog(s, d)
    requires LinesOf(t.log, d) == LinesOf(s.log, d) && AnswersOf(t.log, d) == AnswersOf(s.log, d)
    requires InvokedBy(t.history, d) == InvokedBy(s.history, d) && RepliesTo(t.history, d) == RepliesTo(s.history, d)
    ensures ConnLog(t, d)
  {
  }

  /** The line's effect and its answer, both those of the map. */
  predicate Takes(s: State, t: State, c: nat) {
    && Only(s, t, c) && Pending(s.conns[c].pc) && Effective(t.conns[c].pc)
    && t.history == s.history
    && t.log == s.log + [Entry(OpId(c, |LinesOf(s.log, c)|), s.conns[c].line, AnswerIn(t.conns[c].pc))]
    && AnswerIn(t.conns[c].pc) == LineAnswer(s.conns[c].line, s.store.data)
    && t.store.data == LineEffect(s.conns[c].line, s.store.data)
  }

  lemma TakeKeeps(s: State, t: State, c: nat)
    requires LogInv(s) && Takes(s, t, c)
    ensures LogInv(t)
  {
    var reply := AnswerIn(t.conns[c].pc);
    var e := Entry(OpId(c, |LinesOf(s.log, c)|), s.conns[c].line, reply);
    assert ConnLog(s, c);
    AppendEntry(s.log, e);
    RealTimeTake(s.history, s.log, e);
    forall d: nat ensures ConnLog(t, d) {
      if d == c {
        ProgressTake(s.conns[c], t.conns[c], InvokedBy(s.history, c), LinesOf(s.log, c),
                     AnswersOf(s.log, c), RepliesTo(s.history, c));
      } else {
        assert ConnLog(s, d);
        OthersKept(s, t, c, d);
      }
    }
  }

  lemma InvokeKeeps(s: State, t: State, c: nat, line: string)
    requires LogInv(s) && Only(s, t, c) && s.conns[c].pc.Scanning? && t.conns[c].pc.Parsing? && t.conns[c].line == line
    requires t.history == s.history + [Invoke(OpId(c, |InvokedBy(s.history, c)|), line)]
    requires t.log == s.log && t.store.data == s.store.data
    ensures LogInv(t)
  {
    var e := Invoke(OpId(c, |InvokedBy(s.history, c)|), line);
    assert ConnLog(s, c);
    AppendEvent(s.history, e);
    RealTimeInvoke(s.history, s.log, e);
    ProgressInvoke(s.conns[c], t.conns[c], InvokedBy(s.history, c), LinesOf(s.log, c),
                   AnswersOf(s.log, c), RepliesTo(s.history, c));
    forall d: nat | d != c ensures ConnLog(t, d) { assert ConnLog(s, d); OthersKept(s, t, c, d); }
  }

  lemma RespondKeeps(s: State, t: State, c: nat, reply: string)
    requires LogInv(s) && Only(s, t, c) && s.conns[c].pc == Writing(reply) && t.conns[c].pc.Scanning?
    requires t.history == s.history + [Respond(OpId(c, |RepliesTo(s.history, c)|), reply)]
    requires t.log == s.log && t.store.data == s.store.data
    ensures LogInv(t)
  {
    var e := Respond(OpId(c, |RepliesTo(s.history, c)|), reply);
    assert ConnLog(s, c);
    AppendEvent(s.history, e);
    RealTimeRespond(s.history, s.log, e);
    ProgressRespond(s.conns[c], t.conns[c], InvokedBy(s.history, c), LinesOf(s.log, c),
                    AnswersOf(s.log, c), RepliesTo(s.history, c));
    forall d: nat | d != c ensures ConnLog(t, d) { assert ConnLog(s, d); OthersKept(s, t, c, d); }
  }

  // ----- each step of a handler -----

  lemma LoopKeepsLog(s: State, c: nat)
    requires LogInv(s) && Has(s, c) && InLoop(s.conns[c].pc)
    ensures LogInv(LoopStep(s, c))
  {
    match s.conns[c].pc
    case Scanning => ScanKeepsLog(s, c);
    case Parsing => ParseKeepsLog(s, c);
    case Writing(_) => SilentStep(s, Goto(s, c, CloseLock), c);
  }

  lemma ScanKeepsLog(s: State, c: nat)
    requires LogInv(s) && Has(s, c) && s.conns[c].pc.Scanning?
    ensures LogInv(Scan(s, c))
  {
    var k := s.conns[c];
    if k.buffered != [] && |k.buffered[0]| <= s.cap {
      ScanReads(s, c);
      InvokeKeeps(s, Scan(s, c), c, k.buffered[0]);
    } else {
      SilentStep(s, Goto(s, c, CloseLock), c);
    }
  }

  lemma ScanReads(s: State, c: nat)
    requires Has(s, c) && s.conns[c].pc.Scanning?
    requires s.conns[c].buffered != [] && |s.conns[c].buffered[0]| <= s.cap
    ensures var t, line := Scan(s, c), s.conns[c].buffered[0];
            && Only(s, t, c) && t.conns[c].pc.Parsing? && t.conns[c].line == line
            && t.history == s.history + [Invoke(OpId(c, |InvokedBy(s.history, c)|), line)]
            && t.log == s.log && t.store == s.store
  {
  }

  lemma ParseKeepsLog(s: State, c: nat)
    requires LogInv(s) && Has(s, c) && s.conns[c].pc.Parsing?
    ensures LogInv(ParseLine(s, c))
  {
    match Parse(s.conns[c].line)
    case Err(e) => TakeKeeps(s, ParseLine(s, c), c);
    case Ok(cmd) => SilentStep(s, ParseLine(s, c), c);
  }

  predicate AtEffect(pc: Pc) {
    pc.Reading? || pc.Putting? || pc.Checking? || pc.Removing?
  }

  function CommandIn(pc: Pc): Command
    requires AtEffect(pc)
  {
    match pc
    case Reading(k) => Get(k)
    case Putting(k, v) => Set(k, v)
    case Checking(k) => Del(k)
    case Removing(k) => Del(k)
  }

  lemma CommandMeaning(line: string, cmd: Command, db: Db)
    requires Parse(line) == Ok(cmd)
    ensures LineAnswer(line, db) == Answer(cmd, db) && LineEffect(line, db) == Effect(cmd, db)
  {
  }

  lemma AccessKeepsLog(s: State, c: nat)
    requires StoreInv(s) && LogInv(s) && Has(s, c) && AtEffect(s.conns[c].pc)
    requires Parse(s.conns[c].line) == Ok(CommandIn(s.conns[c].pc))
    ensures LogInv(StoreStep(s, c))
  {
    var t := StoreStep(s, c);
    var pc := s.conns[c].pc;
    if pc.Checking? && pc.key in s.store.data {
      FoundAdvances(s, c);
      SilentStep(s, t, c);
    } else {
      AccessEffect(s, c);
      TakeKeeps(s, t, c);
    }
  }

  /** Delete finding its key is not its effect yet. */
  lemma FoundAdvances(s: State, c: nat)
    requires Has(s, c) && s.conns[c].pc.Checking? && s.conns[c].pc.key in s.store.data
    requires Parse(s.conns[c].line) == Ok(Del(s.conns[c].pc.key))
    ensures var t := StoreStep(s, c); Only(s, t, c) && Silent(s, t) && Advances(s.conns[c], t.conns[c])
  {
  }

  /** The access does what the command means, in both its effect and its answer. */
  lemma AccessEffect(s: State, c: nat)
    requires StoreInv(s) && Has(s, c) && AtEffect(s.conns[c].pc)
    requires var pc := s.conns[c].pc; !(pc.Checking? && pc.key in s.store.data)
    requires Parse(s.conns[c].line) == Ok(CommandIn(s.conns[c].pc))
    ensures Takes(s, StoreStep(s, c), c)
  {
    var pc := s.conns[c].pc;
    StoreFrame(s, c);
    CommandMeaning(s.conns[c].line, CommandIn(pc), s.store.data);
    assert pc.Checking? ==> s.store.data - {pc.key} == s.store.data;
  }

  lemma ServedCommand(s: State, c: nat)
    requires Has(s, c) && ConnLog(s, c) && AtEffect(s.conns[c].pc)
    ensures Parse(s.conns[c].line) == Ok(CommandIn(s.conns[c].pc))
  {
  }

  lemma LockKeepsLog(s: State, c: nat)
    requires LogInv(s) && Has(s, c) && s.conns[c].pc.Locking?
    ensures LogInv(StoreStep(s, c))
  {
    assert ConnLog(s, c);
    LockAdvances(s, c, s.conns[c].pc.cmd);
    SilentStep(s, LockStore(s, c, s.conns[c].pc.cmd), c);
  }

  lemma LockAdvances(s: State, c: nat, cmd: Command)
    requires Has(s, c) && s.conns[c].pc == Locking(cmd) && Parse(s.conns[c].line) == Ok(cmd)
    ensures var t := LockStore(s, c, cmd); Only(s, t, c) && Silent(s, t) && Advances(s.conns[c], t.conns[c])
  {
  }

  lemma UnlockKeepsLog(s: State, c: nat)
    requires LogInv(s) && Has(s, c) && InStore(s.conns[c].pc) && Effective(s.conns[c].pc)
    ensures LogInv(StoreStep(s, c))
  {
    SilentStep(s, StoreStep(s, c), c);
  }

  lemma StoreStepKeepsLog(s: State, c: nat)
    requires StoreInv(s) && LogInv(s) && Has(s, c) && InStore(s.conns[c].pc)
    ensures LogInv(StoreStep(s, c))
  {
    if AtEffect(s.conns[c].pc) {
      assert ConnLog(s, c);
      ServedCommand(s, c);
      AccessKeepsLog(s, c);
    } else if s.conns[c].pc.Locking? {
      LockKeepsLog(s, c);
    } else {
      UnlockKeepsLog(s, c);
    }
  }

  // ----- every step -----

  ghost predicate EffectInv(s: State) {
    StoreInv(s) && LogInv(s)
  }

  lemma LoopEffect(s: State, c: nat)
    requires EffectInv(s) && Has(s, c) && InLoop(s.conns[c].pc)
    ensures EffectInv(LoopStep(s, c))
  {
    LoopKeepsStore(s, c);
    LoopKeepsLog(s, c);
  }

  lemma LoopKeepsStore(s: State, c: nat)
    requires StoreInv(s) && Has(s, c) && InLoop(s.conns[c].pc)
    ensures StoreInv(LoopStep(s, c))
  {
    LoopFrame(s, c);
    LoopLeavesStore(s.conns[c].pc, LoopStep(s, c).conns[c].pc);
    StoreAside(s, LoopStep(s, c), c);
  }

  lemma LoopLeavesStore(from: Pc, to: Pc)
    requires LoopMoves(from, to)
    ensures !TouchesStore(from) && !TouchesStore(to)
  {
  }

  /** A step of one connection away from the store and from the boundary. */
  predicate Aside(s: State, t: State, c: nat) {
    && Only(s, t, c) && t.store == s.store && Silent(s, t)
    && (t.conns[c].pc == s.conns[c].pc || (!TouchesStore(s.conns[c].pc) && !TouchesStore(t.conns[c].pc)))
    && Advances(s.conns[c], t.conns[c])
  }

  lemma AsideKeeps(s: State, t: State, c: nat)
    requires EffectInv(s) && Aside(s, t, c)
    ensures EffectInv(t)
  {
    StoreAside(s, t, c);
    SilentStep(s, t, c);
  }

  lemma DeferredFrame(s: State, c: nat)
    requires Has(s, c) && InDeferred(s.conns[c].pc)
    ensures Aside(s, DeferredStep(s, c), c)
  {
    var t := DeferredStep(s, c);
    assert InDeferred(t.conns[c].pc) || t.conns[c].pc.Finished?;
  }

  lemma DeferredEffect(s: State, c: nat)
    requires EffectInv(s) && Has(s, c) && InDeferred(s.conns[c].pc)
    ensures EffectInv(DeferredStep(s, c))
  {
    DeferredFrame(s, c);
    AsideKeeps(s, DeferredStep(s, c), c);
  }

  lemma HandleEffect(s: State, c: nat)
    requires EffectInv(s) && Has(s, c) && HandlerReady(s, c)
    ensures EffectInv(HandlerStep(s, c))
  {
    if InLoop(s.conns[c].pc) {
      LoopEffect(s, c);
    } else if InStore(s.conns[c].pc) {
      StoreStepKeepsStore(s, c);
      StoreStepKeepsLog(s, c);
    } else {
      DeferredEffect(s, c);
    }
  }

  lemma WriteEffect(s: State, c: nat)
    requires EffectInv(s) && Has(s, c) && s.conns[c].pc.Writing?
    ensures EffectInv(WriteReply(s, c))
  {
    var t := WriteReply(s, c);
    WrittenFrame(s, c);
    StoreAside(s, t, c);
    RespondKeeps(s, t, c, s.conns[c].pc.reply);
  }

  /** Steps of the acceptor, which may move the connection it carries. */
  lemma AcceptorEffect(s: State)
    requires EffectInv(s) && AdmissionInv(s) && AcceptorReady(s) && AcceptorHasConn(s)
    ensures EffectInv(AcceptorStep(s))
  {
    var t := AcceptorStep(s);
    if Carried(s.gate.acceptor).Some? {
      var c := Carried(s.gate.acceptor).value;
      AcceptorFrame(s, c);
      AsideKeeps(s, t, c);
    } else {
      assert forall c: nat :: ConnLog(s, c) ==> ConnLog(t, c);
    }
  }

  lemma AcceptorFrame(s: State, c: nat)
    requires AdmissionInv(s) && AcceptorReady(s) && AcceptorHasConn(s) && Carried(s.gate.acceptor) == Some(c)
    ensures Aside(s, AcceptorStep(s), c)
  {
    AcceptorOnly(s, c);
    AcceptorCarries(s, c);
  }

  /** Steps that leave connections, log and map alone. */
  lemma GateOnlyEffect(s: State, t: State)
    requires EffectInv(s) && t == s.(gate := t.gate)
    ensures EffectInv(t)
  {
    assert forall c: nat :: ConnLog(s, c) ==> ConnLog(t, c);
  }

  lemma AcceptEffect(s: State)
    requires EffectInv(s) && Enabled(s, Accept)
    ensures EffectInv(Next(s, Accept))
  {
    var t := Next(s, Accept);
    AcceptStore(s, t);
    forall c: nat ensures ConnLog(t, c) { AcceptConnLog(s, t, c); }
  }

  predicate AddsAccepted(s: State, t: State) {
    && t.conns == s.conns + [Conn(Accepted, false, false, [], "")]
    && t.store == s.store && Silent(s, t)
  }

  lemma AcceptStore(s: State, t: State)
    requires StoreInv(s) && AddsAccepted(s, t)
    ensures StoreInv(t)
  {
  }

  lemma AcceptConnLog(s: State, t: State, c: nat)
    requires LogInv(s) && AddsAccepted(s, t)
    ensures ConnLog(t, c)
  {
    assert ConnLog(s, c);
  }

  lemma RangeEffect(s: State, a: Action)
    requires EffectInv(s) && a.ShutdownClose? && Enabled(s, a)
    ensures EffectInv(Next(s, a))
  {
    AsideKeeps(s, Next(s, a), a.c);
  }

  lemma ClientEffect(s: State, a: Action)
    requires EffectInv(s) && Enabled(s, a) && !IsServerStep(a)
    ensures EffectInv(Next(s, a))
  {
    var t := Next(s, a);
    ClientFrame(s, a);
    assert t.conns[a.c].line == s.conns[a.c].line;
    AsideKeeps(s, t, a.c);
  }

  lemma EffectStep(s: State, a: Action)
    requires EffectInv(s) && AdmissionInv(s) && Enabled(s, a)
    ensures EffectInv(Next(s, a))
  {
    match a
    case Accept => AcceptEffect(s);
    case AcceptFail => GateOnlyEffect(s, Next(s, a));
    case Acceptor => AcceptorEffect(s);
    case Handle(c) => HandleEffect(s, c);
    case Written(c) => WriteEffect(s, c);
    case Shutdown => GateOnlyEffect(s, ShutdownStep(s));
    case ShutdownClose(c) => RangeEffect(s, a);
    case Expire => GateOnlyEffect(s, Next(s, a));
    case Drain => GateOnlyEffect(s, Next(s, a));
    case Fill(c, _) => ClientEffect(s, a);
    case Vanish(c) => ClientEffect(s, a);
  }
}
