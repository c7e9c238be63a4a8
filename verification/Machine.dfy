/**
 The concurrent server as a transition system.

 Every goroutine has a program counter, every lock acquisition, access and
 release is a step of its own, and steps of different goroutines interleave
 freely. Connections are numbered in the order they are accepted.

 `history` and `log` observe the run. No step reads them except to number the
 operation it adds.
 */
module Machine {
  import opened Wrappers
  import opened Protocol
  import opened AtomicMap
  import opened Histories

  // ----- program counters -----

  /** Where a connection is: first with the acceptor, then with its own handler. */
  datatype Pc =
    // with the acceptor
    | Accepted                            // accepted, not admitted
    | Refused                             // turned away at the gate and closed
    | Registered                          // in conns, not counted yet
    | Admitted                            // counted, its goroutine not started
    // the scan loop
    | Scanning                            // at sc.Scan
    | Parsing                             // holding one line
    | Locking(cmd: Command)               // about to take the store lock
    | Reading(key: string)                // Get, under the read lock
    | GetUnlock(found: Option<string>)
    | Putting(key: string, value: string) // Set, under the write lock
    | SetUnlock
    | Checking(key: string)               // Delete, under the write lock, before its look-up
    | Removing(key: string)               // Delete, after finding the key
    | DelUnlock(present: bool)
    | Writing(reply: string)              // at io.WriteString
    // the deferred calls, last registered first
    | CloseLock                           // about to take mu
    | CloseDelete                         // under mu
    | CloseUnlock                         // under mu, out of conns
    | CloseConn
    | WgDone
    | Finished

  datatype AcceptorPc =
    | AtAccept
    | AcceptFailed
    | Got(c: nat)          // about to take mu
    | Deciding(c: nat)     // under mu, at the select on done
    | RefuseUnlock(c: nat) // under mu
    | RefuseClose(c: nat)
    | Inserting(c: nat)    // under mu
    | Adding(c: nat)       // under mu
    | AdmitUnlock(c: nat)  // under mu
    | Spawning(c: nat)
    | Stopped(clean: bool) // Serve returned nil, or the accept error

  datatype ShutdownPc =
    | NotCalled
    | ClosingDone          // under mu
    | ClosingListener      // under mu
    | ClosingConns(left: set<nat>) // under mu, ranging over conns
    | GateUnlock           // under mu
    | StartingDrain
    | Selecting
    | ReturnedNil
    | ReturnedErr

  datatype DrainPc = NotStarted | Waiting | Announcing | Drained

  datatype Owner = ByHandler(c: nat) | ByAcceptor | ByShutdown

  // ----- states -----

  /**
   One connection. `buffered` is what its scanner has read and not returned,
   `gone` says that the client has ended its side or vanished, and `line` is
   the line being served.
   */
  datatype Conn = Conn(pc: Pc, closed: bool, gone: bool, buffered: seq<string>, line: string)

  /** The fields of Server, and the counters of the goroutines that only touch these. */
  datatype Gate = Gate(
    registered: set<nat>,  // the conns map
    wg: int,
    done: bool,
    lnClosed: bool,
    mu: Option<Owner>,
    acceptor: AcceptorPc,
    shutdown: ShutdownPc,
    drain: DrainPc)

  /** The fields of MemoryStore: the map and its RWMutex. */
  datatype Memory = Memory(data: Db, writer: Option<nat>, readers: set<nat>)

  datatype State = State(
    cap: nat,              // the longest line the scanner returns
    conns: seq<Conn>,
    gate: Gate,
    store: Memory,
    history: seq<Event>,
    log: seq<Entry>)

  function Init(cap: nat): State {
    State(cap, [], Gate({}, 0, false, false, None, AtAccept, NotCalled, NotStarted), Memory(map[], None, {}), [], [])
  }

  datatype Action =
    | Accept
    | AcceptFail
    | Acceptor             // the acceptor's next step
    | Handle(c: nat)       // a handler's next step; at a write, the write fails
    | Written(c: nat)      // the handler's write succeeds
    | Shutdown             // Shutdown's next step
    | ShutdownClose(c: nat) // Shutdown closes one connection of its range
    | Expire               // the context given to Shutdown ends
    | Drain                // the drain goroutine's next step
    | Fill(c: nat, lines: seq<string>) // a read from the socket brings complete lines
    | Vanish(c: nat)       // the client ends its side of the connection

  /** The steps of the server itself, as opposed to its clients. */
  predicate IsServerStep(a: Action) {
    !a.Fill? && !a.Vanish?
  }

  // ----- what is enabled -----

  predicate Has(s: State, c: nat) {
    c < |s.conns|
  }

  predicate InLoop(pc: Pc) {
    pc.Scanning? || pc.Parsing? || pc.Writing?
  }

  predicate InStore(pc: Pc) {
    || pc.Locking? || pc.Reading? || pc.GetUnlock? || pc.Putting? || pc.SetUnlock?
    || pc.Checking? || pc.Removing? || pc.DelUnlock?
  }

  predicate InDeferred(pc: Pc) {
    pc.CloseLock? || pc.CloseDelete? || pc.CloseUnlock? || pc.CloseConn? || pc.WgDone?
  }

  predicate HandlerReady(s: State, c: nat)
    requires Has(s, c)
  {
    var k := s.conns[c];
    match k.pc
    case Scanning => k.buffered != [] || k.closed || k.gone
    case Locking(cmd) => s.store.writer.None? && (cmd.Get? || s.store.readers == {})
    case Writing(_) => k.closed || k.gone
    case CloseLock => s.gate.mu.None?
    case _ => InLoop(k.pc) || InStore(k.pc) || InDeferred(k.pc)
  }

  predicate AcceptorReady(s: State) {
    match s.gate.acceptor
    case AtAccept => false
    case Stopped(_) => false
    case Got(c) => s.gate.mu.None?
    case _ => true
  }

  predicate ShutdownReady(s: State) {
    match s.gate.shutdown
    case NotCalled => s.gate.mu.None?
    case ClosingConns(left) => left == {}
    case Selecting => s.gate.drain.Drained?
    case ReturnedNil => false
    case ReturnedErr => false
    case _ => true
  }

  predicate DrainReady(s: State) {
    (s.gate.drain.Waiting? && s.gate.wg == 0) || s.gate.drain.Announcing?
  }

  predicate Enabled(s: State, a: Action) {
    match a
    case Accept => s.gate.acceptor.AtAccept? && !s.gate.lnClosed
    case AcceptFail => s.gate.acceptor.AtAccept?
    case Acceptor => AcceptorReady(s) && AcceptorHasConn(s)
    case Handle(c) => Has(s, c) && HandlerReady(s, c)
    case Written(c) => Has(s, c) && s.conns[c].pc.Writing? && !s.conns[c].closed
    case Shutdown => ShutdownReady(s)
    case ShutdownClose(c) => Has(s, c) && s.gate.shutdown.ClosingConns? && c in s.gate.shutdown.left
    case Expire => s.gate.shutdown.Selecting?
    case Drain => DrainReady(s)
    case Fill(c, lines) =>
      && Has(s, c) && s.conns[c].pc.Scanning? && s.conns[c].buffered == []
      && !s.conns[c].closed && !s.conns[c].gone
      && forall i :: 0 <= i < |lines| ==> NoLf(lines[i])
    case Vanish(c) => Has(s, c)
  }

  function Carried(pc: AcceptorPc): Option<nat> {
    match pc
    case AtAccept => None
    case AcceptFailed => None
    case Stopped(_) => None
    case _ => Some(pc.c)
  }

  predicate AcceptorHasConn(s: State) {
    Carried(s.gate.acceptor).Some? ==> Has(s, Carried(s.gate.acceptor).value)
  }

  // ----- steps -----

  function Goto(s: State, c: nat, pc: Pc): State
    requires Has(s, c)
  {
    s.(conns := s.conns[c := s.conns[c].(pc := pc)])
  }

  /** conn.Close, which may be repeated. */
  function CloseAndGoto(s: State, c: nat, pc: Pc): State
    requires Has(s, c)
  {
    s.(conns := s.conns[c := s.conns[c].(pc := pc, closed := true)])
  }

  /** The operation being served takes effect here and gets its reply. */
  function Take(s: State, c: nat, reply: string): State
    requires Has(s, c)
  {
    s.(log := s.log + [Entry(OpId(c, |LinesOf(s.log, c)|), s.conns[c].line, reply)])
  }

  /** sc.Scan: the next line, or the end of the loop. */
  function Scan(s: State, c: nat): State
    requires Has(s, c)
  {
    var k := s.conns[c];
    if k.buffered != [] && |k.buffered[0]| <= s.cap then
      s.(conns := s.conns[c := k.(pc := Parsing, buffered := k.buffered[1..], line := k.buffered[0])],
         history := s.history + [Invoke(OpId(c, |InvokedBy(s.history, c)|), k.buffered[0])])
    else
      Goto(s, c, CloseLock)
  }

  function ParseLine(s: State, c: nat): State
    requires Has(s, c)
  {
    match Parse(s.conns[c].line)
    case Ok(cmd) => Goto(s, c, Locking(cmd))
    case Err(e) => Take(Goto(s, c, Writing(ReplyError(e))), c, ReplyError(e))
  }

  function LockStore(s: State, c: nat, cmd: Command): State
    requires Has(s, c)
  {
    match cmd
    case Get(k) => Goto(s, c, Reading(k)).(store := s.store.(readers := s.store.readers + {c}))
    case Set(k, v) => Goto(s, c, Putting(k, v)).(store := s.store.(writer := Some(c)))
    case Del(k) => Goto(s, c, Checking(k)).(store := s.store.(writer := Some(c)))
  }

  /** A step of Get, Set or Delete: take the lock, access the map, release the lock. */
  function StoreStep(s: State, c: nat): State
    requires Has(s, c) && InStore(s.conns[c].pc)
  {
    match s.conns[c].pc
    case Locking(cmd) => LockStore(s, c, cmd)
    case Reading(k) =>
      Take(Goto(s, c, GetUnlock(Lookup(s.store.data, k))), c, GetReply(Lookup(s.store.data, k)))
    case Putting(k, v) =>
      Take(Goto(s, c, SetUnlock), c, ReplyOK()).(store := s.store.(data := s.store.data[k := v]))
    case Checking(k) =>
      if k in s.store.data then Goto(s, c, Removing(k))
      else Take(Goto(s, c, DelUnlock(false)), c, ReplyBit(false))
    case Removing(k) =>
      Take(Goto(s, c, DelUnlock(true)), c, ReplyBit(true)).(store := s.store.(data := s.store.data - {k}))
    case GetUnlock(found) => Goto(s, c, Writing(GetReply(found))).(store := s.store.(readers := s.store.readers - {c}))
    case SetUnlock => Goto(s, c, Writing(ReplyOK())).(store := s.store.(writer := None))
    case DelUnlock(present) => Goto(s, c, Writing(ReplyBit(present))).(store := s.store.(writer := None))
  }

  /** A step of the scan loop outside the store. */
  function LoopStep(s: State, c: nat): State
    requires Has(s, c) && InLoop(s.conns[c].pc)
  {
    match s.conns[c].pc
    case Scanning => Scan(s, c)
    case Parsing => ParseLine(s, c)
    case Writing(_) => Goto(s, c, CloseLock)
  }

  /** A step of the deferred calls. */
  function DeferredStep(s: State, c: nat): State
    requires Has(s, c) && InDeferred(s.conns[c].pc)
  {
    match s.conns[c].pc
    case CloseLock => Goto(s, c, CloseDelete).(gate := s.gate.(mu := Some(ByHandler(c))))
    case CloseDelete => Goto(s, c, CloseUnlock).(gate := s.gate.(registered := s.gate.registered - {c}))
    case CloseUnlock => Goto(s, c, CloseConn).(gate := s.gate.(mu := None))
    case CloseConn => CloseAndGoto(s, c, WgDone)
    case WgDone => Goto(s, c, Finished).(gate := s.gate.(wg := s.gate.wg - 1))
  }

  function HandlerStep(s: State, c: nat): State
    requires Has(s, c) && HandlerReady(s, c)
  {
    var pc := s.conns[c].pc;
    if InLoop(pc) then LoopStep(s, c) else if InStore(pc) then StoreStep(s, c) else DeferredStep(s, c)
  }

  function WriteReply(s: State, c: nat): State
    requires Has(s, c) && s.conns[c].pc.Writing?
  {
    Goto(s, c, Scanning).(
      history := s.history + [Respond(OpId(c, |RepliesTo(s.history, c)|), s.conns[c].pc.reply)])
  }

  function AcceptorStep(s: State): State
    requires AcceptorReady(s) && AcceptorHasConn(s)
  {
    match s.gate.acceptor
    case AcceptFailed => s.(gate := s.gate.(acceptor := Stopped(s.gate.done)))
    case Got(c) => s.(gate := s.gate.(acceptor := Deciding(c), mu := Some(ByAcceptor)))
    case Deciding(c) => s.(gate := s.gate.(acceptor := if s.gate.done then RefuseUnlock(c) else Inserting(c)))
    case RefuseUnlock(c) => s.(gate := s.gate.(acceptor := RefuseClose(c), mu := None))
    case RefuseClose(c) => CloseAndGoto(s, c, Refused).(gate := s.gate.(acceptor := Stopped(true)))
    case Inserting(c) =>
      Goto(s, c, Registered).(gate := s.gate.(acceptor := Adding(c), registered := s.gate.registered + {c}))
    case Adding(c) => Goto(s, c, Admitted).(gate := s.gate.(acceptor := AdmitUnlock(c), wg := s.gate.wg + 1))
    case AdmitUnlock(c) => s.(gate := s.gate.(acceptor := Spawning(c), mu := None))
    case Spawning(c) => Goto(s, c, Scanning).(gate := s.gate.(acceptor := AtAccept))
  }

  function ShutdownStep(s: State): State
    requires ShutdownReady(s)
  {
    match s.gate.shutdown
    case NotCalled => s.(gate := s.gate.(shutdown := ClosingDone, mu := Some(ByShutdown)))
    case ClosingDone => s.(gate := s.gate.(shutdown := ClosingListener, done := true))
    case ClosingListener => s.(gate := s.gate.(shutdown := ClosingConns(s.gate.registered), lnClosed := true))
    case ClosingConns(_) => s.(gate := s.gate.(shutdown := GateUnlock))
    case GateUnlock => s.(gate := s.gate.(shutdown := StartingDrain, mu := None))
    case StartingDrain => s.(gate := s.gate.(shutdown := Selecting, drain := Waiting))
    case Selecting => s.(gate := s.gate.(shutdown := ReturnedNil))
  }

  function Next(s: State, a: Action): State
    requires Enabled(s, a)
  {
    match a
    case Accept =>
      s.(conns := s.conns + [Conn(Accepted, false, false, [], "")],
         gate := s.gate.(acceptor := Got(|s.conns|)))
    case AcceptFail => s.(gate := s.gate.(acceptor := AcceptFailed))
    case Acceptor => AcceptorStep(s)
    case Handle(c) => HandlerStep(s, c)
    case Written(c) => WriteReply(s, c)
    case Shutdown => ShutdownStep(s)
    case ShutdownClose(c) =>
      var left := s.gate.shutdown.left - {c};
      CloseAndGoto(s, c, s.conns[c].pc).(gate := s.gate.(shutdown := ClosingConns(left)))
    case Expire => s.(gate := s.gate.(shutdown := ReturnedErr))
    case Drain => s.(gate := s.gate.(drain := if s.gate.drain.Waiting? then Announcing else Drained))
    case Fill(c, lines) => s.(conns := s.conns[c := s.conns[c].(buffered := lines)])
    case Vanish(c) => s.(conns := s.conns[c := s.conns[c].(gone := true)])
  }

  // ----- runs -----

  /** A run lists the actions taken. */
  predicate Runs(s: State, run: seq<Action>, t: State)
    decreases |run|
  {
    if run == [] then s == t
    else Enabled(s, run[0]) && Runs(Next(s, run[0]), run[1..], t)
  }

  ghost predicate Reachable(s: State) {
    exists cap, run :: Runs(Init(cap), run, s)
  }
}
