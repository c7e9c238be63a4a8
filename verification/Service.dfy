/** The server serves: a new client is admitted, and every line it sends is read and answered. */
module Service {
  import opened Wrappers
  import opened Protocol
  import opened Histories
  import opened Machine
  import opened Locks
  import opened Effects
  import opened Linearizability
  import opened Termination
  import opened Delivery

  // ----- joining runs -----

  lemma {:induction false} RunsJoin(s: State, a: seq<Action>, m: State, b: seq<Action>, t: State)
    requires Runs(s, a, m) && Runs(m, b, t)
    ensures Runs(s, a + b, t)
    decreases |a|
  {
    if a == [] {
      assert a + b == b;
    } else {
      RunsJoin(Next(s, a[0]), a[1..], m, b, t);
      assert (a + b)[1..] == a[1..] + b;
    }
  }

  // ----- the store lock comes free -----

  /** Nothing of connection c changes, nor anything of the server but the store and its users. */
  predicate SameFor(s: State, t: State, c: nat) {
    && Has(s, c) && Has(t, c) && t.conns[c] == s.conns[c]
    && t.gate == s.gate && t.history == s.history && t.cap == s.cap
  }

  /** The goroutines that hold the store lock can release it, while connection c waits. */
  lemma {:induction false} StoreComesFree(s: State, c: nat) returns (run: seq<Action>, t: State)
    requires Inv(s) && Has(s, c) && !InStoreLocked(s.conns[c].pc)
    ensures Runs(s, run, t) && Inv(t) && SameFor(s, t, c) && !Held(t.store)
    decreases Measure(s)
  {
    if !Held(s.store) {
      run, t := [], s;
    } else {
      var d := StoreHolder(s);
      HolderStep(s, d, c);
      HandleLowers(s, d);
      StepInv(s, Handle(d));
      run, t := StoreComesFree(Next(s, Handle(d)), c);
      run := [Handle(d)] + run;
    }
  }

  lemma StoreHolder(s: State) returns (d: nat)
    requires StoreInv(s) && Held(s.store)
    ensures Has(s, d) && InStoreLocked(s.conns[d].pc)
  {
    if s.store.writer.Some? { d := s.store.writer.value; } else { d :| d in s.store.readers; }
  }

  lemma HolderStep(s: State, d: nat, c: nat)
    requires Has(s, d) && InStoreLocked(s.conns[d].pc) && Has(s, c) && c != d
    ensures HandlerReady(s, d) && SameFor(s, HandlerStep(s, d), c)
  {
    StoreFrame(s, d);
    StoreReadsNothing(s, d);
  }

  /** Two GETs can hold the store lock at once. */
  lemma ReadersShare(s: State, c: nat, d: nat)
    requires Has(s, c) && Has(s, d) && c != d && s.store.writer.None?
    requires s.conns[c].pc.Locking? && s.conns[c].pc.cmd.Get? && s.conns[d].pc.Locking? && s.conns[d].pc.cmd.Get?
    ensures Enabled(s, Handle(c)) && Enabled(Next(s, Handle(c)), Handle(d))
    ensures {c, d} <= Next(Next(s, Handle(c)), Handle(d)).store.readers
  {
  }

  // ----- one line -----

  predicate InCommand(pc: Pc) {
    pc.Parsing? || InStore(pc) || pc.Writing?
  }

  /** The handler of c can go on with its command: the connection is open, and no one is in its way. */
  predicate Going(s: State, c: nat) {
    && Has(s, c) && InCommand(s.conns[c].pc) && !s.conns[c].closed
    && (s.conns[c].pc.Parsing? || s.conns[c].pc.Locking? ==> !Held(s.store))
  }

  /** A step within a command. */
  predicate StillServing(s: State, t: State, c: nat) {
    && Has(s, c) && Has(t, c)
    && t.gate == s.gate && t.history == s.history && t.cap == s.cap && |t.conns| == |s.conns|
    && t.conns[c].closed == s.conns[c].closed && t.conns[c].gone == s.conns[c].gone
    && t.conns[c].buffered == s.conns[c].buffered
  }

  lemma CommandStep(s: State, c: nat)
    requires Going(s, c) && !s.conns[c].pc.Writing?
    ensures HandlerReady(s, c)
    ensures var t := HandlerStep(s, c); Going(t, c) && StillServing(s, t, c)
  {
    if s.conns[c].pc.Parsing? {
      LoopFrame(s, c);
      LoopReads(s, c);
      ParseStays(s, c);
    } else {
      StoreFrame(s, c);
      StoreReadsNothing(s, c);
      StoreStays(s, c);
      LeavesLocking(s, c);
      assert StoreStep(s, c).conns[c].buffered == s.conns[c].buffered;
      assert StoreStep(s, c).conns[c].gone == s.conns[c].gone;
    }
  }

  lemma ParseStays(s: State, c: nat)
    requires Has(s, c) && s.conns[c].pc.Parsing?
    ensures var t := LoopStep(s, c);
            t.conns[c].buffered == s.conns[c].buffered && t.conns[c].gone == s.conns[c].gone
  {
  }

  lemma LeavesLocking(s: State, c: nat)
    requires Has(s, c) && InStore(s.conns[c].pc)
    ensures !StoreStep(s, c).conns[c].pc.Locking?
  {
  }

  /** The reply to the command is written, and the handler is at the top of its loop. */
  predicate Answered(s: State, t: State, c: nat, reply: string) {
    && Has(s, c) && Has(t, c) && t.conns[c].pc.Scanning?
    && t.conns[c].buffered == s.conns[c].buffered
    && t.conns[c].closed == s.conns[c].closed && t.conns[c].gone == s.conns[c].gone
    && t.gate == s.gate && t.cap == s.cap && |t.conns| == |s.conns|
    && t.history == s.history + [Respond(OpId(c, |RepliesTo(s.history, c)|), reply)]
  }

  lemma ReplyWritten(s: State, c: nat)
    requires Going(s, c) && s.conns[c].pc.Writing?
    ensures Enabled(s, Written(c)) && Answered(s, Next(s, Written(c)), c, s.conns[c].pc.reply)
  {
    WrittenFrame(s, c);
  }

  lemma AnsweredLater(s: State, n: State, t: State, c: nat, reply: string)
    requires StillServing(s, n, c) && Answered(n, t, c, reply)
    ensures Answered(s, t, c, reply)
  {
  }

  lemma CommandLowers(s: State, c: nat)
    requires Going(s, c) && !s.conns[c].pc.Writing? && HandlerReady(s, c)
    ensures Has(HandlerStep(s, c), c)
    ensures HandlerRank(HandlerStep(s, c).conns[c].pc) < HandlerRank(s.conns[c].pc)
  {
    if InStore(s.conns[c].pc) { StoreLowers(s, c); } else { LoopLowers(s, c); }
  }

  /** The command runs to its end and its reply is written. */
  lemma {:induction false} FinishCommand(s: State, c: nat) returns (run: seq<Action>, t: State, reply: string)
    requires Inv(s) && Going(s, c)
    ensures Runs(s, run, t) && Inv(t) && Answered(s, t, c, reply)
    decreases HandlerRank(s.conns[c].pc)
  {
    if s.conns[c].pc.Writing? {
      ReplyWritten(s, c);
      StepInv(s, Written(c));
      reply, t := s.conns[c].pc.reply, Next(s, Written(c));
      run := [Written(c)];
      assert Runs(t, run[1..], t);
    } else {
      CommandStep(s, c);
      CommandLowers(s, c);
      StepInv(s, Handle(c));
      var next := HandlerStep(s, c);
      run, t, reply := FinishCommand(next, c);
      AnsweredLater(s, next, t, c, reply);
      run := [Handle(c)] + run;
    }
  }

  /** At the top of its loop, on an open connection, with lines to read. */
  predicate Serving(s: State, c: nat) {
    Has(s, c) && s.conns[c].pc.Scanning? && !s.conns[c].closed
  }

  predicate Fits(lines: seq<string>, cap: nat) {
    forall i :: 0 <= i < |lines| ==> |lines[i]| <= cap
  }

  /** One more line read and answered. */
  predicate ServedOne(s: State, t: State, c: nat) {
    && Serving(s, c) && Serving(t, c) && s.conns[c].buffered != []
    && t.conns[c].buffered == s.conns[c].buffered[1..]
    && t.gate == s.gate && t.cap == s.cap
    && InvokedBy(t.history, c) == InvokedBy(s.history, c) + [s.conns[c].buffered[0]]
    && |RepliesTo(t.history, c)| == |RepliesTo(s.history, c)| + 1
    && RepliesTo(s.history, c) <= RepliesTo(t.history, c)
  }

  /** From the top of the loop, whatever the others are doing, a line that fits can be read, and its reply written. */
  lemma ServeLine(s: State, c: nat) returns (run: seq<Action>, t: State)
    requires Inv(s) && Serving(s, c) && s.conns[c].buffered != [] && |s.conns[c].buffered[0]| <= s.cap
    ensures Runs(s, run, t) && Inv(t) && ServedOne(s, t, c)
  {
    var before, m := StoreComesFree(s, c);
    var u := ReadLine(m, c);
    var rest, reply;
    rest, t, reply := FinishCommand(u, c);
    assert Runs(m, [Handle(c)] + rest, t) by { assert ([Handle(c)] + rest)[1..] == rest; }
    RunsJoin(s, before, m, [Handle(c)] + rest, t);
    run := before + ([Handle(c)] + rest);
    AppendEvent(u.history, Respond(OpId(c, |RepliesTo(u.history, c)|), reply));
  }

  /** The scan takes the first line of the buffer. */
  predicate Reads(s: State, t: State, c: nat) {
    && Serving(s, c) && s.conns[c].buffered != [] && Going(t, c)
    && t.conns[c].buffered == s.conns[c].buffered[1..] && t.gate == s.gate && t.cap == s.cap
    && t.history == s.history + [Invoke(OpId(c, |InvokedBy(s.history, c)|), s.conns[c].buffered[0])]
  }

  lemma ScanTakes(s: State, c: nat)
    requires Serving(s, c) && s.conns[c].buffered != [] && |s.conns[c].buffered[0]| <= s.cap && !Held(s.store)
    ensures Reads(s, Scan(s, c), c)
  {
  }

  lemma ScanIsNext(s: State, c: nat)
    requires Serving(s, c) && s.conns[c].buffered != []
    ensures Enabled(s, Handle(c)) && Next(s, Handle(c)) == Scan(s, c)
  {
  }

  lemma ReadLine(s: State, c: nat) returns (t: State)
    requires Inv(s) && Serving(s, c) && s.conns[c].buffered != [] && |s.conns[c].buffered[0]| <= s.cap
    requires !Held(s.store)
    ensures Enabled(s, Handle(c)) && t == Next(s, Handle(c)) && Inv(t) && Reads(s, t, c)
    ensures InvokedBy(t.history, c) == InvokedBy(s.history, c) + [s.conns[c].buffered[0]]
    ensures RepliesTo(t.history, c) == RepliesTo(s.history, c)
  {
    ScanIsNext(s, c);
    StepInv(s, Handle(c));
    ScanTakes(s, c);
    t := Scan(s, c);
    AppendEvent(s.history, Invoke(OpId(c, |InvokedBy(s.history, c)|), s.conns[c].buffered[0]));
  }

  /** The whole buffer read and answered. */
  predicate ServedAll(s: State, t: State, c: nat) {
    && Has(s, c) && Serving(t, c) && t.conns[c].buffered == []
    && t.gate == s.gate && t.cap == s.cap
    && InvokedBy(t.history, c) == InvokedBy(s.history, c) + s.conns[c].buffered
    && |RepliesTo(t.history, c)| == |RepliesTo(s.history, c)| + |s.conns[c].buffered|
    && RepliesTo(s.history, c) <= RepliesTo(t.history, c)
  }

  lemma ServedThen(s: State, m: State, t: State, c: nat)
    requires ServedOne(s, m, c) && ServedAll(m, t, c)
    ensures ServedAll(s, t, c)
  {
    var lines := s.conns[c].buffered;
    assert [lines[0]] + lines[1..] == lines;
    assert (InvokedBy(s.history, c) + [lines[0]]) + lines[1..] == InvokedBy(s.history, c) + lines;
  }

  /** All the lines of the buffer, one after the other. */
  lemma {:induction false} ServeBuffer(s: State, c: nat) returns (run: seq<Action>, t: State)
    requires Inv(s) && Serving(s, c) && Fits(s.conns[c].buffered, s.cap)
    ensures Runs(s, run, t) && Inv(t) && ServedAll(s, t, c)
    decreases |s.conns[c].buffered|
  {
    if s.conns[c].buffered == [] {
      run, t := [], s;
    } else {
      var first, m := ServeLine(s, c);
      var rest;
      rest, t := ServeBuffer(m, c);
      RunsJoin(s, first, m, rest, t);
      ServedThen(s, m, t, c);
      run := first + rest;
    }
  }

  // ----- a new client -----

  /** Before Shutdown, with Serve waiting in Accept. */
  predicate Accepting(s: State) {
    s.gate.acceptor.AtAccept? && s.gate.shutdown.NotCalled?
  }

  /** A handler that holds mu can release it. */
  lemma {:induction false} MuComesFree(s: State) returns (run: seq<Action>, t: State)
    requires Inv(s) && Accepting(s)
    ensures Runs(s, run, t) && Inv(t) && Accepting(t) && t.gate.mu.None?
    ensures t.history == s.history && t.cap == s.cap && |t.conns| == |s.conns|
    decreases Measure(s)
  {
    if s.gate.mu.None? {
      run, t := [], s;
    } else {
      var d := s.gate.mu.value.c;
      assert Has(s, d) && HoldsMu(s.conns[d].pc);
      DeferredReadsNothing(s, d);
      HandleLowers(s, d);
      StepInv(s, Handle(d));
      run, t := MuComesFree(Next(s, Handle(d)));
      run := [Handle(d)] + run;
    }
  }

  /** The acceptor is on its way to admit connection c, and nothing is against it. */
  predicate Admitting(s: State, c: nat) {
    && Has(s, c) && Carried(s.gate.acceptor) == Some(c)
    && s.gate.shutdown.NotCalled? && !s.gate.done
    && (s.gate.acceptor.Got? ==> s.gate.mu.None?)
    && !s.gate.acceptor.RefuseUnlock? && !s.gate.acceptor.RefuseClose?
    && !s.conns[c].closed && !s.conns[c].gone && s.conns[c].buffered == []
  }

  predicate JustAdmitted(s: State, c: nat) {
    Accepting(s) && Serving(s, c) && !s.conns[c].gone && s.conns[c].buffered == []
  }

  lemma AdmitStep(s: State, c: nat)
    requires Admitting(s, c)
    ensures AcceptorReady(s) && AcceptorHasConn(s)
    ensures var t := AcceptorStep(s);
            && t.history == s.history && t.cap == s.cap && |t.conns| == |s.conns|
            && (Admitting(t, c) || JustAdmitted(t, c))
            && AcceptorRank(t.gate.acceptor) < AcceptorRank(s.gate.acceptor)
  {
  }

  lemma {:induction false} Admit(s: State, c: nat) returns (run: seq<Action>, t: State)
    requires Inv(s) && Admitting(s, c)
    ensures Runs(s, run, t) && Inv(t) && JustAdmitted(t, c)
    ensures t.history == s.history && t.cap == s.cap && |t.conns| == |s.conns|
    decreases AcceptorRank(s.gate.acceptor)
  {
    AdmitStep(s, c);
    StepInv(s, Action.Acceptor);
    var next := Next(s, Action.Acceptor);
    if JustAdmitted(next, c) {
      run, t := [], next;
    } else {
      run, t := Admit(next, c);
    }
    run := [Action.Acceptor] + run;
  }

  lemma NewClient(s: State) returns (run: seq<Action>, t: State)
    requires Inv(s) && Accepting(s)
    ensures Runs(s, run, t) && Inv(t) && JustAdmitted(t, |s.conns|)
    ensures t.history == s.history && t.cap == s.cap
  {
    var before, m := MuComesFree(s);
    assert Enabled(m, Accept);
    StepInv(m, Accept);
    var u := Next(m, Accept);
    var rest;
    rest, t := Admit(u, |s.conns|);
    assert Runs(m, [Accept] + rest, t) by { assert ([Accept] + rest)[1..] == rest; }
    RunsJoin(s, before, m, [Accept] + rest, t);
    run := before + ([Accept] + rest);
  }

  /**
   While Serve is accepting, a new client can connect, be admitted and have all its lines read
   and answered, whatever the others are doing; Serve is then accepting again.
   `RepliesInOrder` says what the answers are.
   */
  lemma ClientIsServed(s: State, lines: seq<string>) returns (run: seq<Action>, t: State)
    requires Reachable(s) && Accepting(s)
    requires Fits(lines, s.cap) && forall i :: 0 <= i < |lines| ==> NoLf(lines[i])
    ensures Runs(s, run, t) && Accepting(t) && Serving(t, |s.conns|)
    ensures InvokedBy(t.history, |s.conns|) == lines
    ensures |RepliesTo(t.history, |s.conns|)| == |lines|
  {
    var c := |s.conns|;
    ReachableInv(s);
    assert ConnLog(s, c);
    var first, m := NewClient(s);
    var u := Filled(m, c, lines);
    var rest;
    rest, t := ServeBuffer(u, c);
    assert Runs(m, [Fill(c, lines)] + rest, t) by { assert ([Fill(c, lines)] + rest)[1..] == rest; }
    RunsJoin(s, first, m, [Fill(c, lines)] + rest, t);
    run := first + ([Fill(c, lines)] + rest);
  }

  lemma Filled(s: State, c: nat, lines: seq<string>) returns (t: State)
    requires Inv(s) && JustAdmitted(s, c) && forall i :: 0 <= i < |lines| ==> NoLf(lines[i])
    ensures Enabled(s, Fill(c, lines)) && t == Next(s, Fill(c, lines)) && Inv(t)
    ensures Accepting(t) && Serving(t, c) && t.conns[c].buffered == lines
    ensures t.history == s.history && t.cap == s.cap
  {
    StepInv(s, Fill(c, lines));
    t := Next(s, Fill(c, lines));
  }
}
