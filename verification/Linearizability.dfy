/** What every run of the server keeps, and what its clients may conclude from their replies. */
module Linearizability {
  import opened Wrappers
  import opened Protocol
  import opened AtomicMap
  import opened Histories
  import opened Machine
  import opened Locks
  import opened Effects

  // ----- every reachable state -----

  ghost predicate Inv(s: State) {
    ServerInv(s) && EffectInv(s)
  }

  lemma InitInv(cap: nat)
    ensures Inv(Init(cap))
  {
  }

  lemma StepInv(s: State, a: Action)
    requires Inv(s) && Enabled(s, a)
    ensures Inv(Next(s, a))
  {
    ServerStep(s, a);
    EffectStep(s, a);
  }

  lemma {:induction false} RunInv(s: State, run: seq<Action>, t: State)
    requires Inv(s) && Runs(s, run, t)
    ensures Inv(t)
    decreases |run|
  {
    if run != [] {
      StepInv(s, run[0]);
      RunInv(Next(s, run[0]), run[1..], t);
    }
  }

  lemma ReachableInv(s: State)
    requires Reachable(s)
    ensures Inv(s)
  {
    var cap, run :| Runs(Init(cap), run, s);
    InitInv(cap);
    RunInv(Init(cap), run, s);
  }

  lemma ReachableConn(s: State, c: nat)
    requires Reachable(s)
    ensures ConnLog(s, c) && Agree(s.history, s.log, c)
    ensures |RepliesTo(s.history, c)| <= |InvokedBy(s.history, c)| <= |RepliesTo(s.history, c)| + 1
  {
    ReachableInv(s);
    assert ConnLog(s, c);
    ProgressAgrees(s, c);
    ProgressCounts(s, c);
  }

  lemma ProgressCounts(s: State, c: nat)
    requires ConnLog(s, c)
    ensures |RepliesTo(s.history, c)| <= |InvokedBy(s.history, c)| <= |RepliesTo(s.history, c)| + 1
  {
  }

  lemma ProgressAgrees(s: State, c: nat)
    requires ConnLog(s, c)
    ensures Agree(s.history, s.log, c)
  {
  }

  // ----- linearizability -----

  /** Every history of the server, under every interleaving, is linearizable; the map is that of the witness. */
  lemma ServerIsLinearizable(s: State)
    requires Reachable(s)
    ensures Linearizable(s.history)
    ensures Linearizes(s.log, s.history) && s.store.data == Replay(s.log)
  {
    ReachableInv(s);
    forall c: nat ensures Agree(s.history, s.log, c) { ReachableConn(s, c); }
    AgreeingLogLinearizes(s.history, s.log);
  }

  // ----- pipelining -----

  lemma {:induction false} LegalAt(log: seq<Entry>, p: nat)
    requires Legal(log) && p < |log|
    ensures log[p].reply == LineAnswer(log[p].line, Replay(log[..p]))
  {
    var front := log[..|log| - 1];
    if p < |front| {
      LegalAt(front, p);
      assert front[..p] == log[..p] && front[p] == log[p];
    } else {
      assert log[..p] == front;
    }
  }

  /** On one connection the replies answer the lines in order, with at most one line read and not answered. */
  lemma RepliesInOrder(s: State, c: nat, i: nat) returns (p: nat)
    requires Reachable(s) && i < |RepliesTo(s.history, c)|
    ensures |RepliesTo(s.history, c)| <= |InvokedBy(s.history, c)| <= |RepliesTo(s.history, c)| + 1
    ensures p < |s.log| && s.log[p].op == OpId(c, i)
    ensures var line := InvokedBy(s.history, c)[i];
            s.log[p].line == line && RepliesTo(s.history, c)[i] == LineAnswer(line, Replay(s.log[..p]))
  {
    ReachableInv(s);
    ReachableConn(s, c);
    p := AnsweredAt(s.history, s.log, c, i);
  }

  lemma AnsweredAt(h: seq<Event>, log: seq<Entry>, c: nat, i: nat) returns (p: nat)
    requires Legal(log) && NumberedLog(log) && Agree(h, log, c) && i < |RepliesTo(h, c)|
    ensures i < |InvokedBy(h, c)| && p < |log| && log[p].op == OpId(c, i)
    ensures var line := InvokedBy(h, c)[i];
            log[p].line == line && RepliesTo(h, c)[i] == LineAnswer(line, Replay(log[..p]))
  {
    p := FindEntry(log, c, i);
    LegalAt(log, p);
  }

  // ----- read your writes -----

  lemma OtherKeysKept(line: string, db: Db, key: string)
    requires !Writes(line, key)
    ensures Lookup(LineEffect(line, db), key) == Lookup(db, key)
  {
  }

  lemma EffectIsPerKey(line: string, db: Db, db': Db, key: string)
    requires Lookup(db, key) == Lookup(db', key)
    ensures Lookup(LineEffect(line, db), key) == Lookup(LineEffect(line, db'), key)
    ensures Parse(line).Ok? && Parse(line).value.key == key ==> LineAnswer(line, db) == LineAnswer(line, db')
  {
  }

  ghost predicate OnlyWriter(log: seq<Entry>, c: nat, key: string) {
    forall p :: 0 <= p < |log| && log[p].op.conn != c ==> !Writes(log[p].line, key)
  }

  /** What a key is bound to depends only on the lines of the one connection that writes it. */
  lemma {:induction false} OwnEffects(log: seq<Entry>, c: nat, key: string)
    requires OnlyWriter(log, c, key)
    ensures Lookup(Replay(log), key) == Lookup(After(LinesOf(log, c), map[]), key)
  {
    if log != [] {
      var front, e := log[..|log| - 1], log[|log| - 1];
      OwnEffects(front, c, key);
      if e.op.conn == c {
        AfterSnoc(LinesOf(front, c), e.line, map[]);
        EffectIsPerKey(e.line, Replay(front), After(LinesOf(front, c), map[]), key);
      } else {
        OtherKeysKept(e.line, Replay(front), key);
      }
    }
  }

  /** The lines of a connection before one of its operations are those with a smaller index. */
  lemma {:induction false} LinesBefore(log: seq<Entry>, p: nat)
    requires NumberedLog(log) && p < |log|
    ensures var op := log[p].op;
            op.index <= |LinesOf(log, op.conn)| && LinesOf(log[..p], op.conn) == LinesOf(log, op.conn)[..op.index]
  {
    var front := log[..|log| - 1];
    if p < |front| {
      LinesBefore(front, p);
      assert front[..p] == log[..p];
    }
  }

  lemma LogLinesAreInvoked(s: State, p: nat)
    requires Reachable(s) && p < |s.log|
    ensures s.log[p].line in InvokedBy(s.history, s.log[p].op.conn)
  {
    ReachableInv(s);
    ReachableConn(s, s.log[p].op.conn);
    EntryBounds(s.log, p);
  }

  /** The effects before a reply on c, as c's own earlier lines. */
  lemma ReplyAfterOwnLines(s: State, c: nat, i: nat) returns (p: nat)
    requires Reachable(s) && i < |RepliesTo(s.history, c)|
    ensures i < |InvokedBy(s.history, c)| && p <= |s.log|
    ensures RepliesTo(s.history, c)[i] == LineAnswer(InvokedBy(s.history, c)[i], Replay(s.log[..p]))
    ensures LinesOf(s.log[..p], c) == InvokedBy(s.history, c)[..i]
  {
    p := RepliesInOrder(s, c, i);
    ReachableInv(s);
    ReachableConn(s, c);
    LinesBefore(s.log, p);
  }

  /**
   If no other connection ever sends a SET or DEL of the key, then every reply on c to a
   command on that key is what c would get if it were alone.
   */
  lemma ReadYourWrites(s: State, c: nat, key: string, i: nat)
    requires Reachable(s) && i < |RepliesTo(s.history, c)|
    requires forall d: nat, line :: d != c && line in InvokedBy(s.history, d) ==> !Writes(line, key)
    requires i < |InvokedBy(s.history, c)|
    requires var cmd := Parse(InvokedBy(s.history, c)[i]); cmd.Ok? && cmd.value.key == key
    ensures var lines := InvokedBy(s.history, c);
            RepliesTo(s.history, c)[i] == LineAnswer(lines[i], After(lines[..i], map[]))
  {
    var p := ReplyAfterOwnLines(s, c, i);
    var before := s.log[..p];
    forall q | 0 <= q < |before| && before[q].op.conn != c ensures !Writes(before[q].line, key) {
      LogLinesAreInvoked(s, q);
    }
    OwnEffects(before, c, key);
    EffectIsPerKey(InvokedBy(s.history, c)[i], Replay(before), After(InvokedBy(s.history, c)[..i], map[]), key);
  }

  predicate SetsOrDeletes(line: string, key: string) {
    match Parse(line)
    case Ok(Set(k, _)) => k == key
    case Ok(Del(k)) => k == key
    case _ => false
  }

  lemma WritesExactly(line: string, key: string)
    ensures Writes(line, key) <==> SetsOrDeletes(line, key)
  {
  }

  /** A binding lasts until the next line that sets or deletes the key. */
  lemma {:induction false} BindingLasts(lines: seq<string>, i: nat, j: nat, key: string)
    requires i < j <= |lines| && forall m :: i < m < j ==> !SetsOrDeletes(lines[m], key)
    ensures Lookup(After(lines[..j], map[]), key) == Lookup(LineEffect(lines[i], After(lines[..i], map[])), key)
    decreases j
  {
    NextLine(lines, map[], j - 1);
    if i < j - 1 {
      BindingLasts(lines, i, j - 1, key);
      OtherKeysKept(lines[j - 1], After(lines[..j - 1], map[]), key);
    }
  }

  /**
   If no other connection ever sets or deletes the key, then a GET of it on c is answered, word
   for word, by c's own last SET or DEL of it.
   */
  lemma OwnWriteIsRead(s: State, c: nat, key: string, value: string, i: nat, j: nat)
    requires Reachable(s) && i < j < |RepliesTo(s.history, c)| <= |InvokedBy(s.history, c)|
    requires forall d: nat, line :: d != c && line in InvokedBy(s.history, d) ==> !SetsOrDeletes(line, key)
    requires var lines := InvokedBy(s.history, c);
             && (Parse(lines[i]) == Ok(Set(key, value)) || Parse(lines[i]) == Ok(Del(key)))
             && (forall m :: i < m < j ==> !SetsOrDeletes(lines[m], key))
             && Parse(lines[j]) == Ok(Get(key))
    ensures RepliesTo(s.history, c)[j] ==
            if Parse(InvokedBy(s.history, c)[i]).value.Set? then value + "\n" else "(nil)\n"
  {
    var lines := InvokedBy(s.history, c);
    forall d: nat, line | d != c && line in InvokedBy(s.history, d) ensures !Writes(line, key) {
      WritesExactly(line, key);
    }
    ReadYourWrites(s, c, key, j);
    BindingLasts(lines, i, j, key);
    AnswersSpelledOut(After(lines[..j], map[]), key, value);
  }

  lemma {:induction false} SoleEffects(log: seq<Entry>, c: nat)
    requires forall p :: 0 <= p < |log| ==> log[p].op.conn == c
    ensures Replay(log) == After(LinesOf(log, c), map[])
  {
    if log != [] {
      var front, e := log[..|log| - 1], log[|log| - 1];
      SoleEffects(front, c);
      AfterSnoc(LinesOf(front, c), e.line, map[]);
    }
  }

  /** A client alone on the server gets the replies of the sequential server, line by line. */
  lemma SoleClient(s: State, c: nat, i: nat)
    requires Reachable(s) && i < |RepliesTo(s.history, c)|
    requires forall d: nat :: d != c ==> InvokedBy(s.history, d) == []
    ensures i < |InvokedBy(s.history, c)|
    ensures RepliesTo(s.history, c)[i] ==
            LineAnswer(InvokedBy(s.history, c)[i], After(InvokedBy(s.history, c)[..i], map[]))
  {
    var p := ReplyAfterOwnLines(s, c, i);
    var before := s.log[..p];
    forall q | 0 <= q < |before| ensures before[q].op.conn == c {
      LogLinesAreInvoked(s, q);
    }
    SoleEffects(before, c);
  }

  lemma SoleReplay(s: State, c: nat)
    requires Reachable(s)
    requires forall d: nat :: d != c ==> InvokedBy(s.history, d) == []
    ensures s.store.data == After(LinesOf(s.log, c), map[])
  {
    ServerIsLinearizable(s);
    forall q | 0 <= q < |s.log| ensures s.log[q].op.conn == c {
      LogLinesAreInvoked(s, q);
    }
    SoleEffects(s.log, c);
  }

  /** And leaves the map of the sequential server, after all lines answered and perhaps the pending one. */
  lemma SoleClientMap(s: State, c: nat) returns (n: nat)
    requires Reachable(s)
    requires forall d: nat :: d != c ==> InvokedBy(s.history, d) == []
    ensures |RepliesTo(s.history, c)| <= n <= |InvokedBy(s.history, c)| <= |RepliesTo(s.history, c)| + 1
    ensures s.store.data == After(InvokedBy(s.history, c)[..n], map[])
  {
    ReachableConn(s, c);
    SoleReplay(s, c);
    n := |LinesOf(s.log, c)|;
    assert LinesOf(s.log, c) == InvokedBy(s.history, c)[..n];
  }

  // ----- conservation -----

  predicate Deletes(e: Entry, key: string) {
    Parse(e.line) == Ok(Del(key)) && e.reply == "1\n"
  }

  /** SETs of the key that found it absent. */
  function Created(log: seq<Entry>, key: string): nat {
    if log == [] then 0
    else
      var front, cmd := log[..|log| - 1], Parse(log[|log| - 1].line);
      Created(front, key) +
      if cmd.Ok? && cmd.value.Set? && cmd.value.key == key && key !in Replay(front) then 1 else 0
  }

  /** DELs of the key that were answered 1. */
  function Deleted(log: seq<Entry>, key: string): nat {
    if log == [] then 0
    else Deleted(log[..|log| - 1], key) + if Deletes(log[|log| - 1], key) then 1 else 0
  }

  lemma {:induction false} Balance(log: seq<Entry>, key: string)
    requires Legal(log)
    ensures Created(log, key) == Deleted(log, key) + if key in Replay(log) then 1 else 0
  {
    if log != [] {
      var front, e := log[..|log| - 1], log[|log| - 1];
      Balance(front, key);
      BalanceStep(Replay(front), e, key);
    }
  }

  lemma BalanceStep(db: Db, e: Entry, key: string)
    requires e.reply == LineAnswer(e.line, db)
    ensures var cmd := Parse(e.line);
            (if cmd.Ok? && cmd.value.Set? && cmd.value.key == key && key !in db then 1 else 0)
            + (if key in db then 1 else 0)
            == (if Deletes(e, key) then 1 else 0) + (if key in LineEffect(e.line, db) then 1 else 0)
  {
  }

  /** Every deletion answered 1 consumes exactly one creation, however many deleters run at once. */
  lemma Conservation(s: State, key: string)
    requires Reachable(s)
    ensures Created(s.log, key) - Deleted(s.log, key) == if key in s.store.data then 1 else 0
  {
    ReachableInv(s);
    Balance(s.log, key);
  }
}
