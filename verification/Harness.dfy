/**
 The load harness against the server: one connection populates the keys, and then any
 number of clients read and write them. None of them ever sees a miss or an error.
 */
module Harness {
  import opened Wrappers
  import opened Int64
  import opened Protocol
  import opened AtomicMap
  import opened Histories
  import opened Machine
  import opened Linearizability
  import opened Itoa

  function PopulateLine(i: nat, value: string): string {
    Print(Set(HarnessKey(i), value))
  }

  /** Key i is used by the line, in a GET or in a SET of the one value. */
  predicate Uses(line: string, i: nat, value: string) {
    line == Print(Get(HarnessKey(i))) || line == PopulateLine(i, value)
  }

  ghost predicate ClientLine(line: string, keys: nat, value: string) {
    exists i: nat :: i < keys && Uses(line, i, value)
  }

  /**
   The server is used by the harness alone: connection p sends the populating lines in order,
   and a client sends its first line only after p has read all its replies.
   */
  ghost predicate HarnessUse(h: seq<Event>, p: nat, keys: nat, value: string) {
    && |InvokedBy(h, p)| <= keys
    && (forall j :: 0 <= j < |InvokedBy(h, p)| ==> InvokedBy(h, p)[j] == PopulateLine(j, value))
    && (forall i :: 0 <= i < |h| && h[i].Invoke? && h[i].op.conn != p
          ==> ClientLine(h[i].line, keys, value) && |RepliesTo(h[..i], p)| == keys)
  }

  /** strings.Repeat("x", size) */
  predicate IsRepeatedX(value: string) {
    forall i :: 0 <= i < |value| ==> value[i] == 'x'
  }

  /** The test that makes a client give up. */
  predicate Unexpected(reply: string) {
    "ERR " <= reply || reply == "(nil)\n"
  }

  lemma UsesMeans(line: string, i: nat, value: string)
    requires Uses(line, i, value) && IsRepeatedX(value)
    ensures Parse(line) == Ok(Get(HarnessKey(i))) || Parse(line) == Ok(Set(HarnessKey(i), value))
  {
    KeyIsCanonical(i);
    PrintParse(if line == Print(Get(HarnessKey(i))) then Get(HarnessKey(i)) else Set(HarnessKey(i), value));
  }

  lemma UsesKeeps(line: string, i: nat, j: nat, value: string, db: Db)
    requires Uses(line, i, value) && IsRepeatedX(value)
    requires Lookup(db, HarnessKey(j)) == Some(value)
    ensures Lookup(LineEffect(line, db), HarnessKey(j)) == Some(value)
  {
    UsesMeans(line, i, value);
  }

  lemma PopulateSets(j: nat, value: string, db: Db)
    requires IsRepeatedX(value)
    ensures Lookup(LineEffect(PopulateLine(j, value), db), HarnessKey(j)) == Some(value)
  {
    KeyIsCanonical(j);
    PrintParse(Set(HarnessKey(j), value));
  }

  predicate Holds(db: Db, j: nat, value: string) {
    Lookup(db, HarnessKey(j)) == Some(value)
  }

  lemma ClientLineKeeps(line: string, keys: nat, j: nat, value: string, db: Db)
    requires ClientLine(line, keys, value) && IsRepeatedX(value) && Holds(db, j, value)
    ensures Holds(LineEffect(line, db), j, value)
  {
    var i: nat :| i < keys && Uses(line, i, value);
    UsesKeeps(line, i, j, value, db);
  }

  ghost predicate ClientLog(log: seq<Entry>, keys: nat, value: string) {
    forall p :: 0 <= p < |log| ==> ClientLine(log[p].line, keys, value)
  }

  lemma HoldsLast(log: seq<Entry>, j: nat, value: string)
    requires log != [] && Holds(LineEffect(log[|log| - 1].line, Replay(log[..|log| - 1])), j, value)
    ensures Holds(Replay(log), j, value)
  {
  }

  lemma SetsLast(log: seq<Entry>, j: nat, value: string)
    requires log != [] && log[|log| - 1].line == PopulateLine(j, value) && IsRepeatedX(value)
    ensures Holds(Replay(log), j, value)
  {
    PopulateSets(j, value, Replay(log[..|log| - 1]));
    HoldsLast(log, j, value);
  }

  lemma KeepsLast(log: seq<Entry>, j: nat, keys: nat, value: string)
    requires log != [] && ClientLine(log[|log| - 1].line, keys, value) && IsRepeatedX(value)
    requires Holds(Replay(log[..|log| - 1]), j, value)
    ensures Holds(Replay(log), j, value)
  {
    ClientLineKeeps(log[|log| - 1].line, keys, j, value, Replay(log[..|log| - 1]));
    HoldsLast(log, j, value);
  }

  /** Once set, a key stays set: no line of the harness deletes, and all write the same value. */
  lemma {:induction false} StaysSet(log: seq<Entry>, u: nat, j: nat, keys: nat, value: string)
    requires ClientLog(log, keys, value) && IsRepeatedX(value)
    requires u < |log| && log[u].line == PopulateLine(j, value)
    ensures Holds(Replay(log), j, value)
  {
    if u < |log| - 1 {
      StaysSet(log[..|log| - 1], u, j, keys, value);
      KeepsLast(log, j, keys, value);
    } else {
      SetsLast(log, j, value);
    }
  }

  lemma {:induction false} FindRespond(h: seq<Event>, c: nat, k: nat) returns (r: nat)
    requires NumberedHistory(h) && k < |RepliesTo(h, c)|
    ensures r < |h| && h[r].Respond? && h[r].op == OpId(c, k)
  {
    var n := |h| - 1;
    if k < |RepliesTo(h[..n], c)| {
      r := FindRespond(h[..n], c, k);
    } else {
      r := n;
    }
  }

  lemma {:induction false} NumberedPrefix(h: seq<Event>, i: nat)
    requires NumberedHistory(h) && i <= |h|
    ensures NumberedHistory(h[..i])
  {
    if i == |h| {
      assert h[..i] == h;
    } else {
      NumberedPrefix(h[..|h| - 1], i);
      assert h[..|h| - 1][..i] == h[..i];
    }
  }

  lemma EntryLine(h: seq<Event>, log: seq<Entry>, q: nat, p: nat, keys: nat, value: string)
    requires Linearizes(log, h) && NumberedHistory(h) && HarnessUse(h, p, keys, value) && q < |log|
    ensures ClientLine(log[q].line, keys, value)
    ensures log[q].op.conn == p ==> log[q].op.index < keys && log[q].line == PopulateLine(log[q].op.index, value)
  {
    var i :| 0 <= i < |h| && h[i] == Invoke(log[q].op, log[q].line);
    if log[q].op.conn == p {
      EventBounds(h, i);
      assert Uses(log[q].line, log[q].op.index, value);
    }
  }

  lemma EntryOfRespond(h: seq<Event>, log: seq<Entry>, r: nat) returns (u: nat)
    requires Linearizes(log, h) && r < |h| && h[r].Respond?
    ensures u < |log| && log[u].op == h[r].op && log[u].reply == h[r].reply
  {
    u :| 0 <= u < |log| && log[u].op == h[r].op && log[u].reply == h[r].reply;
  }

  lemma RealTimeAt(h: seq<Event>, log: seq<Entry>, i: nat, j: nat, p: nat, q: nat)
    requires KeepsRealTime(h, log) && i < j < |h| && h[i].Respond? && h[j].Invoke?
    requires p < |log| && q < |log| && log[p].op == h[i].op && log[q].op == h[j].op
    ensures p < q
  {
  }

  lemma PopulateReplied(h: seq<Event>, p: nat, keys: nat, value: string, i: nat, j: nat) returns (r: nat)
    requires NumberedHistory(h) && HarnessUse(h, p, keys, value)
    requires i < |h| && h[i].Invoke? && h[i].op.conn != p && j < keys
    ensures r < i && h[r].Respond? && h[r].op == OpId(p, j)
  {
    NumberedPrefix(h, i);
    r := FindRespond(h[..i], p, j);
    assert h[r] == h[..i][r];
  }

  /** The populating SET of a key is linearized before every client operation. */
  lemma PopulatedBefore(h: seq<Event>, log: seq<Entry>, p: nat, keys: nat, value: string, q: nat, j: nat)
    returns (u: nat)
    requires Linearizes(log, h) && NumberedHistory(h) && HarnessUse(h, p, keys, value)
    requires q < |log| && log[q].op.conn != p && j < keys
    ensures u < q && log[u].line == PopulateLine(j, value)
  {
    var i :| 0 <= i < |h| && h[i] == Invoke(log[q].op, log[q].line);
    var r := PopulateReplied(h, p, keys, value, i, j);
    u := EntryOfRespond(h, log, r);
    RealTimeAt(h, log, r, i, u, q);
    EntryLine(h, log, u, p, keys, value);
  }

  /** Whatever the interleaving, a client's reply is the stored value or OK. */
  lemma ClientEntry(h: seq<Event>, log: seq<Entry>, p: nat, keys: nat, value: string, q: nat)
    requires Linearizes(log, h) && NumberedHistory(h) && HarnessUse(h, p, keys, value)
    requires IsRepeatedX(value) && q < |log| && log[q].op.conn != p
    ensures log[q].reply == ReplyValue(value) || log[q].reply == ReplyOK()
  {
    EntryLine(h, log, q, p, keys, value);
    var j: nat :| j < keys && Uses(log[q].line, j, value);
    var u := PopulatedBefore(h, log, p, keys, value, q, j);
    var before := log[..q];
    forall r | 0 <= r < |before| ensures ClientLine(before[r].line, keys, value) {
      EntryLine(h, log, r, p, keys, value);
    }
    StaysSet(before, u, j, keys, value);
    LegalAt(log, q);
    UsesAnswer(log[q].line, j, value, Replay(before));
  }

  lemma UsesAnswer(line: string, j: nat, value: string, db: Db)
    requires Uses(line, j, value) && IsRepeatedX(value) && Holds(db, j, value)
    ensures LineAnswer(line, db) == ReplyValue(value) || LineAnswer(line, db) == ReplyOK()
  {
    UsesMeans(line, j, value);
  }

  lemma ExpectedReplies(value: string)
    requires IsRepeatedX(value)
    ensures !Unexpected(ReplyValue(value)) && !Unexpected(ReplyOK())
  {
    var r := ReplyValue(value);
    assert r[0] == 'x' || r[0] == '\n';
    assert "ERR "[0] == 'E' && "ERR "[1] == 'R' && "(nil)\n"[0] == '(';
  }

  /** After populate no client ever takes the error return, in any interleaving of any number of clients. */
  lemma HarnessNeverMisses(s: State, p: nat, keys: nat, value: string, i: nat)
    requires Reachable(s) && HarnessUse(s.history, p, keys, value) && IsRepeatedX(value)
    requires i < |s.history| && s.history[i].Respond? && s.history[i].op.conn != p
    ensures s.history[i].reply == value + "\n" || s.history[i].reply == "OK\n"
    ensures !Unexpected(s.history[i].reply)
  {
    ReachableInv(s);
    ServerIsLinearizable(s);
    var q := EntryOfRespond(s.history, s.log, i);
    ClientEntry(s.history, s.log, p, keys, value, q);
    ExpectedReplies(value);
  }

  // ----- what populate leaves in the store -----

  ghost predicate IsHarnessKey(key: string, keys: nat) {
    exists i: nat :: i < keys && key == HarnessKey(i)
  }

  lemma ClientLineAdds(line: string, keys: nat, value: string, db: Db, key: string)
    requires ClientLine(line, keys, value) && IsRepeatedX(value)
    requires key in LineEffect(line, db) && key !in db
    ensures IsHarnessKey(key, keys)
  {
    var i: nat :| i < keys && Uses(line, i, value);
    UsesMeans(line, i, value);
  }

  /** No line of the harness adds any other key. */
  lemma {:induction false} OnlyHarnessKeys(log: seq<Entry>, keys: nat, value: string, key: string)
    requires ClientLog(log, keys, value) && IsRepeatedX(value) && key in Replay(log)
    ensures IsHarnessKey(key, keys)
  {
    if log != [] {
      var front := log[..|log| - 1];
      if key in Replay(front) {
        OnlyHarnessKeys(front, keys, value, key);
      } else {
        ClientLineAdds(log[|log| - 1].line, keys, value, Replay(front), key);
      }
    }
  }

  function KeySet(keys: nat): set<string> {
    set i: nat | i < keys :: HarnessKey(i)
  }

  lemma NextKeyIsNew(n: nat)
    ensures HarnessKey(n) !in KeySet(n)
    ensures KeySet(n + 1) == KeySet(n) + {HarnessKey(n)}
  {
    if HarnessKey(n) in KeySet(n) {
      var i: nat :| i < n && HarnessKey(n) == HarnessKey(i);
      KeysAreDistinct(i, n);
    }
  }

  /** Different indices make different keys. */
  lemma {:induction false} KeySetSize(keys: nat)
    ensures |KeySet(keys)| == keys
  {
    if keys > 0 {
      KeySetSize(keys - 1);
      NextKeyIsNew(keys - 1);
    }
  }

  /** The populating SET of key j is in the log once its reply is written. */
  lemma PopulatedEntry(h: seq<Event>, log: seq<Entry>, p: nat, keys: nat, value: string, j: nat) returns (u: nat)
    requires Linearizes(log, h) && NumberedHistory(h) && HarnessUse(h, p, keys, value)
    requires j < |RepliesTo(h, p)|
    ensures u < |log| && log[u].line == PopulateLine(j, value)
  {
    var r := FindRespond(h, p, j);
    u := EntryOfRespond(h, log, r);
    EntryLine(h, log, u, p, keys, value);
  }

  /**
   From the moment populate has its replies, whatever the clients then do, the store holds one
   binding per index: distinct indices have distinct keys, no other key appears, and every
   value is the one value.
   */
  lemma PopulateLeavesExactly(s: State, p: nat, keys: nat, value: string)
    requires Reachable(s) && HarnessUse(s.history, p, keys, value) && IsRepeatedX(value)
    requires |RepliesTo(s.history, p)| == keys
    ensures s.store.data == map key | key in KeySet(keys) :: value
    ensures |s.store.data| == keys
  {
    ReachableInv(s);
    ServerIsLinearizable(s);
    var db := s.store.data;
    forall q | 0 <= q < |s.log| ensures ClientLine(s.log[q].line, keys, value) {
      EntryLine(s.history, s.log, q, p, keys, value);
    }
    forall j: nat | j < keys ensures Holds(db, j, value) {
      var u := PopulatedEntry(s.history, s.log, p, keys, value, j);
      StaysSet(s.log, u, j, keys, value);
    }
    forall key | key in db ensures key in KeySet(keys) {
      OnlyHarnessKeys(s.log, keys, value, key);
    }
    SameBindings(db, keys, value);
  }

  lemma SameBindings(db: Db, keys: nat, value: string)
    requires forall j: nat :: j < keys ==> Holds(db, j, value)
    requires forall key :: key in db ==> key in KeySet(keys)
    ensures db == map key | key in KeySet(keys) :: value
    ensures |db| == keys
  {
    KeySetSize(keys);
    forall key | key in KeySet(keys) ensures key in db && db[key] == value {
      var j: nat :| j < keys && key == HarnessKey(j);
      assert Holds(db, j, value);
    }
    assert db.Keys == KeySet(keys);
    assert |db| == |db.Keys|;
  }

  // ----- the two loops that produce these lines -----

  /** populate: the lines it writes, one per key. */
  method Populate(keys: nat, value: string) returns (sent: seq<string>)
    requires keys < TWO63
    ensures |sent| == keys && forall j :: 0 <= j < keys ==> sent[j] == PopulateLine(j, value)
  {
    sent := [];
    for i := 0 to keys
      invariant |sent| == i && forall j :: 0 <= j < i ==> sent[j] == PopulateLine(j, value)
    {
      var n := Itoa.Itoa(i);
      var line := "SET key" + n + " " + value;
      assert line == PopulateLine(i, value);
      sent := sent + [line];
    }
  }

  /** One random draw: which key, and whether to write it. */
  datatype Draw = Draw(key: nat, write: bool)

  /**
   client.run, against the replies it would read: it writes the next line only after a reply,
   and gives up at the first reply that is a miss or an error, and only there.
   */
  method Run(draws: seq<Draw>, keys: nat, value: string, replies: seq<string>) returns (sent: seq<string>, failed: bool)
    requires keys < TWO63 && forall i :: 0 <= i < |draws| ==> draws[i].key < keys
    requires |replies| == |draws|
    ensures forall i :: 0 <= i < |sent| ==> ClientLine(sent[i], keys, value)
    ensures |sent| <= |draws| && (failed ==> sent != [])
    ensures failed ==> Unexpected(replies[|sent| - 1])
    ensures forall i :: 0 <= i < (if failed then |sent| - 1 else |sent|) ==> !Unexpected(replies[i])
    ensures !failed ==> |sent| == |draws|
  {
    sent, failed := [], false;
    for i := 0 to |draws|
      invariant |sent| == i
      invariant forall j :: 0 <= j < i ==> ClientLine(sent[j], keys, value) && !Unexpected(replies[j])
    {
      var n := Itoa.Itoa(draws[i].key);
      var key := "key" + n;
      var line := if draws[i].write then "SET " + key + " " + value else "GET " + key;
      assert Uses(line, draws[i].key, value);
      sent := sent + [line];
      if "ERR " <= replies[i] || replies[i] == "(nil)\n" {
        failed := true;
        return;
      }
    }
  }
}
