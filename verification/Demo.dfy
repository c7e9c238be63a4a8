/** The browser demo: the server's dispatch without the sockets, and the keys its page remembers. */
module Demo {
  import opened Protocol
  import opened AtomicMap
  import opened Server

  const SEEN_CAP: nat := 64

  datatype Row = Row(key: string, value: string)

  datatype EvalResult = EvalResult(reply: string, ok: bool, verb: string, touched: string, rows: seq<Row>)

  // ----- what the page remembers and draws -----

  function AddNew(keys: seq<string>, key: string): seq<string> {
    if key in keys then keys else keys + [key]
  }

  /** remember, for a line that is a SET. */
  function Noted(line: string, seen: seq<string>): seq<string> {
    match Parse(line)
    case Ok(Set(k, _)) => if |seen| >= SEEN_CAP then seen else AddNew(seen, k)
    case _ => seen
  }

  /** The remembered keys after the lines. */
  function SeenAfter(lines: seq<string>): seq<string> {
    if lines == [] then [] else Noted(lines[|lines| - 1], SeenAfter(lines[..|lines| - 1]))
  }

  /** Every key ever SET, in the order of its first SET. */
  function KeysSet(lines: seq<string>): seq<string> {
    if lines == [] then []
    else
      var before := KeysSet(lines[..|lines| - 1]);
      match Parse(lines[|lines| - 1])
      case Ok(Set(k, _)) => AddNew(before, k)
      case _ => before
  }

  function RowsOf(seen: seq<string>, db: Db): seq<Row> {
    if seen == [] then []
    else
      var k := seen[|seen| - 1];
      RowsOf(seen[..|seen| - 1], db) + if k in db then [Row(k, db[k])] else []
  }

  predicate NoDuplicates(keys: seq<string>) {
    forall i, j :: 0 <= i < j < |keys| ==> keys[i] != keys[j]
  }

  // ----- the page's code -----

  class Page {
    const st: MemoryStore
    var seen: seq<string>

    constructor (st: MemoryStore)
      ensures this.st == st && seen == []
    {
      this.st := st;
      seen := [];
    }

    method Remember(key: string)
      modifies this
      ensures seen == if |old(seen)| >= SEEN_CAP then old(seen) else AddNew(old(seen), key)
    {
      for i := 0 to |seen|
        invariant key !in seen[..i] && seen == old(seen)
      {
        if seen[i] == key { return; }
      }
      assert seen[..|seen|] == seen;
      if |seen| >= SEEN_CAP { return; }
      seen := seen + [key];
    }

    method Execute(cmd: Command) returns (reply: string)
      modifies st
      ensures reply == Answer(cmd, old(st.data))
      ensures st.data == Effect(cmd, old(st.data))
    {
      match cmd
      case Get(key) =>
        var v := st.Get(key);
        if v.None? { return ReplyNil(); }
        return ReplyValue(v.value);
      case Set(key, value) =>
        st.Set(key, value);
        SameLookups(st.data, Effect(cmd, old(st.data)));
        return ReplyOK();
      case Del(key) =>
        var ok := st.Delete(key);
        SameLookups(st.data, Effect(cmd, old(st.data)));
        if ok { return ReplyBit(true); }
        return ReplyBit(false);
    }

    method Rows() returns (rows: seq<Row>)
      ensures rows == RowsOf(seen, st.data)
    {
      rows := [];
      for i := 0 to |seen|
        invariant rows == RowsOf(seen[..i], st.data)
      {
        assert seen[..i + 1][..i] == seen[..i];
        var v := st.Get(seen[i]);
        if v.Some? {
          rows := rows + [Row(seen[i], v.value)];
        }
      }
      assert seen[..|seen|] == seen;
    }

    /** One line typed into the page: the server's reply and effect, and rows drawn from the store itself. */
    method Eval(line: string) returns (res: EvalResult)
      modifies this, st
      ensures res.reply == LineAnswer(line, old(st.data)) && st.data == LineEffect(line, old(st.data))
      ensures seen == Noted(line, old(seen))
      ensures res.rows == RowsOf(seen, st.data)
      ensures res.ok <==> Parse(line).Ok?
      ensures res.touched == if res.ok then Parse(line).value.key else ""
      ensures res.verb == if res.ok then Verb(Parse(line).value) else ""
    {
      var verb, touched, reply := "", "", "";
      var ok := true;
      match Parse(line) {
        case Err(e) =>
          reply := ReplyError(e);
          ok := false;
        case Ok(cmd) =>
          match cmd {
            case Get(_) => verb := "GET";
            case Set(key, _) =>
              verb := "SET";
              Remember(key);
            case Del(_) => verb := "DEL";
          }
          reply := Execute(cmd);
          touched := cmd.key;
      }
      var rows := Rows();
      res := EvalResult(reply, ok, verb, touched, rows);
    }

    /** The page's callback, invoked once per line: the replies and the map of a server with this one client. */
    method Session(lines: seq<string>) returns (replies: seq<string>)
      requires seen == [] && st.data == map[]
      modifies this, st
      ensures replies == Replies(lines, map[]) && st.data == After(lines, map[])
      ensures seen == SeenAfter(lines)
    {
      replies := [];
      for i := 0 to |lines|
        invariant replies == Replies(lines[..i], map[]) && st.data == After(lines[..i], map[])
        invariant seen == SeenAfter(lines[..i])
      {
        var res := Eval(lines[i]);
        replies := replies + [res.reply];
        NextLine(lines, map[], i);
        NextSeen(lines, i);
      }
      assert lines[..|lines|] == lines;
    }
  }

  lemma NextSeen(lines: seq<string>, i: nat)
    requires i < |lines|
    ensures SeenAfter(lines[..i + 1]) == Noted(lines[i], SeenAfter(lines[..i]))
  {
    assert lines[..i + 1][..i] == lines[..i];
  }

  // ----- the remembered keys -----

  function Take(keys: seq<string>, n: nat): seq<string> {
    if |keys| <= n then keys else keys[..n]
  }

  lemma {:induction false} KeysSetDistinct(lines: seq<string>)
    ensures NoDuplicates(KeysSet(lines))
  {
    if lines != [] { KeysSetDistinct(lines[..|lines| - 1]); }
  }

  /** The page remembers exactly the first 64 distinct keys ever SET, in order. */
  lemma {:induction false} SeenIsFirstKeys(lines: seq<string>)
    ensures SeenAfter(lines) == Take(KeysSet(lines), SEEN_CAP)
    ensures NoDuplicates(SeenAfter(lines)) && |SeenAfter(lines)| <= SEEN_CAP
  {
    KeysSetDistinct(lines);
    if lines != [] {
      SeenIsFirstKeys(lines[..|lines| - 1]);
    }
  }

  predicate SetsKey(line: string, key: string) {
    Parse(line).Ok? && Parse(line).value.Set? && Parse(line).value.key == key
  }

  predicate WasSet(lines: seq<string>, key: string) {
    exists i :: 0 <= i < |lines| && SetsKey(lines[i], key)
  }

  lemma WasSetLast(lines: seq<string>, key: string)
    requires lines != []
    ensures WasSet(lines, key) <==> WasSet(lines[..|lines| - 1], key) || SetsKey(lines[|lines| - 1], key)
  {
    var front := lines[..|lines| - 1];
    if i :| 0 <= i < |lines| && SetsKey(lines[i], key) {
      if i < |front| { assert SetsKey(front[i], key); }
    }
    if i :| 0 <= i < |front| && SetsKey(front[i], key) { assert SetsKey(lines[i], key); }
  }

  /** KeysSet lists the keys of the SETs among the lines, and a new key goes to its end. */
  lemma {:induction false} KeysSetExactly(lines: seq<string>)
    ensures forall k :: k in KeysSet(lines) <==> WasSet(lines, k)
    ensures lines != [] ==> KeysSet(lines[..|lines| - 1]) <= KeysSet(lines)
  {
    if lines != [] {
      KeysSetExactly(lines[..|lines| - 1]);
      forall k ensures k in KeysSet(lines) <==> WasSet(lines, k) { WasSetLast(lines, k); }
    }
  }

  /** A stored key was SET at some time. */
  lemma {:induction false} StoredWasSet(lines: seq<string>, key: string)
    requires key in After(lines, map[])
    ensures key in KeysSet(lines)
  {
    var before := lines[..|lines| - 1];
    if key in After(before, map[]) { StoredWasSet(before, key); }
  }

  // ----- what the page draws -----

  /** Each stored key is on exactly one row, with its value. */
  ghost predicate ShowsAll(rows: seq<Row>, db: Db) {
    && (forall k :: k in db ==> Row(k, db[k]) in rows)
    && (forall i, j :: 0 <= i < j < |rows| ==> rows[i].key != rows[j].key)
  }

  lemma {:induction false} RowsAre(seen: seq<string>, db: Db)
    ensures forall r :: r in RowsOf(seen, db) <==> r.key in seen && r.key in db && r.value == db[r.key]
  {
    if seen != [] {
      RowsAre(seen[..|seen| - 1], db);
    }
  }

  /** The page never draws a row that is not in the map, nor a key twice. */
  lemma {:induction false} RowsAreSubMap(seen: seq<string>, db: Db)
    requires NoDuplicates(seen)
    ensures forall r :: r in RowsOf(seen, db) ==> r.key in db && db[r.key] == r.value
    ensures forall i, j :: 0 <= i < j < |RowsOf(seen, db)| ==> RowsOf(seen, db)[i].key != RowsOf(seen, db)[j].key
  {
    RowsAre(seen, db);
    if seen != [] {
      var front := seen[..|seen| - 1];
      RowsAreSubMap(front, db);
      RowsAre(front, db);
      var rows := RowsOf(front, db);
      forall i | 0 <= i < |rows| ensures rows[i].key != seen[|seen| - 1] { assert rows[i] in rows; }
    }
  }

  /** The drawing is complete exactly when every stored key is remembered. */
  lemma CompleteWhenRemembered(seen: seq<string>, db: Db)
    requires NoDuplicates(seen)
    ensures ShowsAll(RowsOf(seen, db), db) <==> forall k :: k in db ==> k in seen
  {
    RowsAre(seen, db);
    RowsAreSubMap(seen, db);
    forall k | k in db ensures Row(k, db[k]) in RowsOf(seen, db) <==> k in seen { }
  }

  /** While at most 64 distinct keys have been SET, the page draws the whole map. */
  lemma DrawsWholeMap(lines: seq<string>)
    requires |KeysSet(lines)| <= SEEN_CAP
    ensures ShowsAll(RowsOf(SeenAfter(lines), After(lines, map[])), After(lines, map[]))
  {
    var db := After(lines, map[]);
    SeenIsFirstKeys(lines);
    forall k | k in db ensures k in SeenAfter(lines) { StoredWasSet(lines, k); }
    CompleteWhenRemembered(SeenAfter(lines), db);
  }

  predicate NoDeletes(lines: seq<string>) {
    forall i :: 0 <= i < |lines| ==> Parse(lines[i]).Err? || !Parse(lines[i]).value.Del?
  }

  lemma {:induction false} NeverDeleted(lines: seq<string>, key: string)
    requires NoDeletes(lines) && key in KeysSet(lines)
    ensures key in After(lines, map[])
  {
    var before := lines[..|lines| - 1];
    if key in KeysSet(before) { NeverDeleted(before, key); }
  }

  /** Without deletions, the bound of 64 distinct keys is also necessary. */
  lemma DrawsWholeMapExactly(lines: seq<string>)
    requires NoDeletes(lines)
    ensures ShowsAll(RowsOf(SeenAfter(lines), After(lines, map[])), After(lines, map[]))
            <==> |KeysSet(lines)| <= SEEN_CAP
  {
    SeenIsFirstKeys(lines);
    if |KeysSet(lines)| <= SEEN_CAP {
      DrawsWholeMap(lines);
    } else {
      var missed := KeysSet(lines)[SEEN_CAP];
      KeysSetDistinct(lines);
      NeverDeleted(lines, missed);
      CompleteWhenRemembered(SeenAfter(lines), After(lines, map[]));
      assert missed !in SeenAfter(lines);
    }
  }
}
