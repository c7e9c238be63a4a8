/** The sequential meaning of the server: one map, one line at a time. */
module AtomicMap {
  import opened Wrappers
  import opened Protocol

  type Db = map<string, string>

  function Lookup(db: Db, key: string): Option<string> {
    if key in db then Some(db[key]) else None
  }

  function Effect(cmd: Command, db: Db): Db {
    match cmd
    case Get(_) => db
    case Set(k, v) => db[k := v]
    case Del(k) => db - {k}
  }

  function GetReply(found: Option<string>): string {
    match found
    case None => ReplyNil()
    case Some(v) => ReplyValue(v)
  }

  function Answer(cmd: Command, db: Db): string {
    match cmd
    case Get(k) => GetReply(Lookup(db, k))
    case Set(_, _) => ReplyOK()
    case Del(k) => ReplyBit(k in db)
  }

  function LineEffect(line: string, db: Db): Db {
    match Parse(line)
    case Ok(cmd) => Effect(cmd, db)
    case Err(_) => db
  }

  function LineAnswer(line: string, db: Db): string {
    match Parse(line)
    case Ok(cmd) => Answer(cmd, db)
    case Err(e) => ReplyError(e)
  }

  /** The map after the lines, run in order by one client alone. */
  function After(lines: seq<string>, db: Db): Db {
    if lines == [] then db
    else LineEffect(lines[|lines| - 1], After(lines[..|lines| - 1], db))
  }

  /** The replies to the lines, run in order by one client alone. */
  function Replies(lines: seq<string>, db: Db): (r: seq<string>)
    ensures |r| == |lines|
  {
    if lines == [] then []
    else
      var before := lines[..|lines| - 1];
      Replies(before, db) + [LineAnswer(lines[|lines| - 1], After(before, db))]
  }

  /** The replies, word for word. */
  lemma AnswersSpelledOut(db: Db, k: string, v: string)
    ensures Answer(Get(k), db) == if k in db then db[k] + "\n" else "(nil)\n"
    ensures Answer(Set(k, v), db) == "OK\n"
    ensures Answer(Del(k), db) == if k in db then "1\n" else "0\n"
  {
  }

  /** And what the map then holds. */
  lemma EffectsSpelledOut(db: Db, k: string, v: string, other: string)
    ensures Effect(Get(k), db) == db
    ensures Lookup(Effect(Set(k, v), db), other) == if other == k then Some(v) else Lookup(db, other)
    ensures Lookup(Effect(Del(k), db), other) == if other == k then None else Lookup(db, other)
  {
  }

  /** Only a SET or DEL of the key can change what it is bound to. */
  predicate Writes(line: string, key: string) {
    Parse(line).Ok? && !Parse(line).value.Get? && Parse(line).value.key == key
  }

  lemma {:induction false} RepliesPrefix(lines: seq<string>, db: Db, i: nat)
    requires i <= |lines|
    ensures Replies(lines[..i], db) == Replies(lines, db)[..i]
  {
    if i == |lines| {
      assert lines[..i] == lines;
    } else {
      var before := lines[..|lines| - 1];
      RepliesPrefix(before, db, i);
      assert before[..i] == lines[..i];
      assert Replies(before, db) == Replies(lines, db)[..|before|];
    }
  }

  lemma AfterSnoc(lines: seq<string>, line: string, db: Db)
    ensures After(lines + [line], db) == LineEffect(line, After(lines, db))
    ensures Replies(lines + [line], db) == Replies(lines, db) + [LineAnswer(line, After(lines, db))]
  {
    assert (lines + [line])[..|lines|] == lines;
  }

  /** One more line of a given sequence. */
  lemma NextLine(lines: seq<string>, db: Db, i: nat)
    requires i < |lines|
    ensures After(lines[..i + 1], db) == LineEffect(lines[i], After(lines[..i], db))
    ensures Replies(lines[..i + 1], db) == Replies(lines[..i], db) + [LineAnswer(lines[i], After(lines[..i], db))]
  {
    assert lines[..i + 1][..i] == lines[..i];
  }

  // ----- framing of every reply -----

  /** No LF anywhere in the map, and no value that ends in CR. */
  ghost predicate CleanDb(db: Db) {
    forall k :: k in db ==> NoLf(k) && NoLf(db[k]) && !EndsInEol(db[k])
  }

  lemma ReplyValueOneLine(v: string)
    requires NoLf(v) && !EndsInEol(v)
    ensures OneLine(ReplyValue(v))
  {
    assert ReplyValue(v)[..|v|] == v;
  }

  lemma LineKeepsClean(line: string, db: Db)
    requires NoLf(line) && CleanDb(db)
    ensures CleanDb(LineEffect(line, db)) && OneLine(LineAnswer(line, db))
  {
    ParseNoLf(line);
    if Parse(line).Ok? && Parse(line).value.Get? && Parse(line).value.key in db {
      ReplyValueOneLine(db[Parse(line).value.key]);
    }
  }
}
