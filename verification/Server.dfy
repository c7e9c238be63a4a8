/** The store and the connection handler as sequential objects: one goroutine, no interleaving. */
module Server {
  import opened Wrappers
  import opened Protocol
  import opened AtomicMap

  class MemoryStore {
    var data: Db

    constructor ()
      ensures data == map[]
    {
      data := map[];
    }

    method Get(key: string) returns (v: Option<string>)
      ensures v == Lookup(data, key)
    {
      v := if key in data then Some(data[key]) else None;
    }

    method Set(key: string, value: string)
      modifies this
      ensures Lookup(data, key) == Some(value)
      ensures forall k :: k != key ==> Lookup(data, k) == Lookup(old(data), k)
    {
      data := data[key := value];
    }

    /** Whether the key was present; either way it is absent afterwards. */
    method Delete(key: string) returns (ok: bool)
      modifies this
      ensures ok <==> key in old(data)
      ensures Lookup(data, key) == None
      ensures forall k :: k != key ==> Lookup(data, k) == Lookup(old(data), k)
    {
      ok := key in data;
      if ok {
        data := data - {key};
      }
    }
  }

  /** Two maps that look up every key alike are the same map. */
  lemma SameLookups(a: Db, b: Db)
    requires forall k :: Lookup(a, k) == Lookup(b, k)
    ensures a == b
  {
    forall k ensures k in a <==> k in b { assert Lookup(a, k) == Lookup(b, k); }
    forall k | k in a ensures a[k] == b[k] { assert Lookup(a, k) == Lookup(b, k); }
  }

  /** One connection's side of the server. */
  class Handler {
    const st: MemoryStore

    constructor (st: MemoryStore)
      ensures this.st == st
    {
      this.st := st;
    }

    method Execute(cmd: Command) returns (reply: string)
      modifies st
      ensures reply == Answer(cmd, old(st.data))
      ensures st.data == Effect(cmd, old(st.data))
    {
      match cmd
      case Get(key) =>
        var v := st.Get(key);
        if v.None? { return ReplyNil(); }
        return ReplyValue(v.value);
      case Set(key, value) =>
        st.Set(key, value);
        SameLookups(st.data, Effect(cmd, old(st.data)));
        return ReplyOK();
      case Del(key) =>
        var ok := st.Delete(key);
        SameLookups(st.data, Effect(cmd, old(st.data)));
        if ok { return ReplyBit(true); }
        return ReplyBit(false);
    }

    /** One pass of the loop body, up to the write. */
    method Serve(line: string) returns (reply: string)
      modifies st
      ensures reply == LineAnswer(line, old(st.data))
      ensures st.data == LineEffect(line, old(st.data))
    {
      match Parse(line) {
        case Err(e) => reply := ReplyError(e);
        case Ok(cmd) => reply := Execute(cmd);
      }
    }

    /**
     The scan loop over the lines of one connection, of which the first `writable` replies can
     be written. The command whose reply could not be written has taken effect all the same.
     */
    method Handle(lines: seq<string>, writable: nat) returns (written: seq<string>)
      modifies st
      ensures var served := if writable < |lines| then writable + 1 else |lines|;
              && st.data == After(lines[..served], old(st.data))
              && written == Replies(lines, old(st.data))[..if writable < |lines| then writable else |lines|]
    {
      written := [];
      for i := 0 to |lines|
        invariant i <= writable
        invariant st.data == After(lines[..i], old(st.data))
        invariant written == Replies(lines[..i], old(st.data))
      {
        var reply := Serve(lines[i]);
        NextLine(lines, old(st.data), i);
        if i == writable {
          RepliesPrefix(lines, old(st.data), i);
          return;
        }
        written := written + [reply];
      }
      assert lines[..|lines|] == lines;
    }
  }
}
