/** How command line arguments and environment are laid out in linear memory before Go starts. */
module ArgLayout {
  import opened LinearMemory

  /** An encoded string. */
  type Bytes = seq<U8>

  const BASE: nat := 4096
  const MIN_DATA_ADDR: nat := 4096 + 8192

  datatype Outcome = Started(argc: nat, argv: nat) | Threw

  predicate NulFree(s: Bytes) {
    forall i :: 0 <= i < |s| ==> s[i] != 0
  }

  /** The next multiple of eight. */
  function Align(offset: nat): (r: nat)
    ensures r % 8 == 0 && offset <= r < offset + 8
  {
    if offset % 8 != 0 then offset + (8 - offset % 8) else offset
  }

  /** The string and its terminator are in memory at p. */
  predicate StringAt(mem: seq<U8>, p: nat, s: Bytes) {
    p + |s| < |mem| && mem[p..p + |s|] == s && mem[p + |s|] == 0
  }

  /** Where the region after the i-th begins. */
  function NextPtr(ptrs: seq<nat>, end: nat, i: nat): nat
    requires i < |ptrs|
  {
    if i + 1 < |ptrs| then ptrs[i + 1] else end
  }

  /** The region after the i-th begins at the first aligned address past its terminator. */
  predicate InPlace(ptrs: seq<nat>, strings: seq<Bytes>, end: nat, i: nat)
    requires i < |ptrs| == |strings|
  {
    NextPtr(ptrs, end, i) == Align(ptrs[i] + |strings[i]| + 1)
  }

  /** Each string has its place, the first at base, each next one at the first aligned address after the last. */
  predicate Packed(ptrs: seq<nat>, strings: seq<Bytes>, base: nat, end: nat) {
    && |ptrs| == |strings|
    && (forall i {:trigger InPlace(ptrs, strings, end, i)} :: 0 <= i < |ptrs| ==> InPlace(ptrs, strings, end, i))
    && (if ptrs == [] then end == base else ptrs[0] == base)
  }

  predicate AllAt(mem: seq<U8>, ptrs: seq<nat>, strings: seq<Bytes>) {
    |ptrs| == |strings| && forall i :: 0 <= i < |ptrs| ==> StringAt(mem, ptrs[i], strings[i])
  }

  /** The 64-bit table entries start at argv. */
  predicate TableAt(mem: seq<U8>, argv: nat, entries: seq<nat>) {
    && (entries != [] ==> argv + 8 * |entries| <= |mem|)
    && forall i :: 0 <= i < |entries| ==>
         U32At(mem, argv + 8 * i) == entries[i] && U32At(mem, argv + 8 * i + 4) == 0
  }

  lemma {:induction false} PackedBounds(ptrs: seq<nat>, strings: seq<Bytes>, base: nat, end: nat, i: nat)
    requires Packed(ptrs, strings, base, end) && base % 8 == 0 && i < |ptrs|
    ensures base <= ptrs[i] && ptrs[i] % 8 == 0 && ptrs[i] + |strings[i]| + 1 <= end && end % 8 == 0
    decreases |ptrs| - i
  {
    PackedFrom(ptrs, strings, base, end, i);
    assert InPlace(ptrs, strings, end, i);
    if i + 1 < |ptrs| { PackedBounds(ptrs, strings, base, end, i + 1); }
  }

  lemma {:induction false} PackedFrom(ptrs: seq<nat>, strings: seq<Bytes>, base: nat, end: nat, i: nat)
    requires Packed(ptrs, strings, base, end) && base % 8 == 0 && i < |ptrs|
    ensures base <= ptrs[i] && ptrs[i] % 8 == 0
  {
    if i > 0 {
      PackedFrom(ptrs, strings, base, end, i - 1);
      assert InPlace(ptrs, strings, end, i - 1);
    }
  }

  /** Strings occupy disjoint regions. */
  lemma {:induction false} PackedDisjoint(ptrs: seq<nat>, strings: seq<Bytes>, base: nat, end: nat, i: nat, j: nat)
    requires Packed(ptrs, strings, base, end) && base % 8 == 0 && i < j < |ptrs|
    ensures ptrs[i] + |strings[i]| + 1 <= ptrs[j]
  {
    assert InPlace(ptrs, strings, end, j - 1);
    if i + 1 < j { PackedDisjoint(ptrs, strings, base, end, i, j - 1); }
  }

  lemma PackedMore(ptrs: seq<nat>, strings: seq<Bytes>, base: nat, end: nat, s: Bytes, end': nat)
    requires Packed(ptrs, strings, base, end) && end' == Align(end + |s| + 1)
    ensures Packed(ptrs + [end], strings + [s], base, end')
  {
    forall i | 0 <= i < |ptrs| + 1 ensures InPlace(ptrs + [end], strings + [s], end', i) {
      if i < |ptrs| {
        assert InPlace(ptrs, strings, end, i);
        InPlaceKept(ptrs, strings, end, s, end', i);
      }
    }
  }

  lemma InPlaceKept(ptrs: seq<nat>, strings: seq<Bytes>, end: nat, s: Bytes, end': nat, i: nat)
    requires i < |ptrs| == |strings| && InPlace(ptrs, strings, end, i)
    ensures InPlace(ptrs + [end], strings + [s], end', i)
  {
    assert (ptrs + [end])[i] == ptrs[i] && (strings + [s])[i] == strings[i];
  }

  /** Bytes written from `end` on leave the packed strings in place. */
  lemma AllKept(before: seq<U8>, after: seq<U8>, ptrs: seq<nat>, strings: seq<Bytes>, base: nat, end: nat)
    requires Packed(ptrs, strings, base, end) && base % 8 == 0 && AllAt(before, ptrs, strings)
    requires |after| == |before| && forall i :: 0 <= i < |before| && i < end ==> after[i] == before[i]
    ensures AllAt(after, ptrs, strings)
  {
    forall i | 0 <= i < |ptrs| ensures StringAt(after, ptrs[i], strings[i]) {
      PackedBounds(ptrs, strings, base, end, i);
      assert StringAt(before, ptrs[i], strings[i]);
    }
  }

  /** Where the strings end when packed from base on. */
  function Total(strings: seq<Bytes>, base: nat): nat {
    if strings == [] then base
    else Align(Total(strings[..|strings| - 1], base) + |strings[|strings| - 1]| + 1)
  }

  lemma TotalMore(strings: seq<Bytes>, base: nat, i: nat)
    requires i < |strings|
    ensures Total(strings[..i + 1], base) == Align(Total(strings[..i], base) + |strings[i]| + 1)
  {
    assert strings[..i + 1][..i] == strings[..i];
  }

  lemma {:induction false} TotalGrows(strings: seq<Bytes>, base: nat, i: nat)
    requires i <= |strings|
    ensures base <= Total(strings[..i], base) <= Total(strings, base)
  {
    if i < |strings| {
      TotalGrows(strings[..|strings| - 1], base, i);
      assert strings[..|strings| - 1][..i] == strings[..i];
    } else {
      assert strings[..i] == strings;
      if i > 0 { TotalGrows(strings[..i - 1], base, i - 1); }
    }
  }

  /** Where the next string ends is no further than where all of them do. */
  lemma TotalNeeds(strings: seq<Bytes>, base: nat, i: nat)
    requires i < |strings|
    ensures Total(strings[..i], base) + |strings[i]| + 1 <= Total(strings, base)
  {
    TotalMore(strings, base, i);
    TotalGrows(strings, base, i + 1);
  }

  /** The first i strings are in memory, packed from base up to end. */
  ghost predicate Pushed(mem: seq<U8>, ptrs: seq<nat>, strings: seq<Bytes>, i: nat, base: nat, end: nat) {
    && i <= |strings| && end % 8 == 0 && end == Total(strings[..i], base)
    && Packed(ptrs, strings[..i], base, end) && AllAt(mem, ptrs, strings[..i])
  }

  /** One more string, written at `end`. */
  lemma PushOne(before: seq<U8>, after: seq<U8>, ptrs: seq<nat>, strings: seq<Bytes>,
                base: nat, end: nat, i: nat, end': nat)
    requires i < |strings| && base % 8 == 0 && Pushed(before, ptrs, strings, i, base, end)
    requires |after| == |before| && forall k :: 0 <= k < |before| && k < end ==> after[k] == before[k]
    requires StringAt(after, end, strings[i]) && end' == Align(end + |strings[i]| + 1)
    ensures Pushed(after, ptrs + [end], strings, i + 1, base, end')
  {
    TotalMore(strings, base, i);
    AllKept(before, after, ptrs, strings[..i], base, end);
    PackedMore(ptrs, strings[..i], base, end, strings[i], end');
    assert strings[..i] + [strings[i]] == strings[..i + 1];
    forall k | 0 <= k < i + 1 ensures StringAt(after, (ptrs + [end])[k], strings[..i + 1][k]) {
      if k < i { assert StringAt(after, ptrs[k], strings[..i][k]); }
    }
  }

  lemma InPlaceLeft(p: seq<nat>, a: seq<Bytes>, mid: nat, q: seq<nat>, b: seq<Bytes>, end: nat, i: nat)
    requires |p| == |a| && |q| == |b| && i < |p| && InPlace(p, a, mid, i)
    requires if q == [] then end == mid else q[0] == mid
    ensures InPlace(p + q, a + b, end, i)
  {
  }

  lemma InPlaceRight(p: seq<nat>, a: seq<Bytes>, q: seq<nat>, b: seq<Bytes>, end: nat, i: nat)
    requires |p| == |a| && |q| == |b| && i < |q| && InPlace(q, b, end, i)
    ensures InPlace(p + q, a + b, end, |p| + i)
  {
  }

  lemma PackedJoin(p: seq<nat>, a: seq<Bytes>, base: nat, mid: nat, q: seq<nat>, b: seq<Bytes>, end: nat)
    requires Packed(p, a, base, mid) && Packed(q, b, mid, end)
    ensures Packed(p + q, a + b, base, end)
  {
    forall i | 0 <= i < |p + q| ensures InPlace(p + q, a + b, end, i) {
      if i < |p| {
        assert InPlace(p, a, mid, i);
        InPlaceLeft(p, a, mid, q, b, end, i);
      } else {
        assert InPlace(q, b, end, i - |p|);
        InPlaceRight(p, a, q, b, end, i - |p|);
      }
    }
  }

  /** Strings packed behind others, which stay in place. */
  lemma AllJoin(before: seq<U8>, after: seq<U8>, p: seq<nat>, a: seq<Bytes>, base: nat, mid: nat,
                q: seq<nat>, b: seq<Bytes>, end: nat)
    requires base % 8 == 0 && Packed(p, a, base, mid) && Packed(q, b, mid, end)
    requires AllAt(before, p, a) && AllAt(after, q, b)
    requires |after| == |before| && forall i :: 0 <= i < |before| && i < mid ==> after[i] == before[i]
    ensures Packed(p + q, a + b, base, end) && AllAt(after, p + q, a + b)
  {
    AllKept(before, after, p, a, base, mid);
    PackedJoin(p, a, base, mid, q, b, end);
    forall i | 0 <= i < |p + q| ensures StringAt(after, (p + q)[i], (a + b)[i]) {
      if i < |p| {
        assert StringAt(after, p[i], a[i]);
      } else {
        assert StringAt(after, q[i - |p|], b[i - |p|]);
      }
    }
  }

  // ----- the code -----

  class Writer {
    const mem: array<U8>
    var offset: nat

    constructor (mem: array<U8>)
      ensures this.mem == mem && offset == BASE
    {
      this.mem := mem;
      offset := BASE;
    }

    /** strPtr; a string that does not fit in memory makes the typed array constructor throw. */
    method StrPtr(s: Bytes) returns (ptr: nat, ok: bool)
      modifies this, mem
      ensures ok <==> old(offset) + |s| + 1 <= mem.Length
      ensures ok ==> ptr == old(offset) && offset == Align(old(offset) + |s| + 1) && StringAt(mem[..], ptr, s)
      ensures !ok ==> mem[..] == old(mem[..]) && offset == old(offset)
      ensures forall i :: 0 <= i < mem.Length && i < old(offset) ==> mem[i] == old(mem[i])
    {
      ptr := offset;
      var bytes := s + [0];
      if offset + |bytes| > mem.Length { return ptr, false; }
      for i := 0 to |bytes|
        invariant offset == ptr && mem[ptr..ptr + i] == bytes[..i]
        invariant forall k :: 0 <= k < mem.Length && !(ptr <= k < ptr + i) ==> mem[k] == old(mem[k])
      {
        mem[offset + i] := bytes[i];
        assert mem[ptr..ptr + i + 1] == mem[ptr..ptr + i] + [bytes[i]];
        assert bytes[..i + 1] == bytes[..i] + [bytes[i]];
      }
      assert bytes[..|bytes|] == bytes;
      assert mem[ptr..ptr + |bytes|] == bytes;
      assert mem[..][ptr..ptr + |s|] == bytes[..|s|] == s;
      assert mem[ptr + |s|] == mem[ptr..ptr + |bytes|][|s|];
      offset := offset + |bytes|;
      if offset % 8 != 0 {
        offset := offset + (8 - offset % 8);
      }
      ok := true;
    }

    /** strPtr for each string in turn, the pointers pushed to argvPtrs. */
    method StrPtrs(strings: seq<Bytes>) returns (ptrs: seq<nat>, ok: bool)
      requires offset % 8 == 0
      modifies this, mem
      ensures ok ==> Packed(ptrs, strings, old(offset), offset) && AllAt(mem[..], ptrs, strings)
      ensures offset >= old(offset) && offset % 8 == 0
      ensures if ok then offset == Total(strings, old(offset)) else Total(strings, old(offset)) > mem.Length
      ensures forall i :: 0 <= i < mem.Length && i < old(offset) ==> mem[i] == old(mem[i])
    {
      ptrs := [];
      var base := offset;
      for i := 0 to |strings|
        invariant base <= offset && Pushed(mem[..], ptrs, strings, i, base, offset)
        invariant forall k :: 0 <= k < mem.Length && k < base ==> mem[k] == old(mem[k])
      {
        ghost var before, end := mem[..], offset;
        TotalNeeds(strings, base, i);
        var ptr, fits := StrPtr(strings[i]);
        if !fits { return ptrs, false; }
        PushOne(before, mem[..], ptrs, strings, base, end, i, offset);
        ptrs := ptrs + [ptr];
      }
      assert strings[..|strings|] == strings;
      ok := true;
    }

    /** The arguments and then the environment strings. */
    method Push(args: seq<Bytes>, envs: seq<Bytes>) returns (argPtrs: seq<nat>, envPtrs: seq<nat>, ok: bool)
      requires offset == BASE
      modifies this, mem
      ensures ok ==> Packed(argPtrs + envPtrs, args + envs, BASE, offset)
                     && AllAt(mem[..], argPtrs + envPtrs, args + envs) && |argPtrs| == |args|
      ensures ok ==> offset == Total(envs, Total(args, BASE)) && offset >= BASE
      ensures !ok ==> Total(envs, Total(args, BASE)) > mem.Length
      ensures forall i :: 0 <= i < mem.Length && i < BASE ==> mem[i] == old(mem[i])
    {
      envPtrs := [];
      TotalGrows(envs, Total(args, BASE), 0);
      argPtrs, ok := StrPtrs(args);
      if !ok { return; }
      ghost var afterArgs, mid := mem[..], offset;
      envPtrs, ok := StrPtrs(envs);
      if !ok { return; }
      AllJoin(afterArgs, mem[..], argPtrs, args, BASE, mid, envPtrs, envs, offset);
    }

    /** One 64-bit entry of the table: a pointer and a zero high word. */
    method PutEntry(e: U32)
      requires offset + 8 <= mem.Length
      modifies this, mem
      ensures offset == old(offset) + 8
      ensures U32At(mem[..], old(offset)) == e && U32At(mem[..], old(offset) + 4) == 0
      ensures SameOutside(old(mem[..]), mem[..], old(offset), offset)
    {
      SetU32(mem, offset, e);
      ghost var half := mem[..];
      SetU32(mem, offset + 4, 0);
      assert forall k :: offset <= k < offset + 4 ==> mem[..][k] == half[k];
      offset := offset + 8;
    }

    /** The table of 64-bit entries, written from offset on; an entry out of memory throws. */
    method WriteTable(entries: seq<nat>) returns (ok: bool)
      requires forall i :: 0 <= i < |entries| ==> entries[i] < 0x1_0000_0000
      modifies this, mem
      ensures ok ==> offset == old(offset) + 8 * |entries| && TableAt(mem[..], old(offset), entries)
      ensures !ok ==> old(offset) + 8 * |entries| > mem.Length
      ensures forall i :: 0 <= i < mem.Length && i < old(offset) ==> mem[i] == old(mem[i])
    {
      var argv := offset;
      for i := 0 to |entries|
        invariant offset == argv + 8 * i
        invariant TableAt(mem[..], argv, entries[..i])
        invariant forall k :: 0 <= k < mem.Length && k < argv ==> mem[k] == old(mem[k])
      {
        if offset + 8 > mem.Length { return false; }
        ghost var before := mem[..];
        PutEntry(entries[i]);
        TableMore(before, mem[..], argv, entries, i);
      }
      assert entries[..|entries|] == entries;
      ok := true;
    }
  }

  lemma TableMore(before: seq<U8>, after: seq<U8>, argv: nat, entries: seq<nat>, i: nat)
    requires i < |entries| && TableAt(before, argv, entries[..i])
    requires var o := argv + 8 * i;
             && o + 8 <= |before| && SameOutside(before, after, o, o + 8)
             && U32At(after, o) == entries[i] && U32At(after, o + 4) == 0
    ensures TableAt(after, argv, entries[..i + 1])
  {
    forall k | 0 <= k < i + 1
      ensures U32At(after, argv + 8 * k) == entries[..i + 1][k] && U32At(after, argv + 8 * k + 4) == 0
    {
      if k < i { assert U32At(before, argv + 8 * k) == entries[..i][k]; }
    }
  }

  /** One environment entry, as the program sees it. */
  function EnvString(key: Bytes, value: Bytes): Bytes {
    key + ['=' as int] + value
  }

  /** Its first '=' ends the key: what is before it is the key, what is after it the value. */
  lemma EnvSplits(key: Bytes, value: Bytes, at: nat)
    requires '=' as int !in key
    requires var s := EnvString(key, value);
             at < |s| && s[at] == '=' as int && '=' as int !in s[..at]
    ensures EnvString(key, value)[..at] == key && EnvString(key, value)[at + 1..] == value
  {
    var s := EnvString(key, value);
    assert s[..|key|] == key && s[|key|] == '=' as int;
    forall i | 0 <= i < at ensures s[i] != '=' as int { assert s[i] in s[..at]; }
    forall i | 0 <= i < |key| ensures s[i] != '=' as int { assert s[i] in key; }
    assert s[|key| + 1..] == value;
  }

  function EnvStrings(keys: seq<Bytes>, env: map<Bytes, Bytes>): seq<Bytes>
    requires forall i :: 0 <= i < |keys| ==> keys[i] in env
  {
    seq(|keys|, i requires 0 <= i < |keys| => EnvString(keys[i], env[keys[i]]))
  }

  function Entries(argPtrs: seq<nat>, envPtrs: seq<nat>): seq<nat> {
    argPtrs + [0] + envPtrs + [0]
  }

  /** Everything the program will find in memory. */
  predicate LaidOut(mem: seq<U8>, args: seq<Bytes>, envs: seq<Bytes>, argPtrs: seq<nat>, envPtrs: seq<nat>, argv: nat) {
    && Packed(argPtrs + envPtrs, args + envs, BASE, argv)
    && AllAt(mem, argPtrs + envPtrs, args + envs)
    && |argPtrs| == |args|
    && TableAt(mem, argv, Entries(argPtrs, envPtrs))
  }

  /**
   The layout part of run. `keys` are the keys of env as Object.keys and sort give them. It
   throws exactly when the whole layout would reach the program's own data.
   */
  method Lay(mem: array<U8>, args: seq<Bytes>, keys: seq<Bytes>, env: map<Bytes, Bytes>)
    returns (r: Outcome, ghost argPtrs: seq<nat>, ghost envPtrs: seq<nat>)
    requires forall i :: 0 <= i < |keys| ==> keys[i] in env
    requires MIN_DATA_ADDR <= mem.Length <= 0x1_0000_0000
    modifies mem
    ensures var envs := EnvStrings(keys, env);
            r.Threw? <==> Total(envs, Total(args, BASE)) + 8 * (|args| + |keys| + 2) >= MIN_DATA_ADDR
    ensures r.Started? ==>
              && r.argc == |args|
              && LaidOut(mem[..], args, EnvStrings(keys, env), argPtrs, envPtrs, r.argv)
              && r.argv + 8 * |Entries(argPtrs, envPtrs)| < MIN_DATA_ADDR
    ensures forall i :: 0 <= i < mem.Length && i < BASE ==> mem[i] == old(mem[i])
  {
    var envs := EnvStrings(keys, env);
    var w := new Writer(mem);
    var ptrs, more, ok := w.Push(args, envs);
    if !ok { return Threw, [], []; }
    ghost var before := mem[..];
    var argv := w.offset;
    var entries := Entries(ptrs, more);
    EntriesFit(before, ptrs, more, args + envs);
    var written := w.WriteTable(entries);
    if !written { return Threw, [], []; }
    AllKept(before, mem[..], ptrs + more, args + envs, BASE, argv);
    if w.offset >= MIN_DATA_ADDR { return Threw, [], []; }
    return Started(|args|, argv), ptrs, more;
  }

  lemma EntriesFit(mem: seq<U8>, argPtrs: seq<nat>, envPtrs: seq<nat>, strings: seq<Bytes>)
    requires AllAt(mem, argPtrs + envPtrs, strings) && |mem| <= 0x1_0000_0000
    ensures forall i :: 0 <= i < |Entries(argPtrs, envPtrs)| ==> Entries(argPtrs, envPtrs)[i] < 0x1_0000_0000
  {
    var ptrs := argPtrs + envPtrs;
    forall i | 0 <= i < |ptrs| ensures ptrs[i] < |mem| { assert StringAt(mem, ptrs[i], strings[i]); }
    forall i | 0 <= i < |Entries(argPtrs, envPtrs)| ensures Entries(argPtrs, envPtrs)[i] < 0x1_0000_0000 {
      var e := Entries(argPtrs, envPtrs)[i];
      assert i < |argPtrs| ==> e == ptrs[i];
      assert |argPtrs| < i <= |ptrs| ==> e == ptrs[i - 1];
    }
  }

  // ----- reading it back, as the program does -----

  /** The bytes from p up to the first NUL. */
  function CString(mem: seq<U8>, p: nat): Bytes
    decreases |mem| - p
  {
    if p >= |mem| || mem[p] == 0 then [] else [mem[p]] + CString(mem, p + 1)
  }

  /** The strings of a table, up to its null pointer. */
  function ReadList(mem: seq<U8>, table: nat): seq<Bytes>
    decreases |mem| - table
  {
    if table + 8 > |mem| || (U32At(mem, table) == 0 && U32At(mem, table + 4) == 0) then []
    else [CString(mem, U32At(mem, table))] + ReadList(mem, table + 8)
  }

  lemma {:induction false} CStringAt(mem: seq<U8>, p: nat, s: Bytes)
    requires StringAt(mem, p, s) && NulFree(s)
    ensures CString(mem, p) == s
    decreases |s|
  {
    if s != [] {
      assert mem[p] == mem[p..p + |s|][0] == s[0];
      assert mem[p + 1..p + 1 + |s[1..]|] == mem[p..p + |s|][1..];
      CStringAt(mem, p + 1, s[1..]);
    }
  }

  /** Entry from + i points at the i-th string. */
  predicate PointsAt(mem: seq<U8>, entries: seq<nat>, from: nat, strings: seq<Bytes>, i: nat)
    requires i < |strings| && from + |strings| < |entries|
  {
    entries[from + i] != 0 && StringAt(mem, entries[from + i], strings[i]) && NulFree(strings[i])
  }

  /** From any entry on, the table reads as the strings its pointers reach before the next null. */
  lemma {:induction false} ReadFrom(mem: seq<U8>, argv: nat, entries: seq<nat>, from: nat, strings: seq<Bytes>)
    requires TableAt(mem, argv, entries) && from + |strings| < |entries| && entries[from + |strings|] == 0
    requires forall i :: 0 <= i < |strings| ==> PointsAt(mem, entries, from, strings, i)
    ensures ReadList(mem, argv + 8 * from) == strings
    decreases |strings|
  {
    assert U32At(mem, argv + 8 * from) == entries[from];
    if strings == [] {
      assert entries[from] == 0;
    } else {
      assert PointsAt(mem, entries, from, strings, 0);
      CStringAt(mem, entries[from], strings[0]);
      var next, rest := from + 1, strings[1..];
      forall i | 0 <= i < |rest| ensures PointsAt(mem, entries, next, rest, i) {
        assert PointsAt(mem, entries, from, strings, i + 1);
      }
      ReadFrom(mem, argv, entries, next, rest);
    }
  }

  lemma PointersNotNull(ptrs: seq<nat>, strings: seq<Bytes>, end: nat, i: nat)
    requires Packed(ptrs, strings, BASE, end) && i < |ptrs|
    ensures ptrs[i] != 0
  {
    PackedFrom(ptrs, strings, BASE, end, i);
  }

  /** Reading from argv gives back exactly the arguments; reading past their null, the environment. */
  lemma ReadsBack(mem: seq<U8>, args: seq<Bytes>, envs: seq<Bytes>, argPtrs: seq<nat>, envPtrs: seq<nat>, argv: nat)
    requires LaidOut(mem, args, envs, argPtrs, envPtrs, argv)
    requires forall i :: 0 <= i < |args + envs| ==> NulFree((args + envs)[i])
    ensures ReadList(mem, argv) == args
    ensures ReadList(mem, argv + 8 * (|args| + 1)) == envs
  {
    ReadsArgs(mem, args, envs, argPtrs, envPtrs, argv);
    ReadsEnvs(mem, args, envs, argPtrs, envPtrs, argv);
  }

  lemma ReadsArgs(mem: seq<U8>, args: seq<Bytes>, envs: seq<Bytes>, argPtrs: seq<nat>, envPtrs: seq<nat>, argv: nat)
    requires LaidOut(mem, args, envs, argPtrs, envPtrs, argv)
    requires forall i :: 0 <= i < |args + envs| ==> NulFree((args + envs)[i])
    ensures ReadList(mem, argv) == args
  {
    var entries, ptrs, strings := Entries(argPtrs, envPtrs), argPtrs + envPtrs, args + envs;
    forall i | 0 <= i < |args| ensures PointsAt(mem, entries, 0, args, i) {
      PointersNotNull(ptrs, strings, argv, i);
      assert entries[i] == ptrs[i] && args[i] == strings[i] && StringAt(mem, ptrs[i], strings[i]);
    }
    ReadFrom(mem, argv, entries, 0, args);
  }

  lemma ReadsEnvs(mem: seq<U8>, args: seq<Bytes>, envs: seq<Bytes>, argPtrs: seq<nat>, envPtrs: seq<nat>, argv: nat)
    requires LaidOut(mem, args, envs, argPtrs, envPtrs, argv)
    requires forall i :: 0 <= i < |args + envs| ==> NulFree((args + envs)[i])
    ensures ReadList(mem, argv + 8 * (|args| + 1)) == envs
  {
    var entries, ptrs, strings := Entries(argPtrs, envPtrs), argPtrs + envPtrs, args + envs;
    var from := |args| + 1;
    forall i | 0 <= i < |envs| ensures PointsAt(mem, entries, from, envs, i) {
      var k := |args| + i;
      PointersNotNull(ptrs, strings, argv, k);
      assert entries[from + i] == ptrs[k] && envs[i] == strings[k] && StringAt(mem, ptrs[k], strings[k]);
    }
    ReadFrom(mem, argv, entries, from, envs);
  }

  /** Pointers are aligned, the strings are disjoint, and the table lies behind them all. */
  lemma RegionsDisjoint(mem: seq<U8>, args: seq<Bytes>, envs: seq<Bytes>,
                        argPtrs: seq<nat>, envPtrs: seq<nat>, argv: nat)
    requires LaidOut(mem, args, envs, argPtrs, envPtrs, argv)
    ensures var ptrs, strings := argPtrs + envPtrs, args + envs;
            && |ptrs| == |strings| && argv % 8 == 0
            && (forall i :: 0 <= i < |ptrs| ==>
                  ptrs[i] % 8 == 0 && BASE <= ptrs[i] && ptrs[i] + |strings[i]| + 1 <= argv)
            && (forall i, j :: 0 <= i < j < |ptrs| ==> ptrs[i] + |strings[i]| + 1 <= ptrs[j])
  {
    var ptrs, strings := argPtrs + envPtrs, args + envs;
    forall i | 0 <= i < |ptrs|
      ensures ptrs[i] % 8 == 0 && BASE <= ptrs[i] && ptrs[i] + |strings[i]| + 1 <= argv && argv % 8 == 0
    {
      PackedBounds(ptrs, strings, BASE, argv, i);
    }
    forall i, j | 0 <= i < j < |ptrs| ensures ptrs[i] + |strings[i]| + 1 <= ptrs[j] {
      PackedDisjoint(ptrs, strings, BASE, argv, i, j);
    }
    if |ptrs| > 0 { PackedBounds(ptrs, strings, BASE, argv, 0); }
  }
}
