/** The reference table over any run in which Go holds and gives up references. */
module RefRuns {
  import opened Sequences
  import opened RefTable

  /** A reference Go holds: the word it was given and the value that was stored. */
  datatype Held = Held(word: Word, value: Value)

  datatype World = World(table: Table, held: seq<Held>)

  datatype Op =
    | Hold(v: Value) // storeValue hands Go a word
    | Drop(j: nat)   // Go gives up one word it holds; finalizeRef, if the word is boxed

  /** JavaScript arrays have fewer than 2^32 elements, and Go drops only what it holds. */
  predicate Ready(w: World, op: Op) {
    match op
    case Hold(_) => |w.table.values| < 0x1_0000_0000
    case Drop(j) => j < |w.held|
  }

  predicate BoxedAs(h: Held, id: nat) {
    IsNaN(h.word) && h.word.lo == id
  }

  /** How many references to the id are outstanding. */
  function Outstanding(held: seq<Held>, id: nat): nat {
    if held == [] then 0
    else Outstanding(held[..|held| - 1], id) + if BoxedAs(held[|held| - 1], id) then 1 else 0
  }

  // ----- the invariant -----

  /** The seven pinned ids never change; every other count is the references outstanding. */
  ghost predicate CountsInv(w: World) {
    var t := w.table;
    && |t.counts| == |t.values| && |t.values| >= 7
    && t.values[..7] == PINNED
    && (forall i :: 0 <= i < 7 ==> t.counts[i].Infinity?)
    && (forall i :: 7 <= i < |t.counts| ==> t.counts[i] == Refs(Outstanding(w.held, i)))
  }

  predicate LiveId(t: Table, i: nat)
    requires |t.counts| == |t.values|
  {
    i < |t.values| && (i < 7 || t.counts[i] != Refs(0))
  }

  /** ids and the live part of values, NaN apart, are inverse to each other. */
  ghost predicate InverseInv(t: Table) {
    && |t.counts| == |t.values|
    && (forall v :: v in t.ids ==> 0 < t.ids[v] && LiveId(t, t.ids[v]) && t.values[t.ids[v]] == v)
    && (forall i :: 0 < i && LiveId(t, i) ==> t.values[i] in t.ids && t.ids[t.values[i]] == i)
    && (forall v :: v in t.ids ==> !IsPlain(v) && Key(v) == v)
  }

  /** The pool holds exactly the ids from 7 up that are not live, each once. */
  ghost predicate PoolInv(t: Table) {
    && |t.counts| == |t.values|
    && (forall i :: i in t.pool <==> 7 <= i < |t.values| && t.counts[i] == Refs(0))
    && (forall i, j :: 0 <= i < j < |t.pool| ==> t.pool[i] != t.pool[j])
  }

  /** A held word is a plain float, or boxes a live id bound to the value. */
  ghost predicate HeldOk(t: Table, h: Held) {
    if IsPlain(h.value) then h.word == PlainWord(h.value)
    else
      && h.word.hi == NAN_HEAD + TypeFlag(h.value)
      && 0 < h.word.lo < |t.values| && t.values[h.word.lo] == ReadsBack(h.value)
  }

  ghost predicate WorldInv(w: World) {
    && CountsInv(w) && InverseInv(w.table) && PoolInv(w.table)
    && forall j :: 0 <= j < |w.held| ==> HeldOk(w.table, w.held[j])
  }

  lemma InvShape(w: World)
    requires WorldInv(w)
    ensures Shape(w.table)
  {
    forall i | 0 <= i < |w.table.pool| ensures w.table.pool[i] < |w.table.values| {
      assert w.table.pool[i] in w.table.pool;
    }
  }

  lemma IdFits(w: World, v: Value)
    requires WorldInv(w) && |w.table.values| < 0x1_0000_0000
    ensures IdFor(w.table, v) < 0x1_0000_0000
  {
    InvShape(w);
  }

  /** One step of Go and the bridge together. */
  ghost function Apply(w: World, op: Op): World
    requires WorldInv(w) && Ready(w, op)
  {
    InvShape(w);
    match op
    case Hold(v) =>
      IdFits(w, v);
      World(Put(w.table, v), w.held + [Held(Boxed(w.table, v), v)])
    case Drop(j) =>
      var word := w.held[j].word;
      var rest := Without(w.held, j);
      DroppedInRange(w, j);
      if IsNaN(word) then World(Release(w.table, word.lo), rest) else World(w.table, rest)
  }

  lemma DroppedInRange(w: World, j: nat)
    requires WorldInv(w) && j < |w.held|
    ensures IsNaN(w.held[j].word) ==> w.held[j].word.lo < |w.table.values|
  {
    assert HeldOk(w.table, w.held[j]);
  }

  // ----- counting -----

  lemma OutstandingOneMore(held: seq<Held>, h: Held)
    ensures forall id: nat :: Outstanding(held + [h], id) == Outstanding(held, id) + if BoxedAs(h, id) then 1 else 0
  {
    assert (held + [h])[..|held|] == held;
  }

  lemma {:induction false} OutstandingRemoved(held: seq<Held>, j: nat, id: nat)
    requires j < |held|
    ensures Outstanding(held, id) ==
            Outstanding(held[..j] + held[j + 1..], id) + if BoxedAs(held[j], id) then 1 else 0
  {
    var n := |held| - 1;
    var rest := held[..j] + held[j + 1..];
    if j == n {
      assert rest == held[..n];
    } else {
      OutstandingRemoved(held[..n], j, id);
      assert rest[..n - 1] == held[..n][..j] + held[..n][j + 1..];
      assert rest[n - 1] == held[n];
    }
  }

  lemma {:induction false} OutstandingCounts(held: seq<Held>, j: nat, id: nat)
    requires j < |held| && BoxedAs(held[j], id)
    ensures Outstanding(held, id) > 0
  {
    if j < |held| - 1 { OutstandingCounts(held[..|held| - 1], j, id); }
  }

  /** A word boxes the id it holds, and a plain word other than NaN boxes nothing. */
  lemma BoxedIds(t: Table, h: Held)
    requires HeldOk(t, h)
    ensures !IsPlain(h.value) ==> IsNaN(h.word) && 0 < h.word.lo < |t.values|
    ensures IsPlain(h.value) ==> forall id: nat :: id > 0 ==> !BoxedAs(h, id)
  {
  }

  /** A held reference keeps its id live. */
  lemma HeldIsLive(w: World, j: nat)
    requires WorldInv(w) && j < |w.held| && !IsPlain(w.held[j].value)
    ensures LiveId(w.table, w.held[j].word.lo)
  {
    assert HeldOk(w.table, w.held[j]);
    BoxedIds(w.table, w.held[j]);
    OutstandingCounts(w.held, j, w.held[j].word.lo);
  }

  // ----- holding one more reference -----

  lemma HoldPlain(w: World, v: Value)
    requires WorldInv(w) && Ready(w, Hold(v)) && IsPlain(v)
    ensures WorldInv(Apply(w, Hold(v)))
  {
    OutstandingOneMore(w.held, Held(PlainWord(v), v));
  }

  lemma HoldKnown(w: World, v: Value)
    requires WorldInv(w) && Ready(w, Hold(v)) && !IsPlain(v) && Key(v) in w.table.ids
    ensures WorldInv(Apply(w, Hold(v)))
  {
    InvShape(w);
    IdFits(w, v);
    OutstandingOneMore(w.held, Held(Boxed(w.table, v), v));
  }

  /** A value not in the table is its own key: both zeros are pinned. */
  lemma UnknownIsKey(w: World, v: Value)
    requires WorldInv(w) && !IsPlain(v) && Key(v) !in w.table.ids
    ensures Key(v) == v
  {
    assert LiveId(w.table, 1) && w.table.values[..7][1] == ZERO;
  }

  /** The value now sits at an id that was not live. */
  predicate Binds(t: Table, t': Table, v: Value, id: nat) {
    && |t.counts| == |t.values| && |t'.counts| == |t'.values|
    && 7 <= id <= |t.values| && (id < |t.values| ==> t.counts[id] == Refs(0))
    && |t'.values| == (if id == |t.values| then id + 1 else |t.values|)
    && t'.values[id] == v && t'.counts[id] == Refs(1)
    && (forall i :: 0 <= i < |t.values| && i != id ==> t'.values[i] == t.values[i] && t'.counts[i] == t.counts[i])
    && t'.ids == t.ids[v := id]
  }

  lemma BindInverse(t: Table, t': Table, v: Value, id: nat)
    requires InverseInv(t) && Binds(t, t', v, id) && v !in t.ids && !IsPlain(v) && Key(v) == v
    ensures InverseInv(t')
  {
    forall i | 0 < i && LiveId(t', i) ensures t'.values[i] in t'.ids && t'.ids[t'.values[i]] == i {
      assert i != id ==> LiveId(t, i);
    }
    forall u | u in t'.ids ensures LiveId(t', t'.ids[u]) && t'.values[t'.ids[u]] == u {
      assert u != v ==> LiveId(t, t.ids[u]);
    }
  }

  /** Nothing held is disturbed, because nothing held boxes an id that is not live. */
  lemma BindHeld(w: World, t': Table, v: Value, id: nat, j: nat)
    requires WorldInv(w) && Binds(w.table, t', v, id) && j < |w.held|
    ensures HeldOk(t', w.held[j])
  {
    var h := w.held[j];
    assert HeldOk(w.table, h);
    if !IsPlain(h.value) { HeldIsLive(w, j); }
  }

  lemma BindCounts(w: World, t': Table, v: Value, id: nat, h: Held)
    requires WorldInv(w) && Binds(w.table, t', v, id) && BoxedAs(h, id)
    ensures CountsInv(World(t', w.held + [h]))
  {
    OutstandingOneMore(w.held, h);
    if id == |w.table.values| { NoneOutstanding(w, id); }
    assert t'.values[..7] == w.table.values[..7];
  }

  lemma NoneOutstanding(w: World, id: nat)
    requires WorldInv(w) && id >= |w.table.values|
    ensures Outstanding(w.held, id) == 0
  {
    NoneBoxed(w.table, w.held, id);
  }

  lemma {:induction false} NoneBoxed(t: Table, held: seq<Held>, id: nat)
    requires (forall j :: 0 <= j < |held| ==> HeldOk(t, held[j])) && id >= |t.values| >= 7
    ensures Outstanding(held, id) == 0
  {
    if held != [] {
      NoneBoxed(t, held[..|held| - 1], id);
      BoxedIds(t, held[|held| - 1]);
    }
  }

  lemma HoldFresh(w: World, v: Value)
    requires WorldInv(w) && Ready(w, Hold(v)) && !IsPlain(v) && Key(v) !in w.table.ids
    ensures WorldInv(Apply(w, Hold(v)))
  {
    InvShape(w);
    IdFits(w, v);
    UnknownIsKey(w, v);
    var id := IdFor(w.table, v);
    var t' := Put(w.table, v);
    var h := Held(Boxed(w.table, v), v);
    if w.table.pool != [] { assert id in w.table.pool; }
    assert Binds(w.table, t', v, id);
    BindInverse(w.table, t', v, id);
    BindCounts(w, t', v, id, h);
    FreshPool(w.table, v);
    forall j | 0 <= j < |w.held| ensures HeldOk(t', w.held[j]) { BindHeld(w, t', v, id, j); }
  }

  lemma FreshPool(t: Table, v: Value)
    requires Shape(t) && PoolInv(t) && !IsPlain(v) && Key(v) !in t.ids
    ensures PoolInv(Put(t, v))
  {
    if t.pool != [] { PopPool(t, Put(t, v), v); }
  }

  lemma PopPool(t: Table, t': Table, v: Value)
    requires PoolInv(t) && t.pool != []
    requires |t'.values| == |t.values| && t'.pool == t.pool[..|t.pool| - 1]
    requires t.pool[|t.pool| - 1] < |t.values| && t'.counts == t.counts[t.pool[|t.pool| - 1] := Refs(1)]
    ensures PoolInv(t')
  {
    var n := |t.pool| - 1;
    var id := t.pool[n];
    forall i | i in t'.pool ensures i in t.pool && i != id {
      var k :| 0 <= k < n && t'.pool[k] == i;
      assert t.pool[k] == i;
    }
    forall i | i in t.pool && i != id ensures i in t'.pool {
      var k :| 0 <= k < |t.pool| && t.pool[k] == i;
      assert t'.pool[k] == i;
    }
  }

  // ----- giving one up -----

  lemma RestHeldOk(w: World, t': Table, j: nat)
    requires WorldInv(w) && j < |w.held|
    requires forall k :: 0 <= k < |w.held| && k != j ==> HeldOk(t', w.held[k])
    ensures forall k :: 0 <= k < |w.held| - 1 ==> HeldOk(t', Without(w.held, j)[k])
  {
    forall k | 0 <= k < |w.held| - 1 ensures HeldOk(t', Without(w.held, j)[k]) {
      assert Without(w.held, j)[k] == w.held[if k < j then k else k + 1];
    }
  }

  lemma DropCounts(w: World, j: nat, t': Table)
    requires WorldInv(w) && j < |w.held|
    requires |t'.counts| == |t'.values| == |w.table.values| && t'.values[..7] == w.table.values[..7]
    requires forall i :: 0 <= i < |t'.counts| ==>
               t'.counts[i] == if BoxedAs(w.held[j], i) then Plus(w.table.counts[i], -1) else w.table.counts[i]
    ensures CountsInv(World(t', Without(w.held, j)))
  {
    forall i | 7 <= i < |t'.counts| ensures t'.counts[i] == Refs(Outstanding(Without(w.held, j), i)) {
      OutstandingRemoved(w.held, j, i);
    }
  }

  /** A word that boxes nothing countable: a number, undefined, or a pinned value. */
  lemma DropUncounted(w: World, j: nat)
    requires WorldInv(w) && Ready(w, Drop(j)) && (IsNaN(w.held[j].word) ==> w.held[j].word.lo < 7)
    ensures WorldInv(Apply(w, Drop(j)))
  {
    InvShape(w);
    var t' := Apply(w, Drop(j)).table;
    if IsNaN(w.held[j].word) {
      var id := w.held[j].word.lo;
      assert w.table.counts[id := w.table.counts[id]] == w.table.counts;
    }
    assert t' == w.table;
    DropCounts(w, j, t');
    RestHeldOk(w, t', j);
  }

  /** Not the last reference: only the count changes. */
  lemma DropShared(w: World, j: nat)
    requires WorldInv(w) && Ready(w, Drop(j)) && IsNaN(w.held[j].word) && 7 <= w.held[j].word.lo < |w.table.values|
    requires Outstanding(w.held, w.held[j].word.lo) > 1
    ensures WorldInv(Apply(w, Drop(j)))
  {
    InvShape(w);
    var t' := Apply(w, Drop(j)).table;
    DropCounts(w, j, t');
    RestHeldOk(w, t', j);
    assert forall i :: LiveId(t', i) <==> LiveId(w.table, i);
  }

  /** The last reference: the id leaves the index, its slot is cleared and it goes to the pool. */
  predicate Frees(t: Table, t': Table, id: nat) {
    && |t.counts| == |t.values| && 7 <= id < |t.values|
    && t'.values == t.values[id := Null] && t'.counts == t.counts[id := Refs(0)]
    && t'.ids == t.ids - {t.values[id]} && t'.pool == t.pool + [id]
  }

  lemma FreeInverse(t: Table, t': Table, id: nat)
    requires InverseInv(t) && Frees(t, t', id) && LiveId(t, id)
    ensures InverseInv(t')
  {
    forall i | 0 < i && LiveId(t', i) ensures t'.values[i] in t'.ids && t'.ids[t'.values[i]] == i {
      assert i != id && LiveId(t, i);
    }
  }

  lemma FreePool(t: Table, t': Table, id: nat)
    requires PoolInv(t) && Frees(t, t', id) && LiveId(t, id)
    ensures PoolInv(t')
  {
    assert id !in t.pool;
  }

  lemma OnlyOneBoxes(held: seq<Held>, j: nat, k: nat, id: nat)
    requires j < |held| && k < |held| && k != j
    requires BoxedAs(held[j], id) && Outstanding(held, id) == 1
    ensures !BoxedAs(held[k], id)
  {
    if BoxedAs(held[k], id) {
      var rest := Without(held, j);
      var k' := if k < j then k else k - 1;
      OutstandingRemoved(held, j, id);
      assert rest[k'] == held[k];
      OutstandingCounts(rest, k', id);
    }
  }

  /** A held word that does not box the freed id reads as before. */
  lemma FreeHeld(t: Table, t': Table, id: nat, h: Held)
    requires HeldOk(t, h) && Frees(t, t', id) && !BoxedAs(h, id)
    ensures HeldOk(t', h)
  {
    BoxedIds(t, h);
  }

  lemma DropLast(w: World, j: nat)
    requires WorldInv(w) && Ready(w, Drop(j)) && IsNaN(w.held[j].word) && 7 <= w.held[j].word.lo < |w.table.values|
    requires Outstanding(w.held, w.held[j].word.lo) == 1
    ensures WorldInv(Apply(w, Drop(j)))
  {
    InvShape(w);
    var id := w.held[j].word.lo;
    var t' := Apply(w, Drop(j)).table;
    assert w.table.counts[id] == Refs(1) && LiveId(w.table, id);
    assert Key(w.table.values[id]) == w.table.values[id];
    assert Frees(w.table, t', id);
    FreeInverse(w.table, t', id);
    FreePool(w.table, t', id);
    DropCounts(w, j, t');
    forall k | 0 <= k < |w.held| && k != j ensures HeldOk(t', w.held[k]) {
      OnlyOneBoxes(w.held, j, k, id);
      FreeHeld(w.table, t', id, w.held[k]);
    }
    RestHeldOk(w, t', j);
  }

  // ----- every step, every run -----

  lemma ApplyInv(w: World, op: Op)
    requires WorldInv(w) && Ready(w, op)
    ensures WorldInv(Apply(w, op))
  {
    match op
    case Hold(v) =>
      if IsPlain(v) { HoldPlain(w, v); } else if Key(v) in w.table.ids { HoldKnown(w, v); } else { HoldFresh(w, v); }
    case Drop(j) =>
      DroppedInRange(w, j);
      var word := w.held[j].word;
      if IsNaN(word) && word.lo >= 7 {
        OutstandingCounts(w.held, j, word.lo);
        if Outstanding(w.held, word.lo) > 1 { DropShared(w, j); } else { DropLast(w, j); }
      } else {
        DropUncounted(w, j);
      }
  }

  lemma InitIndexed(v: Value)
    requires v in InitTable().ids
    ensures var id := InitTable().ids[v]; 0 < id < 7 && PINNED[id] == v && !IsPlain(v) && Key(v) == v
  {
  }

  lemma InitListed(i: nat)
    requires 0 < i < 7
    ensures PINNED[i] in InitTable().ids && InitTable().ids[PINNED[i]] == i
  {
  }

  /** Nothing held, and the table as run sets it up. */
  ghost function InitWorld(): (w: World)
    ensures WorldInv(w)
  {
    InitInv();
    World(InitTable(), [])
  }

  lemma InitInv()
    ensures WorldInv(World(InitTable(), []))
  {
    forall v | v in InitTable().ids
      ensures var id := InitTable().ids[v]; 0 < id < 7 && PINNED[id] == v && !IsPlain(v) && Key(v) == v
    {
      InitIndexed(v);
    }
    forall i: nat | 0 < i < 7 ensures PINNED[i] in InitTable().ids && InitTable().ids[PINNED[i]] == i {
      InitListed(i);
    }
    assert PINNED[..7] == PINNED;
  }

  /** The operations lead from one world to the other. */
  ghost predicate Runs(w: World, ops: seq<Op>, t: World)
    requires WorldInv(w)
    decreases |ops|
  {
    if ops == [] then t == w
    else Ready(w, ops[0]) && (ApplyInv(w, ops[0]); Runs(Apply(w, ops[0]), ops[1..], t))
  }

  ghost predicate Reachable(w: World) {
    exists ops :: Runs(InitWorld(), ops, w)
  }

  lemma {:induction false} RunInv(w: World, ops: seq<Op>, t: World)
    requires WorldInv(w) && Runs(w, ops, t)
    ensures WorldInv(t)
    decreases |ops|
  {
    if ops != [] {
      ApplyInv(w, ops[0]);
      RunInv(Apply(w, ops[0]), ops[1..], t);
    }
  }

  /** Over every run: index and live values are inverse, the pool is exact, counts are references outstanding. */
  lemma EveryRunInv(w: World)
    requires Reachable(w)
    ensures WorldInv(w)
  {
    var ops :| Runs(InitWorld(), ops, w);
    RunInv(InitWorld(), ops, w);
  }

  lemma BoxedReads(t: Table, h: Held)
    requires HeldOk(t, h) && !IsPlain(h.value)
    ensures Read(t, h.word) == ReadsBack(h.value)
  {
    BoxedIds(t, h);
  }

  lemma PlainReads(t: Table, v: Value)
    requires IsPlain(v) && |t.values| > 0 && t.values[0] == NAN
    ensures Read(t, PlainWord(v)) == ReadsBack(v)
  {
  }

  /** Any word Go still holds reads back as the value stored, except that -0 is 0 and a NaN the one NaN. */
  lemma HeldReadsBack(w: World, j: nat)
    requires Reachable(w) && j < |w.held|
    ensures var v := w.held[j].value;
            Read(w.table, w.held[j].word) ==
            if v == Number(Word(0x8000_0000, 0)) then Number(Word(0, 0))
            else if v.Number? && IsNaN(v.bits) then Number(Word(0x7FF8_0000, 0))
            else v
  {
    HeldReads(w, j);
  }

  lemma HeldReads(w: World, j: nat)
    requires Reachable(w) && j < |w.held|
    ensures Read(w.table, w.held[j].word) == ReadsBack(w.held[j].value)
  {
    EveryRunInv(w);
    assert HeldOk(w.table, w.held[j]);
    if IsPlain(w.held[j].value) {
      assert w.table.values[0] == w.table.values[..7][0];
      PlainReads(w.table, w.held[j].value);
    } else {
      BoxedReads(w.table, w.held[j]);
    }
  }

  /** The type read off any word Go still holds is that of the value that was stored. */
  lemma HeldTypes(w: World, j: nat)
    requires Reachable(w) && j < |w.held|
    ensures TypeOfWord(w.table, w.held[j].word) == TypeOf(w.held[j].value)
  {
    EveryRunInv(w);
    HeldReads(w, j);
    assert HeldOk(w.table, w.held[j]);
    WordTypes(w.table, w.held[j]);
  }

  lemma WordTypes(t: Table, h: Held)
    requires HeldOk(t, h) && Read(t, h.word) == ReadsBack(h.value)
    ensures TypeOfWord(t, h.word) == TypeOf(h.value)
  {
  }

  /** A value not in the table gets an id that no outstanding reference has. */
  lemma NotReissued(w: World, v: Value, j: nat)
    requires Reachable(w) && j < |w.held|
    requires !IsPlain(v) && Key(v) !in w.table.ids
    ensures !BoxedAs(w.held[j], IdFor(w.table, v))
  {
    EveryRunInv(w);
    var id := IdFor(w.table, v);
    if w.table.pool != [] { assert id in w.table.pool; }
    if BoxedAs(w.held[j], id) {
      OutstandingCounts(w.held, j, id);
      if id == |w.table.values| { NoneOutstanding(w, id); }
    }
  }

  // ----- space -----

  /** The ids from 7 up that some reference keeps. */
  function LiveIds(t: Table): set<nat> {
    set i: nat | 7 <= i < |t.counts| && t.counts[i] != Refs(0)
  }

  function Elements(s: seq<nat>): set<nat> {
    set i | i in s
  }

  lemma {:induction false} DistinctSize(s: seq<nat>)
    requires forall i, j :: 0 <= i < j < |s| ==> s[i] != s[j]
    ensures |Elements(s)| == |s|
  {
    if s != [] {
      var front, last := s[..|s| - 1], s[|s| - 1];
      DistinctSize(front);
      assert Elements(s) == Elements(front) + {last};
    }
  }

  function Range(lo: nat, hi: nat): (r: set<nat>)
    ensures forall i :: i in r <==> lo <= i < hi
  {
    if lo < hi then Range(lo, hi - 1) + {hi - 1} else {}
  }

  lemma {:induction false} RangeSize(lo: nat, hi: nat)
    requires lo <= hi
    ensures |Range(lo, hi)| == hi - lo
  {
    if lo < hi {
      RangeSize(lo, hi - 1);
    }
  }

  /** Every slot from 7 up is live or in the pool. */
  lemma LiveAndFree(t: Table)
    requires PoolInv(t) && |t.values| >= 7
    ensures |LiveIds(t)| + |t.pool| == |t.values| - 7
  {
    DistinctSize(t.pool);
    RangeSize(7, |t.values|);
    assert LiveIds(t) + Elements(t.pool) == Range(7, |t.values|);
    assert LiveIds(t) !! Elements(t.pool);
  }

  function Max(a: nat, b: nat): nat {
    if a < b then b else a
  }

  /** The tables a run goes through. */
  ghost function Trace(w: World, ops: seq<Op>): seq<Table>
    requires WorldInv(w)
    decreases |ops|
  {
    if ops == [] || !Ready(w, ops[0]) then [w.table]
    else
      ApplyInv(w, ops[0]);
      [w.table] + Trace(Apply(w, ops[0]), ops[1..])
  }

  /** The most values live at once in any of these tables. */
  ghost function MostLive(ts: seq<Table>): nat {
    if ts == [] then 0 else Max(|LiveIds(ts[0])|, MostLive(ts[1..]))
  }

  /** The most table values ever live at once, over a run. */
  ghost function Peak(w: World, ops: seq<Op>): nat
    requires WorldInv(w)
  {
    MostLive(Trace(w, ops))
  }

  /** One slot more, and only when the pool has none to give. */
  predicate Grows(t: Table, t': Table) {
    |t'.values| == |t.values| || (t.pool == [] && t'.pool == [] && |t'.values| == |t.values| + 1)
  }

  lemma GrowsOnlyWhenFull(w: World, op: Op)
    requires WorldInv(w) && Ready(w, op)
    ensures Grows(w.table, Apply(w, op).table)
  {
    InvShape(w);
  }

  /** Every slot from 7 up is accounted for. */
  predicate Balanced(t: Table) {
    |LiveIds(t)| + |t.pool| == |t.values| - 7
  }

  predicate Measured(ts: seq<Table>) {
    && (forall i :: 0 <= i < |ts| ==> Balanced(ts[i]))
    && (forall i :: 0 <= i < |ts| - 1 ==> Grows(ts[i], ts[i + 1]))
  }

  lemma MeasuredCons(t: Table, ts: seq<Table>)
    requires Balanced(t) && ts != [] && Grows(t, ts[0]) && Measured(ts)
    ensures Measured([t] + ts)
  {
    var all := [t] + ts;
    forall i | 0 <= i < |all| ensures Balanced(all[i]) { if i > 0 { assert all[i] == ts[i - 1]; } }
    forall i | 0 <= i < |all| - 1 ensures Grows(all[i], all[i + 1]) {
      assert all[i + 1] == ts[i];
      if i > 0 { assert all[i] == ts[i - 1] && Grows(ts[i - 1], ts[i - 1 + 1]); }
    }
  }

  lemma MeasuredRest(ts: seq<Table>)
    requires ts != [] && Measured(ts)
    ensures Measured(ts[1..])
  {
    var rest := ts[1..];
    forall i | 0 <= i < |rest| - 1 ensures Grows(rest[i], rest[i + 1]) {
      assert Grows(ts[i + 1], ts[i + 1 + 1]);
    }
  }

  lemma {:induction false} TraceMeasured(w: World, ops: seq<Op>)
    requires WorldInv(w)
    ensures Trace(w, ops) != [] && Trace(w, ops)[0] == w.table && Measured(Trace(w, ops))
    decreases |ops|
  {
    LiveAndFree(w.table);
    if ops != [] && Ready(w, ops[0]) {
      ApplyInv(w, ops[0]);
      GrowsOnlyWhenFull(w, ops[0]);
      TraceMeasured(Apply(w, ops[0]), ops[1..]);
      MeasuredCons(w.table, Trace(Apply(w, ops[0]), ops[1..]));
    }
  }

  lemma {:induction false} TraceEnds(w: World, ops: seq<Op>, t: World)
    requires WorldInv(w) && Runs(w, ops, t)
    ensures Trace(w, ops) != [] && Trace(w, ops)[|Trace(w, ops)| - 1] == t.table
    decreases |ops|
  {
    if ops != [] {
      ApplyInv(w, ops[0]);
      TraceEnds(Apply(w, ops[0]), ops[1..], t);
    }
  }

  /** The numbers of one step: before, after, and over the rest of the run. */
  lemma SizeArithmetic(size: nat, live: nat, free: nat, peak: nat, size': nat, live': nat, free': nat, peak': nat)
    requires live + free == size - 7 && live' + free' == size' - 7
    requires size' == size || (free == 0 && free' == 0 && size' == size + 1)
    requires live' <= peak' && peak == Max(live, peak')
    ensures Max(size', 7 + peak') == Max(size, 7 + peak)
  {
  }

  /** A table that grows only when it is full ends as long as the most it ever held, or as it was. */
  lemma {:induction false} SizeFromPeak(ts: seq<Table>)
    requires ts != [] && Measured(ts)
    ensures |ts[|ts| - 1].values| == Max(|ts[0].values|, 7 + MostLive(ts))
  {
    assert Balanced(ts[0]);
    if |ts| == 1 {
      assert MostLive(ts[1..]) == 0;
    } else {
      var rest := ts[1..];
      MeasuredRest(ts);
      SizeFromPeak(rest);
      assert rest[0] == ts[1] && rest[|rest| - 1] == ts[|ts| - 1];
      assert Grows(ts[0], ts[0 + 1]) && Balanced(ts[1]);
      SizeArithmetic(|ts[0].values|, |LiveIds(ts[0])|, |ts[0].pool|, MostLive(ts),
                     |ts[1].values|, |LiveIds(ts[1])|, |ts[1].pool|, MostLive(rest));
    }
  }

  /** The table is exactly as long as the most values ever live at once, beside the pinned seven. */
  lemma SpaceBound(ops: seq<Op>, t: World)
    requires Runs(InitWorld(), ops, t)
    ensures |t.table.values| == 7 + Peak(InitWorld(), ops)
  {
    TraceMeasured(InitWorld(), ops);
    TraceEnds(InitWorld(), ops, t);
    SizeFromPeak(Trace(InitWorld(), ops));
  }
}
