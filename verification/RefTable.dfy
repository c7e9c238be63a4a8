/**
 The table of JavaScript values that Go holds references to: an allocator of ids with
 reference counts, a free pool and an inverse index, reached through NaN-boxed words.
 */
module RefTable {
  import opened LinearMemory

  // ----- words and values -----

  /** A 64-bit word: the bits of a float64, or a boxed id. */
  datatype Word = Word(hi: U32, lo: U32)

  /** A JavaScript value. A number is its float64 bit pattern; objects and the like are known by identity. */
  datatype Value =
    | Undefined
    | Null
    | Bool(b: bool)
    | Number(bits: Word)
    | BigInt(n: int)
    | Str(s: string)
    | Symbol(id: nat)
    | Func(id: nat)
    | Object(id: nat)

  const NAN_HEAD: U32 := 0x7FF8_0000

  /** Zero of either sign: everything but the sign bit is zero. */
  predicate IsZero(w: Word) {
    w.hi % 0x8000_0000 == 0 && w.lo == 0
  }

  /** Exponent all ones and a fraction that is not zero (section 6.2.1 of IEEE 754-2019). */
  predicate IsNaN(w: Word) {
    var h := w.hi % 0x8000_0000;
    h > 0x7FF0_0000 || (h == 0x7FF0_0000 && w.lo != 0)
  }

  /** Sign, exponent and fraction decide, as section 3.4 of IEEE 754-2019 lays them out. */
  lemma FloatClasses(w: Word, sign: nat, exponent: nat, fraction: nat)
    requires sign < 2 && exponent < 0x800 && fraction < 0x10_0000
    requires w.hi == sign * 0x8000_0000 + exponent * 0x10_0000 + fraction
    ensures IsNaN(w) <==> exponent == 0x7FF && (fraction != 0 || w.lo != 0)
    ensures IsZero(w) <==> exponent == 0 && fraction == 0 && w.lo == 0
  {
  }

  const NAN: Value := Number(Word(NAN_HEAD, 0))
  const ZERO: Value := Number(Word(0, 0))
  const GLOBAL: Value := Object(0)
  const THIS: Value := Object(1)

  /** What a stored value reads back as: one NaN, one zero, anything else itself. */
  function ReadsBack(v: Value): Value {
    if v.Number? && IsNaN(v.bits) then NAN
    else if v.Number? && IsZero(v.bits) then ZERO
    else v
  }

  /** The key of a value in a JavaScript Map, which takes both zeros as one. */
  function Key(v: Value): Value {
    ReadsBack(v)
  }

  function TypeFlag(v: Value): U32 {
    match v
    case Object(_) => 1
    case Str(_) => 2
    case Symbol(_) => 3
    case Func(_) => 4
    case _ => 0
  }

  // ----- the table -----

  datatype Count = Infinity | Refs(n: int)

  datatype Table = Table(values: seq<Value>, counts: seq<Count>, ids: map<Value, nat>, pool: seq<nat>)

  const PINNED: seq<Value> := [NAN, ZERO, Null, Bool(true), Bool(false), GLOBAL, THIS]

  /** The tables as run sets them up. */
  function InitTable(): Table {
    Table(PINNED, seq(7, _ => Infinity),
          map[ZERO := 1, Null := 2, Bool(true) := 3, Bool(false) := 4, GLOBAL := 5, THIS := 6], [])
  }

  function Plus(c: Count, d: int): Count {
    if c.Infinity? then c else Refs(c.n + d)
  }

  /** Enough for the accesses below to be in range. */
  ghost predicate Shape(t: Table) {
    && |t.counts| == |t.values| && |t.values| >= 7
    && (forall v :: v in t.ids ==> t.ids[v] < |t.values|)
    && (forall i :: 0 <= i < |t.pool| ==> t.pool[i] < |t.values|)
  }

  /** Values that travel as plain floats and leave the table alone. */
  predicate IsPlain(v: Value) {
    v.Undefined? || (v.Number? && !IsZero(v.bits))
  }

  function PlainWord(v: Value): Word
    requires IsPlain(v)
  {
    if v.Undefined? then Word(0, 0) else if IsNaN(v.bits) then Word(NAN_HEAD, 0) else v.bits
  }

  /** The id the value gets: its own, else the last one freed, else a new one. */
  function IdFor(t: Table, v: Value): nat {
    if Key(v) in t.ids then t.ids[Key(v)]
    else if t.pool != [] then t.pool[|t.pool| - 1]
    else |t.values|
  }

  /** The table after one more reference to the value. */
  ghost function Put(t: Table, v: Value): Table
    requires Shape(t)
  {
    if IsPlain(v) then t else
    var id := IdFor(t, v);
    if Key(v) in t.ids then t.(counts := t.counts[id := Plus(t.counts[id], 1)])
    else if t.pool != [] then
      Table(t.values[id := v], t.counts[id := Refs(1)], t.ids[Key(v) := id], t.pool[..|t.pool| - 1])
    else
      Table(t.values + [v], t.counts + [Refs(1)], t.ids[Key(v) := id], t.pool)
  }

  function Boxed(t: Table, v: Value): Word
    requires IdFor(t, v) < 0x1_0000_0000
  {
    if IsPlain(v) then PlainWord(v) else Word(NAN_HEAD + TypeFlag(v), IdFor(t, v))
  }

  /** The word Go gets for each kind of value, bit for bit. */
  lemma BoxedWords(t: Table, v: Value)
    requires IdFor(t, v) < 0x1_0000_0000
    ensures var w := Boxed(t, v);
            match v
            case Undefined => w == Word(0, 0)
            case Null => w == Word(0x7FF8_0000, IdFor(t, v))
            case Bool(_) => w == Word(0x7FF8_0000, IdFor(t, v))
            case BigInt(_) => w == Word(0x7FF8_0000, IdFor(t, v))
            case Object(_) => w == Word(0x7FF8_0001, IdFor(t, v))
            case Str(_) => w == Word(0x7FF8_0002, IdFor(t, v))
            case Symbol(_) => w == Word(0x7FF8_0003, IdFor(t, v))
            case Func(_) => w == Word(0x7FF8_0004, IdFor(t, v))
            case Number(bits) =>
              if IsNaN(bits) then w == Word(0x7FF8_0000, 0)
              else if IsZero(bits) then w == Word(0x7FF8_0000, IdFor(t, v))
              else w == bits
  {
  }

  // ----- the type Go sees -----

  /** What `typeof` says, with null apart. */
  datatype JsType = UndefinedType | NullType | BooleanType | NumberType | BigIntType
                  | StringType | SymbolType | FunctionType | ObjectType

  function TypeOf(v: Value): JsType {
    match v
    case Undefined => UndefinedType
    case Null => NullType
    case Bool(_) => BooleanType
    case Number(_) => NumberType
    case BigInt(_) => BigIntType
    case Str(_) => StringType
    case Symbol(_) => SymbolType
    case Func(_) => FunctionType
    case Object(_) => ObjectType
  }

  /** The type read off a word: by the low bits of a boxed one, else by the value it stands for. */
  function TypeOfWord(t: Table, w: Word): JsType {
    if !IsNaN(w) then (if IsZero(w) then UndefinedType else NumberType)
    else
      match w.hi % 8
      case 1 => ObjectType
      case 2 => StringType
      case 3 => SymbolType
      case 4 => FunctionType
      case _ => TypeOf(Read(t, w))
  }

  /** What the word reads as. */
  function Read(t: Table, w: Word): Value {
    if IsZero(w) then Undefined
    else if !IsNaN(w) then Number(w)
    else if w.lo < |t.values| then t.values[w.lo]
    else Undefined
  }

  /** The table after one reference to the id is given up. */
  ghost function Release(t: Table, id: nat): Table
    requires Shape(t) && id < |t.values|
  {
    var c := Plus(t.counts[id], -1);
    if c == Refs(0) then
      Table(t.values[id := Null], t.counts[id := c], t.ids - {Key(t.values[id])}, t.pool + [id])
    else
      t.(counts := t.counts[id := c])
  }

  // ----- the code -----

  class Go {
    const mem: array<U8>
    var values: seq<Value>
    var goRefCounts: seq<Count>
    var ids: map<Value, nat>
    var idPool: seq<nat>

    ghost function Contents(): Table
      reads this
    {
      Table(values, goRefCounts, ids, idPool)
    }

    constructor (mem: array<U8>)
      ensures this.mem == mem && Contents() == InitTable()
    {
      this.mem := mem;
      values := PINNED;
      goRefCounts := seq(7, _ => Infinity);
      ids := map[ZERO := 1, Null := 2, Bool(true) := 3, Bool(false) := 4, GLOBAL := 5, THIS := 6];
      idPool := [];
    }

    ghost predicate WordIs(addr: nat, w: Word)
      reads mem
      requires addr + 8 <= mem.Length
    {
      U32At(mem[..], addr) == w.lo && U32At(mem[..], addr + 4) == w.hi
    }

    method SetWord(addr: nat, w: Word)
      requires addr + 8 <= mem.Length
      modifies mem
      ensures WordIs(addr, w) && SameOutside(old(mem[..]), mem[..], addr, addr + 8)
    {
      SetU32(mem, addr + 4, w.hi);
      ghost var high := mem[..];
      SetU32(mem, addr, w.lo);
      assert forall i :: addr + 4 <= i < addr + 8 ==> mem[..][i] == high[i];
    }

    method StoreValue(addr: nat, v: Value)
      requires addr + 8 <= mem.Length && Shape(Contents())
      requires |values| < 0x1_0000_0000
      modifies this, mem
      ensures Contents() == Put(old(Contents()), v)
      ensures IdFor(old(Contents()), v) < 0x1_0000_0000 && WordIs(addr, Boxed(old(Contents()), v))
      ensures SameOutside(old(mem[..]), mem[..], addr, addr + 8)
    {
      if v.Number? && !IsZero(v.bits) {
        if IsNaN(v.bits) {
          SetWord(addr, Word(NAN_HEAD, 0));
          return;
        }
        SetWord(addr, v.bits);
        return;
      }
      if v.Undefined? {
        SetWord(addr, Word(0, 0));
        return;
      }
      var id;
      if Key(v) in ids {
        id := ids[Key(v)];
      } else {
        if idPool != [] {
          id := idPool[|idPool| - 1];
          idPool := idPool[..|idPool| - 1];
          values, goRefCounts := values[id := v], goRefCounts[id := Refs(0)];
        } else {
          id := |values|;
          values, goRefCounts := values + [v], goRefCounts + [Refs(0)];
        }
        ids := ids[Key(v) := id];
      }
      goRefCounts := goRefCounts[id := Plus(goRefCounts[id], 1)];
      assert id == IdFor(old(Contents()), v) && Contents() == Put(old(Contents()), v);
      SetWord(addr, Word(NAN_HEAD + TypeFlag(v), id));
    }

    method LoadValue(addr: nat) returns (v: Value)
      requires addr + 8 <= mem.Length
      ensures forall w :: WordIs(addr, w) ==> v == Read(Contents(), w)
    {
      var w := Word(U32At(mem[..], addr + 4), U32At(mem[..], addr));
      if IsZero(w) { return Undefined; }
      if !IsNaN(w) { return Number(w); }
      var id := U32At(mem[..], addr);
      if id < |values| { return values[id]; }
      return Undefined;
    }

    method FinalizeRef(id: nat)
      requires Shape(Contents()) && id < |values|
      modifies this
      ensures Contents() == Release(old(Contents()), id)
    {
      goRefCounts := goRefCounts[id := Plus(goRefCounts[id], -1)];
      if goRefCounts[id] == Refs(0) {
        var v := values[id];
        values := values[id := Null];
        ids := ids - {Key(v)};
        idPool := idPool + [id];
      }
    }
  }
}
