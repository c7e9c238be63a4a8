/** Linear memory: bytes, and the little-endian 32-bit accesses of a DataView. */
module LinearMemory {
  import opened Int64

  type U8 = x: int | 0 <= x < 0x100
  type U32 = x: int | 0 <= x < 0x1_0000_0000

  function Byte(v: U32, k: nat): U8
    requires k < 4
  {
    if k == 0 then v % 0x100
    else if k == 1 then v / 0x100 % 0x100
    else if k == 2 then v / 0x1_0000 % 0x100
    else v / 0x100_0000
  }

  /** getUint32 */
  function U32At(mem: seq<U8>, addr: nat): U32
    requires addr + 4 <= |mem|
  {
    var b0: int, b1: int, b2: int, b3: int := mem[addr], mem[addr + 1], mem[addr + 2], mem[addr + 3];
    b0 + 0x100 * b1 + 0x1_0000 * b2 + 0x100_0000 * b3
  }

  lemma BytesMakeU32(v: U32)
    ensures Byte(v, 0) as int + 0x100 * Byte(v, 1) as int
              + 0x1_0000 * Byte(v, 2) as int + 0x100_0000 * Byte(v, 3) as int == v
  {
    var q1, q2, q3 := v / 0x100, v / 0x1_0000, v / 0x100_0000;
    assert q2 == q1 / 0x100 && q3 == q2 / 0x100;
    assert v == 0x100 * q1 + Byte(v, 0) && q1 == 0x100 * q2 + Byte(v, 1) && q2 == 0x100 * q3 + Byte(v, 2);
  }

  /** The two memories differ at most in [from, to). */
  predicate SameOutside(a: seq<U8>, b: seq<U8>, from: nat, to: nat) {
    |a| == |b| && forall i :: 0 <= i < |a| && !(from <= i < to) ==> a[i] == b[i]
  }

  /** setUint32 */
  method SetU32(mem: array<U8>, addr: nat, v: U32)
    requires addr + 4 <= mem.Length
    modifies mem
    ensures U32At(mem[..], addr) == v
    ensures mem[addr] == v % 0x100 && mem[addr + 1] == v / 0x100 % 0x100
    ensures mem[addr + 2] == v / 0x1_0000 % 0x100 && mem[addr + 3] == v / 0x100_0000
    ensures SameOutside(old(mem[..]), mem[..], addr, addr + 4)
  {
    mem[addr] := Byte(v, 0);
    mem[addr + 1] := Byte(v, 1);
    mem[addr + 2] := Byte(v, 2);
    mem[addr + 3] := Byte(v, 3);
    BytesMakeU32(v);
  }

  // ----- 64-bit integers -----

  const TWO32: int := 0x1_0000_0000

  /** A finite number without its fraction. */
  function Trunc(v: real): int {
    if v >= 0.0 then v.Floor else -(-v).Floor
  }

  /** The nearest integer not further from zero. */
  lemma TruncTowardZero(v: real)
    ensures if v >= 0.0 then 0.0 <= Trunc(v) as real <= v < Trunc(v) as real + 1.0
            else Trunc(v) as real - 1.0 < v <= Trunc(v) as real <= 0.0
  {
  }

  /** What setUint32 makes of a finite number. */
  function ToU32(v: real): U32 {
    Trunc(v) % TWO32
  }

  /** getInt32 */
  function Signed(v: U32): int {
    if v < 0x8000_0000 then v else v - TWO32
  }

  function Int64At(mem: seq<U8>, addr: nat): int
    requires addr + 8 <= |mem|
  {
    U32At(mem, addr) as int + Signed(U32At(mem, addr + 4)) * TWO32
  }

  function PowHalf(n: nat): (r: real)
    ensures 0.0 < r <= 1.0 && (n >= 2 ==> r <= 0.25)
  {
    if n == 0 then 1.0 else PowHalf(n - 1) / 2.0
  }

  /** The largest size that rounds to zero when divided by 2^32: half the least float64, times 2^32. */
  function Tiny(): real {
    PowHalf(1043)
  }

  /**
   v / 4294967296 on float64s. Dividing by a power of two is exact, except that a quotient may
   be rounded when it is smaller than any normal number; rounding it to zero is all that shows
   after Math.floor.
   */
  function Quotient(v: real): real {
    if -Tiny() <= v <= Tiny() then 0.0 else v / TWO32 as real
  }

  /** The high word that is written. */
  function High(v: real): U32 {
    ToU32(Quotient(v).Floor as real)
  }

  /** The high word is rounded down and the low word toward zero: they disagree on such a number. */
  predicate Borrows(v: real) {
    v < -Tiny() && Trunc(v) as real != v && Trunc(v) % TWO32 == 0
  }

  /** What reads back of any finite number: its integer part as an int64, or 2^32 less. */
  function StoredAs(v: real): int {
    Wrap(if Borrows(v) then Trunc(v) - TWO32 else Trunc(v))
  }

  lemma HighFloor(v: real)
    ensures Quotient(v).Floor == if Borrows(v) then Trunc(v) / TWO32 - 1 else Trunc(v) / TWO32
  {
    if v < -Tiny() || v > Tiny() {
      var q := v / TWO32 as real;
      assert q * TWO32 as real == v;
      var n := q.Floor;
      assert n as real <= q < n as real + 1.0;
    }
  }

  lemma WordsMake(low: int, high: int)
    requires 0 <= low < TWO32
    ensures low + Signed(high % TWO32) * TWO32 == Wrap(low + high * TWO32)
  {
  }

  lemma Int64Halves(v: real)
    ensures ToU32(v) as int + Signed(High(v)) * TWO32 == StoredAs(v)
  {
    var n := Quotient(v).Floor;
    HighFloor(v);
    assert High(v) == n % TWO32;
    WordsMake(ToU32(v), n);
  }

  lemma TruncRange(v: real)
    requires -TWO63 as real <= v < TWO63 as real
    ensures -TWO63 <= Trunc(v) <= MAX_INT64
    ensures v == v.Floor as real ==> Trunc(v) as real == v
  {
  }

  /**
   In range, the two words written read back as the integer part just when they round alike;
   they always do on an integer.
   */
  lemma StoresInteger(v: real)
    requires -TWO63 as real <= v < TWO63 as real
    ensures var read := ToU32(v) as int + Signed(High(v)) * TWO32;
            && (read == Trunc(v) <==> !Borrows(v))
            && (v == v.Floor as real ==> read as real == v)
  {
    TruncRange(v);
    Int64Halves(v);
    WrapFits(Trunc(v));
    WrapSeparates(Trunc(v), Trunc(v) - TWO32);
  }

  /** Minus one half reads back as minus 2^32. */
  lemma HalfBorrows()
    ensures Borrows(-0.5) && StoredAs(-0.5) == -TWO32
  {
  }

  /** setInt64, of any finite number. */
  method SetInt64(mem: array<U8>, addr: nat, v: real)
    requires addr + 8 <= mem.Length
    modifies mem
    ensures Int64At(mem[..], addr) == StoredAs(v)
    ensures SameOutside(old(mem[..]), mem[..], addr, addr + 8)
  {
    SetU32(mem, addr, ToU32(v));
    ghost var low := mem[..];
    SetU32(mem, addr + 4, ToU32(Quotient(v).Floor as real));
    assert forall i :: addr <= i < addr + 4 ==> mem[..][i] == low[i];
    Int64Halves(v);
  }

  /** getInt64 */
  method GetInt64(mem: array<U8>, addr: nat) returns (v: int)
    requires addr + 8 <= mem.Length
    ensures v == Int64At(mem[..], addr)
  {
    var low, high := U32At(mem[..], addr), Signed(U32At(mem[..], addr + 4));
    v := low + high * TWO32;
  }
}
