/** Fixed-width values and sequence helpers shared by every component. */
module Bytes {
  type byte = x: int | 0 <= x < 0x100
  type u16 = x: int | 0 <= x < 0x1_0000

  const U16_SPAN := 0x1_0000
  const U32_SPAN := 0x1_0000_0000

  function Le16(lo: byte, hi: byte): u16 {
    lo + 0x100 * hi
  }

  /** Little-endian fields as they are written. */
  function Put16(v: u16): seq<byte> {
    [v % 0x100, v / 0x100]
  }

  function Put32(v: nat): seq<byte>
    requires v < U32_SPAN
  {
    Put16(v % U16_SPAN) + Put16(v / U16_SPAN)
  }

  /** The 12-bit connection handle of an HCI data header; the top four bits are flags. */
  function Handle12(lo: byte, hi: byte): (h: u16)
    ensures h < 0x1000
  {
    Le16(lo, hi) % 0x1000
  }

  function Min(a: int, b: int): int {
    if a < b then a else b
  }

  function Max(a: int, b: int): int {
    if a < b then b else a
  }

  function Concat<T>(ss: seq<seq<T>>): seq<T> {
    if ss == [] then [] else ss[0] + Concat(ss[1..])
  }

  lemma Assoc<T>(a: seq<T>, b: seq<T>, c: seq<T>)
    ensures (a + b) + c == a + (b + c)
  {
  }

  lemma {:induction false} ConcatAppend<T>(a: seq<seq<T>>, b: seq<seq<T>>)
    ensures Concat(a + b) == Concat(a) + Concat(b)
  {
    if a == [] {
      assert a + b == b;
    } else {
      assert (a + b)[0] == a[0] && (a + b)[1..] == a[1..] + b;
      ConcatAppend(a[1..], b);
      Assoc(a[0], Concat(a[1..]), Concat(b));
    }
  }

  lemma ConcatOne<T>(a: seq<T>)
    ensures Concat([a]) == a
  {
  }
}
