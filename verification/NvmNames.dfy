/**
 Names of NVM images: built from the chip's identity, matched without regard to case, and their fallback
 (src/common/qca_tlv.c, src/common/qca_init_fsm.c).
 */
module NvmNames {
  import opened Bytes
  import opened Tlv

  const CAPACITY := 32

  /** One lowercase hex digit. */
  function Digit(n: nat): (c: char)
    requires n < 16
    ensures '0' <= c <= '9' || 'a' <= c <= 'f'
  {
    if n < 10 then '0' + n as char else 'a' + (n - 10) as char
  }

  function DigitValue(c: char): (n: nat)
    requires '0' <= c <= '9' || 'a' <= c <= 'f'
    ensures n < 16
  {
    if c <= '9' then (c - '0') as nat else (c - 'a') as nat + 10
  }

  /** Lowercase hex with at least two digits. */
  function Hex(v: u16): (s: string)
    ensures 2 <= |s| <= 4 && (v < 0x100 ==> |s| == 2)
    ensures forall i :: 0 <= i < |s| ==> '0' <= s[i] <= '9' || 'a' <= s[i] <= 'f'
  {
    if v >= 0x1000 then
      [Digit(v / 0x1000), Digit(v / 0x100 % 0x10), Digit(v / 0x10 % 0x10), Digit(v % 0x10)]
    else if v >= 0x100 then [Digit(v / 0x100), Digit(v / 0x10 % 0x10), Digit(v % 0x10)]
    else [Digit(v / 0x10), Digit(v % 0x10)]
  }

  /** Board IDs 0 and 0xFFFF mean that no board is known. */
  predicate KnownBoard(board: u16) {
    board != 0 && board != 0xFFFF
  }

  function Stem(socId: nat, rom: byte): (s: string)
    ensures 6 <= |s| <= 7
    ensures forall i :: 0 <= i < |s| ==> s[i] != '.'
  {
    "hpnv" + Hex(rom) + if socId / 0x100 % 0x100 == 0x12 then "g" else ""
  }

  /** The image wanted for this chip and board. */
  function NvmName(socId: nat, rom: byte, board: u16): (s: string)
    ensures |s| < CAPACITY
  {
    Stem(socId, rom) + "." + if KnownBoard(board) then Hex(board) else "bin"
  }

  /** The position of the last dot, or the length when there is none. */
  function LastDot(name: string): (i: nat)
    ensures i <= |name|
    ensures i < |name| ==> name[i] == '.'
    decreases |name|
  {
    if name == [] then 0
    else if name[|name| - 1] == '.' then |name| - 1
    else
      var i := LastDot(name[..|name| - 1]);
      if i == |name| - 1 then |name| else i
  }

  function Lower(c: char): char {
    if 'A' <= c <= 'Z' then c - 'A' + 'a' else c
  }

  predicate SameName(a: string, b: string) {
    |a| == |b| && forall i :: 0 <= i < |a| ==> Lower(a[i]) == Lower(b[i])
  }

  predicate IsBin(extension: string) {
    SameName(extension, "bin")
  }

  /** The generic image to try instead; none for a name that is already generic or has no stem or extension. */
  function AltName(name: string, capacity: nat): Option<string> {
    var dot := LastDot(name);
    if dot == 0 || dot + 1 >= |name| then None
    else if IsBin(name[dot + 1..]) then None
    else if capacity < dot + 5 then None
    else Some(name[..dot] + ".bin")
  }

  lemma HexIsNotBin(v: u16)
    ensures !IsBin(Hex(v))
  {
    var s := Hex(v);
    assert "bin"[2] == 'n';
    assert |s| == 3 ==> Lower(s[2]) != Lower("bin"[2]);
  }

  lemma {:induction false} LastDotOf(stem: string, extension: string)
    requires forall i :: 0 <= i < |extension| ==> extension[i] != '.'
    ensures LastDot(stem + "." + extension) == |stem|
    decreases |extension|
  {
    var name := stem + "." + extension;
    if extension != [] {
      var n := |extension| - 1;
      assert name[..|name| - 1] == stem + "." + extension[..n];
      assert name[|name| - 1] == extension[n];
      LastDotOf(stem, extension[..n]);
    }
  }

  lemma AltOf(stem: string, extension: string)
    requires 0 < |stem| < 8 && extension != []
    requires forall i :: 0 <= i < |extension| ==> extension[i] != '.'
    ensures AltName(stem + "." + extension, CAPACITY)
            == if IsBin(extension) then None else Some(stem + ".bin")
  {
    var name := stem + "." + extension;
    LastDotOf(stem, extension);
    assert name[|stem| + 1..] == extension;
    assert name[..|stem|] == stem;
  }

  /** The fallback of a board's image is the generic image of the same chip, and that one has no fallback. */
  lemma FallbackIsGeneric(socId: nat, rom: byte, board: u16)
    ensures KnownBoard(board) ==>
              AltName(NvmName(socId, rom, board), CAPACITY) == Some(NvmName(socId, rom, 0))
    ensures !KnownBoard(board) ==> NvmName(socId, rom, board) == NvmName(socId, rom, 0)
    ensures AltName(NvmName(socId, rom, 0), CAPACITY) == None
  {
    var stem := Stem(socId, rom);
    AltOf(stem, "bin");
    AltOf(stem, Hex(board));
    HexIsNotBin(board);
    assert stem + "." + "bin" == stem + ".bin";
  }

  /** The number a string of hex digits stands for. */
  function Unhex(s: string): nat
    requires forall i :: 0 <= i < |s| ==> '0' <= s[i] <= '9' || 'a' <= s[i] <= 'f'
    decreases |s|
  {
    if s == [] then 0 else 0x10 * Unhex(s[..|s| - 1]) + DigitValue(s[|s| - 1])
  }

  lemma {:induction false} UnhexTwo(a: nat, b: nat)
    requires a < 16 && b < 16
    ensures Unhex([Digit(a), Digit(b)]) == 0x10 * a + b
  {
    var s := [Digit(a), Digit(b)];
    assert s[..1] == [Digit(a)] && s[..1][..0] == [];
    assert Unhex(s[..1]) == a;
  }

  lemma {:induction false} UnhexThree(a: nat, b: nat, c: nat)
    requires a < 16 && b < 16 && c < 16
    ensures Unhex([Digit(a), Digit(b), Digit(c)]) == 0x100 * a + 0x10 * b + c
  {
    UnhexTwo(a, b);
    assert [Digit(a), Digit(b), Digit(c)][..2] == [Digit(a), Digit(b)];
  }

  lemma {:induction false} UnhexFour(a: nat, b: nat, c: nat, d: nat)
    requires a < 16 && b < 16 && c < 16 && d < 16
    ensures Unhex([Digit(a), Digit(b), Digit(c), Digit(d)]) == 0x1000 * a + 0x100 * b + 0x10 * c + d
  {
    UnhexThree(a, b, c);
    assert [Digit(a), Digit(b), Digit(c), Digit(d)][..3] == [Digit(a), Digit(b), Digit(c)];
  }

  lemma Shifts(v: nat)
    ensures v == 0x10 * (v / 0x10) + v % 0x10
    ensures v / 0x10 == 0x10 * (v / 0x100) + v / 0x10 % 0x10
  {
  }

  lemma ShiftAgain(v: nat)
    ensures v / 0x100 == 0x10 * (v / 0x1000) + v / 0x100 % 0x10
  {
  }

  /** Hex loses nothing. */
  lemma {:induction false} HexRoundTrip(v: u16)
    ensures Unhex(Hex(v)) == v
  {
    Shifts(v);
    if v >= 0x1000 {
      ShiftAgain(v);
      UnhexFour(v / 0x1000, v / 0x100 % 0x10, v / 0x10 % 0x10, v % 0x10);
    } else if v >= 0x100 {
      UnhexThree(v / 0x100, v / 0x10 % 0x10, v % 0x10);
    } else {
      UnhexTwo(v / 0x10, v % 0x10);
    }
  }

  predicate IsHex(s: string) {
    forall i :: 0 <= i < |s| ==> '0' <= s[i] <= '9' || 'a' <= s[i] <= 'f'
  }

  lemma SameHex(a: string, b: string)
    requires IsHex(a) && IsHex(b) && SameName(a, b)
    ensures a == b
  {
    forall i | 0 <= i < |a| ensures a[i] == b[i] {
      assert Lower(a[i]) == a[i] && Lower(b[i]) == b[i];
    }
  }

  lemma SameEnding(stem: string, a: string, b: string)
    requires SameName(stem + a, stem + b)
    ensures SameName(a, b)
  {
    forall i | 0 <= i < |a| ensures Lower(a[i]) == Lower(b[i]) {
      assert (stem + a)[|stem| + i] == a[i] && (stem + b)[|stem| + i] == b[i];
    }
  }

  /** In whatever case, the image of a known board has no other board's name, nor the generic one. */
  lemma NamesDistinct(socId: nat, rom: byte, board: u16, other: u16)
    requires KnownBoard(board) && SameName(NvmName(socId, rom, board), NvmName(socId, rom, other))
    ensures other == board
  {
    var stem := Stem(socId, rom) + ".";
    if KnownBoard(other) {
      SameEnding(stem, Hex(board), Hex(other));
      SameHex(Hex(board), Hex(other));
      HexRoundTrip(board);
      HexRoundTrip(other);
    } else {
      SameEnding(stem, Hex(board), "bin");
      HexIsNotBin(board);
    }
  }

  /**
   How a name is put together: hpnv, the ROM version in two hex digits, a g for chips of the 0x12 family,
   a dot, and the board ID in hex, or bin without one.
   */
  lemma NameReadsBack(socId: nat, rom: byte, board: u16)
    ensures var name, at := NvmName(socId, rom, board), if socId / 256 % 256 == 0x12 then 7 else 6;
            && |name| > at + 2 && name[..4] == "hpnv" && name[at] == '.'
            && (at == 7 ==> name[6] == 'g')
            && IsHex(name[4..6]) && Unhex(name[4..6]) == rom
            && if board == 0 || board == 0xFFFF then name[at + 1..] == "bin"
               else IsHex(name[at + 1..]) && Unhex(name[at + 1..]) == board
  {
    var stem, ending := Stem(socId, rom), if KnownBoard(board) then Hex(board) else "bin";
    HexRoundTrip(rom);
    HexRoundTrip(board);
    assert NvmName(socId, rom, board) == stem + "." + ending;
    assert stem[4..6] == Hex(rom) && (stem + "." + ending)[4..6] == stem[4..6];
    assert (stem + "." + ending)[|stem| + 1..] == ending;
  }
}
