/**
 Firmware images: TLV headers, 243-byte segments, and the NVM tag that holds the UART baud index
 (src/common/qca_tlv.c).
 */
module Tlv {
  import opened Bytes

  datatype Option<T> = None | Some(value: T)

  const SEGMENT := 243
  const TAG_HEADER := 12
  const TAG_HCI := 17
  const PATCH: byte := 1
  const NVM: byte := 2
  const ELF: byte := 3

  function Rd16(d: seq<byte>, at: nat): u16
    requires at + 2 <= |d|
  {
    Le16(d[at], d[at + 1])
  }

  function Rd32(d: seq<byte>, at: nat): (v: nat)
    requires at + 4 <= |d|
    ensures v < U32_SPAN
  {
    Rd16(d, at) + U16_SPAN * Rd16(d, at + 2)
  }

  /** mode is the download mode a patch declares; 0 for other images. */
  datatype TlvInfo = TlvInfo(kind: byte, length: nat, mode: byte)

  /** An image is taken only if its three-byte length field counts every byte behind the first four. */
  function ParseTlv(d: seq<byte>): (r: Option<TlvInfo>)
    ensures r.Some? ==> 4 <= |d| && r.value.length == |d| - 4 && r.value.mode <= 3
  {
    if |d| < 4 then None
    else
      var kind, length := d[0], Rd32(d, 0) / 0x100;
      if length != |d| - 4 then None
      else if kind == PATCH then
        if |d| < 28 || d[14] > 3 then None else Some(TlvInfo(kind, length, d[14]))
      else if kind == NVM || kind == ELF then Some(TlvInfo(kind, length, 0))
      else None
  }

  /** In 32-bit arithmetic, as the source computes it. */
  function SegmentCount(size: nat): nat {
    if size == 0 then 0 else (size + SEGMENT - 1) % U32_SPAN / SEGMENT
  }

  function Segment(d: seq<byte>, i: nat): (s: seq<byte>)
    ensures |s| <= SEGMENT
  {
    d[Min(SEGMENT * i, |d|)..Min(SEGMENT * (i + 1), |d|)]
  }

  /** Everything up to segment n. */
  function Prefix(d: seq<byte>, n: nat): (p: seq<byte>)
    ensures |p| <= |d|
  {
    d[..Min(SEGMENT * n, |d|)]
  }

  lemma LowByteGone(b: byte, v: nat)
    ensures (b + 0x100 * v) / 0x100 == v
  {
  }

  /** The header's length field: its upper three bytes, little endian. */
  lemma DeclaredLength(d: seq<byte>)
    requires |d| >= 4
    ensures Rd32(d, 0) / 0x100 == d[1] + 0x100 * (d[2] as nat) + 0x1_0000 * (d[3] as nat)
  {
    LowByteGone(d[0], d[1] + 0x100 * (d[2] as nat) + 0x1_0000 * (d[3] as nat));
  }

  /** A file: its kind, the length of the rest in three bytes, and the rest. */
  function File(kind: byte, body: seq<byte>): (d: seq<byte>)
    requires |body| < 0x100_0000
    ensures |d| == 4 + |body| && d[4..] == body
  {
    [kind, |body| % 0x100, |body| / 0x100 % 0x100, |body| / 0x1_0000] + body
  }

  lemma ThreeBytes(n: nat)
    requires n < 0x100_0000
    ensures n % 0x100 + 0x100 * (n / 0x100 % 0x100) + 0x1_0000 * (n / 0x1_0000) == n
  {
  }

  lemma ThreeDigits(a: byte, b: byte, c: byte)
    ensures var n := a + 0x100 * (b as nat) + 0x1_0000 * (c as nat);
            n < 0x100_0000 && n % 0x100 == a && n / 0x100 % 0x100 == b && n / 0x1_0000 == c
  {
  }

  /** The kinds of image, with the one field a patch is checked for besides its length. */
  predicate KnownKind(kind: byte, body: seq<byte>) {
    kind == 2 || kind == 3 || (kind == 1 && |body| >= 24 && body[10] <= 3)
  }

  /** Exactly the files of a known kind are accepted, and read back as written. */
  lemma ParseReadsBack(kind: byte, body: seq<byte>)
    requires |body| < 0x100_0000
    ensures ParseTlv(File(kind, body))
            == if KnownKind(kind, body) then Some(TlvInfo(kind, |body|, if kind == 1 then body[10] else 0))
               else None
  {
    var d := File(kind, body);
    DeclaredLength(d);
    ThreeBytes(|body|);
    assert kind == PATCH && |body| >= 24 ==> d[14] == d[4..][10] == body[10];
  }

  /** Whatever is accepted is such a file, byte for byte. */
  lemma AcceptedIsFile(d: seq<byte>)
    requires ParseTlv(d).Some?
    ensures |d[4..]| < 0x100_0000 && d == File(d[0], d[4..]) && KnownKind(d[0], d[4..])
  {
    DeclaredLength(d);
    ThreeDigits(d[1], d[2], d[3]);
    assert d == [d[0], d[1], d[2], d[3]] + d[4..];
  }

  lemma SizeIsSmall(d: seq<byte>)
    requires ParseTlv(d).Some?
    ensures 0 < |d| < 0x100_0004
  {
    var v := Rd32(d, 0);
    assert v / 0x100 < 0x100_0000;
  }

  lemma CeilingOf(size: nat)
    requires 0 < size < U32_SPAN - SEGMENT
    ensures var n := SegmentCount(size);
            n > 0 && SEGMENT * (n - 1) < size <= SEGMENT * n
  {
    var v := size + SEGMENT - 1;
    assert v % U32_SPAN == v;
  }

  /** The source's 32-bit sum cannot wrap for an image whose header was accepted. */
  lemma CountIsCeiling(d: seq<byte>)
    requires ParseTlv(d).Some?
    ensures var n := SegmentCount(|d|);
            n > 0 && 243 * (n - 1) < |d| <= 243 * n
  {
    SizeIsSmall(d);
    CeilingOf(|d|);
  }

  lemma PrefixGrows(d: seq<byte>, i: nat)
    ensures Prefix(d, i + 1) == Prefix(d, i) + Segment(d, i)
  {
  }

  lemma PrefixWhole(d: seq<byte>)
    requires ParseTlv(d).Some?
    ensures Prefix(d, SegmentCount(|d|)) == d && Prefix(d, 0) == []
  {
    CountIsCeiling(d);
  }

  /* ---------------------------------------------------------------- download commands */

  /** A download command: opcode 0xFC00, sub-command 0x1E, one segment. */
  function SegmentCommand(segment: seq<byte>): (c: seq<byte>)
    requires |segment| <= SEGMENT
    ensures |c| == 6 + |segment| && c[6..] == segment
  {
    [1, 0x00, 0xFC, |segment| + 2, 0x1E, |segment|] + segment
  }

  /** Only a full segment before the end of the file may go unacknowledged, and only in modes 1 and 3. */
  predicate AckExpected(d: seq<byte>, i: nat, mode: byte) {
    |Segment(d, i)| < SEGMENT || SEGMENT * (i + 1) >= |d| || (mode != 1 && mode != 3)
  }

  /**
   Exactly the segments before the last may go unacknowledged, in modes 1 and 3; so a download never runs
   past its end unanswered.
   */
  lemma LastIsAcked(d: seq<byte>, i: nat, mode: byte)
    requires ParseTlv(d).Some? && i < SegmentCount(|d|)
    ensures SEGMENT * i < |d|
    ensures !AckExpected(d, i, mode) <==> i + 1 < SegmentCount(|d|) && (mode == 1 || mode == 3)
  {
    CountIsCeiling(d);
  }

  lemma RoundingSum(size: nat)
    requires size < U32_SPAN
    ensures var v := size + SEGMENT - 1; v % U32_SPAN == if v < U32_SPAN then v else v - U32_SPAN
  {
  }

  lemma CountNeverOver(size: nat, i: nat)
    requires size < U32_SPAN && i < SegmentCount(size)
    ensures SEGMENT * i < size
  {
    RoundingSum(size);
  }

  /** The bytes the download commands of a run carry, in order. */
  function PayloadOf(command: seq<byte>): seq<byte> {
    if |command| >= 6 && command[1] == 0x00 && command[2] == 0xFC && command[4] == 0x1E then command[6..] else []
  }

  /** Copies size bytes of data from offset to position at of out. */
  method CopyBytes(data: seq<byte>, offset: nat, size: nat, out: array<byte>, at: nat)
    requires offset + size <= |data| && at + size <= out.Length
    modifies out
    ensures out[at..at + size] == data[offset..offset + size]
    ensures out[..at] == old(out[..at]) && out[at + size..] == old(out[at + size..])
  {
    forall k | at <= k < at + size {
      out[k] := data[offset + (k - at)];
    }
  }

  lemma InParts(s: seq<byte>, head: seq<byte>, body: seq<byte>)
    requires |s| == |head| + |body| && s[..|head|] == head && s[|head|..] == body
    ensures s == head + body
  {
  }

  /** The six header bytes, then the bytes of the segment. */
  method WriteSegment(data: seq<byte>, offset: nat, size: nat, out: array<byte>)
    requires size <= SEGMENT && offset + size <= |data| && 6 + size <= out.Length
    modifies out
    ensures out[..6 + size] == SegmentCommand(data[offset..offset + size])
    ensures out[6 + size..] == old(out[6 + size..])
  {
    out[0], out[1], out[2], out[3], out[4], out[5] := 1, 0x00, 0xFC, size + 2, 0x1E, size;
    assert out[..6] == [1, 0x00, 0xFC, size + 2, 0x1E, size];
    CopyBytes(data, offset, size, out, 6);
    ghost var s := out[..6 + size];
    assert s[..6] == out[..6] && s[6..] == out[6..6 + size];
    InParts(s, [1, 0x00, 0xFC, size + 2, 0x1E, size], data[offset..offset + size]);
  }

  method BuildSegmentCommand(data: seq<byte>, index: nat, mode: byte, out: array<byte>, capacity: nat)
    returns (total: nat, ack: bool)
    requires capacity <= out.Length
    requires |data| < U32_SPAN
    modifies out
    ensures total <= capacity
    ensures total == 0 <==> index >= SegmentCount(|data|) || capacity < 6 + |Segment(data, index)|
    ensures total > 0 ==>
              out[..total] == SegmentCommand(Segment(data, index)) && ack == AckExpected(data, index, mode)
    ensures out[total..] == old(out[total..])
  {
    ack := true;
    if |data| == 0 || index >= SegmentCount(|data|) {
      return 0, ack;
    }
    CountNeverOver(|data|, index);
    var offset := index * SEGMENT;
    var size: int := |data| - offset;
    if size > SEGMENT {
      size := SEGMENT;
    }
    total := 6 + size;
    if capacity < total {
      return 0, ack;
    }
    assert data[offset..offset + size] == Segment(data, index);
    ack := !(size == SEGMENT && offset + size < |data| && (mode == 3 || mode == 1));
    WriteSegment(data, offset, size, out);
  }

  /* ---------------------------------------------------------------- the baud byte of an NVM image */

  /** Walks the tags from idx; the offset found is that of the second data byte of the HCI tag. */
  function Walk(d: seq<byte>, idx: nat): (r: Option<nat>)
    requires |d| >= 4 && idx <= |d| - 4
    ensures r.Some? ==> r.value < |d|
    decreases |d| - idx
  {
    var length := |d| - 4;
    if idx + TAG_HEADER > length then None
    else
      var tag, size := Rd16(d, 4 + idx), Rd16(d, 6 + idx);
      if length - idx - TAG_HEADER < size then None
      else if tag == TAG_HCI then if size < 3 then None else Some(4 + idx + TAG_HEADER + 1)
      else Walk(d, idx + TAG_HEADER + size)
  }

  function BaudOffset(d: seq<byte>): (r: Option<nat>)
    ensures r.Some? ==> r.value < |d|
  {
    if ParseTlv(d).Some? && ParseTlv(d).value.kind == NVM then Walk(d, 0) else None
  }

  method FindNvmHciBaudOffset(d: seq<byte>) returns (r: Option<nat>)
    ensures r == BaudOffset(d)
  {
    var info := ParseTlv(d);
    if info.None? || info.value.kind != NVM {
      return None;
    }
    var length := info.value.length;
    var idx := 0;
    while idx + TAG_HEADER <= length
      invariant idx <= length
      invariant Walk(d, idx) == Walk(d, 0)
      decreases length - idx
    {
      var tag, size := Rd16(d, 4 + idx), Rd16(d, 6 + idx);
      if length - idx - TAG_HEADER < size {
        return None;
      }
      if tag == TAG_HCI {
        return if size < 3 then None else Some(4 + idx + TAG_HEADER + 1);
      }
      idx := idx + TAG_HEADER + size;
    }
    return None;
  }

  /** One tag of an NVM image, with the eight reserved bytes of its header. */
  datatype Tag = Tag(id: u16, reserved: seq<byte>, body: seq<byte>)

  predicate Encodable(t: Tag) {
    |t.reserved| == 8 && |t.body| < U16_SPAN
  }

  function EncodeTag(t: Tag): (s: seq<byte>)
    requires Encodable(t)
    ensures |s| == 12 + |t.body|
  {
    [t.id % 0x100, t.id / 0x100, |t.body| % 0x100, |t.body| / 0x100] + t.reserved + t.body
  }

  function EncodeTags(tags: seq<Tag>): seq<byte>
    requires forall t <- tags :: Encodable(t)
    decreases |tags|
  {
    if tags == [] then [] else EncodeTag(tags[0]) + EncodeTags(tags[1..])
  }

  /** Walking past a tag that is not the HCI tag continues right behind it. */
  lemma WalkSkips(d: seq<byte>, idx: nat, t: Tag, after: seq<byte>)
    requires Encodable(t) && |d| >= 4 && idx <= |d| - 4
    requires d[4 + idx..] == EncodeTag(t) + after
    ensures t.id != TAG_HCI ==>
              idx + TAG_HEADER + |t.body| <= |d| - 4
              && d[4 + idx + TAG_HEADER + |t.body|..] == after
              && Walk(d, idx) == Walk(d, idx + TAG_HEADER + |t.body|)
    ensures t.id == TAG_HCI ==>
              Walk(d, idx) == if |t.body| < 3 then None else Some(4 + idx + TAG_HEADER + 1)
    ensures 4 + idx + TAG_HEADER + |t.body| <= |d|
    ensures d[4 + idx + TAG_HEADER..4 + idx + TAG_HEADER + |t.body|] == t.body
  {
  }

  /** Where the first HCI tag's baud byte lies, counted from the first tag; none if it has no such byte. */
  function BaudByteOf(tags: seq<Tag>): Option<nat>
    requires forall t <- tags :: Encodable(t)
    decreases |tags|
  {
    if tags == [] then None
    else if tags[0].id == 17 then if |tags[0].body| < 3 then None else Some(12 + 1)
    else
      var r := BaudByteOf(tags[1..]);
      if r.None? then None else Some(12 + |tags[0].body| + r.value)
  }

  /** The walk over the bytes is the search over the tags they encode. */
  lemma {:induction false} WalkFindsHciTag(d: seq<byte>, idx: nat, tags: seq<Tag>)
    requires forall t <- tags :: Encodable(t)
    requires |d| >= 4 && idx <= |d| - 4 && d[4 + idx..] == EncodeTags(tags)
    ensures var r := BaudByteOf(tags);
            Walk(d, idx) == if r.None? then None else Some(4 + idx + r.value)
    decreases |tags|
  {
    if tags != [] {
      var t, after := tags[0], EncodeTags(tags[1..]);
      WalkSkips(d, idx, t, after);
      if t.id != TAG_HCI {
        WalkFindsHciTag(d, idx + TAG_HEADER + |t.body|, tags[1..]);
      }
    }
  }

  /** The first HCI tag's second data byte is what lies there. */
  lemma {:induction false} BaudByteIsData(tags: seq<Tag>, hci: nat)
    requires forall t <- tags :: Encodable(t)
    requires hci < |tags| && tags[hci].id == TAG_HCI && |tags[hci].body| >= 3
    requires forall i :: 0 <= i < hci ==> tags[i].id != TAG_HCI
    ensures var r := BaudByteOf(tags);
            r.Some? && r.value < |EncodeTags(tags)| && EncodeTags(tags)[r.value] == tags[hci].body[1]
    decreases |tags|
  {
    var e := EncodeTag(tags[0]);
    if hci == 0 {
      assert e[TAG_HEADER..] == tags[0].body;
      assert e[TAG_HEADER + 1] == tags[0].body[1];
    } else {
      BaudByteIsData(tags[1..], hci - 1);
    }
  }

  /**
   The byte found is the right one: in an NVM image made of tags, it is the second data byte of the
   first HCI tag; without such a tag, or if it is too short, none is found.
   */
  lemma BaudOffsetFindsHciTag(d: seq<byte>, tags: seq<Tag>)
    requires forall t <- tags :: Encodable(t)
    requires ParseTlv(d).Some? && d[0] == 2 && d[4..] == EncodeTags(tags)
    ensures BaudOffset(d) == if BaudByteOf(tags).None? then None else Some(4 + BaudByteOf(tags).value)
    ensures forall hci :: 0 <= hci < |tags| && tags[hci].id == 17 && |tags[hci].body| >= 3
                          && (forall i :: 0 <= i < hci ==> tags[i].id != 17)
                          ==> BaudOffset(d).Some? && d[BaudOffset(d).value] == tags[hci].body[1]
  {
    WalkFindsHciTag(d, 0, tags);
    forall hci | 0 <= hci < |tags| && tags[hci].id == TAG_HCI && |tags[hci].body| >= 3
                 && (forall i :: 0 <= i < hci ==> tags[i].id != TAG_HCI)
      ensures BaudOffset(d).Some? && d[BaudOffset(d).value] == tags[hci].body[1]
    {
      BaudByteIsData(tags, hci);
      assert d[4..][BaudByteOf(tags).value] == tags[hci].body[1];
    }
  }
}
