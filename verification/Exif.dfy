/**
 backend/imageproc/orientation.go, exifOrientation and exifSegment: a byte-level scan for one tag.
 The scans are proved against recursive readers, and the readers are proved to invert a writer.
 */
module Exif {
  import opened Common

  type Byte = x: int | 0 <= x < 256

  const SOI := 0xD8
  const EOI := 0xD9
  const SOS := 0xDA
  const TEM := 0x01
  const APP1 := 0xE1
  const ORIENTATION_TAG := 0x0112
  const SHORT := 3
  const LONG := 4
  const TIFF_MAGIC := 42

  const EXIF_HEADER: seq<Byte> := [0x45, 0x78, 0x69, 0x66, 0, 0]

  datatype Order = LittleEndian | BigEndian

  // ---------- Integers in bytes ----------

  function U16(order: Order, b: seq<Byte>): nat
    requires |b| >= 2
  {
    match order
    case LittleEndian => b[0] as int + 256 * (b[1] as int)
    case BigEndian => 256 * (b[0] as int) + b[1] as int
  }

  function U32(order: Order, b: seq<Byte>): nat
    requires |b| >= 4
  {
    match order
    case LittleEndian => U16(order, b) + 0x1_0000 * U16(order, b[2..])
    case BigEndian => 0x1_0000 * U16(order, b) + U16(order, b[2..])
  }

  function Put16(order: Order, v: nat): seq<Byte>
    requires v < 0x1_0000
  {
    match order
    case LittleEndian => [v % 256, v / 256]
    case BigEndian => [v / 256, v % 256]
  }

  function Put32(order: Order, v: nat): seq<Byte>
    requires v < 0x1_0000_0000
  {
    match order
    case LittleEndian => Put16(order, v % 0x1_0000) + Put16(order, v / 0x1_0000)
    case BigEndian => Put16(order, v / 0x1_0000) + Put16(order, v % 0x1_0000)
  }

  lemma Get16(order: Order, v: nat, rest: seq<Byte>)
    requires v < 0x1_0000
    ensures U16(order, Put16(order, v) + rest) == v
  {
  }

  lemma Get32(order: Order, v: nat, rest: seq<Byte>)
    requires v < 0x1_0000_0000
    ensures U32(order, Put32(order, v) + rest) == v
  {
    var low, high := v % 0x1_0000, v / 0x1_0000;
    var first := if order.LittleEndian? then low else high;
    var second := if order.LittleEndian? then high else low;
    var b := Put32(order, v) + rest;
    assert b == Put16(order, first) + (Put16(order, second) + rest);
    assert b[2..] == Put16(order, second) + rest;
    Get16(order, first, Put16(order, second) + rest);
    Get16(order, second, rest);
  }

  // ---------- The readers ----------

  predicate Standalone(marker: Byte) {
    marker == SOI || marker == TEM || 0xD0 <= marker <= 0xD7
  }

  predicate StartsWithExif(payload: seq<Byte>) {
    |payload| >= 6 && payload[..6] == EXIF_HEADER
  }

  /** The payload, without its header, of the first EXIF segment in what follows the SOI marker. */
  function Scan(d: seq<Byte>): Option<seq<Byte>>
    decreases |d|
  {
    if |d| < 4 then None
    else if d[0] != 0xFF then Scan(d[1..])
    else if Standalone(d[1]) then Scan(d[2..])
    else if d[1] == SOS || d[1] == EOI then None
    else
      var length := U16(BigEndian, d[2..]);
      if length < 2 || 2 + length > |d| then None
      else if d[1] == APP1 && StartsWithExif(d[4..2 + length]) then Some(d[10..2 + length])
      else Scan(d[2 + length..])
  }

  /** The value of the first orientation entry among n directory entries, 1 when it is not usable. */
  function FindTag(order: Order, d: seq<Byte>, n: nat): int
    requires |d| >= 12 * n
    decreases n
  {
    if n == 0 then 1
    else if U16(order, d) != ORIENTATION_TAG then FindTag(order, d[12..], n - 1)
    else if U16(order, d[2..]) != SHORT && U16(order, d[2..]) != LONG then 1
    else if 1 <= U16(order, d[8..]) <= 8 then U16(order, d[8..])
    else 1
  }

  function TiffOrientation(seg: seq<Byte>): int {
    if |seg| < 8 then 1
    else if seg[0..2] != [0x49, 0x49] && seg[0..2] != [0x4D, 0x4D] then 1
    else
      var order := if seg[0] == 0x49 then LittleEndian else BigEndian;
      if U16(order, seg[2..]) != TIFF_MAGIC then 1
      else
        var ifd := U32(order, seg[4..]);
        if ifd < 8 || ifd + 2 > |seg| then 1
        else
          var entries := U16(order, seg[ifd..]);
          if ifd + 2 + entries * 12 > |seg| then 1
          else FindTag(order, seg[ifd + 2..], entries)
  }

  function Orientation(data: seq<Byte>): int {
    match if |data| < 2 then None else Scan(data[2..])
    case None => 1
    case Some(seg) => TiffOrientation(seg)
  }

  // ---------- The loops ----------

  method ExifSegment(data: seq<Byte>) returns (seg: Option<seq<Byte>>)
    ensures seg == if |data| < 2 then None else Scan(data[2..])
    ensures seg.Some? ==> exists i :: IsExifSegment(data, i, seg.value)
  {
    var i := 2;
    while i + 4 <= |data|
      invariant 2 <= i
      invariant |data| >= 2 ==> i <= |data| && Scan(data[i..]) == Scan(data[2..])
      decreases |data| - i
    {
      ghost var d := data[i..];
      if data[i] != 0xFF {
        assert d[1..] == data[i + 1..];
        i := i + 1;
        continue;
      }
      var marker := data[i + 1];
      if marker == SOI || marker == TEM || (marker >= 0xD0 && marker <= 0xD7) {
        assert d[2..] == data[i + 2..];
        i := i + 2;
        continue;
      }
      if marker == SOS || marker == EOI {
        return None;
      }
      var length := U16(BigEndian, data[i + 2..i + 4]);
      assert U16(BigEndian, d[2..]) == length;
      if length < 2 || i + 2 + length > |data| {
        return None;
      }
      var payload := data[i + 4..i + 2 + length];
      assert payload == d[4..2 + length];
      if marker == APP1 && |payload| >= 6 && payload[..6] == EXIF_HEADER {
        FoundAt(data, i, length);
        return Some(payload[6..]);
      }
      assert d[2 + length..] == data[i + 2 + length..];
      i := i + 2 + length;
    }
    seg := None;
  }

  lemma FoundAt(data: seq<Byte>, i: nat, length: nat)
    requires i + 4 <= |data| && length >= 8 && i + 2 + length <= |data|
    requires data[i] == 0xFF && data[i + 1] == APP1 && length == U16(BigEndian, data[i + 2..])
    requires data[i + 4..i + 2 + length][..6] == EXIF_HEADER
    ensures IsExifSegment(data, i, data[i + 4..i + 2 + length][6..])
    ensures data[i + 4..i + 2 + length][6..] == data[i..][10..2 + length]
  {
    assert data[i + 4..i + 10] == data[i + 4..i + 2 + length][..6];
    assert data[i + 4..i + 2 + length][6..] == data[i + 10..i + 2 + length];
  }

  /** At offset i the data really hold an EXIF APP1 segment with this payload: FF E1, a length, "Exif" 00 00. */
  ghost predicate IsExifSegment(data: seq<Byte>, i: nat, payload: seq<Byte>) {
    && i + 10 <= |data|
    && data[i] == 0xFF && data[i + 1] == 0xE1 && data[i + 4..i + 10] == [0x45, 0x78, 0x69, 0x66, 0, 0]
    && i + 10 <= i + 2 + Word(data[i + 2], data[i + 3]) <= |data|
    && payload == data[i + 10..i + 2 + Word(data[i + 2], data[i + 3])]
  }

  /** Every read is in bounds, the scans end, and the answer is one of the eight orientations. */
  method ExifOrientation(data: seq<Byte>) returns (o: int)
    ensures 1 <= o <= 8
    ensures o == Orientation(data)
  {
    var found := ExifSegment(data);
    if found.None? {
      return 1;
    }
    o := ReadTiff(found.value);
  }

  /** The rest of exifOrientation: the TIFF header, then the directory. */
  method ReadTiff(seg: seq<Byte>) returns (o: int)
    ensures 1 <= o <= 8
    ensures o == TiffOrientation(seg)
  {
    if |seg| < 8 {
      return 1;
    }
    var order: Order;
    if seg[0..2] == [0x49, 0x49] {
      order := LittleEndian;
    } else if seg[0..2] == [0x4D, 0x4D] {
      order := BigEndian;
    } else {
      return 1;
    }
    assert seg[0] == seg[0..2][0];
    if U16(order, seg[2..]) != TIFF_MAGIC {
      return 1;
    }
    var ifd := U32(order, seg[4..]);
    if ifd < 8 || ifd + 2 > |seg| {
      return 1;
    }
    var entries := U16(order, seg[ifd..]);
    if ifd + 2 + entries * 12 > |seg| {
      return 1;
    }
    o := ReadEntries(order, seg, ifd + 2, entries);
  }

  method ReadEntries(order: Order, seg: seq<Byte>, start: nat, entries: nat) returns (o: int)
    requires start + entries * 12 <= |seg|
    ensures 1 <= o <= 8
    ensures o == FindTag(order, seg[start..], entries)
  {
    var i := 0;
    while i < entries
      invariant 0 <= i <= entries
      invariant FindTag(order, seg[start..], entries) == FindTag(order, seg[start + i * 12..], entries - i)
    {
      var e := start + i * 12;
      ghost var d := seg[e..];
      assert d[12..] == seg[start + (i + 1) * 12..];
      if U16(order, seg[e..]) != ORIENTATION_TAG {
        i := i + 1;
        continue;
      }
      assert d[2..] == seg[e + 2..] && d[8..] == seg[e + 8..];
      var typ := U16(order, seg[e + 2..]);
      if typ != SHORT && typ != LONG {
        return 1;
      }
      var value := U16(order, seg[e + 8..]);
      if value < 1 || value > 8 {
        return 1;
      }
      return value;
    }
    o := 1;
  }

  // ---------- Exactly a tag turns a picture ----------

  function Word(high: Byte, low: Byte): nat {
    256 * (high as int) + low as int
  }

  /** The two bytes at i: 12 01 is 0x0112 in little-endian order, 01 12 in big-endian order. */
  function At16(order: Order, d: seq<Byte>, i: nat): nat
    requires i + 2 <= |d|
  {
    if order == LittleEndian then Word(d[i + 1], d[i]) else Word(d[i], d[i + 1])
  }

  function At32(order: Order, d: seq<Byte>, i: nat): nat
    requires i + 4 <= |d|
  {
    if order == LittleEndian then 65536 * Word(d[i + 3], d[i + 2]) + Word(d[i + 1], d[i])
    else 65536 * Word(d[i], d[i + 1]) + Word(d[i + 2], d[i + 3])
  }

  /** Entry k of n directory entries is the first one with tag 0x0112, of type 3 or 4, and says v. */
  ghost predicate FirstTagIs(order: Order, d: seq<Byte>, n: nat, k: nat, v: int)
    requires |d| >= 12 * n
  {
    && k < n
    && (forall j :: 0 <= j < k ==> At16(order, d, 12 * j) != 0x0112)
    && At16(order, d, 12 * k) == 0x0112
    && (At16(order, d, 12 * k + 2) == 3 || At16(order, d, 12 * k + 2) == 4)
    && At16(order, d, 12 * k + 8) == v
  }

  lemma SameWord(order: Order, d: seq<Byte>, i: nat)
    requires i + 2 <= |d|
    ensures U16(order, d[i..]) == At16(order, d, i)
  {
  }

  lemma SameLong(order: Order, d: seq<Byte>, i: nat)
    requires i + 4 <= |d|
    ensures U32(order, d[i..]) == At32(order, d, i)
  {
    SameWord(order, d, i);
    SameWord(order, d, i + 2);
    assert d[i..][2..] == d[i + 2..];
  }

  lemma SameEntry(order: Order, d: seq<Byte>)
    requires |d| >= 12
    ensures U16(order, d) == At16(order, d, 0)
    ensures U16(order, d[2..]) == At16(order, d, 2) && U16(order, d[8..]) == At16(order, d, 8)
  {
    assert d[0..] == d;
    SameWord(order, d, 0);
    SameWord(order, d, 2);
    SameWord(order, d, 8);
  }

  lemma NextEntry(order: Order, d: seq<Byte>, n: nat, k: nat, v: int)
    requires n >= 1 && |d| >= 12 * n && At16(order, d, 0) != 0x0112
    ensures FirstTagIs(order, d, n, k + 1, v) <==> FirstTagIs(order, d[12..], n - 1, k, v)
  {
    var rest := d[12..];
    assert forall i :: 0 <= i && i + 2 <= |rest| ==> At16(order, rest, i) == At16(order, d, i + 12);
    assert forall j :: 0 <= j < n - 1 ==> At16(order, rest, 12 * j) == At16(order, d, 12 * (j + 1));
    if FirstTagIs(order, d, n, k + 1, v) {
      forall j | 0 <= j < k
        ensures At16(order, rest, 12 * j) != 0x0112
      {
        assert At16(order, d, 12 * (j + 1)) != 0x0112;
      }
    }
    if FirstTagIs(order, rest, n - 1, k, v) {
      forall j | 0 <= j < k + 1
        ensures At16(order, d, 12 * j) != 0x0112
      {
        if j > 0 {
          assert At16(order, rest, 12 * (j - 1)) != 0x0112;
        }
      }
    }
  }

  /** An answer other than 1 is what the first tag says. */
  lemma {:induction false} TagBehindAnswer(order: Order, d: seq<Byte>, n: nat) returns (k: nat)
    requires |d| >= 12 * n && FindTag(order, d, n) != 1
    ensures FirstTagIs(order, d, n, k, FindTag(order, d, n))
    decreases n
  {
    SameEntry(order, d);
    if At16(order, d, 0) == 0x0112 {
      k := 0;
    } else {
      var rest := TagBehindAnswer(order, d[12..], n - 1);
      NextEntry(order, d, n, rest, FindTag(order, d, n));
      k := rest + 1;
    }
  }

  /** And what the first tag says, if it is in 1..8, is the answer. */
  lemma {:induction false} TagIsAnswer(order: Order, d: seq<Byte>, n: nat, k: nat, v: int)
    requires |d| >= 12 * n && FirstTagIs(order, d, n, k, v) && 1 <= v <= 8
    ensures FindTag(order, d, n) == v
    decreases n
  {
    SameEntry(order, d);
    if k > 0 {
      assert At16(order, d, 12 * 0) != 0x0112;
      NextEntry(order, d, n, k - 1, v);
      TagIsAnswer(order, d[12..], n - 1, k - 1, v);
    }
  }

  /** A TIFF header in this byte order, II or MM and 42, with a directory that lies inside the block. */
  ghost predicate HeaderIs(seg: seq<Byte>, order: Order) {
    && |seg| >= 8 && seg[0..2] == (if order == LittleEndian then [0x49, 0x49] else [0x4D, 0x4D])
    && At16(order, seg, 2) == 42
    && 8 <= At32(order, seg, 4) && At32(order, seg, 4) + 2 <= |seg|
    && At32(order, seg, 4) + 2 + 12 * At16(order, seg, At32(order, seg, 4)) <= |seg|
  }

  ghost predicate TagSays(seg: seq<Byte>, order: Order, k: nat, v: int) {
    && HeaderIs(seg, order)
    && FirstTagIs(order, seg[At32(order, seg, 4) + 2..], At16(order, seg, At32(order, seg, 4)), k, v)
  }

  lemma HeaderRead(seg: seq<Byte>, order: Order)
    requires HeaderIs(seg, order)
    ensures TiffOrientation(seg) ==
            FindTag(order, seg[At32(order, seg, 4) + 2..], At16(order, seg, At32(order, seg, 4)))
  {
    assert seg[0] == seg[0..2][0];
    SameWord(order, seg, 2);
    SameLong(order, seg, 4);
    SameWord(order, seg, At32(order, seg, 4));
  }

  lemma HeaderBehindAnswer(seg: seq<Byte>) returns (order: Order)
    requires TiffOrientation(seg) != 1
    ensures HeaderIs(seg, order)
  {
    assert seg[0] == seg[0..2][0];
    order := if seg[0] == 0x49 then LittleEndian else BigEndian;
    SameWord(order, seg, 2);
    SameLong(order, seg, 4);
    SameWord(order, seg, At32(order, seg, 4));
  }

  /**
   Any answer but 1 rests on a well-formed header and on a first orientation entry that says so;
   anything unexpected in the block leaves the picture as it is.
   */
  lemma OnlyATagTurns(seg: seq<Byte>)
    requires TiffOrientation(seg) != 1
    ensures exists order: Order, k: nat :: TagSays(seg, order, k, TiffOrientation(seg))
  {
    var order := HeaderBehindAnswer(seg);
    HeaderRead(seg, order);
    var k := TagBehindAnswer(order, seg[At32(order, seg, 4) + 2..], At16(order, seg, At32(order, seg, 4)));
    assert TagSays(seg, order, k, TiffOrientation(seg));
  }

  /** And a well-formed header with a first orientation entry that says v in 1..8 is answered v. */
  lemma ATagTurns(seg: seq<Byte>, order: Order, k: nat, v: int)
    requires TagSays(seg, order, k, v) && 1 <= v <= 8
    ensures TiffOrientation(seg) == v
  {
    HeaderRead(seg, order);
    TagIsAnswer(order, seg[At32(order, seg, 4) + 2..], At16(order, seg, At32(order, seg, 4)), k, v);
  }

  // ---------- A writer ----------

  /** What may stand before the EXIF segment: a length-prefixed segment, a marker without length, a stray byte. */
  datatype Piece = Segment(marker: Byte, payload: seq<Byte>) | Bare(marker: Byte) | Stray(b: Byte)

  /** One directory entry; the count and value fields are four raw bytes each. */
  datatype Entry = Entry(tag: nat, typ: nat, count: seq<Byte>, value: seq<Byte>)

  predicate FitsSegment(payload: seq<Byte>) {
    |payload| + 2 < 65536
  }

  /** Nothing that ends the metadata, and not the EXIF segment. */
  predicate IsPlain(p: Piece) {
    match p
    case Segment(m, payload) =>
      && m != 0x01 && !(0xD0 <= m <= 0xDA) && FitsSegment(payload)
      && !(m == 0xE1 && |payload| >= 6 && payload[..6] == [0x45, 0x78, 0x69, 0x66, 0, 0])
    case Bare(m) => m == 0x01 || 0xD0 <= m <= 0xD8
    case Stray(b) => b != 0xFF
  }

  predicate AllPlain(ps: seq<Piece>) {
    forall i :: 0 <= i < |ps| ==> IsPlain(ps[i])
  }

  predicate IsEntry(e: Entry) {
    e.tag < 0x1_0000 && e.typ < 0x1_0000 && |e.count| == 4 && |e.value| == 4
  }

  predicate AllEntries(es: seq<Entry>) {
    forall i :: 0 <= i < |es| ==> IsEntry(es[i])
  }

  function WriteSegment(marker: Byte, payload: seq<Byte>): seq<Byte>
    requires FitsSegment(payload)
  {
    [0xFF, marker, (|payload| + 2) / 256, (|payload| + 2) % 256] + payload
  }

  function WritePiece(p: Piece): seq<Byte>
    requires IsPlain(p)
  {
    match p
    case Segment(marker, payload) => WriteSegment(marker, payload)
    case Bare(marker) => [0xFF, marker]
    case Stray(b) => [b]
  }

  function WritePieces(ps: seq<Piece>): seq<Byte>
    requires AllPlain(ps)
  {
    if ps == [] then [] else WritePiece(ps[0]) + WritePieces(ps[1..])
  }

  function WriteEntry(order: Order, e: Entry): (r: seq<Byte>)
    requires IsEntry(e)
    ensures |r| == 12
  {
    Put16(order, e.tag) + Put16(order, e.typ) + e.count + e.value
  }

  function WriteEntries(order: Order, es: seq<Entry>): (r: seq<Byte>)
    requires AllEntries(es)
    ensures |r| == 12 * |es|
  {
    if es == [] then [] else WriteEntry(order, es[0]) + WriteEntries(order, es[1..])
  }

  /** A TIFF block: header, a gap of any length, the directory, and whatever follows it. */
  function WriteTiff(order: Order, gap: seq<Byte>, es: seq<Entry>, after: seq<Byte>): seq<Byte>
    requires |gap| + 8 < 0x1_0000_0000 && |es| < 0x1_0000
    requires AllEntries(es)
  {
    TiffMark(order) + Put16(order, 42) + Put32(order, 8 + |gap|) + gap + Put16(order, |es|) + WriteEntries(order, es) + after
  }

  function ExifPayload(tiff: seq<Byte>): seq<Byte> {
    [0x45, 0x78, 0x69, 0x66, 0, 0] + tiff
  }

  /** SOI, other pieces, the EXIF segment, and the rest of the picture. */
  function WriteJpeg(ps: seq<Piece>, tiff: seq<Byte>, tail: seq<Byte>): seq<Byte>
    requires AllPlain(ps)
    requires FitsSegment(ExifPayload(tiff))
  {
    [0xFF, 0xD8] + (WritePieces(ps) + (WriteSegment(0xE1, ExifPayload(tiff)) + tail))
  }

  /** What the directory says: its first orientation entry, if that is an integer in range. */
  function Meant(order: Order, es: seq<Entry>): int
    requires AllEntries(es)
  {
    if es == [] then 1
    else if es[0].tag != 0x0112 then Meant(order, es[1..])
    else if (es[0].typ == 3 || es[0].typ == 4) && 1 <= U16(order, es[0].value) <= 8
    then U16(order, es[0].value)
    else 1
  }

  // ---------- The reader inverts the writer ----------

  lemma SegmentBytes(marker: Byte, payload: seq<Byte>, rest: seq<Byte>)
    requires FitsSegment(payload)
    ensures var d, n := WriteSegment(marker, payload) + rest, |payload|;
            && |d| == n + 4 + |rest| && d[0] == 0xFF && d[1] == marker
            && U16(BigEndian, d[2..]) == n + 2
            && d[4..4 + n] == payload && d[4 + n..] == rest
  {
  }

  lemma SegmentSkipped(marker: Byte, payload: seq<Byte>, rest: seq<Byte>)
    requires IsPlain(Segment(marker, payload))
    ensures Scan(WriteSegment(marker, payload) + rest) == Scan(rest)
  {
    var d := WriteSegment(marker, payload) + rest;
    SegmentBytes(marker, payload, rest);
    assert d[4..2 + U16(BigEndian, d[2..])] == payload;
  }

  lemma PieceSkipped(p: Piece, rest: seq<Byte>)
    requires IsPlain(p)
    ensures Scan(WritePiece(p) + rest) == Scan(rest)
  {
    match p
    case Segment(marker, payload) => SegmentSkipped(marker, payload, rest);
    case Bare(marker) => assert ([0xFF, marker] + rest)[2..] == rest;
    case Stray(b) => assert ([b] + rest)[1..] == rest;
  }

  lemma {:induction false} ScanSkips(ps: seq<Piece>, rest: seq<Byte>)
    requires AllPlain(ps)
    ensures Scan(WritePieces(ps) + rest) == Scan(rest)
    decreases |ps|
  {
    if ps == [] {
      assert WritePieces(ps) + rest == rest;
    } else {
      var more := WritePieces(ps[1..]) + rest;
      assert WritePieces(ps) + rest == WritePiece(ps[0]) + more;
      PieceSkipped(ps[0], more);
      ScanSkips(ps[1..], rest);
    }
  }

  lemma ScanFinds(tiff: seq<Byte>, tail: seq<Byte>)
    requires FitsSegment(ExifPayload(tiff))
    ensures Scan(WriteSegment(0xE1, ExifPayload(tiff)) + tail) == Some(tiff)
  {
    var payload := ExifPayload(tiff);
    var d, n := WriteSegment(0xE1, payload) + tail, |payload|;
    SegmentBytes(0xE1, payload, tail);
    assert payload[..6] == EXIF_HEADER;
    assert d[10..4 + n] == d[4..4 + n][6..] == tiff;
  }

  /** Past the start of the scan (FF DA) or the end of the image (FF D9) nothing is read. */
  lemma NothingPastTheScan(ps: seq<Piece>, marker: Byte, tail: seq<Byte>)
    requires AllPlain(ps) && (marker == 0xDA || marker == 0xD9)
    ensures Orientation([0xFF, 0xD8] + (WritePieces(ps) + ([0xFF, marker] + tail))) == 1
  {
    var rest := [0xFF, marker] + tail;
    var data := [0xFF, 0xD8] + (WritePieces(ps) + rest);
    assert data[2..] == WritePieces(ps) + rest;
    ScanSkips(ps, rest);
  }

  /** Nor is anything behind a length that is too small or points past the end of the data. */
  lemma NothingPastABrokenLength(ps: seq<Piece>, marker: Byte, high: Byte, low: Byte, tail: seq<Byte>)
    requires AllPlain(ps) && marker != 0x01 && !(0xD0 <= marker <= 0xDA)
    requires Word(high, low) < 2 || Word(high, low) > |tail| + 2
    ensures Orientation([0xFF, 0xD8] + (WritePieces(ps) + ([0xFF, marker, high, low] + tail))) == 1
  {
    var rest := [0xFF, marker, high, low] + tail;
    var data := [0xFF, 0xD8] + (WritePieces(ps) + rest);
    assert data[2..] == WritePieces(ps) + rest;
    ScanSkips(ps, rest);
  }

  lemma EntryBytes(order: Order, e: Entry, rest: seq<Byte>)
    requires IsEntry(e)
    ensures var d := WriteEntry(order, e) + rest;
            && U16(order, d) == e.tag && U16(order, d[2..]) == e.typ
            && U16(order, d[8..]) == U16(order, e.value) && d[12..] == rest
  {
    var d := WriteEntry(order, e) + rest;
    assert d == Put16(order, e.tag) + (Put16(order, e.typ) + (e.count + e.value + rest));
    Get16(order, e.tag, Put16(order, e.typ) + (e.count + e.value + rest));
    assert d[2..] == Put16(order, e.typ) + (e.count + e.value + rest);
    Get16(order, e.typ, e.count + e.value + rest);
    assert d[8..] == e.value + rest;
  }

  /** One step of the reader over one written entry. */
  lemma FindTagHead(order: Order, es: seq<Entry>, rest: seq<Byte>)
    requires AllEntries(es) && es != [] && |rest| >= 12 * (|es| - 1)
    ensures FindTag(order, WriteEntry(order, es[0]) + rest, |es|) ==
            if es[0].tag != 0x0112 then FindTag(order, rest, |es| - 1) else Meant(order, es)
  {
    EntryBytes(order, es[0], rest);
  }

  lemma {:induction false} FindTagReads(order: Order, es: seq<Entry>, after: seq<Byte>)
    requires AllEntries(es)
    ensures FindTag(order, WriteEntries(order, es) + after, |es|) == Meant(order, es)
  {
    if es != [] {
      var rest := WriteEntries(order, es[1..]) + after;
      FindTagHead(order, es, rest);
      assert WriteEntries(order, es) + after == WriteEntry(order, es[0]) + rest;
      FindTagReads(order, es[1..], after);
    }
  }

  lemma TiffReads(order: Order, gap: seq<Byte>, es: seq<Entry>, after: seq<Byte>)
    requires |gap| + 8 < 0x1_0000_0000 && |es| < 0x1_0000
    requires AllEntries(es)
    ensures TiffOrientation(WriteTiff(order, gap, es, after)) == Meant(order, es)
  {
    var seg, ifd := WriteTiff(order, gap, es, after), 8 + |gap|;
    var body := WriteEntries(order, es) + after;
    var dir := Put16(order, |es|) + body;
    assert seg == TiffMark(order) + Put16(order, 42) + Put32(order, ifd) + gap + dir;
    TiffHeader(order, gap, dir);
    Get16(order, |es|, body);
    assert seg[ifd + 2..] == dir[2..] == body;
    ReadsDirectory(order, seg, ifd, |es|);
    FindTagReads(order, es, after);
  }

  lemma ReadsDirectory(order: Order, seg: seq<Byte>, ifd: nat, n: nat)
    requires 8 <= ifd && ifd + 2 + n * 12 <= |seg|
    requires seg[0..2] == TiffMark(order) && U16(order, seg[2..]) == 42
    requires U32(order, seg[4..]) == ifd && U16(order, seg[ifd..]) == n
    ensures TiffOrientation(seg) == FindTag(order, seg[ifd + 2..], n)
  {
    assert seg[0] == seg[0..2][0];
  }

  function TiffMark(order: Order): seq<Byte> {
    if order.LittleEndian? then [0x49, 0x49] else [0x4D, 0x4D]
  }

  lemma TiffHeader(order: Order, gap: seq<Byte>, dir: seq<Byte>)
    requires |gap| + 8 < 0x1_0000_0000
    ensures var ifd := 8 + |gap|;
            var seg := TiffMark(order) + Put16(order, 42) + Put32(order, ifd) + gap + dir;
            && seg[0..2] == TiffMark(order) && U16(order, seg[2..]) == 42
            && U32(order, seg[4..]) == ifd && seg[ifd..] == dir
  {
    var ifd := 8 + |gap|;
    var seg := TiffMark(order) + Put16(order, 42) + Put32(order, ifd) + gap + dir;
    assert seg[2..] == Put16(order, 42) + (Put32(order, ifd) + (gap + dir));
    Get16(order, 42, Put32(order, ifd) + (gap + dir));
    assert seg[4..] == Put32(order, ifd) + (gap + dir);
    Get32(order, ifd, gap + dir);
  }

  /**
   For every JPEG built as SOI, any other pieces, an EXIF segment in either byte order with any
   directory, and any tail, the reader answers what the directory says.
   */
  lemma ReadsWhatWasWritten(ps: seq<Piece>, order: Order, gap: seq<Byte>, es: seq<Entry>, after: seq<Byte>, tail: seq<Byte>)
    requires AllPlain(ps)
    requires |gap| + 8 < 0x1_0000_0000 && |es| < 0x1_0000
    requires AllEntries(es)
    requires FitsSegment(ExifPayload(WriteTiff(order, gap, es, after)))
    ensures Orientation(WriteJpeg(ps, WriteTiff(order, gap, es, after), tail)) == Meant(order, es)
  {
    var tiff := WriteTiff(order, gap, es, after);
    var rest := WriteSegment(0xE1, ExifPayload(tiff)) + tail;
    var data := WriteJpeg(ps, tiff, tail);
    assert data[2..] == WritePieces(ps) + rest;
    ScanSkips(ps, rest);
    ScanFinds(tiff, tail);
    TiffReads(order, gap, es, after);
  }

  /** In particular a SHORT orientation v in 1..8, wherever it stands first, is read back as v. */
  lemma OrientationRoundTrip(ps: seq<Piece>, order: Order, gap: seq<Byte>, before: seq<Entry>, v: int,
                             later: seq<Entry>, after: seq<Byte>, tail: seq<Byte>)
    requires AllPlain(ps)
    requires 1 <= v <= 8
    requires AllEntries(before) && forall i :: 0 <= i < |before| ==> before[i].tag != 0x0112
    requires AllEntries(later)
    requires |gap| + 8 < 0x1_0000_0000 && |before| + 1 + |later| < 0x1_0000
    requires FitsSegment(ExifPayload(WriteTiff(order, gap, before + [OrientationEntry(order, v)] + later, after)))
    ensures var es := before + [OrientationEntry(order, v)] + later;
            Orientation(WriteJpeg(ps, WriteTiff(order, gap, es, after), tail)) == v
  {
    ReadsWhatWasWritten(ps, order, gap, before + [OrientationEntry(order, v)] + later, after, tail);
    FirstTagDecides(order, before, v, later);
  }

  function OrientationEntry(order: Order, v: int): (e: Entry)
    requires 1 <= v <= 8
    ensures IsEntry(e)
  {
    Entry(0x0112, 3, Put32(order, 1), Put16(order, v) + [0, 0])
  }

  lemma {:induction false} FirstTagDecides(order: Order, before: seq<Entry>, v: int, later: seq<Entry>)
    requires 1 <= v <= 8
    requires AllEntries(before) && forall i :: 0 <= i < |before| ==> before[i].tag != 0x0112
    requires AllEntries(later)
    ensures Meant(order, before + [OrientationEntry(order, v)] + later) == v
  {
    var es := before + [OrientationEntry(order, v)] + later;
    if before == [] {
      Get16(order, v, [0, 0]);
      assert es[0] == OrientationEntry(order, v);
    } else {
      assert es[0] == before[0];
      assert es[1..] == before[1..] + [OrientationEntry(order, v)] + later;
      FirstTagDecides(order, before[1..], v, later);
    }
  }

  // ---------- A photo in literal bytes ----------

  /** The header of a TIFF block in MM or II order, its directory at offset 8 and one entry in it. */
  function PhotoHead(big: bool): seq<Byte> {
    if big then [0x4D, 0x4D] + [0x00, 0x2A] + [0x00, 0x00, 0x00, 0x08] + [0x00, 0x01]
    else [0x49, 0x49] + [0x2A, 0x00] + [0x08, 0x00, 0x00, 0x00] + [0x01, 0x00]
  }

  /** That entry: tag 0x0112, type SHORT, count 1, value v. */
  function PhotoTag(big: bool, v: Byte): seq<Byte> {
    if big then [0x01, 0x12] + [0x00, 0x03] + [0x00, 0x00, 0x00, 0x01] + [0x00, v, 0x00, 0x00]
    else [0x12, 0x01] + [0x03, 0x00] + [0x01, 0x00, 0x00, 0x00] + [v, 0x00, 0x00, 0x00]
  }

  /** FF E1, the length, "Exif" 00 00, the block and what follows it. */
  function PhotoSegment(big: bool, v: Byte, after: seq<Byte>): seq<Byte>
    requires |after| < 65000
  {
    [0xFF, 0xE1, (|after| + 30) / 256, (|after| + 30) % 256, 0x45, 0x78, 0x69, 0x66, 0x00, 0x00]
    + (PhotoHead(big) + PhotoTag(big, v) + after)
  }

  /** FF D8, other pieces, the EXIF segment, and the rest of the picture. */
  function Photo(ps: seq<Piece>, big: bool, v: Byte, after: seq<Byte>, tail: seq<Byte>): seq<Byte>
    requires AllPlain(ps) && |after| < 65000
  {
    [0xFF, 0xD8] + (WritePieces(ps) + (PhotoSegment(big, v, after) + tail))
  }

  lemma PhotoIsWritten(big: bool, v: Byte, after: seq<Byte>)
    requires 1 <= v <= 8
    ensures var order := if big then BigEndian else LittleEndian;
            WriteTiff(order, [], [OrientationEntry(order, v)], after) == PhotoHead(big) + PhotoTag(big, v) + after
  {
    var order := if big then BigEndian else LittleEndian;
    var e := OrientationEntry(order, v);
    assert WriteEntries(order, [e]) == WriteEntry(order, e) + [];
    PhotoHeadIsWritten(order);
    PhotoTagIsWritten(order, v);
  }

  lemma PhotoHeadIsWritten(order: Order)
    ensures TiffMark(order) + Put16(order, 42) + Put32(order, 8) + [] + Put16(order, 1) == PhotoHead(order.BigEndian?)
  {
    assert Put32(order, 8) == if order.BigEndian? then [0, 0, 0, 8] else [8, 0, 0, 0];
  }

  lemma PhotoTagIsWritten(order: Order, v: Byte)
    requires 1 <= v <= 8
    ensures WriteEntry(order, OrientationEntry(order, v)) == PhotoTag(order.BigEndian?, v)
  {
    assert Put32(order, 1) == if order.BigEndian? then [0, 0, 0, 1] else [1, 0, 0, 0];
    assert Put16(order, v) + [0, 0] == if order.BigEndian? then [0, v, 0, 0] else [v, 0, 0, 0];
  }

  /** Every such photo, in either byte order, is read as v. */
  lemma PhotoIsRead(ps: seq<Piece>, big: bool, v: Byte, after: seq<Byte>, tail: seq<Byte>)
    requires AllPlain(ps) && |after| < 65000 && 1 <= v <= 8
    ensures Orientation(Photo(ps, big, v, after, tail)) == v
  {
    var order := if big then BigEndian else LittleEndian;
    PhotoIsWritten(big, v, after);
    assert [] + [OrientationEntry(order, v)] + [] == [OrientationEntry(order, v)];
    PhotoSegmentIsWritten(big, v, after);
    OrientationRoundTrip(ps, order, [], [], v, [], after, tail);
  }

  lemma PhotoSegmentIsWritten(big: bool, v: Byte, after: seq<Byte>)
    requires |after| < 65000
    ensures WriteSegment(0xE1, ExifPayload(PhotoHead(big) + PhotoTag(big, v) + after)) == PhotoSegment(big, v, after)
  {
  }
}
