// The two containers written by the icon generator: the ICO directory and PNG chunks
// (section 3.2 of RFC 2083), each against a reader that is defined on bytes alone.

module Icons {
  import opened Basics
  import opened Crc32

  datatype Result<T> = Ok(value: T) | RangeError

  // ----- integers in buffers

  function Uint16LEAt(bytes: seq<byte>, at: nat): nat
    requires at + 2 <= |bytes|
  {
    bytes[at] as nat + 0x100 * bytes[at + 1] as nat
  }

  function Uint32LEAt(bytes: seq<byte>, at: nat): nat
    requires at + 4 <= |bytes|
  {
    Uint16LEAt(bytes, at) + 0x1_0000 * Uint16LEAt(bytes, at + 2)
  }

  function Uint32BEAt(bytes: seq<byte>, at: nat): nat
    requires at + 4 <= |bytes|
  {
    0x100_0000 * bytes[at] as nat + 0x1_0000 * bytes[at + 1] as nat + 0x100 * bytes[at + 2] as nat + bytes[at + 3] as nat
  }

  // Nothing outside [from, to) differs.
  predicate SameOutside(before: seq<byte>, after: seq<byte>, from: nat, to: nat) {
    |after| == |before| && forall k :: 0 <= k < |before| && !(from <= k < to) ==> after[k] == before[k]
  }

  // Buffer.writeUInt16LE throws a RangeError on a value that does not fit.
  method WriteUInt16LE(buffer: array<byte>, value: nat, at: nat) returns (ok: bool)
    requires at + 2 <= buffer.Length
    modifies buffer
    ensures ok == (value < 0x1_0000)
    ensures ok ==> Uint16LEAt(buffer[..], at) == value
    ensures SameOutside(old(buffer[..]), buffer[..], at, at + 2)
  {
    ok := value < 0x1_0000;
    if ok {
      buffer[at] := value % 0x100;
      buffer[at + 1] := value / 0x100;
    }
  }

  method WriteUInt32LE(buffer: array<byte>, value: nat, at: nat) returns (ok: bool)
    requires at + 4 <= buffer.Length
    modifies buffer
    ensures ok == (value < 0x1_0000_0000)
    ensures ok ==> Uint32LEAt(buffer[..], at) == value
    ensures SameOutside(old(buffer[..]), buffer[..], at, at + 4)
  {
    ok := value < 0x1_0000_0000;
    if ok {
      var low := WriteUInt16LE(buffer, value % 0x1_0000, at);
      var high := WriteUInt16LE(buffer, value / 0x1_0000, at + 2);
    }
  }

  // ----- the ICO directory

  datatype Image = Image(size: nat, png: seq<byte>)

  datatype Entry = Entry(width: byte, height: byte, colors: byte, reserved: byte,
                         planes: nat, bitsPerPixel: nat, length: nat, offset: nat)

  const HEADER_SIZE := 6
  const ENTRY_SIZE := 16

  function DirectorySize(count: nat): nat { HEADER_SIZE + count * ENTRY_SIZE }

  function EntryAt(bytes: seq<byte>, at: nat): Entry
    requires at + ENTRY_SIZE <= |bytes|
  {
    Entry(bytes[at], bytes[at + 1], bytes[at + 2], bytes[at + 3],
          Uint16LEAt(bytes, at + 4), Uint16LEAt(bytes, at + 6),
          Uint32LEAt(bytes, at + 8), Uint32LEAt(bytes, at + 12))
  }

  function Pngs(images: seq<Image>): seq<seq<byte>> { seq(|images|, i requires 0 <= i < |images| => images[i].png) }

  // Where the pictures of all images together end.
  function EndOf(images: seq<Image>, count: nat): nat
    requires count <= |images|
  {
    if count == 0 then DirectorySize(|images|) else EndOf(images, count - 1) + |images[count - 1].png|
  }

  // What the generator means the entry of an image to say. A byte of a buffer keeps the low eight
  // bits of what is assigned to it.
  function SizeByte(size: nat): byte { if size == 256 then 0 else size % 256 }

  function EntryOf(image: Image, offset: nat): Entry {
    var side := SizeByte(image.size);
    Entry(side, side, 0, 0, 1, 32, |image.png|, offset)
  }

  function Described(images: seq<Image>, i: nat): Entry
    requires i < |images|
  {
    EntryOf(images[i], EndOf(images, i))
  }

  // Every number fits its field: the count in 16 bits, each length and each offset in 32.
  predicate Fits(images: seq<Image>, count: nat)
    requires count <= |images|
  {
    |images| < 0x1_0000
    && forall i :: 0 <= i < count ==> |images[i].png| < 0x1_0000_0000 && EndOf(images, i) < 0x1_0000_0000
  }

  method WriteEntry(header: array<byte>, at: nat, image: Image, offset: nat) returns (ok: bool)
    requires at + ENTRY_SIZE <= header.Length
    modifies header
    ensures ok == (|image.png| < 0x1_0000_0000 && offset < 0x1_0000_0000)
    ensures ok ==> EntryAt(header[..], at) == EntryOf(image, offset)
    ensures SameOutside(old(header[..]), header[..], at, at + ENTRY_SIZE)
  {
    header[at] := if image.size == 256 then 0 else image.size % 256;
    header[at + 1] := if image.size == 256 then 0 else image.size % 256;
    header[at + 2] := 0;
    header[at + 3] := 0;
    ok := WriteUInt16LE(header, 1, at + 4);
    ok := WriteUInt16LE(header, 32, at + 6);
    ok := WriteUInt32LE(header, |image.png|, at + 8);
    if ok {
      ok := WriteUInt32LE(header, offset, at + 12);
    }
  }

  method WritePreamble(header: array<byte>, count: nat) returns (ok: bool)
    requires header.Length >= HEADER_SIZE
    modifies header
    ensures ok == (count < 0x1_0000)
    ensures ok ==> Uint16LEAt(header[..], 0) == 0 && Uint16LEAt(header[..], 2) == 1
                   && Uint16LEAt(header[..], 4) == count
  {
    ok := WriteUInt16LE(header, 0, 0);
    ok := WriteUInt16LE(header, 1, 2);
    ok := WriteUInt16LE(header, count, 4);
  }

  predicate DirectoryIsWritten(bytes: seq<byte>, images: seq<Image>, count: nat)
    requires count <= |images|
  {
    |bytes| >= DirectorySize(|images|)
    && Uint16LEAt(bytes, 0) == 0 && Uint16LEAt(bytes, 2) == 1 && Uint16LEAt(bytes, 4) == |images|
    && forall i :: 0 <= i < count ==> EntryAt(bytes, HEADER_SIZE + i * ENTRY_SIZE) == Described(images, i)
  }

  // One more entry is written and nothing else changes.
  lemma OneMoreEntry(before: seq<byte>, after: seq<byte>, images: seq<Image>, count: nat)
    requires count < |images| && DirectoryIsWritten(before, images, count)
    requires SameOutside(before, after, HEADER_SIZE + count * ENTRY_SIZE, HEADER_SIZE + count * ENTRY_SIZE + ENTRY_SIZE)
    requires EntryAt(after, HEADER_SIZE + count * ENTRY_SIZE) == Described(images, count)
    ensures DirectoryIsWritten(after, images, count + 1)
  {
    forall i | 0 <= i < count
      ensures EntryAt(after, HEADER_SIZE + i * ENTRY_SIZE) == Described(images, i)
    {
      assert EntryAt(before, HEADER_SIZE + i * ENTRY_SIZE) == Described(images, i);
    }
  }

  // The whole file: the directory, then the pictures one after the other.
  predicate IsIco(bytes: seq<byte>, images: seq<Image>) {
    DirectoryIsWritten(bytes, images, |images|)
    && bytes[DirectorySize(|images|)..] == Flatten(Pngs(images))
  }

  method WriteEntries(header: array<byte>, images: seq<Image>) returns (ok: bool)
    requires header.Length == DirectorySize(|images|) && DirectoryIsWritten(header[..], images, 0)
    requires Fits(images, 0)
    modifies header
    ensures ok == Fits(images, |images|)
    ensures ok ==> DirectoryIsWritten(header[..], images, |images|)
  {
    ok := true;
    var offset := DirectorySize(|images|);
    for index := 0 to |images|
      invariant ok && Fits(images, index)
      invariant offset == EndOf(images, index)
      invariant DirectoryIsWritten(header[..], images, index)
    {
      ghost var before := header[..];
      ok := WriteEntry(header, HEADER_SIZE + index * ENTRY_SIZE, images[index], offset);
      if !ok {
        return;
      }
      OneMoreEntry(before, header[..], images, index);
      offset := offset + |images[index].png|;
    }
  }

  /** The generator fails exactly when a count, a length or an offset does not fit its field. */
  method CreateIco(images: seq<Image>) returns (r: Result<seq<byte>>)
    ensures r.Ok? <==> Fits(images, |images|)
    ensures r.Ok? ==> IsIco(r.value, images)
  {
    var header := new byte[DirectorySize(|images|)](_ => 0);
    var ok := WritePreamble(header, |images|);
    if ok {
      ok := WriteEntries(header, images);
    }
    if !ok {
      return RangeError;
    }
    DirectoryExtends(header[..], images);
    return Ok(header[..] + Flatten(Pngs(images)));
  }

  lemma DirectoryExtends(header: seq<byte>, images: seq<Image>)
    requires |header| == DirectorySize(|images|) && DirectoryIsWritten(header, images, |images|)
    ensures IsIco(header + Flatten(Pngs(images)), images)
  {
    var bytes := header + Flatten(Pngs(images));
    assert bytes[DirectorySize(|images|)..] == Flatten(Pngs(images));
    forall i | 0 <= i < |images|
      ensures EntryAt(bytes, HEADER_SIZE + i * ENTRY_SIZE) == Described(images, i)
    {
      assert EntryAt(header, HEADER_SIZE + i * ENTRY_SIZE) == Described(images, i);
    }
  }

  // ----- reading an ICO file

  // A reader takes the side of a picture from its entry, where 0 stands for 256, and the picture
  // from the place the entry names.
  function ReadImage(bytes: seq<byte>, i: nat): Option<Image>
    requires DirectorySize(i + 1) <= |bytes|
  {
    var e := EntryAt(bytes, HEADER_SIZE + i * ENTRY_SIZE);
    if e.offset + e.length > |bytes| then None
    else Some(Image(if e.width == 0 then 256 else e.width, bytes[e.offset..e.offset + e.length]))
  }

  function ReadImages(bytes: seq<byte>, count: nat): Option<seq<Image>>
    requires DirectorySize(count) <= |bytes|
  {
    if count == 0 then Some([])
    else
      match (ReadImages(bytes, count - 1), ReadImage(bytes, count - 1))
      case (Some(images), Some(image)) => Some(images + [image])
      case _ => None
  }

  function ReadIco(bytes: seq<byte>): Option<seq<Image>> {
    if |bytes| < HEADER_SIZE || Uint16LEAt(bytes, 0) != 0 || Uint16LEAt(bytes, 2) != 1 then None
    else
      var count := Uint16LEAt(bytes, 4);
      if |bytes| < DirectorySize(count) then None else ReadImages(bytes, count)
  }

  lemma {:induction false} FlattenedSlice(images: seq<Image>, count: nat)
    requires count <= |images|
    ensures EndOf(images, count) == DirectorySize(|images|) + |Flatten(Pngs(images)[..count])|
    decreases count
  {
    if count > 0 {
      FlattenedSlice(images, count - 1);
      assert Pngs(images)[..count] == Pngs(images)[..count - 1] + [images[count - 1].png];
      FlattenAppend(Pngs(images)[..count - 1], images[count - 1].png);
    }
  }

  lemma {:induction false} FlattenSplit<T>(parts: seq<seq<T>>, i: nat)
    requires i <= |parts|
    ensures Flatten(parts) == Flatten(parts[..i]) + Flatten(parts[i..])
  {
    if i == 0 {
      assert parts[0..] == parts;
    } else {
      FlattenSplit(parts[1..], i - 1);
      assert parts[1..][..i - 1] == parts[..i][1..] && parts[1..][i - 1..] == parts[i..];
      assert Flatten(parts[..i]) == parts[0] + Flatten(parts[1..][..i - 1]);
    }
  }

  // Picture i lies where its entry says.
  lemma PictureAt(bytes: seq<byte>, images: seq<Image>, i: nat)
    requires i < |images| && IsIco(bytes, images)
    ensures EndOf(images, i + 1) <= |bytes|
    ensures bytes[EndOf(images, i)..EndOf(images, i + 1)] == images[i].png
  {
    var pngs := Pngs(images);
    FlattenedSlice(images, i);
    FlattenSplit(pngs, i);
    var before, after := Flatten(pngs[..i]), Flatten(pngs[i..][1..]);
    assert Flatten(pngs[i..]) == images[i].png + after;
    MiddleOf(bytes[..DirectorySize(|images|)], before, images[i].png, after);
    assert bytes == bytes[..DirectorySize(|images|)] + (before + (images[i].png + after));
  }

  lemma MiddleOf(head: seq<byte>, before: seq<byte>, picture: seq<byte>, after: seq<byte>)
    ensures var bytes := head + (before + (picture + after));
      bytes[|head| + |before|..|head| + |before| + |picture|] == picture
  {
  }

  lemma EndOfLast(bytes: seq<byte>, images: seq<Image>)
    requires IsIco(bytes, images)
    ensures EndOf(images, |images|) == |bytes|
  {
    FlattenedSlice(images, |images|);
    assert Pngs(images)[..|images|] == Pngs(images);
  }

  function Region(bytes: seq<byte>, i: nat): (nat, nat)
    requires DirectorySize(i + 1) <= |bytes|
  {
    var e := EntryAt(bytes, HEADER_SIZE + i * ENTRY_SIZE);
    (e.offset, e.offset + e.length)
  }

  predicate PictureInRegion(bytes: seq<byte>, images: seq<Image>, i: nat)
    requires i < |images| && DirectorySize(|images|) <= |bytes|
  {
    var (from, to) := Region(bytes, i);
    from <= to <= |bytes| && bytes[from..to] == images[i].png
  }

  lemma RegionIs(bytes: seq<byte>, images: seq<Image>, i: nat)
    requires i < |images| && IsIco(bytes, images)
    ensures Region(bytes, i) == (EndOf(images, i), EndOf(images, i + 1))
  {
    assert EntryAt(bytes, HEADER_SIZE + i * ENTRY_SIZE) == Described(images, i);
  }

  /** The pictures tile the file after the directory: the first starts where the directory ends,
      each next one where the one before ends, and the last ends with the file. */
  lemma RegionsTile(bytes: seq<byte>, images: seq<Image>)
    requires IsIco(bytes, images)
    ensures forall i :: 0 <= i < |images| ==> PictureInRegion(bytes, images, i)
    ensures forall i :: 0 < i < |images| ==> Region(bytes, i).0 == Region(bytes, i - 1).1
    ensures |images| > 0 ==> Region(bytes, 0).0 == DirectorySize(|images|) && Region(bytes, |images| - 1).1 == |bytes|
  {
    forall i | 0 <= i < |images|
      ensures PictureInRegion(bytes, images, i)
    {
      RegionIs(bytes, images, i);
      PictureAt(bytes, images, i);
    }
    forall i | 0 < i < |images|
      ensures Region(bytes, i).0 == Region(bytes, i - 1).1
    {
      RegionIs(bytes, images, i);
      RegionIs(bytes, images, i - 1);
    }
    if |images| > 0 {
      RegionIs(bytes, images, 0);
      RegionIs(bytes, images, |images| - 1);
      EndOfLast(bytes, images);
    }
  }

  // What a reader makes of a size.
  function SizeRead(size: nat): nat { if SizeByte(size) == 0 then 256 else SizeByte(size) }

  lemma {:induction false} ReadImagesBack(bytes: seq<byte>, images: seq<Image>, count: nat)
    requires count <= |images| && IsIco(bytes, images)
    ensures ReadImages(bytes, count) == Some(AsRead(images)[..count])
    decreases count
  {
    if count > 0 {
      var last := count - 1;
      ReadImagesBack(bytes, images, last);
      assert EntryAt(bytes, HEADER_SIZE + last * ENTRY_SIZE) == Described(images, last);
      PictureAt(bytes, images, last);
      assert ReadImage(bytes, last) == Some(AsRead(images)[last]);
      assert AsRead(images)[..count] == AsRead(images)[..last] + [AsRead(images)[last]];
    }
  }

  // A reader takes a stored 0 for 256.
  predicate SizesFit(images: seq<Image>) {
    forall i :: 0 <= i < |images| ==> 1 <= images[i].size <= 256
  }

  function AsRead(images: seq<Image>): seq<Image> {
    seq(|images|, i requires 0 <= i < |images| => Image(SizeRead(images[i].size), images[i].png))
  }

  lemma AsReadIsSame(images: seq<Image>)
    ensures AsRead(images) == images <==> SizesFit(images)
  {
    if AsRead(images) == images {
      forall i | 0 <= i < |images| ensures 1 <= images[i].size <= 256 {
        assert AsRead(images)[i] == images[i];
      }
    } else {
      var i :| 0 <= i < |images| && AsRead(images)[i] != images[i];
    }
  }

  /** Reading a written file gives back the images, whenever their sides are between 1 and 256,
      and only then. */
  lemma IcoRoundTrip(bytes: seq<byte>, images: seq<Image>)
    requires IsIco(bytes, images)
    ensures ReadIco(bytes) == Some(images) <==> SizesFit(images)
  {
    ReadImagesBack(bytes, images, |images|);
    assert AsRead(images)[..|images|] == AsRead(images);
    AsReadIsSame(images);
  }

  lemma LowBytes(bytes: seq<byte>, at: nat, value: byte)
    requires at + 4 <= |bytes|
    ensures Uint16LEAt(bytes, at) == value ==> bytes[at] == value && bytes[at + 1] == 0
    ensures Uint32LEAt(bytes, at) == value ==>
      bytes[at] == value && bytes[at + 1] == 0 && bytes[at + 2] == 0 && bytes[at + 3] == 0
  {
  }

  /** Byte for byte, the file of one small picture. */
  lemma SmallIco(bytes: seq<byte>, side: byte, png: seq<byte>)
    requires IsIco(bytes, [Image(side, png)]) && |png| < 256
    ensures bytes == [0, 0, 1, 0, 1, 0, side, side, 0, 0, 1, 0, 32, 0, |png|, 0, 0, 0, 22, 0, 0, 0] + png
  {
    var image := Image(side, png);
    assert Pngs([image]) == [png];
    assert Flatten([png]) == png + Flatten([]);
    assert EndOf([image], 0) == 22;
    assert EntryAt(bytes, HEADER_SIZE + 0 * ENTRY_SIZE) == Described([image], 0);
    LowBytes(bytes, 0, 0);
    LowBytes(bytes, 2, 1);
    LowBytes(bytes, 4, 1);
    LowBytes(bytes, 10, 1);
    LowBytes(bytes, 12, 32);
    LowBytes(bytes, 14, |png|);
    LowBytes(bytes, 18, 22);
    assert bytes == bytes[..22] + bytes[22..];
  }

  // ----- PNG chunks

  // The low `count` bytes of a value, the highest first.
  function BigEndian(value: nat, count: nat): (bytes: seq<byte>)
    ensures |bytes| == count
    decreases count, value
  {
    if count == 0 then [] else BigEndian(value / 0x100, count - 1) + [value % 0x100]
  }

  lemma BigEndianBytes(value: uint32)
    ensures BigEndian(value, 4)
            == [value / 0x100_0000, value / 0x1_0000 % 0x100, value / 0x100 % 0x100, value % 0x100]
  {
    var a := value / 0x100;
    var b := a / 0x100;
    var c := b / 0x100;
    assert BigEndian(c, 1) == BigEndian(c / 0x100, 0) + [c];
    assert BigEndian(b, 2) == BigEndian(c, 1) + [b % 0x100];
    assert BigEndian(a, 3) == BigEndian(b, 2) + [a % 0x100];
    assert BigEndian(value, 4) == [c, b % 0x100, a % 0x100, value % 0x100];
  }

  lemma BigEndianValue(value: uint32)
    ensures Uint32BEAt(BigEndian(value, 4), 0) == value
  {
    BigEndianBytes(value);
  }

  // `value >>> 0` keeps the low 32 bits.
  method Uint32(value: nat) returns (buffer: array<byte>)
    ensures fresh(buffer) && buffer[..] == BigEndian(value % 0x1_0000_0000, 4)
  {
    var word := value % 0x1_0000_0000;
    buffer := new byte[4](_ => 0);
    WriteUInt32BE(buffer, word);
  }

  method WriteUInt32BE(buffer: array<byte>, word: uint32)
    requires buffer.Length == 4
    modifies buffer
    ensures buffer[..] == BigEndian(word, 4)
  {
    BigEndianBytes(word);
    buffer[0] := word / 0x100_0000;
    buffer[1] := word / 0x1_0000 % 0x100;
    buffer[2] := word / 0x100 % 0x100;
    buffer[3] := word % 0x100;
  }

  datatype Chunk = Chunk(kind: seq<byte>, data: seq<byte>)

  // The CRC of a chunk covers its type and its data.
  function CrcWord(chunk: Chunk): (word: nat)
    ensures word < 0x1_0000_0000
  {
    CrcIsWord(chunk.kind + chunk.data);
    Crc(chunk.kind + chunk.data)
  }

  function PngChunk(chunk: Chunk): seq<byte> {
    BigEndian(|chunk.data|, 4) + chunk.kind + chunk.data + BigEndian(CrcWord(chunk), 4)
  }

  /** Byte for byte, a chunk with little data. */
  lemma SmallChunk(chunk: Chunk)
    requires |chunk.data| < 256
    ensures var crc := CrcWord(chunk);
      PngChunk(chunk) == [0, 0, 0, |chunk.data|] + chunk.kind + chunk.data
                         + [crc / 0x100_0000, crc / 0x1_0000 % 0x100, crc / 0x100 % 0x100, crc % 0x100]
  {
    SmallBigEndian(|chunk.data|);
    BigEndianBytes(CrcWord(chunk));
  }

  lemma SmallBigEndian(n: nat)
    requires n < 256
    ensures BigEndian(n, 4) == [0, 0, 0, n]
  {
    BigEndianBytes(n);
  }

  function PngChunks(chunks: seq<Chunk>): seq<byte> {
    if chunks == [] then [] else PngChunk(chunks[0]) + PngChunks(chunks[1..])
  }

  // A reader: length, four bytes of type, data, and the CRC of type and data.
  function ReadChunk(bytes: seq<byte>): Option<(Chunk, seq<byte>)> {
    if |bytes| < 12 then None
    else
      var length := Uint32BEAt(bytes, 0);
      if |bytes| < 12 + length then None
      else
        var chunk := Chunk(bytes[4..8], bytes[8..8 + length]);
        if Uint32BEAt(bytes, 8 + length) != CrcWord(chunk) then None
        else Some((chunk, bytes[12 + length..]))
  }

  function ReadChunks(bytes: seq<byte>): Option<seq<Chunk>>
    decreases |bytes|
  {
    if bytes == [] then Some([])
    else
      match ReadChunk(bytes)
      case None => None
      case Some((chunk, rest)) =>
        match ReadChunks(rest)
        case None => None
        case Some(chunks) => Some([chunk] + chunks)
  }

  // The layout a reader depends on.
  lemma ReadChunkParts(length: nat, kind: seq<byte>, data: seq<byte>, crc: nat, rest: seq<byte>)
    requires |kind| == 4 && |data| == length < 0x1_0000_0000 && crc < 0x1_0000_0000
    ensures ReadChunk(BigEndian(length, 4) + kind + data + BigEndian(crc, 4) + rest)
            == if crc == CrcWord(Chunk(kind, data)) then Some((Chunk(kind, data), rest)) else None
  {
    var head, tail := BigEndian(length, 4), BigEndian(crc, 4);
    BigEndianValue(length);
    BigEndianValue(crc);
    var bytes := head + kind + data + tail + rest;
    assert bytes[..4] == head;
    assert Uint32BEAt(bytes, 0) == Uint32BEAt(head, 0);
    assert bytes[4..8] == kind;
    assert bytes[8..8 + length] == data;
    assert bytes[8 + length..12 + length] == tail;
    assert Uint32BEAt(bytes, 8 + length) == Uint32BEAt(tail, 0);
    assert bytes[12 + length..] == rest;
  }

  lemma ReadChunkBack(c: Chunk, rest: seq<byte>)
    requires |c.kind| == 4 && |c.data| < 0x1_0000_0000
    ensures ReadChunk(PngChunk(c) + rest) == Some((c, rest))
  {
    ReadChunkParts(|c.data|, c.kind, c.data, CrcWord(c), rest);
  }

  /** Any sequence of chunks is read back, with every CRC valid. */
  lemma {:induction false} ChunksRoundTrip(chunks: seq<Chunk>)
    requires forall i :: 0 <= i < |chunks| ==> |chunks[i].kind| == 4 && |chunks[i].data| < 0x1_0000_0000
    ensures ReadChunks(PngChunks(chunks)) == Some(chunks)
  {
    if chunks != [] {
      var c, rest := chunks[0], PngChunks(chunks[1..]);
      ChunksRoundTrip(chunks[1..]);
      ReadChunkBack(c, rest);
      assert [c] + chunks[1..] == chunks;
    }
  }

  /** A reader refuses a chunk in whose type and data up to four consecutive bytes were changed. */
  lemma DamagedChunkIsRefused(chunk: Chunk, before: seq<byte>, a: seq<byte>, b: seq<byte>, after: seq<byte>,
                              kind: seq<byte>, data: seq<byte>, rest: seq<byte>)
    requires |chunk.kind| == 4 && |chunk.data| < 0x1_0000_0000
    requires chunk.kind + chunk.data == before + a + after
    requires |a| == |b| <= 4 && a != b
    requires |kind| == 4 && kind + data == before + b + after
    ensures ReadChunk(BigEndian(|chunk.data|, 4) + kind + data + BigEndian(CrcWord(chunk), 4) + rest) == None
  {
    BurstIsDetected(before, a, b, after);
    assert |kind + data| == |chunk.kind + chunk.data|;
    ReadChunkParts(|chunk.data|, kind, data, CrcWord(chunk), rest);
  }
}
