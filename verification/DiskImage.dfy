/**
 Raw access to a disk or partition in whole sectors, and the extraction of an ISO 9660
 image from the start of the first device that holds one.
 */
module DiskImage {
  import opened Basics
  import opened PythonDivision

  /* ---------- Media ---------- */

  /** What the operating system shows of a device.  `size` is what the geometry or the partition
      table says, which need not be the number of bytes that can be read; `bad` holds the numbers of
      the sectors that cannot be read; `opens` tells whether the device can be opened at all. */
  datatype Medium = Medium(
    content: seq<byte>, sectorSize: nat, size: int, fixed: bool, bad: set<nat>, opens: bool)
  {
    /** `BytesPerSector` is a 32-bit word. */
    predicate Valid() {
      sectorSize < 0x1_0000_0000
    }

    /** Whether a sector that cannot be read holds one of the bytes from a to b. */
    predicate Damaged(a: nat, b: nat) {
      exists k :: k in bad && Overlaps(sectorSize, k, a, b)
    }
  }

  /** Whether the k-th sector of s bytes holds one of the bytes from a to b. */
  predicate Overlaps(s: nat, k: nat, a: nat, b: nat) {
    a < b && a < k * s + s && k * s < b
  }

  /** The bytes from a to b, as far as they exist: Python's `content[a:b]`. */
  function Clip(content: seq<byte>, a: nat, b: nat): seq<byte>
    requires a <= b
  {
    content[Min(a, |content|)..Min(b, |content|)]
  }

  lemma {:induction false} ClipOfClip(content: seq<byte>, a: nat, b: nat, c: nat, d: nat)
    requires a <= b && c <= d <= b - a
    ensures Clip(Clip(content, a, b), c, d) == Clip(content, a + c, a + d)
  {
    var lo, hi := Min(a, |content|), Min(b, |content|);
    var l, h := Min(c, hi - lo), Min(d, hi - lo);
    var inner, outer := content[lo..hi][l..h], content[lo + l..lo + h];
    assert |inner| == |outer| && forall i :: 0 <= i < |inner| ==> inner[i] == outer[i];
    assert inner == outer;
    assert l == h || (lo + l == Min(a + c, |content|) && lo + h == Min(a + d, |content|));
    if l == h {
      assert Min(a + c, |content|) == Min(a + d, |content|);
    }
  }

  lemma {:induction false} ClipsJoin(content: seq<byte>, a: nat, b: nat, c: nat)
    requires a <= b <= c
    ensures Clip(content, a, b) + Clip(content, b, c) == Clip(content, a, c)
  {
  }

  lemma {:induction false} SectorFloor(offset: nat, s: nat)
    requires s > 0
    ensures var safe := offset / s * s; safe <= offset < safe + s
  {
  }

  /** The bytes of `size` rounded to whole sectors, as `read` computes them. */
  function SafeSize(size: nat, s: nat): nat
    requires s > 0
  {
    (IntOfQuotient(size, s) + (if size % s != 0 then 1 else 0)) * s
  }

  /** The size in sectors is rounded up, exactly below 2^53. */
  lemma {:induction false} SectorCeiling(size: nat, s: nat) returns (sectors: nat)
    requires s > 0 && size < TWO_53
    ensures SafeSize(size, s) == sectors * s && size <= sectors * s < size + s
  {
    QuotientExactBelow53Bits(size, s);
    sectors := CeilingOf(size, s, size / s, size % s);
  }

  lemma {:induction false} CeilingOf(size: nat, s: nat, q: nat, r: nat) returns (sectors: nat)
    requires s > 0 && size == q * s + r && r < s
    ensures sectors == q + (if r != 0 then 1 else 0)
    ensures size <= sectors * s < size + s
  {
    sectors := q + (if r != 0 then 1 else 0);
    MulDistributes(q, if r != 0 then 1 else 0, s);
  }

  lemma {:induction false} MulLess(a: nat, b: nat, s: nat)
    requires s > 0
    ensures a * s < b * s <==> a < b
  {
    if a < b {
      MulMono(a + 1, b, s);
      MulDistributes(a, 1, s);
    } else {
      MulMono(b, a, s);
    }
  }

  /** Reading the whole sectors touches no sector that holds none of the bytes asked for. */
  lemma {:induction false} WholeSectors(s: nat, q: nat, n: nat, k: nat, skip: nat, size: nat)
    requires s > 0 && size > 0 && skip < s && skip + size <= n * s < skip + size + s
    ensures Overlaps(s, k, q * s, q * s + n * s) <==> Overlaps(s, k, q * s + skip, q * s + (skip + size))
  {
    MulDistributes(q, n, s);
    MulDistributes(k, 1, s);
    MulDistributes(q, 1, s);
    MulDistributes(q + n, -1, s);
    MulLess(k, q + n, s);
    MulLess(q, k + 1, s);
    if k < q + n {
      MulMono(k, q + n - 1, s);
    }
    if q < k + 1 {
      MulMono(q + 1, k + 1, s);
    }
  }

  /* ---------- Sector-wise access ---------- */

  class Device {
    const medium: Medium
    var pointer: nat

    constructor (medium: Medium)
      ensures this.medium == medium && pointer == 0
    {
      this.medium, pointer := medium, 0;
    }

    /** `seek`: the start of a sector; of the one that holds the offset, if that is below 2^53. */
    method Seek(offset: nat) returns (r: Outcome<nat>)
      requires medium.Valid()
      modifies this
      ensures
        if medium.sectorSize == 0 then r == Raised && pointer == old(pointer)
        else r == Ok(IntOfQuotient(offset, medium.sectorSize) * medium.sectorSize) && pointer == r.value
      ensures r.Ok? && offset < TWO_53 ==> pointer == offset / medium.sectorSize * medium.sectorSize
    {
      if medium.sectorSize == 0 {
        return Raised;
      }
      var safe := IntOfQuotient(offset, medium.sectorSize) * medium.sectorSize;
      if offset < TWO_53 {
        QuotientExactBelow53Bits(offset, medium.sectorSize);
      }
      pointer := safe;
      return Ok(safe);
    }

    /** `ReadFile` at the pointer; it fails when it meets a sector that cannot be read. */
    method ReadFile(size: nat) returns (r: Outcome<seq<byte>>)
      modifies this
      ensures
        if medium.Damaged(old(pointer), old(pointer) + size) then r == Raised && pointer == old(pointer)
        else r == Ok(Clip(medium.content, old(pointer), old(pointer) + size)) && pointer == old(pointer) + |r.value|
    {
      if medium.Damaged(pointer, pointer + size) {
        return Raised;
      }
      var data := Clip(medium.content, pointer, pointer + size);
      pointer := pointer + |data|;
      return Ok(data);
    }

    /** `read`: whole sectors from the pointer, and of these the bytes asked for. */
    method Read(size: nat, skip: nat) returns (r: Outcome<seq<byte>>)
      requires medium.Valid()
      modifies this
      ensures medium.sectorSize == 0 ==> r == Raised && pointer == old(pointer)
      ensures medium.sectorSize > 0 ==>
        var at, end := old(pointer), old(pointer) + SafeSize(size + skip, medium.sectorSize);
        var content := Clip(medium.content, at, end);
        if medium.Damaged(at, end) then r == Raised && pointer == at
        else r == Ok(Clip(content, skip, size + skip)) && pointer == at + |content|
      ensures r.Ok? && size + skip < TWO_53 ==>
        r.value == Clip(medium.content, old(pointer) + skip, old(pointer) + skip + size)
    {
      var total := size + skip;
      if medium.sectorSize == 0 {
        return Raised;
      }
      var safeSize := SafeSize(total, medium.sectorSize);
      ghost var at := pointer;
      var content := ReadFile(safeSize);
      if content == Raised {
        return Raised;
      }
      if total < TWO_53 {
        ghost var sectors := SectorCeiling(total, medium.sectorSize);
        ClipOfClip(medium.content, at, at + safeSize, skip, total);
      }
      return Ok(Clip(content.value, skip, total));
    }
  }

  /** What seeking and reading amounts to: a plain slice, which fails exactly when one of its bytes
      is in a sector that cannot be read. */
  function Slice(m: Medium, offset: nat, size: nat): Outcome<seq<byte>> {
    if m.sectorSize == 0 || m.Damaged(offset, offset + size) then Raised
    else Ok(Clip(m.content, offset, offset + size))
  }

  /** `seek` followed by `read`, as every caller uses them: on some bytes, below 2^53. */
  method ReadAt(device: Device, offset: nat, size: nat) returns (r: Outcome<seq<byte>>)
    requires device.medium.Valid() && size > 0 && offset + size < TWO_53
    modifies device
    ensures r == Slice(device.medium, offset, size)
  {
    var base := device.Seek(offset);
    if base == Raised {
      return Raised;
    }
    var s := device.medium.sectorSize;
    SectorFloor(offset, s);
    var skip := offset - base.value;
    DamagedSlice(device.medium, offset / s, skip, size);
    r := device.Read(size, skip);
  }

  lemma {:induction false} DamagedSlice(m: Medium, q: nat, skip: nat, size: nat)
    requires m.sectorSize > 0 && size > 0 && skip < m.sectorSize && skip + size < TWO_53
    ensures
      var at := q * m.sectorSize;
      m.Damaged(at, at + SafeSize(size + skip, m.sectorSize)) <==> m.Damaged(at + skip, at + (skip + size))
  {
    var n := SectorCeiling(skip + size, m.sectorSize);
    forall k | k in m.bad
      ensures Overlaps(m.sectorSize, k, q * m.sectorSize, q * m.sectorSize + n * m.sectorSize)
         <==> Overlaps(m.sectorSize, k, q * m.sectorSize + skip, q * m.sectorSize + (skip + size))
    {
      WholeSectors(m.sectorSize, q, n, k, skip, size);
    }
  }

  /* ---------- The size of an image ---------- */

  const MAX_SECTOR_SIZE := 4096
  const OFFSET_BOOT_RECORD := 0x8000
  const OFFSET_ISO_ID := OFFSET_BOOT_RECORD + 1
  const ISO_ID: seq<byte> := [0x43, 0x44, 0x30, 0x30, 0x31]  // CD001
  const OFFSET_VOLUME_SIZE := OFFSET_BOOT_RECORD + 80
  const OFFSET_BLOCK_SIZE := OFFSET_BOOT_RECORD + 128
  const PEEK_SIZE := 2

  function Word(low: byte, high: byte): (r: nat)
    ensures r < 0x1_0000
  {
    (low as int) + 0x100 * (high as int)
  }

  /** A little-endian unsigned short. */
  function Short(b: seq<byte>): (r: nat)
    requires |b| == 2
    ensures r < 0x1_0000
  {
    Word(b[0], b[1])
  }

  method GetIsoFileSize(device: Device) returns (r: Outcome<Option<nat>>)
    requires device.medium.Valid()
    modifies device
    ensures r == IsoFileSize(device.medium)
  {
    if !device.medium.fixed {
      return Ok(None);
    }
    if device.medium.size <= OFFSET_BLOCK_SIZE + PEEK_SIZE {
      return Ok(None);
    }
    var magic := ReadAt(device, OFFSET_ISO_ID, |ISO_ID|);
    if magic == Raised {
      return Raised;
    }
    if magic.value != ISO_ID {
      return Ok(None);
    }
    var volume := ReadAt(device, OFFSET_VOLUME_SIZE, PEEK_SIZE);
    if volume == Raised {
      return Raised;
    }
    var block := ReadAt(device, OFFSET_BLOCK_SIZE, PEEK_SIZE);
    if block == Raised || |volume.value| != 2 || |block.value| != 2 {
      return Raised;
    }
    return Ok(Some(Short(volume.value) * Short(block.value)));
  }

  function IsoFileSize(m: Medium): Outcome<Option<nat>> {
    if !m.fixed || m.size <= OFFSET_BLOCK_SIZE + PEEK_SIZE then Ok(None)
    else
      match Slice(m, OFFSET_ISO_ID, |ISO_ID|)
      case Raised => Raised
      case Ok(magic) =>
        if magic != ISO_ID then Ok(None)
        else
          match (Slice(m, OFFSET_VOLUME_SIZE, PEEK_SIZE), Slice(m, OFFSET_BLOCK_SIZE, PEEK_SIZE))
          case (Ok(volume), Ok(block)) =>
            if |volume| == 2 && |block| == 2 then Ok(Some(Short(volume) * Short(block))) else Raised
          case _ => Raised
  }

  /** The bytes from a to b are there and in sectors that can be read. */
  predicate Readable(m: Medium, a: nat, b: nat) {
    m.sectorSize > 0 && b <= |m.content| && !m.Damaged(a, b)
  }

  function LittleEndian(content: seq<byte>, a: nat): nat
    requires a + 1 < |content|
  {
    content[a] as int + 256 * content[a + 1] as int
  }

  /** The identifier is there, at byte 0x8001. */
  predicate HasIdentifier(m: Medium) {
    Readable(m, 0x8001, 0x8006) && m.content[0x8001..0x8006] == [0x43, 0x44, 0x30, 0x30, 0x31]
  }

  /** A size is given exactly on a fixed, large enough medium that carries the identifier and whose
      two 16-bit words can be read; it is their product, and fits 32 bits. */
  lemma {:induction false} IsoFileSizeMeaning(m: Medium, n: nat)
    ensures IsoFileSize(m) == Ok(Some(n)) <==>
      && m.fixed && m.size > 0x8082 && HasIdentifier(m)
      && Readable(m, 0x8050, 0x8052) && Readable(m, 0x8080, 0x8082)
      && n == LittleEndian(m.content, 0x8050) * LittleEndian(m.content, 0x8080)
    ensures IsoFileSize(m) == Ok(Some(n)) ==> n < 0x1_0000_0000
  {
    IsoBranches(m);
    WordAt(m, 0x8050);
    WordAt(m, 0x8080);
    if IsoFileSize(m).Ok? && IsoFileSize(m).value.Some? {
      SmallProduct(Short(Slice(m, 0x8050, 2).value), Short(Slice(m, 0x8080, 2).value));
    }
  }

  /** The branches that lead to a size. */
  lemma {:induction false} IsoBranches(m: Medium)
    ensures IsoFileSize(m).Ok? && IsoFileSize(m).value.Some? <==>
      && m.fixed && m.size > 0x8082 && HasIdentifier(m)
      && Slice(m, 0x8050, 2).Ok? && |Slice(m, 0x8050, 2).value| == 2
      && Slice(m, 0x8080, 2).Ok? && |Slice(m, 0x8080, 2).value| == 2
    ensures IsoFileSize(m).Ok? && IsoFileSize(m).value.Some? ==>
      IsoFileSize(m).value.value == Short(Slice(m, 0x8050, 2).value) * Short(Slice(m, 0x8080, 2).value)
  {
    var magic := Slice(m, 0x8001, 5);
    if magic.Ok? {
      assert |m.content| >= 0x8006 ==> magic.value == m.content[0x8001..0x8006];
      assert |m.content| < 0x8006 ==> |magic.value| < 5;
    }
  }

  lemma {:induction false} WordAt(m: Medium, a: nat)
    ensures Slice(m, a, 2).Ok? && |Slice(m, a, 2).value| == 2 <==> Readable(m, a, a + 2)
    ensures Readable(m, a, a + 2) ==>
      |Slice(m, a, 2).value| == 2 && Short(Slice(m, a, 2).value) == LittleEndian(m.content, a)
  {
    if Readable(m, a, a + 2) {
      assert Slice(m, a, 2).value == m.content[a..a + 2];
    }
  }

  lemma {:induction false} SmallProduct(a: nat, b: nat)
    requires a < 0x1_0000 && b < 0x1_0000
    ensures a * b < 0x1_0000_0000
  {
    MulMono(a, 0xFFFF, b);
  }

  lemma {:induction false} IsoFileSizeBound(m: Medium)
    requires m.Valid()
    ensures IsoFileSize(m).Ok? && IsoFileSize(m).value.Some? ==> IsoFileSize(m).value.value < 0x1_0000_0000
  {
    var v, b := Slice(m, OFFSET_VOLUME_SIZE, PEEK_SIZE), Slice(m, OFFSET_BLOCK_SIZE, PEEK_SIZE);
    if v.Ok? && b.Ok? && |v.value| == 2 && |b.value| == 2 {
      SmallProduct(Short(v.value), Short(b.value));
    }
  }

  /* ---------- Copying the image ---------- */

  /** The copy loop.  `file` is what the truncated output file holds afterwards: the whole image,
      exactly when none of its bytes is in a sector that cannot be read, and otherwise the chunks
      before the first one that has such a byte. */
  method WriteIsoFile(device: Device, isoFileSize: nat) returns (ok: bool, file: seq<byte>)
    requires device.medium.Valid() && isoFileSize < 0x1_0000_0000
    modifies device
    ensures ok <==> isoFileSize == 0 || Slice(device.medium, 0, isoFileSize).Ok?
    ensures ok ==> file == Clip(device.medium.content, 0, isoFileSize)
    ensures ok && isoFileSize <= |device.medium.content| ==> file == device.medium.content[..isoFileSize]
    ensures !ok ==> exists k: nat ::
      FirstBadChunk(device.medium, isoFileSize, k) && file == Clip(device.medium.content, 0, k * MAX_SECTOR_SIZE)
  {
    file := [];
    var offset := 0;
    ghost var k := 0;
    while offset < isoFileSize
      invariant 0 <= offset <= isoFileSize && offset == Min(k * MAX_SECTOR_SIZE, isoFileSize)
      invariant offset > 0 ==> Slice(device.medium, 0, offset).Ok?
      invariant file == Clip(device.medium.content, 0, offset)
    {
      var bytesToRead := Min(MAX_SECTOR_SIZE, isoFileSize - offset);
      var data := ReadAt(device, offset, bytesToRead);
      DamagedJoin(device.medium, offset, offset + bytesToRead);
      if data == Raised {
        assert FirstBadChunk(device.medium, isoFileSize, k);
        DamagedPrefix(device.medium, offset + bytesToRead, isoFileSize);
        return false, file;
      }
      ClipsJoin(device.medium.content, 0, offset, offset + bytesToRead);
      file := file + data.value;
      offset := offset + bytesToRead;
      k := k + 1;
    }
    return true, file;
  }

  /** The chunks before the k-th can be read, and the k-th cannot. */
  ghost predicate FirstBadChunk(m: Medium, size: nat, k: nat) {
    var a := k * MAX_SECTOR_SIZE;
    && a < size
    && (a > 0 ==> Slice(m, 0, a).Ok?)
    && Slice(m, a, Min(MAX_SECTOR_SIZE, size - a)) == Raised
  }

  lemma {:induction false} DamagedJoin(m: Medium, a: nat, b: nat)
    requires a < b
    ensures m.Damaged(0, b) <==> m.Damaged(0, a) || m.Damaged(a, b)
  {
    forall k | k in m.bad
      ensures Overlaps(m.sectorSize, k, 0, b)
         <==> Overlaps(m.sectorSize, k, 0, a) || Overlaps(m.sectorSize, k, a, b)
    {
    }
  }

  lemma {:induction false} DamagedPrefix(m: Medium, a: nat, b: nat)
    requires a <= b
    ensures m.Damaged(0, a) ==> m.Damaged(0, b)
  {
    if a < b {
      DamagedJoin(m, a, b);
    }
  }

  /* ---------- Trying the devices in turn ---------- */

  /** One call of bsdtar: the device the image came from and the contents of the file it is given. */
  datatype Unpacking = Unpacking(index: nat, image: seq<byte>)

  datatype Extraction = Extraction(extracted: bool, unpackings: seq<Unpacking>)

  /** The size of the image on a device, zero where there is none or it cannot be told. */
  function ImageSize(m: Medium): nat {
    if !m.opens then 0
    else
      match IsoFileSize(m)
      case Ok(Some(n)) => n
      case _ => 0
  }

  /** The image on a device, if the device can be opened and read as far as the image goes. */
  ghost function Image(m: Medium): Option<seq<byte>> {
    var n := ImageSize(m);
    if n == 0 || Slice(m, 0, n) == Raised then None else Some(Slice(m, 0, n).value)
  }

  ghost function Images(media: seq<Medium>): seq<Option<seq<byte>>> {
    seq(|media|, i requires 0 <= i < |media| => Image(media[i]))
  }

  /** Devices from the i-th on; `accepts` tells which images bsdtar can unpack. */
  function Extract(images: seq<Option<seq<byte>>>, i: nat, accepts: seq<byte> -> bool): Extraction
    requires i <= |images|
    decreases |images| - i
  {
    if i == |images| then Extraction(false, [])
    else
      match images[i]
      case None => Extract(images, i + 1, accepts)
      case Some(image) =>
        if accepts(image) then Extraction(true, [Unpacking(i, image)])
        else
          var rest := Extract(images, i + 1, accepts);
          Extraction(rest.extracted, [Unpacking(i, image)] + rest.unpackings)
  }

  /** The same after some unpackings that were in vain. */
  function ExtractAfter(before: seq<Unpacking>, images: seq<Option<seq<byte>>>, i: nat, accepts: seq<byte> -> bool)
    : Extraction
    requires i <= |images|
    decreases |images| - i
  {
    if i == |images| then Extraction(false, before)
    else
      match images[i]
      case None => ExtractAfter(before, images, i + 1, accepts)
      case Some(image) =>
        var now := before + [Unpacking(i, image)];
        if accepts(image) then Extraction(true, now) else ExtractAfter(now, images, i + 1, accepts)
  }

  lemma {:induction false} ExtractAfterAppends(
    before: seq<Unpacking>, images: seq<Option<seq<byte>>>, i: nat, accepts: seq<byte> -> bool)
    requires i <= |images|
    ensures
      var r := Extract(images, i, accepts);
      ExtractAfter(before, images, i, accepts) == Extraction(r.extracted, before + r.unpackings)
    decreases |images| - i
  {
    if i == |images| {
      assert before + [] == before;
    } else if images[i].None? {
      ExtractAfterAppends(before, images, i + 1, accepts);
    } else {
      var now := [Unpacking(i, images[i].value)];
      ExtractAfterAppends(before + now, images, i + 1, accepts);
      Associates(before, now, Extract(images, i + 1, accepts).unpackings);
    }
  }

  lemma {:induction false} ExtractAfterNothing(images: seq<Option<seq<byte>>>, accepts: seq<byte> -> bool)
    ensures ExtractAfter([], images, 0, accepts) == Extract(images, 0, accepts)
  {
    ExtractAfterAppends([], images, 0, accepts);
    assert [] + Extract(images, 0, accepts).unpackings == Extract(images, 0, accepts).unpackings;
  }

  /** One device up to the call of bsdtar, and whether it comes to that; a file that was there
      already stays unless the copy begins, which truncates it. */
  method CopyImage(m: Medium, before: Option<seq<byte>>) returns (ok: bool, file: Option<seq<byte>>)
    requires m.Valid()
    ensures if Image(m).Some? then ok && file == Image(m) else !ok
    ensures ImageSize(m) == 0 ==> file == before
  {
    ok, file := false, before;
    if m.opens {
      var device := new Device(m);
      var size := GetIsoFileSize(device);
      IsoFileSizeBound(m);
      if size.Ok? && size.value.Some? && size.value.value != 0 {
        var written;
        ok, written := WriteIsoFile(device, size.value.value);
        file := Some(written);
      }
    }
  }

  /** The body of the loop: an image that bsdtar does not accept is not extracted. */
  method TryDevice(
    media: seq<Medium>, i: nat, accepts: seq<byte> -> bool, before: seq<Unpacking>, found: Option<seq<byte>>)
    returns (extracted: bool, unpackings: seq<Unpacking>, file: Option<seq<byte>>)
    requires i < |media| && media[i].Valid()
    ensures ExtractAfter(before, Images(media), i, accepts) ==
      if extracted then Extraction(true, unpackings) else ExtractAfter(unpackings, Images(media), i + 1, accepts)
  {
    ghost var image := Images(media)[i];
    extracted, unpackings := false, before;
    var ok;
    ok, file := CopyImage(media[i], found);
    assert if image.Some? then ok && file == image else !ok;
    if ok {
      unpackings := before + [Unpacking(i, file.value)];
      extracted := accepts(file.value);
    }
  }

  /** `_extract_iso_from_devices`.  The output file is one path for all devices: `file` is what it
      holds, and no device is opened after the one that was unpacked. */
  method ExtractIsoFromDevices(media: seq<Medium>, accepts: seq<byte> -> bool)
    returns (extracted: bool, unpackings: seq<Unpacking>, file: Option<seq<byte>>)
    requires forall m :: m in media ==> m.Valid()
    ensures Extraction(extracted, unpackings) == Extract(Images(media), 0, accepts)
    ensures file == None
  {
    extracted, unpackings, file := false, [], None;
    ghost var images := Images(media);
    ghost var goal := ExtractAfter([], images, 0, accepts);
    var i := 0;
    while i < |media|
      invariant 0 <= i <= |media| && !extracted
      invariant ExtractAfter(unpackings, images, i, accepts) == goal
    {
      extracted, unpackings, file := TryDevice(media, i, accepts, unpackings, file);
      if extracted {
        break;
      }
      i := i + 1;
    }
    ExtractAfterNothing(images, accepts);
    if file.Some? {
      file := None;
    }
  }

  predicate Unpackable(image: Option<seq<byte>>, accepts: seq<byte> -> bool) {
    image.Some? && accepts(image.value)
  }

  lemma {:induction false} UnpackableExtracted(
    images: seq<Option<seq<byte>>>, i: nat, accepts: seq<byte> -> bool, j: nat)
    requires i <= j < |images| && Unpackable(images[j], accepts)
    ensures Extract(images, i, accepts).extracted
    decreases j - i
  {
    if i < j {
      UnpackableExtracted(images, i + 1, accepts, j);
    }
  }

  lemma {:induction false} ExtractedWitness(images: seq<Option<seq<byte>>>, i: nat, accepts: seq<byte> -> bool)
    returns (j: nat)
    requires i <= |images| && Extract(images, i, accepts).extracted
    ensures i <= j < |images| && Unpackable(images[j], accepts)
    decreases |images| - i
  {
    if Unpackable(images[i], accepts) {
      j := i;
    } else {
      j := ExtractedWitness(images, i + 1, accepts);
    }
  }

  /** An image is extracted exactly when some device holds one that bsdtar accepts. */
  lemma {:induction false} ExtractedIff(images: seq<Option<seq<byte>>>, accepts: seq<byte> -> bool)
    ensures Extract(images, 0, accepts).extracted
       <==> exists j :: 0 <= j < |images| && Unpackable(images[j], accepts)
  {
    if Extract(images, 0, accepts).extracted {
      var j := ExtractedWitness(images, 0, accepts);
    } else if j :| 0 <= j < |images| && Unpackable(images[j], accepts) {
      UnpackableExtracted(images, 0, accepts, j);
    }
  }

  predicate HandsOver(us: seq<Unpacking>, x: nat) {
    exists k :: 0 <= k < |us| && us[k].index == x
  }

  lemma {:induction false} HandsOverCons(u: Unpacking, rest: seq<Unpacking>, x: nat)
    ensures HandsOver([u] + rest, x) <==> u.index == x || HandsOver(rest, x)
  {
    var us := [u] + rest;
    assert us[0] == u && forall k :: 0 <= k < |rest| ==> rest[k] == us[k + 1];
  }

  /** Exactly the images before the first that bsdtar accepts, and that one, are handed to it. */
  lemma {:induction false} HandedOver(images: seq<Option<seq<byte>>>, i: nat, accepts: seq<byte> -> bool, x: nat)
    requires i <= x < |images|
    ensures HandsOver(Extract(images, i, accepts).unpackings, x)
       <==> images[x].Some? && forall j :: i <= j < x ==> !Unpackable(images[j], accepts)
    decreases |images| - i
  {
    var rest := Extract(images, i + 1, accepts).unpackings;
    IndicesFrom(images, i + 1, accepts);
    if images[i].Some? {
      var u := Unpacking(i, images[i].value);
      HandsOverCons(u, if accepts(u.image) then [] else rest, x);
      assert [u] + [] == [u];
    }
    if i < x {
      HandedOver(images, i + 1, accepts, x);
    }
  }

  lemma {:induction false} IndicesFrom(images: seq<Option<seq<byte>>>, i: nat, accepts: seq<byte> -> bool)
    requires i <= |images|
    ensures forall k :: 0 <= k < |Extract(images, i, accepts).unpackings| ==>
      Extract(images, i, accepts).unpackings[k].index >= i
    decreases |images| - i
  {
    if i < |images| {
      IndicesFrom(images, i + 1, accepts);
    }
  }

  /** The image of a device: there exactly when the device opens, a size is given and not zero, and
      every byte of it that the device holds can be read. */
  lemma {:induction false} ImageMeaning(m: Medium, image: seq<byte>)
    ensures Image(m) == Some(image) <==>
      && m.opens && IsoFileSize(m).Ok? && IsoFileSize(m).value.Some? && IsoFileSize(m).value.value > 0
      && !m.Damaged(0, IsoFileSize(m).value.value)
      && image == m.content[..Min(IsoFileSize(m).value.value, |m.content|)]
  {
    if IsoFileSize(m).Ok? && IsoFileSize(m).value.Some? {
      IsoBranches(m);
      assert m.sectorSize > 0;
      assert Clip(m.content, 0, IsoFileSize(m).value.value) == m.content[..Min(IsoFileSize(m).value.value, |m.content|)];
    }
  }

  /** The k-th image handed to bsdtar is the whole image of its own device and nothing else. */
  predicate ExactUnpacking(images: seq<Option<seq<byte>>>, i: nat, us: seq<Unpacking>, k: nat)
    requires k < |us|
  {
    && i <= us[k].index < |images| && images[us[k].index] == Some(us[k].image)
    && (k > 0 ==> us[k - 1].index < us[k].index)
  }

  /** Whatever failed before, bsdtar only ever sees the image of one device, whole and alone, and
      every device at most once, in order. */
  lemma {:induction false} ImagesAreExact(
    images: seq<Option<seq<byte>>>, i: nat, accepts: seq<byte> -> bool, k: nat)
    requires i <= |images| && k < |Extract(images, i, accepts).unpackings|
    ensures ExactUnpacking(images, i, Extract(images, i, accepts).unpackings, k)
    decreases |images| - i
  {
    var us := Extract(images, i, accepts).unpackings;
    var rest := Extract(images, i + 1, accepts).unpackings;
    if images[i] == None {
      ImagesAreExact(images, i + 1, accepts, k);
    } else if k > 0 {
      ImagesAreExact(images, i + 1, accepts, k - 1);
      assert us[k] == rest[k - 1] && (k > 1 ==> us[k - 1] == rest[k - 2]);
    }
  }
}
