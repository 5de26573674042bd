/**
  Validating the header of a qcow2 image before anything else reads it, after the Header and Cluster
  mapping sections of the QEMU qcow2 specification.

  Every computation of a check is written with the arithmetic it is done in, so that the 64-bit checks
  can be compared with the same checks over unbounded integers.
 */
module Qcow2 {
  import opened Common
  import opened Bytes

  const HeaderV2Bytes: nat := 72
  const HeaderV3Bytes: nat := 104
  const MaxL1TableBytes: nat := 0x200_0000
  const MaxRefcountBytes: nat := 0x80_0000
  const MinSnapshotHeaderBytes: nat := 40
  const Two32: nat := 0x1_0000_0000
  const Two64: nat := 0x1_0000_0000_0000_0000
  const MaxInt64: nat := 0x7fff_ffff_ffff_ffff

  // ----- arithmetic -----

  datatype Arithmetic = Machine | Unbounded

  /** The value a computation leaves in a 64-bit word, or the value itself. */
  function Word(m: Arithmetic, x: int): int {
    if m == Machine then x % Two64 else x
  }

  lemma SmallWords(m: Arithmetic, x: int, y: int)
    ensures 0 <= x < Two64 ==> Word(m, x) == x
    ensures 0 <= y < Two64 ==> Word(m, y) == y
  {
  }

  function Pow2(n: nat): nat {
    if n == 0 then 1 else 2 * Pow2(n - 1)
  }

  lemma {:induction false} Pow2Adds(a: nat, b: nat)
    ensures Pow2(a + b) == Pow2(a) * Pow2(b)
  {
    if b > 0 {
      Pow2Adds(a, b - 1);
    }
  }

  lemma Pow2OfNine()
    ensures Pow2(9) == 512
  {
    assert Pow2(3) == 8;
    Pow2Adds(3, 3);
    Pow2Adds(6, 3);
  }

  lemma {:induction false} Pow2Grows(a: nat, b: nat)
    requires a <= b
    ensures 1 <= Pow2(a) <= Pow2(b)
    decreases b
  {
    if a < b {
      Pow2Grows(a, b - 1);
    } else if a > 0 {
      Pow2Grows(a - 1, b - 1);
    }
  }

  /** A cluster is 512 bytes to 2 MiB, and a whole number of 512-byte sectors. */
  lemma ClusterRange(bits: nat)
    requires 9 <= bits <= 21
    ensures 512 <= Pow2(bits) <= 0x20_0000 && Pow2(bits) % 512 == 0
  {
    Pow2OfNine();
    Pow2Adds(9, bits - 9);
    Pow2Adds(9, 12);
    Pow2Adds(9, 3);
    assert Pow2(3) == 8;
    Pow2Grows(0, bits - 9);
    Pow2Grows(bits, 21);
    assert Pow2(21) == 512 * Pow2(12) && Pow2(12) == 512 * 8;
  }

  // ----- the file -----

  /** What a read of the image can see, and what the caller was told about its size. */
  datatype Image = Image(content: seq<Byte>, size: int)

  function Field(s: seq<Byte>, at: nat, width: nat): nat
    requires at + width <= |s|
  {
    BigEndian(s[at..at + width])
  }

  lemma Pow256Values()
    ensures Pow256(4) == Two32 && Pow256(8) == Two64
  {
    assert Pow256(2) == 256 * Pow256(1) == 65536;
    assert Pow256(4) == 256 * Pow256(3) && Pow256(3) == 256 * Pow256(2);
    assert Pow256(6) == 256 * Pow256(5) && Pow256(5) == 256 * Pow256(4);
    assert Pow256(8) == 256 * Pow256(7) && Pow256(7) == 256 * Pow256(6);
  }

  lemma FieldRange(s: seq<Byte>, at: nat, width: nat)
    requires at + width <= |s|
    ensures width == 4 ==> Field(s, at, width) < Two32
    ensures width == 8 ==> Field(s, at, width) < Two64
  {
    BigEndianBound(s[at..at + width]);
    Pow256Values();
  }

  datatype Reason =
    | TooShort | Unreadable | BadMagic | BadVersion | BackingFile | BadClusterBits | BadVirtualSize | TooLarge
    | Encrypted | ShortV3 | Corrupt | BadFeatures | BadRefcountOrder | BadHeaderLength | BadExtendedL2
    | BadL1Size | ShortL1 | BadL1Range | BadRefcountSize | BadRefcountRange | BadSnapshotRange
    | EndHasLength | ExtensionTooLong | NoEndMarker

  datatype Verdict = Accepted | Refused(reason: Reason)

  /** Bits 0 to 4 of the incompatible feature word. */
  function BitValue(i: nat): nat
    requires i < 5
  {
    [1, 2, 4, 8, 16][i]
  }

  predicate Bit(x: nat, i: nat)
    requires i < 5
  {
    x / BitValue(i) % 2 == 1
  }

  // ----- the checks -----

  function CheckRange(m: Arithmetic, offset: nat, length: int, alignment: nat, size: int, reason: Reason): Verdict
    requires alignment > 0
  {
    if offset == 0 || offset % alignment != 0 then Refused(reason)
    else
      var limit := Word(m, size);
      if offset > limit || length > Word(m, limit - offset) then Refused(reason) else Accepted
  }

  /** The first cluster bounds the extensions. */
  const MaxClusterBytes: nat := 0x20_0000

  /** The header extensions: typed, padded to eight bytes, up to an end marker inside the first cluster. */
  function Scan(m: Arithmetic, content: seq<Byte>, offset: nat, limit: nat): Verdict
    requires offset <= MaxClusterBytes && limit <= MaxClusterBytes
    decreases limit - offset
  {
    if Word(m, offset + 8) > limit then Refused(NoEndMarker)
    else if offset + 8 > |content| then Refused(Unreadable)
    else
      var kind := Field(content, offset, 4);
      var length := Field(content, offset + 4, 4);
      if kind == 0 then (if length != 0 then Refused(EndHasLength) else Accepted)
      else
        FieldRange(content, offset + 4, 4);
        SmallWords(m, offset + 8, length + 7);
        var padded := Word(m, length + 7) / 8 * 8;
        var body := Word(m, offset + 8);
        SmallWords(m, limit - body, body + padded);
        if padded > Word(m, limit - body) then Refused(ExtensionTooLong)
        else Scan(m, content, Word(m, body + padded), limit)
  }

  /** The part of a version 3 header that version 2 lacks. */
  datatype Extra = Extra(features: nat, headerBytes: nat)

  function CheckV3(image: Image, version: nat, clusterBits: nat, clusterBytes: nat): Reply<Extra, Reason>
    requires |image.content| >= HeaderV2Bytes
  {
    if version != 3 then Ok(Extra(0, HeaderV2Bytes))
    else if image.size < HeaderV3Bytes then Failed(ShortV3)
    else if |image.content| < HeaderV3Bytes then Failed(Unreadable)
    else
      var features := Field(image.content, 72, 8);
      if Bit(features, 1) then Failed(Corrupt)
      else if features >= 32 || Bit(features, 2) then Failed(BadFeatures)
      else if Field(image.content, 96, 4) > 6 then Failed(BadRefcountOrder)
      else
        var headerBytes := Field(image.content, 100, 4);
        if headerBytes < HeaderV3Bytes || headerBytes % 8 != 0 ||
           headerBytes > clusterBytes then Failed(BadHeaderLength)
        else if Bit(features, 4) && clusterBits < 14 then Failed(BadExtendedL2)
        else Ok(Extra(features, headerBytes))
  }

  function L2EntryBytes(features: nat): nat {
    if Bit(features, 4) then 16 else 8
  }

  /** The guest bytes that one L1 entry covers. */
  function Coverage(m: Arithmetic, features: nat, clusterBits: nat): (bytes: int)
    requires 9 <= clusterBits <= 21
    ensures bytes > 0
  {
    CoverageRange(clusterBits, features);
    Word(m, Pow2(clusterBits) * (Pow2(clusterBits) / L2EntryBytes(features)))
  }

  /** The L1 table covers the virtual disk and lies inside the file. */
  function CheckL1(m: Arithmetic, image: Image, features: nat, clusterBits: nat, virtualBytes: nat): Verdict
    requires |image.content| >= HeaderV2Bytes && 9 <= clusterBits <= 21
  {
    ClusterRange(clusterBits);
    var clusterBytes := Pow2(clusterBits);
    var entries := Field(image.content, 36, 4);
    var bytes := Word(m, entries * 8);
    if entries == 0 || bytes > MaxL1TableBytes then Refused(BadL1Size)
    else
      var coverage := Coverage(m, features, clusterBits);
      if entries < Word(m, Word(m, virtualBytes + coverage) - 1) / coverage then Refused(ShortL1)
      else CheckRange(m, Field(image.content, 40, 8), bytes, clusterBytes, image.size, BadL1Range)
  }

  function CheckTables(m: Arithmetic, image: Image, clusterBytes: nat): Verdict
    requires |image.content| >= HeaderV2Bytes && clusterBytes > 0
  {
    var refcountClusters := Field(image.content, 56, 4);
    var refcountBytes := Word(m, refcountClusters * clusterBytes);
    if refcountClusters == 0 || refcountBytes > MaxRefcountBytes then Refused(BadRefcountSize)
    else
      var refcounts := CheckRange(m, Field(image.content, 48, 8), refcountBytes, clusterBytes, image.size,
                                  BadRefcountRange);
      if refcounts.Refused? then refcounts
      else
        var snapshots := Field(image.content, 60, 4);
        if snapshots == 0 then Accepted
        else CheckRange(m, Field(image.content, 64, 8), Word(m, snapshots * MinSnapshotHeaderBytes), clusterBytes,
                        image.size, BadSnapshotRange)
  }

  const Magic: seq<Byte> := [0x51, 0x46, 0x49, 0xfb]

  /** The whole validation, in the program's order. */
  function Validate(m: Arithmetic, image: Image, maxDiskBytes: int): Verdict {
    if image.size < HeaderV2Bytes then Refused(TooShort)
    else if |image.content| < HeaderV2Bytes then Refused(Unreadable)
    else if image.content[..4] != Magic then Refused(BadMagic)
    else
      var version := Field(image.content, 4, 4);
      var clusterBits := Field(image.content, 20, 4);
      var virtualBytes := Field(image.content, 24, 8);
      if version != 2 && version != 3 then Refused(BadVersion)
      else if Field(image.content, 8, 8) != 0 || Field(image.content, 16, 4) != 0 then Refused(BackingFile)
      else if clusterBits < 9 || clusterBits > 21 then Refused(BadClusterBits)
      else if virtualBytes == 0 || virtualBytes > MaxInt64 then Refused(BadVirtualSize)
      else if virtualBytes > maxDiskBytes then Refused(TooLarge)
      else if Field(image.content, 32, 4) != 0 then Refused(Encrypted)
      else
        ClusterRange(clusterBits);
        var clusterBytes := Pow2(clusterBits);
        var extra := CheckV3(image, version, clusterBits, clusterBytes);
        if extra.Failed? then Refused(extra.error)
        else
          var l1 := CheckL1(m, image, extra.value.features, clusterBits, virtualBytes);
          if l1.Refused? then l1
          else
            var tables := CheckTables(m, image, clusterBytes);
            if tables.Refused? then tables
            else
              var size := Word(m, image.size);
              Scan(m, image.content, extra.value.headerBytes, if clusterBytes < size then clusterBytes else size)
  }

  // ----- the machine's arithmetic is exact -----

  lemma Fits(x: int)
    requires 0 <= x < Two64
    ensures Word(Machine, x) == x
  {
  }

  lemma RangeIsExact(offset: nat, length: int, alignment: nat, size: int, reason: Reason)
    requires alignment > 0 && 0 <= size <= MaxInt64
    ensures CheckRange(Machine, offset, length, alignment, size, reason) ==
            CheckRange(Unbounded, offset, length, alignment, size, reason)
  {
    Fits(size);
    if offset <= size {
      Fits(size - offset);
    }
  }

  function Padded(length: nat): nat {
    (length + 7) / 8 * 8
  }

  function Kind(content: seq<Byte>, offset: nat): nat
    requires offset + 8 <= |content|
  {
    Field(content, offset, 4)
  }

  function Length(content: seq<Byte>, offset: nat): nat
    requires offset + 8 <= |content|
  {
    Field(content, offset + 4, 4)
  }

  /** One step of the scan, in either arithmetic. */
  lemma ScanStep(m: Arithmetic, content: seq<Byte>, offset: nat, limit: nat)
    requires offset <= MaxClusterBytes && limit <= MaxClusterBytes
    ensures Scan(m, content, offset, limit) ==
            if offset + 8 > limit then Refused(NoEndMarker)
            else if offset + 8 > |content| then Refused(Unreadable)
            else if Kind(content, offset) == 0 then
              (if Length(content, offset) != 0 then Refused(EndHasLength) else Accepted)
            else if offset + 8 + Padded(Length(content, offset)) > limit then Refused(ExtensionTooLong)
            else Scan(m, content, offset + 8 + Padded(Length(content, offset)), limit)
  {
    Fits(offset + 8);
    if offset + 8 <= limit && offset + 8 <= |content| {
      FieldRange(content, offset + 4, 4);
      PaddingIs(m, offset + 8, Length(content, offset), limit);
    }
  }

  /** The padded length, what is left for it and where it ends, in either arithmetic. */
  lemma PaddingIs(m: Arithmetic, body: nat, length: nat, limit: nat)
    requires body <= limit <= MaxClusterBytes && length < Two32
    ensures Word(m, length + 7) / 8 * 8 == Padded(length) && Word(m, limit - body) == limit - body
    ensures Padded(length) <= limit - body ==> Word(m, body + Padded(length)) == body + Padded(length)
  {
    SmallWords(m, length + 7, limit - body);
    if Padded(length) <= limit - body {
      SmallWords(m, body + Padded(length), 0);
    }
  }

  lemma {:induction false} ScanIsExact(content: seq<Byte>, offset: nat, limit: nat)
    requires offset <= MaxClusterBytes && limit <= MaxClusterBytes
    ensures Scan(Machine, content, offset, limit) == Scan(Unbounded, content, offset, limit)
    decreases limit - offset
  {
    ScanStep(Machine, content, offset, limit);
    ScanStep(Unbounded, content, offset, limit);
    if offset + 8 <= limit && offset + 8 <= |content| {
      var next := offset + 8 + Padded(Length(content, offset));
      if next <= limit {
        ScanIsExact(content, next, limit);
      }
    }
  }

  lemma CoverageRange(clusterBits: nat, features: nat)
    requires 9 <= clusterBits <= 21
    ensures var c := Pow2(clusterBits);
            32 <= c / L2EntryBytes(features) && 1 <= c * (c / L2EntryBytes(features)) <= 0x80_0000_0000
  {
    ClusterRange(clusterBits);
    var c, e := Pow2(clusterBits), Pow2(clusterBits) / L2EntryBytes(features);
    assert 32 <= e <= 0x4_0000;
    ProductRange(c, e, 0x20_0000, 0x4_0000);
  }

  lemma ProductRange(a: nat, b: nat, x: nat, y: nat)
    requires 1 <= a <= x && 1 <= b <= y
    ensures 1 <= a * b <= x * y
  {
    assert a * b <= x * b <= x * y;
  }

  lemma L1IsExact(image: Image, features: nat, clusterBits: nat, virtualBytes: nat)
    requires |image.content| >= HeaderV2Bytes && 9 <= clusterBits <= 21 && 0 <= image.size <= MaxInt64
    requires virtualBytes <= MaxInt64
    ensures CheckL1(Machine, image, features, clusterBits, virtualBytes) ==
            CheckL1(Unbounded, image, features, clusterBits, virtualBytes)
  {
    ClusterRange(clusterBits);
    FieldRange(image.content, 36, 4);
    CoverageRange(clusterBits, features);
    var c := Pow2(clusterBits);
    var entries := Field(image.content, 36, 4);
    var coverage := c * (c / L2EntryBytes(features));
    Fits(entries * 8);
    Fits(coverage);
    Fits(virtualBytes + coverage);
    Fits(virtualBytes + coverage - 1);
    RangeIsExact(Field(image.content, 40, 8), entries * 8, c, image.size, BadL1Range);
  }

  lemma TablesAreExact(image: Image, clusterBits: nat)
    requires |image.content| >= HeaderV2Bytes && 9 <= clusterBits <= 21 && 0 <= image.size <= MaxInt64
    ensures Pow2(clusterBits) > 0
    ensures CheckTables(Machine, image, Pow2(clusterBits)) == CheckTables(Unbounded, image, Pow2(clusterBits))
  {
    ClusterRange(clusterBits);
    FieldRange(image.content, 56, 4);
    FieldRange(image.content, 60, 4);
    var c := Pow2(clusterBits);
    var refcounts, snapshots := Field(image.content, 56, 4), Field(image.content, 60, 4);
    if refcounts > 0 {
      ProductRange(refcounts, c, Two32, 0x20_0000);
    }
    Fits(refcounts * c);
    Fits(snapshots * MinSnapshotHeaderBytes);
    RangeIsExact(Field(image.content, 48, 8), refcounts * c, c, image.size, BadRefcountRange);
    RangeIsExact(Field(image.content, 64, 8), snapshots * MinSnapshotHeaderBytes, c, image.size, BadSnapshotRange);
  }

  /** For every image, and every size an int64 can hold, no 64-bit computation of a check overflows or
      underflows: the verdict is the one that unbounded arithmetic gives. */
  lemma MachineArithmeticIsExact(image: Image, maxDiskBytes: int)
    requires image.size <= MaxInt64
    ensures Validate(Machine, image, maxDiskBytes) == Validate(Unbounded, image, maxDiskBytes)
  {
    if image.size >= HeaderV2Bytes && |image.content| >= HeaderV2Bytes {
      var clusterBits := Field(image.content, 20, 4);
      var virtualBytes := Field(image.content, 24, 8);
      if 9 <= clusterBits <= 21 && virtualBytes <= MaxInt64 {
        ClusterRange(clusterBits);
        var c := Pow2(clusterBits);
        var extra := CheckV3(image, Field(image.content, 4, 4), clusterBits, c);
        if extra.Ok? {
          L1IsExact(image, extra.value.features, clusterBits, virtualBytes);
          TablesAreExact(image, clusterBits);
          Fits(image.size);
          ScanIsExact(image.content, extra.value.headerBytes, if c < image.size then c else image.size);
        }
      }
    }
  }

  // ----- what acceptance means for the extensions -----

  /** The offsets of well-formed extensions, one after the other, the last an empty end marker, all
      inside the bytes that were read. */
  ghost predicate Chain(content: seq<Byte>, offsets: seq<nat>, limit: nat) {
    && offsets != []
    && (forall k | 0 <= k < |offsets| :: offsets[k] + 8 <= limit && offsets[k] + 8 <= |content|)
    && (forall k | 0 <= k < |offsets| - 1 ::
          Kind(content, offsets[k]) != 0 &&
          offsets[k + 1] == offsets[k] + 8 + Padded(Length(content, offsets[k])))
    && Kind(content, offsets[|offsets| - 1]) == 0 && Length(content, offsets[|offsets| - 1]) == 0
  }

  lemma ChainCons(content: seq<Byte>, offset: nat, rest: seq<nat>, limit: nat)
    requires Chain(content, rest, limit) && offset + 8 <= limit && offset + 8 <= |content|
    requires Kind(content, offset) != 0 && rest[0] == offset + 8 + Padded(Length(content, offset))
    ensures Chain(content, [offset] + rest, limit)
  {
    var offsets := [offset] + rest;
    assert offsets[|offsets| - 1] == rest[|rest| - 1];
    forall k | 0 <= k < |offsets|
      ensures offsets[k] + 8 <= limit && offsets[k] + 8 <= |content|
      ensures k < |offsets| - 1 ==>
                Kind(content, offsets[k]) != 0 && offsets[k + 1] == offsets[k] + 8 + Padded(Length(content, offsets[k]))
    {
      if k > 0 {
        assert offsets[k] == rest[k - 1];
        assert k < |offsets| - 1 ==> offsets[k + 1] == rest[k - 1 + 1];
      }
    }
  }

  lemma {:induction false} ScanFindsChain(content: seq<Byte>, offset: nat, limit: nat) returns (offsets: seq<nat>)
    requires offset <= MaxClusterBytes && limit <= MaxClusterBytes
    requires Scan(Machine, content, offset, limit) == Accepted
    ensures Chain(content, offsets, limit) && offsets[0] == offset
    decreases limit - offset
  {
    ScanStep(Machine, content, offset, limit);
    if Kind(content, offset) == 0 {
      offsets := [offset];
    } else {
      var rest := ScanFindsChain(content, offset + 8 + Padded(Length(content, offset)), limit);
      ChainCons(content, offset, rest, limit);
      offsets := [offset] + rest;
    }
  }

  lemma {:induction false} ChainIsAccepted(content: seq<Byte>, offsets: seq<nat>, limit: nat)
    requires Chain(content, offsets, limit) && limit <= MaxClusterBytes
    ensures Scan(Machine, content, offsets[0], limit) == Accepted
    decreases |offsets|
  {
    ScanStep(Machine, content, offsets[0], limit);
    if |offsets| > 1 {
      var rest := offsets[1..];
      assert rest[|rest| - 1] == offsets[|offsets| - 1];
      assert Chain(content, rest, limit) by {
        forall k | 0 <= k < |rest| - 1
          ensures Kind(content, rest[k]) != 0
          ensures rest[k + 1] == rest[k] + 8 + Padded(Length(content, rest[k]))
        {
          assert rest[k] == offsets[k + 1] && rest[k + 1] == offsets[k + 2];
        }
      }
      assert offsets[1] == rest[0];
      ChainIsAccepted(content, rest, limit);
    }
  }

  /** The scan accepts exactly the extension areas that are chains ending at an end marker. */
  lemma ScanAcceptsExactlyChains(content: seq<Byte>, offset: nat, limit: nat)
    requires offset <= MaxClusterBytes && limit <= MaxClusterBytes
    ensures Scan(Machine, content, offset, limit) == Accepted <==>
            exists offsets :: Chain(content, offsets, limit) && offsets[0] == offset
  {
    if Scan(Machine, content, offset, limit) == Accepted {
      var offsets := ScanFindsChain(content, offset, limit);
    }
    forall offsets | Chain(content, offsets, limit) && offsets[0] == offset
      ensures Scan(Machine, content, offset, limit) == Accepted
    {
      ChainIsAccepted(content, offsets, limit);
    }
  }

  // ----- what acceptance means for the guest -----

  /** Where the specification looks up a guest offset: the L1 index. */
  function L1Index(guest: nat, clusterBytes: nat, l2EntryBytes: nat): nat
    requires l2EntryBytes > 0 && clusterBytes / l2EntryBytes > 0 && clusterBytes > 0
  {
    guest / clusterBytes / (clusterBytes / l2EntryBytes)
  }

  lemma QuotientBelow(x: nat, d: nat, bound: nat)
    requires d > 0 && x < d * bound
    ensures x / d < bound
  {
    var q := x / d;
    assert x == d * q + x % d;
    assert d * (bound - q) > 0;
  }

  lemma RoundedUpCovers(size: nat, coverage: nat, entries: nat)
    requires coverage > 0 && entries >= (size + coverage - 1) / coverage
    ensures size <= coverage * entries
  {
    var q := (size + coverage - 1) / coverage;
    assert size + coverage - 1 == coverage * q + (size + coverage - 1) % coverage;
    assert coverage * entries >= coverage * q by {
      assert coverage * (entries - q) >= 0;
    }
  }

  lemma L1CoversGuest(guest: nat, virtualBytes: nat, clusterBytes: nat, perTable: nat, entries: nat)
    requires clusterBytes > 0 && perTable > 0 && guest < virtualBytes
    requires entries >= (virtualBytes + clusterBytes * perTable - 1) / (clusterBytes * perTable)
    ensures guest / clusterBytes / perTable < entries
  {
    RoundedUpCovers(virtualBytes, clusterBytes * perTable, entries);
    assert clusterBytes * perTable * entries == clusterBytes * (perTable * entries);
    QuotientBelow(guest, clusterBytes, perTable * entries);
    QuotientBelow(guest / clusterBytes, perTable, entries);
  }

  /** If the metadata is accepted, every guest offset has an L1 entry, and the eight bytes of that entry
      lie inside the file. */
  lemma AcceptedImageMapsEveryGuestOffset(image: Image, maxDiskBytes: int, guest: nat)
    requires image.size <= MaxInt64 && Validate(Machine, image, maxDiskBytes) == Accepted
    requires guest < Field(image.content, 24, 8)
    ensures 9 <= Field(image.content, 20, 4) <= 21 && Field(image.content, 24, 8) <= maxDiskBytes
    ensures var clusterBytes := Pow2(Field(image.content, 20, 4));
            var features := if Field(image.content, 4, 4) == 3 then Field(image.content, 72, 8) else 0;
            && clusterBytes > 0 && clusterBytes / L2EntryBytes(features) > 0
            && var index := L1Index(guest, clusterBytes, L2EntryBytes(features));
               index < Field(image.content, 36, 4) &&
               Field(image.content, 40, 8) % clusterBytes == 0 &&
               Field(image.content, 40, 8) + index * 8 + 8 <= image.size
  {
    var clusterBits, virtualBytes := Field(image.content, 20, 4), Field(image.content, 24, 8);
    var features := if Field(image.content, 4, 4) == 3 then Field(image.content, 72, 8) else 0;
    AcceptedL1(image, maxDiskBytes);
    L1MapsGuest(image, features, clusterBits, virtualBytes, guest);
  }

  /** What acceptance says about the L1 table. */
  lemma AcceptedL1(image: Image, maxDiskBytes: int)
    requires image.size <= MaxInt64 && Validate(Machine, image, maxDiskBytes) == Accepted
    ensures |image.content| >= HeaderV2Bytes && (Field(image.content, 4, 4) == 3 ==> |image.content| >= HeaderV3Bytes)
    ensures 9 <= Field(image.content, 20, 4) <= 21 && Field(image.content, 24, 8) <= maxDiskBytes
    ensures var features := if Field(image.content, 4, 4) == 3 then Field(image.content, 72, 8) else 0;
            CheckL1(Unbounded, image, features, Field(image.content, 20, 4), Field(image.content, 24, 8)) == Accepted
  {
    MachineArithmeticIsExact(image, maxDiskBytes);
    var extra := CheckV3(image, Field(image.content, 4, 4), Field(image.content, 20, 4),
                         Pow2(Field(image.content, 20, 4)));
  }

  lemma L1MapsGuest(image: Image, features: nat, clusterBits: nat, virtualBytes: nat, guest: nat)
    requires |image.content| >= HeaderV2Bytes && 9 <= clusterBits <= 21 && guest < virtualBytes
    requires CheckL1(Unbounded, image, features, clusterBits, virtualBytes) == Accepted
    ensures var clusterBytes := Pow2(clusterBits);
            && clusterBytes > 0 && clusterBytes / L2EntryBytes(features) > 0
            && var index := L1Index(guest, clusterBytes, L2EntryBytes(features));
               index < Field(image.content, 36, 4) &&
               Field(image.content, 40, 8) % clusterBytes == 0 &&
               Field(image.content, 40, 8) + index * 8 + 8 <= image.size
  {
    ClusterRange(clusterBits);
    CoverageRange(clusterBits, features);
    var c := Pow2(clusterBits);
    L1CoversGuest(guest, virtualBytes, c, c / L2EntryBytes(features), Field(image.content, 36, 4));
  }

  /** If the metadata is accepted, the refcount table lies inside the file and the header extensions are
      read only inside it and end at an end marker. */
  lemma AcceptedImageIsBounded(image: Image, maxDiskBytes: int) returns (offsets: seq<nat>)
    requires image.size <= MaxInt64 && Validate(Machine, image, maxDiskBytes) == Accepted
    ensures Field(image.content, 48, 8) + Field(image.content, 56, 4) * Pow2(Field(image.content, 20, 4)) <= image.size
    ensures Chain(image.content, offsets, if Pow2(Field(image.content, 20, 4)) < image.size
                                          then Pow2(Field(image.content, 20, 4)) else image.size)
  {
    MachineArithmeticIsExact(image, maxDiskBytes);
    var clusterBits := Field(image.content, 20, 4);
    ClusterRange(clusterBits);
    var c := Pow2(clusterBits);
    var extra := CheckV3(image, Field(image.content, 4, 4), clusterBits, c);
    Fits(image.size);
    offsets := ScanFindsChain(image.content, extra.value.headerBytes, if c < image.size then c else image.size);
  }

  // ----- as the program runs it -----

  /** The extension loop. */
  method ValidateHeaderExtensions(content: seq<Byte>, start: nat, limit: nat) returns (verdict: Verdict)
    requires start <= MaxClusterBytes && limit <= MaxClusterBytes
    ensures verdict == Scan(Machine, content, start, limit)
    ensures verdict == Accepted <==> exists offsets :: Chain(content, offsets, limit) && offsets[0] == start
  {
    ScanAcceptsExactlyChains(content, start, limit);
    verdict := ScanExtensions(content, start, limit);
  }

  method ScanExtensions(content: seq<Byte>, start: nat, limit: nat) returns (verdict: Verdict)
    requires start <= MaxClusterBytes && limit <= MaxClusterBytes
    ensures verdict == Scan(Machine, content, start, limit)
  {
    var offset := start;
    while offset + 8 <= limit
      invariant offset <= MaxClusterBytes
      invariant Scan(Machine, content, start, limit) == Scan(Machine, content, offset, limit)
      decreases limit - offset
    {
      ScanStep(Machine, content, offset, limit);
      if offset + 8 > |content| {
        return Refused(Unreadable);
      }
      var kind := Field(content, offset, 4);
      var length := Field(content, offset + 4, 4);
      if kind == 0 {
        return if length != 0 then Refused(EndHasLength) else Accepted;
      }
      var padded := (length + 7) / 8 * 8;
      offset := offset + 8;
      if padded > limit - offset {
        return Refused(ExtensionTooLong);
      }
      offset := offset + padded;
    }
    ScanStep(Machine, content, offset, limit);
    verdict := Refused(NoEndMarker);
  }

  /** Puts the validated header bytes over whatever the file now holds there: `n` bytes were read into
      `p` from `offset`. */
  method PinHeader(p: array<Byte>, n: nat, offset: int, header: seq<Byte>)
    requires n <= p.Length && |header| == 20
    modifies p
    ensures forall i | 0 <= i < p.Length ::
              p[i] == if i < n && 0 <= offset + i < 20 then header[offset + i] else old(p[i])
  {
    if n == 0 || offset >= 20 || offset + n <= 0 {
      return;
    }
    var start := if offset > 0 then offset else 0;
    var end := if offset + n < 20 then offset + n else 20;
    forall i | start - offset <= i < end - offset {
      p[i] := header[offset + i];
    }
  }
}
