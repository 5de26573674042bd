/** The images that pass, as the qcow2 specification's header and this program's limits describe them. */
module Qcow2Exact {
  import opened Common
  import opened Bytes
  import opened Qcow2

  // ----- the fields of a header -----

  predicate HasHeader(image: Image) {
    HeaderV2Bytes <= image.size && HeaderV2Bytes <= |image.content|
  }

  function Version(image: Image): nat
    requires HasHeader(image)
  {
    Field(image.content, 4, 4)
  }

  predicate HasExtra(image: Image) {
    HeaderV3Bytes <= image.size && HeaderV3Bytes <= |image.content|
  }

  function Features(image: Image): nat
    requires HasHeader(image) && (Version(image) == 3 ==> HasExtra(image))
  {
    if Version(image) == 3 then Field(image.content, 72, 8) else 0
  }

  function HeaderBytes(image: Image): nat
    requires HasHeader(image) && (Version(image) == 3 ==> HasExtra(image))
  {
    if Version(image) == 3 then Field(image.content, 100, 4) else HeaderV2Bytes
  }

  function ClusterBits(image: Image): nat
    requires HasHeader(image)
  {
    Field(image.content, 20, 4)
  }

  function VirtualBytes(image: Image): nat
    requires HasHeader(image)
  {
    Field(image.content, 24, 8)
  }

  // ----- well-formed images -----

  /** A standalone, unencrypted qcow2 image of a supported version, not larger than allowed. */
  predicate GoodHeader(image: Image, maxDiskBytes: int) {
    && HasHeader(image)
    && image.content[0] == 0x51 && image.content[1] == 0x46 && image.content[2] == 0x49 && image.content[3] == 0xfb
    && (Version(image) == 2 || Version(image) == 3)
    && Field(image.content, 8, 8) == 0 && Field(image.content, 16, 4) == 0
    && 9 <= ClusterBits(image) <= 21
    && 0 < VirtualBytes(image) <= MaxInt64 && VirtualBytes(image) <= maxDiskBytes
    && Field(image.content, 32, 4) == 0
  }

  /** Of the incompatible features only bits 0, 3 and 4 may be set: dirty, compression type and extended L2 entries. */
  const Supported: set<nat> := {0, 1, 8, 9, 16, 17, 24, 25}

  predicate ExtendedL2(image: Image)
    requires HasHeader(image) && (Version(image) == 3 ==> HasExtra(image))
  {
    Features(image) >= 16
  }

  predicate GoodExtra(image: Image)
    requires HasHeader(image)
  {
    Version(image) == 3 ==>
      && HasExtra(image)
      && Features(image) in Supported
      && Field(image.content, 96, 4) <= 6
      && HeaderV3Bytes <= HeaderBytes(image) <= Pow2(ClusterBits(image)) && HeaderBytes(image) % 8 == 0
      && (ExtendedL2(image) ==> ClusterBits(image) >= 14)
  }

  /** A table of that many bytes lies inside the file, on a cluster boundary. */
  predicate Inside(image: Image, offset: nat, length: int, clusterBytes: nat)
    requires clusterBytes > 0
  {
    0 < offset && offset % clusterBytes == 0 && offset + length <= image.size
  }

  /** The L1 table is small enough, large enough for every guest byte, and inside the file. */
  predicate GoodL1(image: Image)
    requires HasHeader(image) && 9 <= ClusterBits(image) <= 21 && (Version(image) == 3 ==> HasExtra(image))
  {
    ClusterRange(ClusterBits(image));
    var clusterBytes := Pow2(ClusterBits(image));
    var entries := Field(image.content, 36, 4);
    var perEntry := clusterBytes * (clusterBytes / if ExtendedL2(image) then 16 else 8);
    && 0 < entries && entries * 8 <= MaxL1TableBytes && VirtualBytes(image) <= entries * perEntry
    && Inside(image, Field(image.content, 40, 8), entries * 8, clusterBytes)
  }

  /** So are the refcount table and, if there are snapshots, their table. */
  predicate GoodTables(image: Image)
    requires HasHeader(image) && 9 <= ClusterBits(image) <= 21
  {
    ClusterRange(ClusterBits(image));
    var clusterBytes := Pow2(ClusterBits(image));
    var clusters, snapshots := Field(image.content, 56, 4), Field(image.content, 60, 4);
    && 0 < clusters && clusters * clusterBytes <= MaxRefcountBytes
    && Inside(image, Field(image.content, 48, 8), clusters * clusterBytes, clusterBytes)
    && (snapshots > 0 ==>
          Inside(image, Field(image.content, 64, 8), snapshots * MinSnapshotHeaderBytes, clusterBytes))
  }

  /** The extensions are a chain in the first cluster that starts right after the header. */
  ghost predicate GoodExtensions(image: Image)
    requires HasHeader(image) && 9 <= ClusterBits(image) <= 21 && (Version(image) == 3 ==> HasExtra(image))
  {
    var clusterBytes := Pow2(ClusterBits(image));
    exists offsets ::
      Chain(image.content, offsets, if clusterBytes < image.size then clusterBytes else image.size) &&
      offsets[0] == HeaderBytes(image)
  }

  ghost predicate WellFormed(image: Image, maxDiskBytes: int) {
    GoodHeader(image, maxDiskBytes) && GoodExtra(image) && GoodL1(image) && GoodTables(image) && GoodExtensions(image)
  }

  // ----- check by check -----

  lemma MagicIs(content: seq<Byte>)
    requires |content| >= 4
    ensures content[..4] == Magic <==>
            content[0] == 0x51 && content[1] == 0x46 && content[2] == 0x49 && content[3] == 0xfb
  {
    if content[..4] == Magic {
      assert content[..4][0] == 0x51 && content[..4][1] == 0x46 && content[..4][2] == 0x49 && content[..4][3] == 0xfb;
    }
  }

  lemma SupportedIs(features: nat)
    ensures features in Supported <==> !Bit(features, 1) && features < 32 && !Bit(features, 2)
    ensures features in Supported ==> (Bit(features, 4) <==> features >= 16)
  {
    assert BitValue(1) == 2 && BitValue(2) == 4 && BitValue(4) == 16;
  }

  lemma ExtraIs(image: Image)
    requires HasHeader(image) && 9 <= ClusterBits(image) <= 21 && (Version(image) == 2 || Version(image) == 3)
    ensures var extra := CheckV3(image, Version(image), ClusterBits(image), Pow2(ClusterBits(image)));
            && (extra.Ok? <==> GoodExtra(image))
            && (extra.Ok? ==> extra.value == Extra(Features(image), HeaderBytes(image)) &&
                              L2EntryBytes(Features(image)) == if ExtendedL2(image) then 16 else 8)
  {
    if HasExtra(image) {
      SupportedIs(Field(image.content, 72, 8));
    }
    assert Bit(0, 4) == false;
  }

  lemma RangeIs(image: Image, offset: nat, length: int, clusterBytes: nat, reason: Reason)
    requires clusterBytes > 0 && length >= 0
    ensures CheckRange(Unbounded, offset, length, clusterBytes, image.size, reason) == Accepted <==>
            Inside(image, offset, length, clusterBytes)
  {
  }

  /** Rounding the quotient up asks exactly whether the entries cover the size. */
  lemma CoversIs(size: nat, coverage: nat, entries: nat)
    requires coverage > 0
    ensures entries < (size + coverage - 1) / coverage <==> entries * coverage < size
  {
    var q, r := (size + coverage - 1) / coverage, (size + coverage - 1) % coverage;
    QuotientAndRest(size + coverage - 1, coverage);
    if entries < q {
      ProductGrows(entries + 1, q, coverage);
    } else {
      ProductGrows(q, entries, coverage);
    }
  }

  lemma QuotientAndRest(x: nat, d: nat)
    requires d > 0
    ensures x == (x / d) * d + x % d && 0 <= x % d < d
  {
  }

  lemma ProductGrows(a: nat, b: nat, c: nat)
    requires a <= b
    ensures a * c <= b * c
    ensures (a + 1) * c == a * c + c
  {
  }

  lemma L1Is(image: Image)
    requires HasHeader(image) && 9 <= ClusterBits(image) <= 21 && (Version(image) == 3 ==> HasExtra(image))
    requires L2EntryBytes(Features(image)) == if ExtendedL2(image) then 16 else 8
    ensures CheckL1(Unbounded, image, Features(image), ClusterBits(image), VirtualBytes(image)) == Accepted <==>
            GoodL1(image)
  {
    ClusterRange(ClusterBits(image));
    var clusterBytes := Pow2(ClusterBits(image));
    var entries := Field(image.content, 36, 4);
    CoversIs(VirtualBytes(image), Coverage(Unbounded, Features(image), ClusterBits(image)), entries);
    RangeIs(image, Field(image.content, 40, 8), entries * 8, clusterBytes, BadL1Range);
  }

  lemma TablesAre(image: Image)
    requires HasHeader(image) && 9 <= ClusterBits(image) <= 21
    ensures Pow2(ClusterBits(image)) > 0
    ensures CheckTables(Unbounded, image, Pow2(ClusterBits(image))) == Accepted <==> GoodTables(image)
  {
    ClusterRange(ClusterBits(image));
    var clusterBytes := Pow2(ClusterBits(image));
    var clusters, snapshots := Field(image.content, 56, 4), Field(image.content, 60, 4);
    ProductGrows(0, clusters, clusterBytes);
    RangeIs(image, Field(image.content, 48, 8), clusters * clusterBytes, clusterBytes, BadRefcountRange);
    RangeIs(image, Field(image.content, 64, 8), snapshots * MinSnapshotHeaderBytes, clusterBytes, BadSnapshotRange);
  }

  lemma ExtensionsAre(image: Image)
    requires HasHeader(image) && 9 <= ClusterBits(image) <= 21 && (Version(image) == 3 ==> HasExtra(image))
    requires HeaderBytes(image) <= MaxClusterBytes
    ensures var clusterBytes := Pow2(ClusterBits(image));
            && clusterBytes <= MaxClusterBytes
            && (Scan(Unbounded, image.content, HeaderBytes(image),
                     if clusterBytes < image.size then clusterBytes else image.size) == Accepted <==>
                GoodExtensions(image))
  {
    ClusterRange(ClusterBits(image));
    var clusterBytes := Pow2(ClusterBits(image));
    var limit := if clusterBytes < image.size then clusterBytes else image.size;
    ScanIsExact(image.content, HeaderBytes(image), limit);
    ScanAcceptsExactlyChains(image.content, HeaderBytes(image), limit);
  }

  /** The checks after the fixed part of the header. */
  lemma RestIs(image: Image, maxDiskBytes: int)
    requires GoodHeader(image, maxDiskBytes) && image.content[..4] == Magic
    ensures Validate(Unbounded, image, maxDiskBytes) == Accepted <==>
            GoodExtra(image) && GoodL1(image) && GoodTables(image) && GoodExtensions(image)
  {
    ClusterRange(ClusterBits(image));
    ExtraIs(image);
    if GoodExtra(image) {
      L1Is(image);
      TablesAre(image);
      ExtensionsAre(image);
    }
  }

  /** For every image whose size an int64 can hold: it is accepted if and only if it is well formed. */
  lemma AcceptedIff(image: Image, maxDiskBytes: int)
    requires image.size <= MaxInt64
    ensures Validate(Machine, image, maxDiskBytes) == Accepted <==> WellFormed(image, maxDiskBytes)
  {
    MachineArithmeticIsExact(image, maxDiskBytes);
    if HasHeader(image) {
      MagicIs(image.content);
      if GoodHeader(image, maxDiskBytes) {
        RestIs(image, maxDiskBytes);
      }
    }
  }
}
