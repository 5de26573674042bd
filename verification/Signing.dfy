/** The bytes that are signed and hashed: a prefix, then every field with its length in front. */
module Signing {
  import opened Common
  import opened Bytes
  import Decimal

  type Text = seq<Byte>

  const TwoTo32: nat := 0x1_0000_0000

  /** The low 32 bits, big-endian. */
  function Put32(n: nat): Text {
    Digits(n, 4)
  }

  function Field(value: Text): Text {
    Put32(|value|) + value
  }

  function Body(values: seq<Text>): Text {
    if values == [] then [] else Field(values[0]) + Body(values[1..])
  }

  function Encode(prefix: Text, values: seq<Text>): Text {
    prefix + Body(values)
  }

  /** Appends to a buffer, value by value. */
  method LengthPrefixedBytes(prefix: Text, values: seq<Text>) returns (payload: Text)
    ensures payload == Encode(prefix, values)
  {
    payload := prefix;
    var todo := values;
    while todo != []
      invariant Encode(prefix, values) == payload + Body(todo)
      decreases |todo|
    {
      assert payload + (Field(todo[0]) + Body(todo[1..])) == payload + Put32(|todo[0]|) + todo[0] + Body(todo[1..]);
      payload := payload + Put32(|todo[0]|);
      payload := payload + todo[0];
      todo := todo[1..];
    }
  }

  // ----- reading it back -----

  function Decode(body: Text): Option<seq<Text>>
    decreases |body|
  {
    if body == [] then Some([])
    else if |body| < 4 then None
    else
      var n := BigEndian(body[..4]);
      if |body| < 4 + n then None
      else
        var rest := Decode(body[4 + n..]);
        if rest.None? then None else Some([body[4..4 + n]] + rest.value)
  }

  predicate AllShort(values: seq<Text>) {
    forall i | 0 <= i < |values| :: |values[i]| < TwoTo32
  }

  lemma FourBytes()
    ensures Pow256(4) == TwoTo32
  {
    assert Pow256(1) == 0x100 && Pow256(2) == 0x1_0000 && Pow256(3) == 0x100_0000;
  }

  lemma {:induction false} DecodedIsShort(body: Text)
    ensures Decode(body).Some? ==> AllShort(Decode(body).value)
    decreases |body|
  {
    if |body| >= 4 && |body| >= 4 + BigEndian(body[..4]) {
      FourBytes();
      BigEndianBound(body[..4]);
      DecodedIsShort(body[4 + BigEndian(body[..4])..]);
    }
  }

  lemma Parts(p: Text, value: Text, rest: Text)
    ensures (p + value + rest)[..|p|] == p
    ensures (p + value + rest)[|p|..|p| + |value|] == value
    ensures (p + value + rest)[|p| + |value|..] == rest
  {
    assert p + value + rest == p + (value + rest);
  }

  lemma DecodesField(value: Text, rest: Text)
    requires |value| < TwoTo32
    ensures Decode(Field(value) + rest) ==
            if Decode(rest).None? then None else Some([value] + Decode(rest).value)
  {
    FourBytes();
    BigEndianOfDigits(|value|, 4);
    var body := Put32(|value|) + value + rest;
    assert Field(value) + rest == body && |body| == 4 + |value| + |rest|;
    Parts(Put32(|value|), value, rest);
  }

  lemma {:induction false} DecodesShort(values: seq<Text>)
    requires AllShort(values)
    ensures Decode(Body(values)) == Some(values)
    decreases |values|
  {
    if values != [] {
      DecodesShort(values[1..]);
      DecodesField(values[0], Body(values[1..]));
      assert [values[0]] + values[1..] == values;
    }
  }

  /** The encoding can be read back exactly when every value is shorter than 2^32 bytes. */
  lemma DecodesIff(values: seq<Text>)
    ensures Decode(Body(values)) == Some(values) <==> AllShort(values)
  {
    DecodedIsShort(Body(values));
    if AllShort(values) {
      DecodesShort(values);
    }
  }

  lemma EncodeIsInjective(prefix: Text, a: seq<Text>, b: seq<Text>)
    requires AllShort(a) && AllShort(b) && Encode(prefix, a) == Encode(prefix, b)
    ensures a == b
  {
    assert Encode(prefix, a)[|prefix|..] == Body(a) && Encode(prefix, b)[|prefix|..] == Body(b);
    DecodesShort(a);
    DecodesShort(b);
  }

  // ----- beyond that length it collides -----

  lemma {:induction false} ZeroDigits(k: nat, count: nat)
    ensures Digits(k * Pow256(count), count) == Zeros(count)
    decreases count
  {
    if count > 0 {
      Regroup(k, Pow256(count - 1));
      ZeroDigits(k, count - 1);
      ShiftedDigits(k * Pow256(count - 1), count);
    }
  }

  lemma Regroup(k: nat, p: nat)
    ensures k * (256 * p) == 256 * (k * p)
  {
  }

  lemma ShiftedDigits(n: nat, count: nat)
    requires count > 0
    ensures Digits(256 * n, count) == Digits(n, count - 1) + [0]
  {
    assert 256 * n / 256 == n && 256 * n % 256 == 0;
  }

  lemma PutsZeros(k: nat)
    ensures Put32(k * TwoTo32) == Zeros(4)
  {
    FourBytes();
    ZeroDigits(k, 4);
  }

  lemma {:induction false} EmptiesAreZeros(n: nat)
    ensures Body(seq(n, _ => [])) == Zeros(4 * n)
  {
    if n > 0 {
      EmptiesAreZeros(n - 1);
      var values: seq<Text> := seq(n, _ => []);
      var fewer: seq<Text> := seq(n - 1, _ => []);
      assert values[1..] == fewer;
      PutsZeros(0);
      assert Field([]) == Zeros(4);
      assert Zeros(4) + Zeros(4 * (n - 1)) == Zeros(4 * n);
    }
  }

  /** A value of 2^32 zero bytes is encoded like 2^30 + 1 empty values. */
  lemma LongValuesCollide(prefix: Text)
    ensures Encode(prefix, [Zeros(TwoTo32)]) == Encode(prefix, seq(TwoTo32 / 4 + 1, _ => []))
  {
    var long := Zeros(TwoTo32);
    PutsZeros(1);
    assert Body([long]) == Field(long) + Body([long][1..]) && [long][1..] == [];
    assert Field(long) == Zeros(TwoTo32 + 4);
    EmptiesAreZeros(TwoTo32 / 4 + 1);
  }

  // ----- what is signed -----

  /** ASCII text as bytes. */
  function Ascii(s: string): (b: Text)
    requires forall i | 0 <= i < |s| :: s[i] < 128 as char
    ensures |b| == |s| && forall i | 0 <= i < |s| :: b[i] as int == s[i] as int
  {
    seq(|s|, i requires 0 <= i < |s| && s[i] < 128 as char => s[i] as int as Byte)
  }

  function Number(n: int): Text {
    Ascii(Decimal.FromInt(n))
  }

  lemma NumberIsInjective(m: int, n: int)
    requires Number(m) == Number(n)
    ensures m == n
  {
    var a, b := Decimal.FromInt(m), Decimal.FromInt(n);
    assert forall i | 0 <= i < |a| :: a[i] as int == Number(m)[i] as int == Number(n)[i] as int == b[i] as int;
    assert a == b;
    Decimal.IntIsInjective(m, n);
  }

  function Flag(b: bool): Text {
    if b then Ascii("true") else Ascii("false")
  }

  datatype Receipt = Receipt(
    schemaVersion: int, receiptType: Text, startedAt: Text, endedAt: Text, provider: Text, leaseID: Text,
    slug: Text, runID: Text, command: Text, commandSHA256: Text, exitCode: int, syncMs: int,
    commandMs: int, durationMs: int, logSHA256: Text, retainedLogSHA256: Text, logTruncated: bool,
    publicKey: Text, signer: Text, signature: Text)

  function Fields(r: Receipt): seq<Text> {
    [Number(r.schemaVersion), r.receiptType, r.startedAt, r.endedAt, r.provider, r.leaseID, r.slug, r.runID,
     r.command, r.commandSHA256, Number(r.exitCode), Number(r.syncMs), Number(r.commandMs), Number(r.durationMs),
     r.logSHA256, r.retainedLogSHA256, Flag(r.logTruncated), r.publicKey, r.signer]
  }

  function ReceiptPrefix(): Text {
    Ascii("crabbox-terminal-receipt-v2") + [0]
  }

  function CommandPrefix(): Text {
    Ascii("crabbox-command-v1") + [0]
  }

  function SigningBytes(r: Receipt): Text {
    Encode(ReceiptPrefix(), Fields(r))
  }

  function CommandBytes(command: seq<Text>): Text {
    Encode(CommandPrefix(), command)
  }

  lemma FieldsAgree(a: Receipt, b: Receipt)
    requires Fields(a) == Fields(b)
    ensures a.(signature := b.signature) == b
  {
    var x, y := Fields(a), Fields(b);
    assert x[0] == y[0] && x[10] == y[10] && x[11] == y[11] && x[12] == y[12] && x[13] == y[13] && x[16] == y[16];
    NumberIsInjective(a.schemaVersion, b.schemaVersion);
    NumberIsInjective(a.exitCode, b.exitCode);
    NumberIsInjective(a.syncMs, b.syncMs);
    NumberIsInjective(a.commandMs, b.commandMs);
    NumberIsInjective(a.durationMs, b.durationMs);
    assert |Flag(true)| != |Flag(false)|;
    assert x[1] == y[1] && x[2] == y[2] && x[3] == y[3] && x[4] == y[4] && x[5] == y[5] && x[6] == y[6] && x[7] == y[7];
    assert x[8] == y[8] && x[9] == y[9] && x[14] == y[14] && x[15] == y[15] && x[17] == y[17] && x[18] == y[18];
  }

  /** Receipts with the same signed bytes agree on every field but the signature. */
  lemma SigningBytesBind(a: Receipt, b: Receipt)
    requires AllShort(Fields(a)) && AllShort(Fields(b)) && SigningBytes(a) == SigningBytes(b)
    ensures a.(signature := b.signature) == b
  {
    EncodeIsInjective(ReceiptPrefix(), Fields(a), Fields(b));
    FieldsAgree(a, b);
  }

  /** Commands with the same hashed bytes are the same argument list. */
  lemma CommandBytesBind(a: seq<Text>, b: seq<Text>)
    requires AllShort(a) && AllShort(b) && CommandBytes(a) == CommandBytes(b)
    ensures a == b
  {
    EncodeIsInjective(CommandPrefix(), a, b);
  }

  lemma EncodedStart(prefix: Text, values: seq<Text>, k: nat)
    requires k < |prefix|
    ensures k < |Encode(prefix, values)| && Encode(prefix, values)[k] == prefix[k]
  {
  }

  lemma PrefixesDiffer()
    ensures |ReceiptPrefix()| > 8 && |CommandPrefix()| > 8 && ReceiptPrefix()[8] != CommandPrefix()[8]
  {
    assert "crabbox-terminal-receipt-v2"[8] == 't' && "crabbox-command-v1"[8] == 'c';
  }

  /** What is signed for a receipt is never what is hashed for a command, whatever their sizes. */
  lemma PrefixesSeparate(r: Receipt, command: seq<Text>)
    ensures SigningBytes(r) != CommandBytes(command)
  {
    PrefixesDiffer();
    EncodedStart(ReceiptPrefix(), Fields(r), 8);
    EncodedStart(CommandPrefix(), command, 8);
  }
}
