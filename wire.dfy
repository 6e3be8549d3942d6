/** Types shared by the decoder and the encoder of the MessagePack subset:
    fixed-width integers, big-endian byte strings, outcomes and the
    entities the two halves exchange. */
module Wire {

  type byte = x: int | 0 <= x < 0x100
  type uint32 = x: int | 0 <= x < 0x1_0000_0000
  type int32 = x: int | -0x8000_0000 <= x < 0x8000_0000
  type uint64 = x: int | 0 <= x < 0x1_0000_0000_0000_0000
  type int64 = x: int | -0x8000_0000_0000_0000 <= x < 0x8000_0000_0000_0000

  datatype Option<+T> = None | Some(value: T)

  /** The errors the codec reports. `EndOfInput` is the reader's io.EOF;
      the others name why the codec refuses its input. They do not map one
      to one onto its messages: the recovery key's "error" is either
      WrongArity or WrongKeyLength, the blob payload's arity error is
      WrongArity too, and WrongObjType covers the type field of both
      envelopes ("eer" and "error: 2: unpackUint"). */
  datatype Error =
    | EndOfInput      // bytes.Reader at end of input
    | NotPositiveInt  // "only accept positive int"
    | InvalidBinTag   // "invalid data"
    | WrongArity      // envelope array of the wrong size
    | WrongObjType    // envelope type field of the wrong value
    | WrongKeyLength  // recovery key not 16 bytes long
    | NoKeyWrap       // "no KeyWrap"
    | BadCertKeySize  // "invalid public key size"
    | BadSeedSize     // "invalid rng size"
    | NoBlobPayload   // "no BlobPayload"

  /** What an operation of the codec ends in: a value, an error value, or a
      run-time panic that aborts the whole call. */
  datatype Outcome<+T> = Ok(value: T) | Err(error: Error) | Panic

  /** The blob payload: ordered key IDs, whether a migration marker is
      present, and the ciphertext. */
  datatype BlobPayload = BlobPayload(MetaData: seq<int32>, isMigration: bool, Payload: seq<byte>)

  function Pow256(n: nat): (r: nat)
    ensures r > 0
  {
    if n == 0 then 1 else 256 * Pow256(n - 1)
  }

  /** The value of a byte string read most significant byte first
      (binary.BigEndian.UintN). */
  function BigEndian(b: seq<byte>): (v: nat)
  {
    if b == [] then 0 else BigEndian(b[..|b| - 1]) * 256 + b[|b| - 1]
  }

  /** The n-byte big-endian form of v (binary.BigEndian.PutUintN). */
  function BigEndianBytes(v: nat, n: nat): (r: seq<byte>)
    requires v < Pow256(n)
    ensures |r| == n
  {
    if n == 0 then [] else BigEndianBytes(v / 256, n - 1) + [v % 256]
  }

  lemma {:induction false} BigEndianRoundTrip(v: nat, n: nat)
    requires v < Pow256(n)
    ensures BigEndian(BigEndianBytes(v, n)) == v
  {
    if n > 0 {
      var b := BigEndianBytes(v, n);
      assert b[..n - 1] == BigEndianBytes(v / 256, n - 1);
      BigEndianRoundTrip(v / 256, n - 1);
    }
  }

  lemma {:induction false} BigEndianBound(b: seq<byte>)
    ensures BigEndian(b) < Pow256(|b|)
  {
    if b != [] {
      BigEndianBound(b[..|b| - 1]);
    }
  }

  /** binary.BigEndian.Uint32 of a four-byte slice. */
  function Uint32Of(b: seq<byte>): (v: uint32)
    requires |b| == 4
    ensures v == BigEndian(b)
  {
    BigEndianBound(b);
    BigEndian(b)
  }

  /** uint32(k) for an int32 k: the same 32 bits read without a sign. */
  function ToUint32(k: int32): (v: uint32)
    ensures ToInt32(v) == k
  {
    if k < 0 then k + 0x1_0000_0000 else k
  }

  /** int32(v) for a uint32 v: the same 32 bits read in two's complement. */
  function ToInt32(v: uint32): (k: int32)
    ensures (k < 0) <==> (v >= 0x8000_0000)
    ensures k % 0x1_0000_0000 == v
  {
    if v < 0x8000_0000 then v else v - 0x1_0000_0000
  }

  /** uint64(t) for an int64 t. */
  function ToUint64(t: int64): (v: uint64)
    ensures v % 0x1_0000_0000_0000_0000 == t % 0x1_0000_0000_0000_0000
    ensures t >= 0 ==> v == t
  {
    if t < 0 then t + 0x1_0000_0000_0000_0000 else t
  }
}
