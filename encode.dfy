/** The encoder of sbc/internal/msgpack/encode.go.

    Each encoding is given by a function of its inputs that yields the
    bytes it writes; the class `Encoder` holds the growing buffer and its
    methods are proved to append exactly those bytes. */
module Encode {
  import opened Wire

  /** The key wrap of a claim: the service's raw P-256 point and the
      wrapped seed. */
  datatype KeyWrap = KeyWrap(certKey: seq<byte>, seed: seq<byte>)

  /** `NewKeyWrap`: never nil, and holds exactly the two slices given. */
  function NewKeyWrap(ck: seq<byte>, seed: seq<byte>): (kw: Option<KeyWrap>)
    ensures kw.Some? && kw.value.certKey == ck && kw.value.seed == seed
  {
    Some(KeyWrap(ck, seed))
  }

  /** `packArraySize`: the fixarray tag 0x90 ORed with the size in eight
      bits. Bits 4 and 7 come from the tag, the others from the size, so a
      size above 15 spills into the tag (ArraySizeByteIsOr below relates
      this to the bitwise OR). */
  function ArraySizeByte(size: byte): (b: byte)
    ensures size <= 15 ==> b == 0x90 + size
    ensures b >= 0x90
  {
    0x90 + size % 0x10 + 0x20 * (size / 0x20 % 4)
  }

  /** ArraySizeByte is the eight-bit OR `0x9<<4 | size`, for every
      eight-bit size. */
  lemma ArraySizeByteIsOr(size: bv8)
    ensures ArraySizeByte(size as int) == (0x90 | size) as int
  {
  }

  /** `writeBin`: bin 8 (0xC4, one length byte) below 255 bytes, 0xC5 and
      a two-byte length written LITTLE-endian below 65535 bytes, and the
      bytes alone, with no tag, from 65535 bytes on. */
  function BinBytes(b: seq<byte>): (r: seq<byte>)
  {
    BinHeader(|b|) + b
  }

  /** The tag and length `writeBin` puts before n bytes. */
  function BinHeader(n: nat): (r: seq<byte>)
  {
    if n < 0xFF then [0xC4, n]
    else if n < 0xFFFF then [0xC5, n % 256, n / 256]
    else []
  }

  /** `writeUint32`: the tag 0xCE and the value big-endian. */
  function Uint32Bytes(v: uint32): (r: seq<byte>)
  {
    [0xCE] + BigEndianBytes(v, 4)
  }

  /** Why `packKeyWrap` refuses a key wrap, if it does: none given, a
      certificate key that is not 64 bytes, or a seed of neither 16 nor
      32 bytes, checked in that order. */
  function KeyWrapFault(kw: Option<KeyWrap>): (r: Option<Error>)
    ensures r.None? <==> kw.Some? && |kw.value.certKey| == 64 && |kw.value.seed| in {16, 32}
    ensures kw.None? ==> r == Some(NoKeyWrap)
    ensures kw.Some? && |kw.value.certKey| != 64 ==> r == Some(BadCertKeySize)
    ensures kw.Some? && |kw.value.certKey| == 64 && |kw.value.seed| !in {16, 32} ==> r == Some(BadSeedSize)
  {
    if kw.None? then Some(NoKeyWrap)
    else if |kw.value.certKey| != 0x40 then Some(BadCertKeySize)
    else if |kw.value.seed| != 0x10 && |kw.value.seed| != 0x20 then Some(BadSeedSize)
    else None
  }

  /** The bytes `packKeyWrap` writes for an accepted key wrap. */
  function KeyWrapBytes(kw: KeyWrap): (r: seq<byte>)
    requires |kw.certKey| == 64 && |kw.seed| in {16, 32}
  {
    [ArraySizeByte(2)] + BinBytes(kw.certKey) + BinBytes(kw.seed)
  }

  /** What `packClaim` writes before the key wrap: the 5-element array
      header, the type 2, the uint64 tag 0xCF with the timestamp
      big-endian, the temporary key as bin, and the 1-element array that
      holds the key wrap. */
  function ClaimHead(tempKey: seq<byte>, timestamp: int64): (r: seq<byte>)
  {
    [ArraySizeByte(5), 2, 0xCF] + BigEndianBytes(ToUint64(timestamp), 8) + BinBytes(tempKey) + [ArraySizeByte(1)]
  }

  /** `EncodeClaim`: the claim bytes, or the key wrap's fault. */
  function ClaimOf(kw: Option<KeyWrap>, tempKey: seq<byte>, pin: seq<byte>, timestamp: int64): (r: Outcome<seq<byte>>)
    ensures r.Err? <==> KeyWrapFault(kw).Some?
    ensures r.Err? ==> r.error == KeyWrapFault(kw).value
    ensures !r.Panic?
  {
    match KeyWrapFault(kw)
    case Some(e) => Err(e)
    case None => Ok(ClaimHead(tempKey, timestamp) + KeyWrapBytes(kw.value) + BinBytes(pin))
  }

  /** The metadata entry of one key ID: [1, uint32(keyId)]. */
  function EntryBytes(keyId: int32): (r: seq<byte>)
  {
    [ArraySizeByte(2), 0x01] + Uint32Bytes(ToUint32(keyId))
  }

  /** The entries of all key IDs, in order. */
  function KeyEntries(keyIds: seq<int32>): (r: seq<byte>)
  {
    if keyIds == [] then [] else EntryBytes(keyIds[0]) + KeyEntries(keyIds[1..])
  }

  /** The element count of the metadata array: one per key ID, and one
      for the migration marker. */
  function MetaDataCount(keyIds: seq<int32>, isMigration: bool): (n: nat)
  {
    |keyIds| + if isMigration then 1 else 0
  }

  /** The migration marker [2], written after the entries. */
  function MigrationMarker(isMigration: bool): (r: seq<byte>)
  {
    if isMigration then [ArraySizeByte(1), 2] else []
  }

  /** The canonical metadata bytes `packBlobPayloadMetaData` writes, used
      as AEAD associated data. The header's count is truncated to eight
      bits, as uint8(size) does. */
  function MetaDataBytes(keyIds: seq<int32>, isMigration: bool): (r: seq<byte>)
  {
    [ArraySizeByte(MetaDataCount(keyIds, isMigration) % 256)] + KeyEntries(keyIds) + MigrationMarker(isMigration)
  }

  /** `EncodeBlobPayloadMetaData`: an error for a nil payload, otherwise
      the canonical bytes of its key IDs and migration flag alone. */
  function MetaDataOf(payload: Option<BlobPayload>): (r: Outcome<seq<byte>>)
    ensures payload.None? ==> r == Err(NoBlobPayload)
    ensures payload.Some? ==> r == Ok(MetaDataBytes(payload.value.MetaData, payload.value.isMigration))
  {
    if payload.None? then Err(NoBlobPayload)
    else Ok(MetaDataBytes(payload.value.MetaData, payload.value.isMigration))
  }

  lemma {:induction false} KeyEntriesSnoc(keyIds: seq<int32>, keyId: int32)
    ensures KeyEntries(keyIds + [keyId]) == KeyEntries(keyIds) + EntryBytes(keyId)
  {
    if keyIds != [] {
      assert (keyIds + [keyId])[1..] == keyIds[1..] + [keyId];
      KeyEntriesSnoc(keyIds[1..], keyId);
    }
  }

  // The methods below append piece by piece; these lemmas regroup the
  // pieces into the functions above.

  lemma Assoc(a: seq<byte>, b: seq<byte>, c: seq<byte>)
    ensures a + b + c == a + (b + c)
  {
  }

  lemma EmptyRight(a: seq<byte>)
    ensures a + [] == a
  {
  }

  lemma Concat2(pre: seq<byte>, x: byte, y: byte)
    ensures pre + [x] + [y] == pre + [x, y]
  {
    assert [x] + [y] == [x, y];
    Assoc(pre, [x], [y]);
  }

  lemma Concat3(pre: seq<byte>, x: byte, yz: seq<byte>)
    requires |yz| == 2
    ensures pre + [x] + yz == pre + [x, yz[0], yz[1]]
  {
    assert [x] + yz == [x, yz[0], yz[1]];
    Assoc(pre, [x], yz);
  }

  lemma KeyWrapAppend(pre: seq<byte>, kw: KeyWrap)
    requires |kw.certKey| == 64 && |kw.seed| in {16, 32}
    ensures pre + [ArraySizeByte(2)] + BinBytes(kw.certKey) + BinBytes(kw.seed) == pre + KeyWrapBytes(kw)
  {
    var a, b, c := [ArraySizeByte(2)], BinBytes(kw.certKey), BinBytes(kw.seed);
    Assoc(pre, a, b);
    Assoc(pre, a + b, c);
  }

  lemma ClaimHeadAppend(pre: seq<byte>, tempKey: seq<byte>, timestamp: int64)
    ensures pre + [ArraySizeByte(5)] + [2] + [0xCF] + BigEndianBytes(ToUint64(timestamp), 8) + BinBytes(tempKey)
            + [ArraySizeByte(1)] == pre + ClaimHead(tempKey, timestamp)
  {
    var t, k := BigEndianBytes(ToUint64(timestamp), 8), BinBytes(tempKey);
    var h: seq<byte> := [ArraySizeByte(5), 2, 0xCF];
    assert [ArraySizeByte(5)] + [2] + [0xCF] == h;
    Assoc(pre, [ArraySizeByte(5)], [2]);
    Assoc(pre, [ArraySizeByte(5)] + [2], [0xCF]);
    Assoc(pre, h, t);
    Assoc(pre, h + t, k);
    Assoc(pre, h + t + k, [ArraySizeByte(1)]);
  }

  lemma ClaimAppend(pre: seq<byte>, kw: Option<KeyWrap>, tempKey: seq<byte>, pin: seq<byte>, timestamp: int64)
    requires KeyWrapFault(kw).None?
    ensures pre + ClaimHead(tempKey, timestamp) + KeyWrapBytes(kw.value) + BinBytes(pin)
            == pre + ClaimOf(kw, tempKey, pin, timestamp).value
  {
    var h, w, p := ClaimHead(tempKey, timestamp), KeyWrapBytes(kw.value), BinBytes(pin);
    Assoc(pre, h, w);
    Assoc(pre, h + w, p);
  }

  lemma EntryAppend(pre: seq<byte>, keyIds: seq<int32>, keyId: int32)
    ensures pre + KeyEntries(keyIds) + [ArraySizeByte(2)] + [0x01] + Uint32Bytes(ToUint32(keyId))
            == pre + KeyEntries(keyIds + [keyId])
  {
    var e, u := KeyEntries(keyIds), Uint32Bytes(ToUint32(keyId));
    var h: seq<byte> := [ArraySizeByte(2), 0x01];
    assert [ArraySizeByte(2)] + [0x01] == h;
    Assoc(pre + e, [ArraySizeByte(2)], [0x01]);
    Assoc(pre + e, h, u);
    Assoc(pre, e, h + u);
    KeyEntriesSnoc(keyIds, keyId);
  }

  lemma MetaDataAppend(pre: seq<byte>, keyIds: seq<int32>, isMigration: bool)
    ensures pre + [ArraySizeByte(MetaDataCount(keyIds, isMigration) % 256)] + KeyEntries(keyIds)
            + MigrationMarker(isMigration) == pre + MetaDataBytes(keyIds, isMigration)
  {
    var h, e := [ArraySizeByte(MetaDataCount(keyIds, isMigration) % 256)], KeyEntries(keyIds);
    Assoc(pre, h, e);
    Assoc(pre, h + e, MigrationMarker(isMigration));
  }

  lemma MarkerAppend(pre: seq<byte>)
    ensures pre + [ArraySizeByte(1)] + [2] == pre + MigrationMarker(true)
  {
    assert [ArraySizeByte(1)] + [2] == MigrationMarker(true);
    Assoc(pre, [ArraySizeByte(1)], [2]);
  }

  /** The growing output buffer (a bytes.Buffer). */
  class Encoder {
    var buf: seq<byte>

    constructor ()
      ensures buf == []
    {
      buf := [];
    }

    method PackArraySize(size: byte)
      modifies this
      ensures buf == old(buf) + [ArraySizeByte(size)]
    {
      buf := buf + [ArraySizeByte(size)];
    }

    method WriteBin(b: seq<byte>)
      modifies this
      ensures buf == old(buf) + BinBytes(b)
    {
      var size := |b|;
      if size < 0xFF {
        buf := buf + [0xC4];
        buf := buf + [size];
        Concat2(old(buf), 0xC4, size);
      } else if size < 0xFFFF {
        buf := buf + [0xC5];
        var length := [size % 256, size / 256];
        buf := buf + length;
        Concat3(old(buf), 0xC5, length);
      } else {
        EmptyRight(buf);
      }
      buf := buf + b;
      Assoc(old(buf), BinHeader(size), b);
    }

    method WriteUint32(v: uint32) returns (r: Outcome<()>)
      modifies this
      ensures r == Ok(())
      ensures buf == old(buf) + Uint32Bytes(v)
    {
      buf := buf + [0xCE];
      buf := buf + BigEndianBytes(v, 4);
      r := Ok(());
    }

    method PackKeyWrap(kw: Option<KeyWrap>) returns (r: Outcome<()>)
      modifies this
      ensures r.Err? <==> KeyWrapFault(kw).Some?
      ensures r.Err? ==> r.error == KeyWrapFault(kw).value && buf == old(buf)
      ensures r.Ok? ==> r == Ok(()) && buf == old(buf) + KeyWrapBytes(kw.value)
      ensures !r.Panic?
    {
      if kw.None? {
        return Err(NoKeyWrap);
      }
      if |kw.value.certKey| != 0x40 {
        return Err(BadCertKeySize);
      }
      var size := |kw.value.seed|;
      if size != 0x10 && size != 0x20 {
        return Err(BadSeedSize);
      }
      PackArraySize(2);
      WriteBin(kw.value.certKey);
      WriteBin(kw.value.seed);
      KeyWrapAppend(old(buf), kw.value);
      r := Ok(());
    }

    method PackClaim(kw: Option<KeyWrap>, tempKey: seq<byte>, pin: seq<byte>, timestamp: int64)
      returns (r: Outcome<seq<byte>>)
      modifies this
      ensures r.Err? <==> KeyWrapFault(kw).Some?
      ensures r.Err? ==> r.error == KeyWrapFault(kw).value && buf == old(buf) + ClaimHead(tempKey, timestamp)
      ensures r.Ok? ==> r.value == buf && buf == old(buf) + ClaimOf(kw, tempKey, pin, timestamp).value
      ensures !r.Panic?
    {
      PackArraySize(5);
      buf := buf + [2];
      buf := buf + [0xCF];
      var ut := BigEndianBytes(ToUint64(timestamp), 8);
      buf := buf + ut;
      WriteBin(tempKey);
      PackArraySize(1);
      ClaimHeadAppend(old(buf), tempKey, timestamp);
      var err := PackKeyWrap(kw);
      if err.Err? {
        return Err(err.error);
      }
      WriteBin(pin);
      ClaimAppend(old(buf), kw, tempKey, pin, timestamp);
      r := Ok(buf);
    }

    method PackBlobPayloadMetaData(payload: Option<BlobPayload>) returns (r: Outcome<()>)
      modifies this
      ensures payload.None? ==> r == Err(NoBlobPayload) && buf == old(buf)
      ensures payload.Some? ==>
        r == Ok(()) && buf == old(buf) + MetaDataBytes(payload.value.MetaData, payload.value.isMigration)
    {
      if payload.None? {
        return Err(NoBlobPayload);
      }
      var keyIds := payload.value.MetaData;
      var size := |keyIds|;
      var isMig := payload.value.isMigration;
      if isMig {
        size := size + 1;
      }
      PackArraySize(size % 256);
      ghost var head := buf;
      for i := 0 to |keyIds|
        invariant buf == head + KeyEntries(keyIds[..i])
      {
        PackArraySize(2);
        buf := buf + [0x01];
        var err := WriteUint32(ToUint32(keyIds[i]));
        if err.Err? {
          return err;
        }
        EntryAppend(head, keyIds[..i], keyIds[i]);
        assert keyIds[..i + 1] == keyIds[..i] + [keyIds[i]];
      }
      assert keyIds[..|keyIds|] == keyIds;
      ghost var entries := buf;
      if isMig {
        PackArraySize(1);
        buf := buf + [2];
        MarkerAppend(entries);
      } else {
        EmptyRight(entries);
      }
      MetaDataAppend(old(buf), keyIds, isMig);
      r := Ok(());
    }
  }

  /** `EncodeClaim`: pack a claim into a fresh buffer. */
  method EncodeClaim(kw: Option<KeyWrap>, tempKey: seq<byte>, pin: seq<byte>, timestamp: int64)
    returns (r: Outcome<seq<byte>>)
    ensures r == ClaimOf(kw, tempKey, pin, timestamp)
  {
    var e := new Encoder();
    var claim := e.PackClaim(kw, tempKey, pin, timestamp);
    if claim.Err? {
      return Err(claim.error);
    }
    assert [] + ClaimOf(kw, tempKey, pin, timestamp).value == ClaimOf(kw, tempKey, pin, timestamp).value;
    r := claim;
  }

  /** `EncodeBlobPayloadMetaData`: pack the metadata into a fresh buffer. */
  method EncodeBlobPayloadMetaData(payload: Option<BlobPayload>) returns (r: Outcome<seq<byte>>)
    ensures r == MetaDataOf(payload)
  {
    var e := new Encoder();
    var err := e.PackBlobPayloadMetaData(payload);
    if err.Err? {
      return Err(err.error);
    }
    assert [] + MetaDataOf(payload).value == MetaDataOf(payload).value;
    r := Ok(e.buf);
  }
}
