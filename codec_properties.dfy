/** What the encoder's bytes look like to the decoder: the round trips that
    hold, and the exact ways the source's quirks break the others. Each
    property is stated for a field that sits anywhere in a longer input,
    with arbitrary bytes before (`pre`) and after (`rest`) it. */
module CodecProperties {
  import opened Wire
  import opened Decode
  import opened Encode

  // ----- array headers -----

  /** packArraySize then unpackArray gives the size back for every size
      up to 15, consuming one byte. */
  lemma ArraySizeRoundTrip(pre: seq<byte>, size: byte, rest: seq<byte>)
    requires size <= 15
    ensures ArrayAt(pre + [ArraySizeByte(size)] + rest, |pre|) == Step(Size(size), |pre| + 1)
  {
    ArrayAtCases(pre + [ArraySizeByte(size)] + rest, |pre|);
  }

  /** Above 15 the OR corrupts the header, so the size comes back exactly
      when it is at most 15. When the size's bits 5 and 6 are clear, what
      comes back is the size modulo 16. */
  lemma ArraySizeReadBack(pre: seq<byte>, size: byte, rest: seq<byte>)
    ensures ArrayAt(pre + [ArraySizeByte(size)] + rest, |pre|).value == Size(size) <==> size <= 15
    ensures size / 32 % 4 == 0 ==>
      ArrayAt(pre + [ArraySizeByte(size)] + rest, |pre|) == Step(Size(size % 16), |pre| + 1)
  {
    var s := pre + [ArraySizeByte(size)] + rest;
    assert s[|pre|] == ArraySizeByte(size);
    ArrayAtCases(s, |pre|);
  }

  /** A 76-element header is written as 0xDC, the tag of array 16, and the
      decoder then panics. */
  lemma ArraySize76Panics(pre: seq<byte>, x: byte, rest: seq<byte>)
    ensures ArraySizeByte(76) == 0xDC
    ensures ArrayAt(pre + [ArraySizeByte(76)] + [x] + rest, |pre|).value == Panicked
  {
    var s := pre + [ArraySizeByte(76)] + [x] + rest;
    assert s[|pre|] == 0xDC;
    ArrayAtCases(s, |pre|);
  }

  // ----- bin -----

  /** writeBin then unpackBin gives the bytes back below 255 bytes,
      consuming the whole field, unless the field is an empty bin at the
      very end of the input. */
  lemma Bin8RoundTrip(pre: seq<byte>, b: seq<byte>, rest: seq<byte>)
    requires |b| < 255
    requires |b| > 0 || |rest| > 0
    ensures BinAt(pre + BinBytes(b) + rest, |pre|) == Step(Ok(b), |pre| + 2 + |b|)
  {
    var s, p := pre + BinBytes(b) + rest, |pre|;
    assert s == pre + [0xC4, |b|] + b + rest;
    assert s[p] == 0xC4 && s[p + 1] == |b|;
    BinAtCases(s, p);
    ReadAtCases(s, p + 2, |b|);
    var r := ReadAt(s, p + 2, |b|).value.value;
    assert r == r[..|b|];
    assert s[p + 2..p + 2 + |b|] == b;
  }

  /** The exception: bytes.Reader refuses even a zero-byte read at the end
      of the input, so an empty bin that ends the input fails. */
  lemma EmptyBinAtEnd(pre: seq<byte>)
    ensures BinAt(pre + BinBytes([]), |pre|) == Step(Err(EndOfInput), |pre| + 2)
  {
    var s := pre + BinBytes([]);
    assert s == pre + [0xC4, 0];
    BinAtCases(s, |pre|);
    ReadAtCases(s, |pre| + 2, 0);
  }

  /** From 255 bytes on writeBin puts the length little-endian, but
      unpackBin reads it big-endian: the length read is the written one
      with its two bytes swapped. */
  lemma Bin16LengthSwapped(pre: seq<byte>, b: seq<byte>, rest: seq<byte>)
    requires 255 <= |b| < 0xFFFF
    ensures BinAt(pre + BinBytes(b) + rest, |pre|)
            == ReadAt(pre + BinBytes(b) + rest, |pre| + 3, (|b| % 256) * 256 + |b| / 256)
  {
    var s, p := pre + BinBytes(b) + rest, |pre|;
    assert s == pre + [0xC5, |b| % 256, |b| / 256] + b + rest;
    assert s[p] == 0xC5 && s[p + 1] == |b| % 256 && s[p + 2] == |b| / 256;
    BinAtCases(s, p);
  }

  /** Swapping the two bytes of a 16-bit length leaves it unchanged
      exactly when it is a multiple of 257. */
  lemma SwapFixedIff(n: nat)
    requires n < 0x1_0000
    ensures (n % 256) * 256 + n / 256 == n <==> n % 257 == 0
  {
    var hi, lo := n / 256, n % 256;
    assert n == 257 * hi + (lo - hi);
    if lo == hi {
      assert n == 257 * hi;
    } else {
      var q := n / 257;
      assert n == 257 * q + n % 257;
      assert 257 * (q - hi) + n % 257 == lo - hi;
    }
  }

  /** So a bin of 255 to 65534 bytes comes back intact exactly when its two
      length bytes are equal, that is when its length is a multiple of
      257. */
  lemma Bin16RoundTripIff(pre: seq<byte>, b: seq<byte>, rest: seq<byte>)
    requires 255 <= |b| < 0xFFFF
    ensures BinAt(pre + BinBytes(b) + rest, |pre|).value == Ok(b) <==> |b| % 257 == 0
  {
    var s, p := pre + BinBytes(b) + rest, |pre|;
    var swapped := (|b| % 256) * 256 + |b| / 256;
    Bin16LengthSwapped(pre, b, rest);
    SwapFixedIff(|b|);
    ReadAtCases(s, p + 3, swapped);
    if swapped == |b| {
      assert s == pre + [0xC5, |b| % 256, |b| / 256] + b + rest;
      var r := ReadAt(s, p + 3, |b|).value.value;
      assert r == r[..|b|];
      assert s[p + 3..p + 3 + |b|] == b;
    }
  }

  /** From 65535 bytes on writeBin writes no tag at all, so the decoder
      takes the first byte of the data for the tag. */
  lemma LongBinUntagged(pre: seq<byte>, b: seq<byte>, rest: seq<byte>)
    requires |b| >= 0xFFFF
    ensures BinAt(pre + BinBytes(b) + rest, |pre|) == BinAt(pre + b + rest, |pre|)
  {
    assert BinBytes(b) == [] + b == b;
  }

  // ----- uint32 / int32 -----

  /** writeUint32 then unpackInt32 gives int32(v), consuming five bytes. */
  lemma Uint32RoundTrip(pre: seq<byte>, v: uint32, rest: seq<byte>)
    ensures Int32At(pre + Uint32Bytes(v) + rest, |pre|) == Step(ToInt32(v), |pre| + 5)
  {
    var s, p := pre + Uint32Bytes(v) + rest, |pre|;
    var be := BigEndianBytes(v, 4);
    assert s == pre + [0xCE] + be + rest;
    assert s[p] == 0xCE;
    assert s[p + 1..p + 5] == be;
    BigEndianRoundTrip(v, 4);
    Int32AtCases(s, p);
  }

  /** A key ID survives the uint32 conversion of the encoder and the int32
      conversion of the decoder. */
  lemma KeyIdRoundTrip(pre: seq<byte>, keyId: int32, rest: seq<byte>)
    ensures Int32At(pre + Uint32Bytes(ToUint32(keyId)) + rest, |pre|) == Step(keyId, |pre| + 5)
  {
    Uint32RoundTrip(pre, ToUint32(keyId), rest);
  }

  // ----- the recovery-key envelope -----

  /** UnpackRecoveryKey accepts exactly the inputs that start with a
      2-element fixarray and the positive int 1, followed by a bin that
      reads as 16 bytes (possibly zero-padded), and yields that bin. */
  lemma RecoveryKeyAccepted(b: seq<byte>)
    ensures RecoveryKeyOf(b).Ok? <==>
      |b| >= 2 && b[0] == 0x92 && b[1] == 0x01 && BinAt(b, 2).value.Ok? && |BinAt(b, 2).value.value| == 16
    ensures RecoveryKeyOf(b).Ok? ==> RecoveryKeyOf(b).value == BinAt(b, 2).value.value
  {
    ArrayAtCases(b, 0);
    if ArrayAt(b, 0) == Step(Size(2), 1) {
      UintAtCases(b, 1);
    }
  }

  /** An envelope written as [1, bin(key)] with a 16-byte key decodes to
      that key. */
  lemma RecoveryKeyRoundTrip(key: seq<byte>)
    requires |key| == 16
    ensures RecoveryKeyOf([ArraySizeByte(2), 1] + BinBytes(key)) == Ok(key)
  {
    var b := [ArraySizeByte(2), 1] + BinBytes(key);
    Bin8RoundTrip([ArraySizeByte(2), 1], key, []);
    assert b == [ArraySizeByte(2), 1] + BinBytes(key) + [];
    RecoveryKeyAccepted(b);
  }

  /** Any other non-empty key below 255 bytes is refused for its length. */
  lemma RecoveryKeyWrongLength(key: seq<byte>)
    requires 0 < |key| < 255 && |key| != 16
    ensures RecoveryKeyOf([ArraySizeByte(2), 1] + BinBytes(key)) == Err(WrongKeyLength)
  {
    var b := [ArraySizeByte(2), 1] + BinBytes(key);
    Bin8RoundTrip([ArraySizeByte(2), 1], key, []);
    assert b == [ArraySizeByte(2), 1] + BinBytes(key) + [];
    ArrayAtCases(b, 0);
    UintAtCases(b, 1);
  }

  // ----- the blob metadata -----

  lemma {:induction false} KeyEntriesLength(keyIds: seq<int32>)
    ensures |KeyEntries(keyIds)| == 7 * |keyIds|
  {
    if keyIds != [] {
      KeyEntriesLength(keyIds[1..]);
    }
  }

  /** The metadata is one header byte, seven bytes per key ID and two for
      the migration marker. */
  lemma MetaDataLength(keyIds: seq<int32>, isMigration: bool)
    ensures |MetaDataBytes(keyIds, isMigration)| == 1 + 7 * |keyIds| + if isMigration then 2 else 0
  {
    KeyEntriesLength(keyIds);
  }

  /** The header counts the key IDs and the marker, and is the plain
      fixarray byte up to 15 elements. */
  lemma MetaDataHeader(keyIds: seq<int32>, isMigration: bool)
    ensures MetaDataBytes(keyIds, isMigration)[0] == ArraySizeByte(MetaDataCount(keyIds, isMigration) % 256)
    ensures MetaDataCount(keyIds, isMigration) == |keyIds| + (if isMigration then 1 else 0)
    ensures MetaDataCount(keyIds, isMigration) <= 15 ==>
      MetaDataBytes(keyIds, isMigration)[0] == 0x90 + MetaDataCount(keyIds, isMigration)
  {
    var h := [ArraySizeByte(MetaDataCount(keyIds, isMigration) % 256)];
    HeadOfConcat(h + KeyEntries(keyIds), MigrationMarker(isMigration));
    HeadOfConcat(h, KeyEntries(keyIds));
  }

  lemma HeadOfConcat(x: seq<byte>, y: seq<byte>)
    requires |x| > 0
    ensures (x + y)[0] == x[0]
  {
  }

  /** Entry i of the metadata sits at bytes 1 + 7i to 8 + 7i and is
      0x92 0x01 0xCE followed by the i-th key ID as a big-endian uint32. */
  lemma {:induction false} KeyEntryAt(keyIds: seq<int32>, i: nat)
    requires i < |keyIds|
    ensures 7 * i + 7 <= |KeyEntries(keyIds)|
    ensures KeyEntries(keyIds)[7 * i..7 * i + 7] == [0x92, 0x01, 0xCE] + BigEndianBytes(ToUint32(keyIds[i]), 4)
  {
    KeyEntriesLength(keyIds);
    var head, tail := EntryBytes(keyIds[0]), KeyEntries(keyIds[1..]);
    EntryBytesShape(keyIds[0]);
    if i == 0 {
      SliceShift(head, tail, 0, 7);
    } else {
      KeyEntryAt(keyIds[1..], i - 1);
      SliceShift(head, tail, 7 * i, 7 * i + 7);
    }
  }

  /** One entry: the two-element array header, the field 1, and the key
      ID as a uint32. */
  lemma EntryBytesShape(keyId: int32)
    ensures EntryBytes(keyId) == [0x92, 0x01, 0xCE] + BigEndianBytes(ToUint32(keyId), 4)
  {
    assert [ArraySizeByte(2), 0x01] + [0xCE] == [0x92, 0x01, 0xCE];
    Assoc([ArraySizeByte(2), 0x01], [0xCE], BigEndianBytes(ToUint32(keyId), 4));
  }

  /** A slice of a concatenation that begins past its first part. */
  lemma SliceShift(x: seq<byte>, y: seq<byte>, a: nat, b: nat)
    requires |x| <= a <= b <= |x| + |y| || (a == 0 && b == |x|)
    ensures a == 0 && b == |x| ==> (x + y)[a..b] == x
    ensures |x| <= a <= b <= |x| + |y| ==> (x + y)[a..b] == y[a - |x|..b - |x|]
  {
  }

  /** The key ID an entry holds can be read back from its bytes. */
  lemma EntryBytesDetermineKeyId(a: int32, b: int32)
    requires EntryBytes(a) == EntryBytes(b)
    ensures a == b
  {
    var ea, eb := BigEndianBytes(ToUint32(a), 4), BigEndianBytes(ToUint32(b), 4);
    assert ea == EntryBytes(a)[3..];
    assert eb == EntryBytes(b)[3..];
    BigEndianRoundTrip(ToUint32(a), 4);
    BigEndianRoundTrip(ToUint32(b), 4);
  }

  lemma {:induction false} KeyEntriesInjective(a: seq<int32>, b: seq<int32>)
    requires |a| == |b|
    requires KeyEntries(a) == KeyEntries(b)
    ensures a == b
  {
    if a != [] {
      KeyEntriesLength(a[1..]);
      KeyEntriesLength(b[1..]);
      var ea, eb := EntryBytes(a[0]), EntryBytes(b[0]);
      assert KeyEntries(a) == ea + KeyEntries(a[1..]);
      assert KeyEntries(b) == eb + KeyEntries(b[1..]);
      assert ea == KeyEntries(a)[..7] == KeyEntries(b)[..7] == eb;
      assert KeyEntries(a[1..]) == KeyEntries(a)[7..] == KeyEntries(b)[7..] == KeyEntries(b[1..]);
      EntryBytesDetermineKeyId(a[0], b[0]);
      KeyEntriesInjective(a[1..], b[1..]);
    }
  }

  /** The metadata bytes, which bind the payload as associated data,
      determine the key IDs and the migration flag: two payloads with the
      same metadata bytes have the same key IDs in the same order and the
      same flag. */
  lemma MetaDataInjective(a: seq<int32>, ma: bool, b: seq<int32>, mb: bool)
    requires MetaDataBytes(a, ma) == MetaDataBytes(b, mb)
    ensures a == b && ma == mb
  {
    MetaDataLength(a, ma);
    MetaDataLength(b, mb);
    assert |a| == |b| && ma == mb;
    var sa, sb := MetaDataBytes(a, ma), MetaDataBytes(b, mb);
    var n := 7 * |a|;
    KeyEntriesLength(a);
    KeyEntriesLength(b);
    assert KeyEntries(a) == sa[1..1 + n];
    assert KeyEntries(b) == sb[1..1 + n];
    KeyEntriesInjective(a, b);
  }

  // ----- the blob-payload envelope -----

  /** The decoder's metadata loop reads an encoded entry back as its key
      ID, consuming the seven bytes. */
  lemma EntryRoundTrip(pre: seq<byte>, keyId: int32, rest: seq<byte>)
    ensures EntryAt(pre + EntryBytes(keyId) + rest, |pre|) == Step(Ok(keyId), |pre| + 7)
  {
    var s, p := pre + EntryBytes(keyId) + rest, |pre|;
    var u := Uint32Bytes(ToUint32(keyId));
    assert s == pre + [ArraySizeByte(2), 0x01] + u + rest;
    ArraySizeRoundTrip(pre, 2, [0x01] + u + rest);
    assert s[p + 1] == 0x01;
    UintAtCases(s, p + 1);
    KeyIdRoundTrip(pre + [ArraySizeByte(2), 0x01], keyId, rest);
  }

  /** One iteration of the metadata loop that reads the key ID v. */
  lemma EntriesStep(s: seq<byte>, p: nat, count: nat, acc: seq<int32>, v: int32, q: nat)
    requires count > 0 && EntryAt(s, p) == Step(Ok(v), q)
    ensures EntriesFrom(s, p, count, acc) == EntriesFrom(s, q, count - 1, acc + [v])
  {
  }

  /** a + b iterations of the loop are a iterations and then b more,
      unless the first a panic. */
  lemma {:induction false} EntriesSplit(s: seq<byte>, p: nat, a: nat, b: nat, acc: seq<int32>)
    ensures EntriesFrom(s, p, a + b, acc) ==
      var r := EntriesFrom(s, p, a, acc);
      if r.value.Panic? then r else EntriesFrom(s, r.next, b, r.value.value)
    decreases a
  {
    if a > 0 {
      var e := EntryAt(s, p);
      if !e.value.Panic? {
        EntriesSplit(s, e.next, a - 1, b, acc + [e.value.value]);
      }
    }
  }

  /** count = |keyIds| iterations of the loop over encoded entries read
      back all the key IDs, in order. */
  lemma {:induction false} EntriesRoundTrip(pre: seq<byte>, keyIds: seq<int32>, rest: seq<byte>, acc: seq<int32>)
    ensures EntriesFrom(pre + KeyEntries(keyIds) + rest, |pre|, |keyIds|, acc)
            == Step(Ok(acc + keyIds), |pre| + 7 * |keyIds|)
    decreases |keyIds|
  {
    if keyIds == [] {
      assert acc + keyIds == acc;
    } else {
      EntriesRoundTrip(pre + EntryBytes(keyIds[0]), keyIds[1..], rest, acc + [keyIds[0]]);
      EntriesRoundTripStep(pre, keyIds, rest, acc);
    }
  }

  /** The inductive step of EntriesRoundTrip: the first entry, then the
      others as the hypothesis gives them. */
  lemma EntriesRoundTripStep(pre: seq<byte>, keyIds: seq<int32>, rest: seq<byte>, acc: seq<int32>)
    requires keyIds != []
    requires var p, t, a := pre + EntryBytes(keyIds[0]), keyIds[1..], acc + [keyIds[0]];
      EntriesFrom(p + KeyEntries(t) + rest, |p|, |t|, a) == Step(Ok(a + t), |p| + 7 * |t|)
    ensures EntriesFrom(pre + KeyEntries(keyIds) + rest, |pre|, |keyIds|, acc)
            == Step(Ok(acc + keyIds), |pre| + 7 * |keyIds|)
  {
    var s := pre + KeyEntries(keyIds) + rest;
    EntriesShape(pre, keyIds, rest);
    EntryRoundTrip(pre, keyIds[0], KeyEntries(keyIds[1..]) + rest);
    EntriesStep(s, |pre|, |keyIds|, acc, keyIds[0], |pre| + 7);
    assert acc + [keyIds[0]] + keyIds[1..] == acc + keyIds;
  }

  /** The entries regrouped as the first entry and the others. */
  lemma EntriesShape(pre: seq<byte>, keyIds: seq<int32>, rest: seq<byte>)
    requires keyIds != []
    ensures |EntryBytes(keyIds[0])| == 7
    ensures pre + KeyEntries(keyIds) + rest == pre + EntryBytes(keyIds[0]) + (KeyEntries(keyIds[1..]) + rest)
    ensures pre + KeyEntries(keyIds) + rest == pre + EntryBytes(keyIds[0]) + KeyEntries(keyIds[1..]) + rest
  {
    var e, tail := EntryBytes(keyIds[0]), KeyEntries(keyIds[1..]);
    Assoc(pre, e, tail);
    Assoc(pre + e, tail, rest);
  }

  /** unpackBlobPayload past a [3-element array, 1] prefix and an
      n-element container header whose n entries read without a panic. */
  lemma BlobPayloadFromParts(s: seq<byte>, n: nat, keyIds: seq<int32>, q: nat)
    requires |s| > 2 && s[0] == 0x93 && s[1] == 1 && ArrayAt(s, 2) == Step(Size(n), 3)
    requires EntriesFrom(s, 3, n, []) == Step(Ok(keyIds), q)
    ensures BlobPayloadAt(s, 0) == Step(BlobScan(keyIds, BinAt(s, q).value), BinAt(s, q).next)
  {
    ArrayAtCases(s, 0);
    UintAtCases(s, 1);
  }

  /** unpackBlobPayload accepts a payload only after the 3-element array
      header and the positive int 1; any other header, or another type
      field, is refused before the metadata is read. */
  lemma BlobPayloadPrefix(s: seq<byte>)
    ensures BlobPayloadAt(s, 0).value.payload.Ok? ==> |s| >= 2 && s[0] == 0x93 && s[1] == 1
    ensures |s| == 0 || (0x90 <= s[0] <= 0x9F && s[0] != 0x93) || (s[0] !in {0xDC, 0xDD} && !(0x90 <= s[0] <= 0x9F)) ==>
      BlobPayloadAt(s, 0).value == BlobScan([], Err(WrongArity))
    ensures |s| >= 2 && s[0] == 0x93 && s[1] >= 0x80 ==> BlobPayloadAt(s, 0).value == BlobScan([], Err(NotPositiveInt))
    ensures |s| >= 2 && s[0] == 0x93 && s[1] < 0x80 && s[1] != 1 ==> BlobPayloadAt(s, 0).value == BlobScan([], Err(WrongObjType))
  {
    ArrayAtCases(s, 0);
    UintAtCases(s, 1);
  }

  /** A metadata container header of -1 (no array header where the
      container should be) runs the loop zero times: the bin is read right
      after the place of the header, and no key IDs are kept. */
  lemma BlobPayloadEmptyContainer(s: seq<byte>)
    requires |s| >= 3 && s[0] == 0x93 && s[1] == 1 && ArrayAt(s, 2).value == Size(-1)
    ensures BlobPayloadAt(s, 0).value == BlobScan([], BinAt(s, ArrayAt(s, 2).next).value)
    ensures BlobPayloadAt(s, 0) == Step(BlobScan([], BinAt(s, 3).value), BinAt(s, 3).next)
  {
    ArrayAtCases(s, 0);
    UintAtCases(s, 1);
  }

  /** The envelope regrouped as its three headers, the entries, and what
      follows them. */
  lemma EnvelopeShape(keyIds: seq<int32>, isMigration: bool, payload: seq<byte>)
    ensures Envelope(keyIds, isMigration, payload)
            == [0x93, 1, ArraySizeByte(MetaDataCount(keyIds, isMigration) % 256)] + KeyEntries(keyIds)
               + (MigrationMarker(isMigration) + BinBytes(payload))
  {
    var h, e, m, b := [ArraySizeByte(MetaDataCount(keyIds, isMigration) % 256)], KeyEntries(keyIds),
                      MigrationMarker(isMigration), BinBytes(payload);
    var t: seq<byte> := [0x93, 1];
    assert t + h == [0x93, 1, ArraySizeByte(MetaDataCount(keyIds, isMigration) % 256)];
    Assoc(t, h + e, m);
    Assoc(t, h, e);
    Assoc(t + h + e, m, b);
  }

  /** A sample envelope built from the encoder's pieces: the blob-payload
      envelope [1, metadata, bin(payload)], with the metadata as
      packBlobPayloadMetaData writes it and the payload as writeBin writes
      it. The codec itself has no blob-payload encoder, so this has no
      counterpart in the source. Its payload reads back from 1 to 254
      bytes: an empty payload is the last field, and a zero-byte read at
      the end of the input fails (EmptyBinAtEnd). From 255 bytes on it
      reads back only for the lengths Bin16RoundTripIff names, because
      writeBin puts a bin 16 length little-endian. A
      big-endian bin 16 length, as a standard MessagePack writer emits it,
      is read as BinAtCases states. */
  function Envelope(keyIds: seq<int32>, isMigration: bool, payload: seq<byte>): (r: seq<byte>)
  {
    [ArraySizeByte(3), 1] + MetaDataBytes(keyIds, isMigration) + BinBytes(payload)
  }

  /** Where the decoder stands in an envelope of at most 15 elements: past
      the headers and the entries, at the marker or the bin. */
  lemma EnvelopeLayout(keyIds: seq<int32>, isMigration: bool, payload: seq<byte>)
    requires MetaDataCount(keyIds, isMigration) <= 15
    ensures var s, q := Envelope(keyIds, isMigration, payload), 3 + 7 * |keyIds|;
      && |s| > 2 && s[0] == 0x93 && s[1] == 1
      && ArrayAt(s, 2) == Step(Size(MetaDataCount(keyIds, isMigration)), 3)
      && EntriesFrom(s, 3, |keyIds|, []) == Step(Ok(keyIds), q)
      && q <= |s| && s[q..] == MigrationMarker(isMigration) + BinBytes(payload)
  {
    var n := MetaDataCount(keyIds, isMigration) % 256;
    assert n == MetaDataCount(keyIds, isMigration);
    var head, entries := [0x93, 1, ArraySizeByte(n)], KeyEntries(keyIds);
    var tail := MigrationMarker(isMigration) + BinBytes(payload);
    EnvelopeShape(keyIds, isMigration, payload);
    var s := head + entries + tail;
    HeadersSplit(n, entries, tail);
    ArraySizeRoundTrip([0x93, 1], n, entries + tail);
    KeyEntriesLength(keyIds);
    EntriesRoundTrip(head, keyIds, tail, []);
    assert [] + keyIds == keyIds;
    assert s[3 + 7 * |keyIds|..] == tail;
  }

  /** A bin 8 field that ends the input reads back as its bytes. */
  lemma Bin8AtEnd(s: seq<byte>, q: nat, b: seq<byte>)
    requires q <= |s| && s[q..] == BinBytes(b) && 0 < |b| < 255
    ensures BinAt(s, q) == Step(Ok(b), |s|)
  {
    assert s == s[..q] + BinBytes(b) + [];
    Bin8RoundTrip(s[..q], b, []);
  }

  /** The envelope with at most 15 key IDs and no migration marker decodes
      to those key IDs and the payload, consuming the whole input. */
  lemma BlobPayloadRoundTrip(keyIds: seq<int32>, payload: seq<byte>)
    requires |keyIds| <= 15
    requires 0 < |payload| < 255
    ensures BlobPayloadAt(Envelope(keyIds, false, payload), 0)
            == Step(BlobScan(keyIds, Ok(payload)), |Envelope(keyIds, false, payload)|)
  {
    var s, q := Envelope(keyIds, false, payload), 3 + 7 * |keyIds|;
    EnvelopeLayout(keyIds, false, payload);
    assert MigrationMarker(false) + BinBytes(payload) == BinBytes(payload);
    Bin8AtEnd(s, q, payload);
    BlobPayloadFromParts(s, |keyIds|, keyIds, q);
  }

  lemma HeadersSplit(n: byte, entries: seq<byte>, tail: seq<byte>)
    ensures [0x93, 1, ArraySizeByte(n)] + entries + tail == [0x93, 1] + [ArraySizeByte(n)] + (entries + tail)
  {
    var head: seq<byte> := [0x93, 1, ArraySizeByte(n)];
    assert [0x93, 1] + [ArraySizeByte(n)] == head;
    Assoc(head, entries, tail);
  }

  /** With the migration marker the header counts one more element, and
      the decoder takes the marker [2] for one more entry: its int32 read
      finds the payload's bin tag instead of 0xCE, yields -1 and swallows
      the tag, so the bin is then read from its length byte. Below 255
      bytes the payload is therefore lost unless its length happens to be
      0xC4 or 0xC5. */
  lemma MigrationMarkerMisread(keyIds: seq<int32>, payload: seq<byte>)
    requires |keyIds| <= 14
    requires |payload| < 255
    ensures var s := Envelope(keyIds, true, payload);
      && BlobPayloadAt(s, 0).value.keyIds == keyIds + [-1]
      && BlobPayloadAt(s, 0).value.payload == BinAt(s, 6 + 7 * |keyIds|).value
      && (|payload| !in {0xC4, 0xC5} ==> BlobPayloadAt(s, 0).value.payload == Err(InvalidBinTag))
  {
    var s, q := Envelope(keyIds, true, payload), 3 + 7 * |keyIds|;
    EnvelopeLayout(keyIds, true, payload);
    MisreadAt(s, keyIds, payload, q);
  }

  /** The misreading, on any input laid out as such an envelope. */
  lemma MisreadAt(s: seq<byte>, keyIds: seq<int32>, payload: seq<byte>, q: nat)
    requires |payload| < 255
    requires |s| > 2 && s[0] == 0x93 && s[1] == 1
    requires ArrayAt(s, 2) == Step(Size(|keyIds| + 1), 3)
    requires EntriesFrom(s, 3, |keyIds|, []) == Step(Ok(keyIds), q)
    requires q <= |s| && s[q..] == MigrationMarker(true) + BinBytes(payload)
    ensures BlobPayloadAt(s, 0).value.keyIds == keyIds + [-1]
    ensures BlobPayloadAt(s, 0).value.payload == BinAt(s, q + 3).value
    ensures |payload| !in {0xC4, 0xC5} ==> BlobPayloadAt(s, 0).value.payload == Err(InvalidBinTag)
  {
    MarkerTail(s, q, payload);
    MarkerEntries(s, keyIds, q);
    BlobPayloadFromParts(s, |keyIds| + 1, keyIds + [-1], q + 3);
    BinAtCases(s, q + 3);
  }

  /** The bytes of the marker and of a short bin's header. */
  lemma MarkerTail(s: seq<byte>, q: nat, payload: seq<byte>)
    requires |payload| < 255
    requires q <= |s| && s[q..] == MigrationMarker(true) + BinBytes(payload)
    ensures q + 3 < |s| && s[q] == 0x91 && s[q + 1] == 2 && s[q + 2] == 0xC4 && s[q + 3] == |payload|
  {
    var tail := s[q..];
    assert tail == [0x91, 2, 0xC4, |payload|] + payload;
    assert s[q] == tail[0] && s[q + 1] == tail[1] && s[q + 2] == tail[2] && s[q + 3] == tail[3];
  }

  /** The loop over the entries and then the marker. */
  lemma MarkerEntries(s: seq<byte>, keyIds: seq<int32>, q: nat)
    requires q + 3 < |s| && s[q] == 0x91 && s[q + 1] == 2 && s[q + 2] == 0xC4
    requires EntriesFrom(s, 3, |keyIds|, []) == Step(Ok(keyIds), q)
    ensures EntriesFrom(s, 3, |keyIds| + 1, []) == Step(Ok(keyIds + [-1]), q + 3)
  {
    EntriesSplit(s, 3, |keyIds|, 1, []);
    MarkerAsEntry(s, q);
    EntriesStep(s, q, 1, keyIds, -1, q + 3);
  }

  /** The marker followed by a bin 8 tag, read as a metadata entry. */
  lemma MarkerAsEntry(s: seq<byte>, q: nat)
    requires q + 3 < |s| && s[q] == 0x91 && s[q + 1] == 2 && s[q + 2] == 0xC4
    ensures EntryAt(s, q) == Step(Ok(-1), q + 3)
  {
    ArrayAtCases(s, q);
    UintAtCases(s, q + 1);
    Int32AtCases(s, q + 2);
  }

  // ----- the claim -----

  /** What follows position q, field by field. */
  lemma SuffixShift(s: seq<byte>, q: nat, x: seq<byte>, y: seq<byte>)
    requires q <= |s| && s[q..] == x + y
    ensures q + |x| <= |s| && s[q + |x|..] == y && s[q..q + |x|] == x
  {
    assert s[q + |x|..] == s[q..][|x|..];
    assert s[q..q + |x|] == s[q..][..|x|];
  }

  lemma ArrayAtHead(s: seq<byte>, q: nat, size: byte, rest: seq<byte>)
    requires size <= 15 && q <= |s| && s[q..] == [ArraySizeByte(size)] + rest
    ensures ArrayAt(s, q) == Step(Size(size), q + 1)
  {
    assert s == s[..q] + [ArraySizeByte(size)] + rest;
    ArraySizeRoundTrip(s[..q], size, rest);
  }

  lemma BinAtHead(s: seq<byte>, q: nat, b: seq<byte>, rest: seq<byte>)
    requires q <= |s| && s[q..] == BinBytes(b) + rest
    requires |b| < 255 && (|b| > 0 || |rest| > 0)
    ensures BinAt(s, q) == Step(Ok(b), q + 2 + |b|)
  {
    assert s == s[..q] + BinBytes(b) + rest;
    Bin8RoundTrip(s[..q], b, rest);
  }

  /** The claim bytes regrouped field by field. */
  lemma ClaimFields(kw: KeyWrap, tempKey: seq<byte>, pin: seq<byte>, timestamp: int64)
    requires |kw.certKey| == 64 && |kw.seed| in {16, 32}
    ensures ClaimOf(Some(kw), tempKey, pin, timestamp).value
            == [0x95, 2, 0xCF] + (BigEndianBytes(ToUint64(timestamp), 8) + (BinBytes(tempKey) + ([0x91]
               + ([0x92] + (BinBytes(kw.certKey) + (BinBytes(kw.seed) + BinBytes(pin)))))))
  {
    var h, t, k := [ArraySizeByte(5), 2, 0xCF], BigEndianBytes(ToUint64(timestamp), 8), BinBytes(tempKey);
    var a, c, e, p := [ArraySizeByte(1)], BinBytes(kw.certKey), BinBytes(kw.seed), BinBytes(pin);
    var w := [ArraySizeByte(2)] + c + e;
    assert ClaimOf(Some(kw), tempKey, pin, timestamp).value == h + t + k + a + w + p;
    Assoc(h + t + k + a, w, p);
    Assoc([ArraySizeByte(2)] + c, e, p);
    Assoc([ArraySizeByte(2)], c, e + p);
    Assoc(h + t + k, a, w + p);
    Assoc(h + t, k, a + (w + p));
    Assoc(h, t, k + (a + (w + p)));
  }

  /** packClaim's output, read back with the decoder's own primitives:
      the [5-element array, 2, uint64 tag] prefix, the timestamp
      big-endian, the temporary key, the 1-element array holding the key
      wrap, the key wrap's 2-element array and its two bins, then the pin.
      The bins come back intact below 255 bytes (the pin only when it is
      not empty, since it ends the input). */
  lemma ClaimDecodes(kw: KeyWrap, tempKey: seq<byte>, pin: seq<byte>, timestamp: int64)
    requires |kw.certKey| == 64 && |kw.seed| in {16, 32}
    requires |tempKey| < 255
    ensures var r, k := ClaimOf(Some(kw), tempKey, pin, timestamp).value, |tempKey|;
      && |r| >= 11 && r[..3] == [0x95, 2, 0xCF]
      && BigEndian(r[3..11]) == ToUint64(timestamp)
      && BinAt(r, 11) == Step(Ok(tempKey), 13 + k)
      && ArrayAt(r, 13 + k) == Step(Size(1), 14 + k)
      && ArrayAt(r, 14 + k) == Step(Size(2), 15 + k)
      && BinAt(r, 15 + k) == Step(Ok(kw.certKey), 81 + k)
      && BinAt(r, 81 + k) == Step(Ok(kw.seed), 83 + k + |kw.seed|)
      && (0 < |pin| < 255 ==> BinAt(r, 83 + k + |kw.seed|) == Step(Ok(pin), |r|))
  {
    ClaimFields(kw, tempKey, pin, timestamp);
    var r := ClaimOf(Some(kw), tempKey, pin, timestamp).value;
    var t := BigEndianBytes(ToUint64(timestamp), 8);
    BigEndianRoundTrip(ToUint64(timestamp), 8);
    var rest := BinBytes(tempKey) + ([0x91] + ([0x92] + (BinBytes(kw.certKey) + (BinBytes(kw.seed) + BinBytes(pin)))));
    ClaimPrefix(r, t, rest);
    ClaimKeyFields(r, tempKey, kw.certKey, kw.seed, pin);
  }

  lemma ClaimPrefix(r: seq<byte>, t: seq<byte>, rest: seq<byte>)
    requires |t| == 8 && r == [0x95, 2, 0xCF] + (t + rest)
    ensures |r| >= 11 && r[..3] == [0x95, 2, 0xCF] && r[3..11] == t && r[11..] == rest
  {
    assert r[0..] == r;
    SuffixShift(r, 0, [0x95, 2, 0xCF], t + rest);
    SuffixShift(r, 3, t, rest);
  }

  lemma ClaimKeyFields(r: seq<byte>, tempKey: seq<byte>, certKey: seq<byte>, seed: seq<byte>, pin: seq<byte>)
    requires |tempKey| < 255 && |certKey| == 64 && |seed| in {16, 32}
    requires 11 <= |r| && r[11..] == BinBytes(tempKey) + ([0x91] + ([0x92] + (BinBytes(certKey) + (BinBytes(seed) + BinBytes(pin)))))
    ensures var k := |tempKey|;
      && BinAt(r, 11) == Step(Ok(tempKey), 13 + k)
      && ArrayAt(r, 13 + k) == Step(Size(1), 14 + k)
      && ArrayAt(r, 14 + k) == Step(Size(2), 15 + k)
      && BinAt(r, 15 + k) == Step(Ok(certKey), 81 + k)
      && BinAt(r, 81 + k) == Step(Ok(seed), 83 + k + |seed|)
      && (0 < |pin| < 255 ==> BinAt(r, 83 + k + |seed|) == Step(Ok(pin), |r|))
  {
    ClaimWrapHeaders(r, tempKey, BinBytes(certKey) + (BinBytes(seed) + BinBytes(pin)));
    ClaimWrapBins(r, 15 + |tempKey|, certKey, seed, pin);
  }

  lemma ClaimWrapHeaders(r: seq<byte>, tempKey: seq<byte>, tail: seq<byte>)
    requires |tempKey| < 255
    requires 11 <= |r| && r[11..] == BinBytes(tempKey) + ([0x91] + ([0x92] + tail))
    ensures var k := |tempKey|;
      && BinAt(r, 11) == Step(Ok(tempKey), 13 + k)
      && ArrayAt(r, 13 + k) == Step(Size(1), 14 + k)
      && ArrayAt(r, 14 + k) == Step(Size(2), 15 + k)
      && 15 + k <= |r| && r[15 + k..] == tail
  {
    var k := |tempKey|;
    BinAtHead(r, 11, tempKey, [0x91] + ([0x92] + tail));
    SuffixShift(r, 11, BinBytes(tempKey), [0x91] + ([0x92] + tail));
    ArrayAtHead(r, 13 + k, 1, [0x92] + tail);
    SuffixShift(r, 13 + k, [0x91], [0x92] + tail);
    ArrayAtHead(r, 14 + k, 2, tail);
    SuffixShift(r, 14 + k, [0x92], tail);
  }

  lemma ClaimWrapBins(r: seq<byte>, q: nat, certKey: seq<byte>, seed: seq<byte>, pin: seq<byte>)
    requires |certKey| == 64 && |seed| in {16, 32}
    requires q <= |r| && r[q..] == BinBytes(certKey) + (BinBytes(seed) + BinBytes(pin))
    ensures BinAt(r, q) == Step(Ok(certKey), q + 66)
    ensures BinAt(r, q + 66) == Step(Ok(seed), q + 68 + |seed|)
    ensures 0 < |pin| < 255 ==> BinAt(r, q + 68 + |seed|) == Step(Ok(pin), |r|)
  {
    var c, e, p := BinBytes(certKey), BinBytes(seed), BinBytes(pin);
    BinAtHead(r, q, certKey, e + p);
    SuffixShift(r, q, c, e + p);
    BinAtHead(r, q + 66, seed, p);
    SuffixShift(r, q + 66, e, p);
    if 0 < |pin| < 255 {
      assert p == p + [];
      BinAtHead(r, q + 68 + |seed|, pin, []);
    }
  }
}
