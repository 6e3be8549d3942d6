# A model of the sbc wire codec and its input checks

The `sbc` package restores end-to-end-encryption backup keys. It sends a
*claim* that carries an ephemeral key and a wrapped seed, and it receives a
*recovery key* and a *blob payload*, the encrypted key material. All three
messages travel in a hand-written subset of MessagePack. This project models
that codec (`sbc/internal/msgpack`) and proves its properties in Dafny. It
also models the two syntactic checks on a user's mid and passcode
(`sbc/sbc.go`), and the rule that turns an uncompressed P-256 point into
its 64 raw bytes (`sbc/crypto.go`).

Files:

- `wire.dfy`: the fixed-width integer types with their conversions
  (`uint32(k)`, `int32(v)`, `uint64(t)`), and big-endian byte strings with
  their round trip. It also holds the `Outcome` of an operation (a value,
  an error, or a run-time panic) and the `BlobPayload` entity.
- `decode.dfy`: the decoder, written in two layers.
  - Every operation is a function of the input bytes and the cursor
    position. It returns the operation's value and the position afterwards.
  - `Decoder` is a class that holds the input and a cursor. Its methods
    advance the cursor as the source's `bytes.Reader` does, and each is
    proved to agree with its function.
  - The metadata loop of `unpackBlobPayload` is a `while` loop with its
    invariant.
- `encode.dfy`: the encoder, written the same way.
  - Every encoding is a function that gives the exact bytes written.
  - `Encoder` is a class that holds the growing buffer. Each of its methods
    is proved to append exactly those bytes, and on an error the methods
    say what the buffer holds.
- `codec_properties.dfy`: what encoder output looks like to the decoder.
  - The round trips that do hold: array headers up to 15 elements, bins
    below 255 bytes, uint32 and int32 key IDs, metadata entries, the
    recovery-key envelope, the blob-payload envelope, and every field of a
    claim.
  - The exact ways the codec's quirks break the other round trips.
  - The metadata bytes determine the key IDs and the migration flag. These
    bytes are the associated data of the payload's authenticated
    encryption.
- `validate.dfy`: `validateMid` and `validatePasscode`. Each regular
  expression is written as a scan over the string and proved equivalent to
  a direct description of the strings it matches.
- `p256.dfy`: `stripP256Prefix`.

The codec reproduces these behaviours of the source rather than correcting
them:

- A short read zero-pads its buffer.
- A zero-byte read at the end of the input fails.
- The 0xDC and 0xDD array headers panic.
- `packArraySize` ORs the size into 0x90, so every size above 15 corrupts
  the header. With bits 5 and 6 of the size clear, it reads back as the
  size modulo 16. Otherwise the tag itself changes (76 becomes 0xDC).
- bin 16 lengths are written little-endian but read big-endian.
- Lengths of 65535 and above get no header at all.
- The decoder reads the migration marker as one more key entry.

Where the code departs from the MessagePack format, the model follows the
code:

- MessagePack defines the array 16/32 headers 0xDC and 0xDD with 2- and
  4-byte lengths. The code reads one byte after them and then panics.
  `ArrayAtCases` states this, and `ArraySize76Panics` shows that the
  encoder itself can write 0xDC.
- MessagePack's bin 16 length is big-endian. `writeBin` writes it
  little-endian, and `Bin16LengthSwapped` and `Bin16RoundTripIff` state
  the consequence.
- The metadata loop of `unpackBlobPayload` has no case for the migration
  marker [2]. For at most 14 key IDs and a payload below 255 bytes, it
  reads the marker as one more entry with key ID -1, and then it loses
  the payload (`MigrationMarkerMisread`). With 15 key IDs or more the
  count header is already corrupt, and from 255 bytes on the bin header
  differs, so the lemma does not cover those cases.

The codec has no blob-payload encoder. `CodecProperties.Envelope` is a
sample envelope built from the encoder's pieces, the metadata writer and
`writeBin`, and it has no counterpart in the source. It reads back intact
only in two cases:
- for payloads of 1 to 254 bytes. An empty payload is the last field of
  the envelope, and a zero-byte read at the end of the input fails
  (`EmptyBinAtEnd`);
- for the lengths from 255 bytes on that `Bin16RoundTripIff` names
  (multiples of 257), because `writeBin` puts a bin 16 length
  little-endian.

A big-endian bin 16 length, as a standard MessagePack writer emits it, is
read as `BinAtCases` states.

## Model

| member | source | states |
|---|---|---|
| Wire.BigEndianBytes | sbc/internal/msgpack/encode.go:63-65 | binary.BigEndian.PutUintN gives exactly n bytes |
| Wire.BigEndianRoundTrip | sbc/internal/msgpack/decode.go:110 | reading back the n big-endian bytes of v gives v |
| Wire.BigEndianBound | sbc/internal/msgpack/decode.go:110 | n bytes read big-endian are below 256^n |
| Wire.Uint32Of | sbc/internal/msgpack/decode.go:110 | binary.BigEndian.Uint32 is the big-endian value of the four bytes and fits 32 bits |
| Wire.BigEndian | sbc/internal/msgpack/decode.go:110 | no ensures of its own; BigEndianBound bounds it and BigEndianRoundTrip proves it undoes BigEndianBytes |
| Wire.ToUint32 | sbc/internal/msgpack/encode.go:119 | uint32(keyId) keeps the 32 bits: converting back with int32 gives keyId |
| Wire.ToInt32 | sbc/internal/msgpack/decode.go:111 | int32(v) is negative exactly when bit 31 is set and agrees with v modulo 2^32 |
| Wire.ToUint64 | sbc/internal/msgpack/encode.go:74 | uint64(timestamp) agrees with the timestamp modulo 2^64 and equals it when it is not negative |
| Decode.MagicAt | sbc/internal/msgpack/decode.go:20-22 | ReadByte gives the byte under the cursor and advances by one, or io.EOF at the end without moving |
| Decode.ReadAt | sbc/internal/msgpack/decode.go:24-30 | a successful read(n) yields exactly n bytes |
| Decode.ReadAtCases | sbc/internal/msgpack/decode.go:24-30 | read(n) fails exactly when the cursor is at the end, even for n = 0, and then does not move; otherwise it copies min(n, bytes left), zero-pads the rest and advances past the copied bytes; it never panics |
| Decode.ArrayAt | sbc/internal/msgpack/decode.go:32-57 | no ensures of its own; ArrayAtCases characterises it; ArraySizeRoundTrip, ArraySizeReadBack and ArraySize76Panics relate it to packArraySize; Decoder.UnpackArray is proved equal to it |
| Decode.ArrayAtCases | sbc/internal/msgpack/decode.go:32-57 | 0x90-0x9F gives the low four bits and advances one byte; 0xDC/0xDD panic exactly when a byte follows them; -1 exactly at the end of input, for any other byte, or for 0xDC/0xDD as the last byte; the size is always between -1 and 15; the cursor stays put only at the end of input, moves two bytes on a panic, and otherwise moves one byte, so a non-array byte is consumed even when -1 is returned |
| Decode.UintAt | sbc/internal/msgpack/decode.go:59-68 | no ensures of its own; UintAtCases characterises it; Decoder.UnpackUint is proved equal to it |
| Decode.UintAtCases | sbc/internal/msgpack/decode.go:59-68 | io.EOF at the end; a byte with the high bit set is refused after being consumed; otherwise the byte |
| Decode.UnpackUint16 | sbc/internal/msgpack/decode.go:70-72 | the first two bytes read big-endian, below 65536 |
| Decode.BinAt | sbc/internal/msgpack/decode.go:74-96 | no ensures of its own; BinAtCases characterises it; Bin8RoundTrip, EmptyBinAtEnd and Bin16RoundTripIff relate it to writeBin; Decoder.UnpackBin is proved equal to it |
| Decode.BinAtCases | sbc/internal/msgpack/decode.go:74-96 | io.EOF at the end; any tag but 0xC4/0xC5 is "invalid data" after one byte; 0xC4 reads the one-byte length and then that many bytes; 0xC5 reads a big-endian two-byte length and then that many bytes; a lone tag at the end fails with the cursor at the end, as io.EOF when it is 0xC4 or 0xC5; 0xC5 with one byte after it reads a zero-padded length and then fails with io.EOF; it never panics |
| Decode.Int32At | sbc/internal/msgpack/decode.go:98-112 | no ensures of its own; Int32AtCases characterises it; Uint32RoundTrip relates it to writeUint32; Decoder.UnpackInt32 is proved equal to it |
| Decode.Int32AtCases | sbc/internal/msgpack/decode.go:98-112 | -1 at the end and for any tag but 0xCE; after 0xCE and four bytes, int32 of their big-endian value, advancing five bytes; -1 when 0xCE is the last byte; with one to three bytes after 0xCE, int32 of those bytes zero-padded to four, ending at the end of the input |
| Decode.RecoveryKeyAt | sbc/internal/msgpack/decode.go:114-127 | no ensures of its own; RecoveryKeyAccepted gives when it yields a 16-byte key; Decoder.UnpackRecoveryKey is proved equal to it |
| Decode.RecoveryKeyOf | sbc/internal/msgpack/decode.go:129-139 | an accepted recovery key is exactly 16 bytes |
| Decode.EntryAt | sbc/internal/msgpack/decode.go:158-162 | one pass of the metadata loop never reports an error, and it panics exactly when its array header panics |
| Decode.EntriesFrom | sbc/internal/msgpack/decode.go:157-162 | the metadata loop never reports an error |
| Decode.BlobPayloadAt | sbc/internal/msgpack/decode.go:146-164 | no ensures of its own; BlobPayloadPrefix, BlobPayloadEmptyContainer and BlobPayloadFromParts characterise it; BlobPayloadRoundTrip and MigrationMarkerMisread relate it to the encoder; Decoder.UnpackBlobPayload is proved equal to it |
| Decode.Decoder.constructor | sbc/internal/msgpack/decode.go:16-18 | a new decoder holds the input with the cursor at 0 |
| Decode.Decoder.Magic | sbc/internal/msgpack/decode.go:20-22 | the value and the new cursor are those of MagicAt |
| Decode.Decoder.Read | sbc/internal/msgpack/decode.go:24-30 | the value and the new cursor are those of ReadAt |
| Decode.Decoder.UnpackArray | sbc/internal/msgpack/decode.go:32-57 | the value and the new cursor are those of ArrayAt |
| Decode.Decoder.UnpackUint | sbc/internal/msgpack/decode.go:59-68 | the value and the new cursor are those of UintAt |
| Decode.Decoder.UnpackBin | sbc/internal/msgpack/decode.go:74-96 | the value and the new cursor are those of BinAt |
| Decode.Decoder.UnpackInt32 | sbc/internal/msgpack/decode.go:98-112 | the value and the new cursor are those of Int32At |
| Decode.Decoder.UnpackRecoveryKey | sbc/internal/msgpack/decode.go:114-127 | the value and the new cursor are those of RecoveryKeyAt: a 2-element array, the positive int 1, a bin |
| Decode.Decoder.ReadEntries | sbc/internal/msgpack/decode.go:157-162 | the loop over count entries yields the key IDs, and the cursor, of EntriesFrom |
| Decode.Decoder.UnpackBlobPayload | sbc/internal/msgpack/decode.go:146-164 | the key IDs, the payload and the new cursor are those of BlobPayloadAt |
| Decode.UnpackRecoveryKey | sbc/internal/msgpack/decode.go:129-139 | the result is RecoveryKeyOf of the input and, when accepted, 16 bytes long |
| Decode.UnpackBlobPayload | sbc/internal/msgpack/decode.go:166-170 | panics exactly when the decoder does; otherwise shows the decoded payload, or nothing when decoding failed |
| Encode.NewKeyWrap | sbc/internal/msgpack/encode.go:22-24 | never nil, and holds exactly the two slices given |
| Encode.ArraySizeByte | sbc/internal/msgpack/encode.go:43-45 | up to 15 the header byte is 0x90 + size; it is never below 0x90 |
| Encode.ArraySizeByteIsOr | sbc/internal/msgpack/encode.go:43-45 | the header byte is the eight-bit OR of 0x90 and the size, for every size |
| Encode.BinHeader | sbc/internal/msgpack/encode.go:47-57 | no ensures of its own; Bin8RoundTrip, Bin16LengthSwapped and LongBinUntagged state how the decoder reads it |
| Encode.BinBytes | sbc/internal/msgpack/encode.go:47-59 | no ensures of its own; Encoder.WriteBin is proved to append it; Bin8RoundTrip and Bin16RoundTripIff give when BinAt reads it back |
| Encode.Uint32Bytes | sbc/internal/msgpack/encode.go:61-67 | no ensures of its own; Encoder.WriteUint32 is proved to append it; Uint32RoundTrip reads it back through Int32At |
| Encode.KeyWrapFault | sbc/internal/msgpack/encode.go:86-95 | a key wrap is refused exactly when it is nil, its certificate key is not 64 bytes, or its seed is neither 16 nor 32 bytes, with the error of the first failed check |
| Encode.KeyWrapBytes | sbc/internal/msgpack/encode.go:97-100 | no ensures of its own; Encoder.PackKeyWrap is proved to append it; ClaimDecodes reads its header and bins back |
| Encode.ClaimHead | sbc/internal/msgpack/encode.go:70-77 | no ensures of its own; Encoder.PackClaim leaves it in the buffer on an error; ClaimFields lays it out and ClaimDecodes reads it back |
| Encode.ClaimOf | sbc/internal/msgpack/encode.go:69-84 | a claim fails exactly when its key wrap is refused, with that error, and never panics |
| Encode.EntryBytes | sbc/internal/msgpack/encode.go:117-121 | no ensures of its own; EntryBytesDetermineKeyId shows it determines the key ID and EntryRoundTrip reads it back |
| Encode.KeyEntries | sbc/internal/msgpack/encode.go:116-122 | no ensures of its own; KeyEntriesSnoc, KeyEntriesLength, KeyEntryAt and KeyEntriesInjective characterise it; EntriesRoundTrip reads it back |
| Encode.MetaDataCount | sbc/internal/msgpack/encode.go:110-114 | no ensures of its own; MetaDataHeader proves it is the number of key IDs plus one for the marker, and that the header byte is written from it modulo 256; EnvelopeLayout reads it back up to 15 |
| Encode.MigrationMarker | sbc/internal/msgpack/encode.go:123-126 | no ensures of its own; MetaDataLength counts its two bytes, MetaDataInjective recovers the flag from it, and MarkerTail and MigrationMarkerMisread state how the decoder reads it |
| Encode.MetaDataBytes | sbc/internal/msgpack/encode.go:105-128 | no ensures of its own; Encoder.PackBlobPayloadMetaData is proved to append it; MetaDataLength, MetaDataHeader and MetaDataInjective characterise it |
| Encode.MetaDataOf | sbc/internal/msgpack/encode.go:35-41 | a nil payload is "no BlobPayload"; otherwise the metadata bytes of its key IDs and flag |
| Encode.KeyEntriesSnoc | sbc/internal/msgpack/encode.go:116-122 | the entries of the key IDs and one more are those entries followed by the new one |
| Encode.Encoder.constructor | sbc/internal/msgpack/encode.go:13-15 | a new encoder has an empty buffer |
| Encode.Encoder.PackArraySize | sbc/internal/msgpack/encode.go:43-45 | appends the one header byte |
| Encode.Encoder.WriteBin | sbc/internal/msgpack/encode.go:47-59 | appends the bin header for the length (none from 65535 bytes on) and then the bytes |
| Encode.Encoder.WriteUint32 | sbc/internal/msgpack/encode.go:61-67 | appends 0xCE and the four big-endian bytes, and never fails |
| Encode.Encoder.PackKeyWrap | sbc/internal/msgpack/encode.go:86-103 | a refused key wrap returns its error and leaves the buffer unchanged; an accepted one appends the 2-element array and its two bins |
| Encode.Encoder.PackClaim | sbc/internal/msgpack/encode.go:69-84 | fails exactly when the key wrap is refused, after writing the claim's head; otherwise appends the claim bytes and returns the buffer |
| Encode.Encoder.PackBlobPayloadMetaData | sbc/internal/msgpack/encode.go:105-128 | a nil payload writes nothing; otherwise the loop appends the count header (truncated to eight bits), one entry per key ID in order, and the marker when migrating |
| Encode.EncodeClaim | sbc/internal/msgpack/encode.go:26-33 | the result is ClaimOf of the inputs |
| Encode.EncodeBlobPayloadMetaData | sbc/internal/msgpack/encode.go:35-41 | the result is MetaDataOf of the payload |
| CodecProperties.ArraySizeRoundTrip | sbc/internal/msgpack/encode.go:43-45 | a header up to 15 reads back as its size, one byte on, whatever surrounds it |
| CodecProperties.ArraySizeReadBack | sbc/internal/msgpack/encode.go:43-45 | a header reads back as its size exactly when the size is at most 15; with bits 5 and 6 clear it reads back as the size modulo 16 |
| CodecProperties.ArraySize76Panics | sbc/internal/msgpack/decode.go:40-55 | a 76-element header is written as 0xDC and the decoder panics on it |
| CodecProperties.Bin8RoundTrip | sbc/internal/msgpack/encode.go:49-51 | a bin below 255 bytes reads back intact, consuming its field, unless it is empty and ends the input |
| CodecProperties.EmptyBinAtEnd | sbc/internal/msgpack/decode.go:24-30 | an empty bin that ends the input reads as io.EOF |
| CodecProperties.Bin16LengthSwapped | sbc/internal/msgpack/encode.go:52-56 | for 255-65534 bytes the decoder reads the length with its two bytes swapped |
| CodecProperties.SwapFixedIff | sbc/internal/msgpack/encode.go:55 | swapping the bytes of a 16-bit length leaves it unchanged exactly when it is a multiple of 257 |
| CodecProperties.Bin16RoundTripIff | sbc/internal/msgpack/decode.go:87-93 | a bin of 255-65534 bytes reads back intact exactly when its length is a multiple of 257 |
| CodecProperties.LongBinUntagged | sbc/internal/msgpack/encode.go:47-59 | from 65535 bytes on the decoder sees the data itself where the tag should be |
| CodecProperties.Uint32RoundTrip | sbc/internal/msgpack/encode.go:61-67 | a written uint32 reads back through unpackInt32 as int32 of it, five bytes on |
| CodecProperties.KeyIdRoundTrip | sbc/internal/msgpack/encode.go:119 | every int32 key ID survives uint32 on writing and int32 on reading |
| CodecProperties.RecoveryKeyAccepted | sbc/internal/msgpack/decode.go:114-139 | a recovery key is accepted exactly when the input starts 0x92 0x01 and a bin follows that reads as 16 bytes, and the key is that bin |
| CodecProperties.RecoveryKeyRoundTrip | sbc/internal/msgpack/decode.go:129-139 | the envelope [1, bin(key)] of a 16-byte key decodes to that key |
| CodecProperties.RecoveryKeyWrongLength | sbc/internal/msgpack/decode.go:135-137 | any other non-empty key below 255 bytes is refused for its length |
| CodecProperties.KeyEntriesLength | sbc/internal/msgpack/encode.go:116-122 | every key ID takes seven bytes |
| CodecProperties.MetaDataLength | sbc/internal/msgpack/encode.go:105-128 | the metadata is one header byte, seven bytes per key ID and two for the marker |
| CodecProperties.MetaDataHeader | sbc/internal/msgpack/encode.go:110-115 | the header counts the key IDs and the marker modulo 256, and is 0x90 + count up to 15 |
| CodecProperties.KeyEntryAt | sbc/internal/msgpack/encode.go:116-122 | entry i takes bytes 7i to 7i+7 and is 0x92 0x01 0xCE and the i-th key ID big-endian |
| CodecProperties.EntryBytesDetermineKeyId | sbc/internal/msgpack/encode.go:117-121 | two key IDs with the same entry bytes are equal |
| CodecProperties.KeyEntriesInjective | sbc/internal/msgpack/encode.go:116-122 | equally long key-ID lists with the same entry bytes are the same list |
| CodecProperties.MetaDataInjective | sbc/internal/msgpack/encode.go:105-128 | equal metadata bytes mean the same key IDs in the same order and the same migration flag |
| CodecProperties.EntryRoundTrip | sbc/internal/msgpack/decode.go:158-162 | one pass of the metadata loop reads an encoded entry back as its key ID, seven bytes on |
| CodecProperties.EntriesStep | sbc/internal/msgpack/decode.go:158-162 | a pass that yields a key ID leaves the remaining passes to go on with it appended |
| CodecProperties.EntriesSplit | sbc/internal/msgpack/decode.go:157-162 | a + b passes are a passes then b more, unless the first a panic |
| CodecProperties.EntriesRoundTrip | sbc/internal/msgpack/decode.go:157-162 | the loop over encoded entries reads back every key ID in order, consuming seven bytes each |
| CodecProperties.BlobPayloadPrefix | sbc/internal/msgpack/decode.go:147-156 | a payload is accepted only after 0x93 0x01; a missing or other fixarray header is refused as the wrong arity, a negative int as "only accept positive int", another type field as the wrong type |
| CodecProperties.BlobPayloadEmptyContainer | sbc/internal/msgpack/decode.go:157-163 | a -1 container header runs the loop zero times: no key IDs, and the bin is read right after it; the byte in the container's place is consumed, so the bin tag is read from byte 3 |
| CodecProperties.EntriesRoundTripStep | sbc/internal/msgpack/decode.go:158-162 | the first encoded entry followed by the rest read back as the rest does, with its key ID in front |
| CodecProperties.BlobPayloadFromParts | sbc/internal/msgpack/decode.go:146-164 | after the [3, 1] prefix and a container of n entries that read without a panic, the result is those key IDs and the following bin |
| CodecProperties.EnvelopeLayout | sbc/internal/msgpack/decode.go:146-162 | in an envelope of at most 15 elements the decoder reads the prefix, the count and every key ID, and stops at the marker or the bin |
| CodecProperties.BlobPayloadRoundTrip | sbc/internal/msgpack/decode.go:146-164 | without a marker, up to 15 key IDs and a payload of 1-254 bytes decode back to those key IDs in order and that payload, consuming the whole input |
| CodecProperties.MigrationMarkerMisread | sbc/internal/msgpack/encode.go:123-126 | for at most 14 key IDs and a payload below 255 bytes: with the marker the decoder reads one more key ID, -1, and then reads the bin from the payload's length byte, so a payload of any length but 0xC4 or 0xC5 is lost as "invalid data" |
| CodecProperties.MisreadAt | sbc/internal/msgpack/decode.go:157-163 | the same misreading on any input laid out like such an envelope |
| CodecProperties.MarkerAsEntry | sbc/internal/msgpack/decode.go:98-105 | the marker followed by a bin tag reads as one entry with key ID -1, three bytes on |
| CodecProperties.MarkerEntries | sbc/internal/msgpack/decode.go:157-162 | the loop reads the entries and then the marker as the key IDs followed by -1 |
| CodecProperties.ClaimFields | sbc/internal/msgpack/encode.go:69-84 | an accepted claim is [0x95, 2, 0xCF], the timestamp, bin(tempKey), 0x91, 0x92, bin(certKey), bin(seed) and bin(pin), in that order |
| CodecProperties.ClaimDecodes | sbc/internal/msgpack/encode.go:69-84 | the decoder's primitives read every field of the claim back: the prefix, the timestamp, the temporary key, both array headers, the certificate key, the seed and (when non-empty and below 255 bytes) the pin, for a temporary key below 255 bytes (64 in restore.go:91) |
| Validate.ValidMid | sbc/sbc.go:5-8 | no ensures of its own; ValidMidIff proves it accepts exactly the strings in which a mid occurs |
| Validate.ValidMidIff | sbc/sbc.go:5-8 | the scan accepts a mid exactly when 'u' and 32 lower-case hex digits occur somewhere in it |
| Validate.ShortMidRejected | sbc/sbc.go:5-8 | nothing shorter than 33 characters is a valid mid |
| Validate.MidUnanchored | sbc/sbc.go:5-8 | text before or after a valid mid leaves it valid |
| Validate.ValidPasscode | sbc/sbc.go:10-13 | no ensures of its own; ValidPasscodeIff and TrailingNewlineRejected characterise it |
| Validate.AllDigits | sbc/sbc.go:11 | no ensures of its own; AllDigitsIff proves it accepts exactly the strings of ASCII digits |
| Validate.AllDigitsIff | sbc/sbc.go:10-13 | the digit scan accepts exactly the strings of ASCII digits |
| Validate.ValidPasscodeIff | sbc/sbc.go:10-13 | a passcode is accepted exactly when it is six ASCII digits |
| Validate.TrailingNewlineRejected | sbc/sbc.go:10-13 | a passcode followed by a newline is refused |
| P256.StripP256Prefix | sbc/crypto.go:54-59 | the result is the key or the key without its first byte; the byte is dropped exactly when the key is 65 bytes long or starts with 0x04 |
| P256.StripUncompressedPoint | sbc/crypto.go:54-59 | 0x04 followed by the 64 coordinate bytes gives back the coordinates |

## Left out

- Printing is left out. unpackBlobPayload prints the uint and the int32 of every metadata entry (decode.go:160-161). The model returns the int32 values as the key IDs of `BlobScan` and does not keep the uints.
- Decode.UnpackBlobPayload: the Go function returns nothing and prints the payload in hex. The model returns the bytes it would print, plus a flag for the panic.
- The decoder's `off` counter is not modelled. It is written but never read.
- Decode.ArrayAt: the 0xDC/0xDD branches are modelled only as the panic they raise, because binary.BigEndian.Uint16/Uint32 on a one-byte slice always panics. No array 16/32 size is ever returned.
- Encode.ArraySizeByte is written in arithmetic rather than on `bv8`. `ArraySizeByteIsOr` proves that it equals the eight-bit OR of the source for every size.
- Decode.Decoder.ReadEntries: the metadata loop of unpackBlobPayload is a method of its own. unpackBlobPayload calls it.
- Panics are an `Outcome` value. A Go panic unwinds through every caller; here each caller passes `Panic` on at once.
- CodecProperties.BlobPayloadRoundTrip and CodecProperties.EnvelopeLayout: the round trip is proved for `Envelope`, a sample envelope built from the encoder's pieces, which has no counterpart in the source. It is proved only up to 15 metadata elements, because `packArraySize` corrupts larger counts. It is proved only for payloads of 1 to 254 bytes. The lower bound is there because an empty payload ends the input and a zero-byte read at the end fails (`EmptyBinAtEnd`). The upper bound is there because `writeBin` writes a bin 16 length little-endian. From 255 bytes on, `Bin16RoundTripIff` gives the lengths that still read back (the multiples of 257), but the envelope round trip is not restated for them.
- CodecProperties.ClaimDecodes: the claim is read back field by field with the decoder's primitives. The codec has no claim decoder.
- Validate: strings are sequences of characters. Go matches the encoded bytes, but every character the patterns accept is ASCII, so the two views accept the same strings.
- The rest of `sbc/crypto.go` is not part of this model: AES-CTR, AES-GCM, HKDF, Argon2id, ECDH and the random source are wrappers over library code.
- Certificate checks, the restore protocol and the blob decryption (`cert.go`, `restore.go`, `blob.go`) are not part of this model. encode.go:109 and :111 use `payload.MetaData` and `payload.IsMigration()`, which the BlobPayload struct at decode.go:141-144 lacks. The model's BlobPayload (wire.dfy:34) carries the key IDs, the migration flag and the payload as fields.
- The claim's `pin` is taken as given bytes. Hashing the passcode into it is protocol code outside this model.
