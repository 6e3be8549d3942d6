/** The decoder of sbc/internal/msgpack/decode.go.

    The source keeps a cursor (a bytes.Reader) that every read advances.
    Each operation is specified here by a function of the input bytes and
    the cursor position that gives the value returned and the position
    afterwards; the class `Decoder` holds the input and the cursor and its
    methods are proved to agree with those functions. */
module Decode {
  import opened Wire

  /** A value together with the cursor position after producing it. */
  datatype Step<+T> = Step(value: T, next: nat)

  /** What unpackArray yields: the int it returns (-1 when no array header
      is found), or the panic of binary.BigEndian on a one-byte slice. */
  datatype Header = Size(n: int) | Panicked

  /** What unpackBlobPayload yields: the key IDs its loop reads (which the
      source only prints) and the binary payload it returns. */
  datatype BlobScan = BlobScan(keyIds: seq<int32>, payload: Outcome<seq<byte>>)

  function Min(a: int, b: int): (m: int)
  {
    if a <= b then a else b
  }

  function Zeros(n: nat): (z: seq<byte>)
    ensures |z| == n && forall i :: 0 <= i < n ==> z[i] == 0
  {
    seq(n, _ => 0)
  }

  /** `read(n)`: a fresh n-byte buffer filled by bytes.Reader.Read, which
      fails only when the cursor is already at the end of the input, and
      otherwise copies what is left (at most n bytes) and leaves the rest of
      the buffer zero. */
  function ReadAt(s: seq<byte>, p: nat, n: nat): (r: Step<Outcome<seq<byte>>>)
    ensures r.value.Ok? ==> |r.value.value| == n
  {
    if p >= |s| then Step(Err(EndOfInput), p)
    else
      var k := Min(n, |s| - p);
      Step(Ok(s[p..p + k] + Zeros(n - k)), p + k)
  }

  /** `read` fails exactly at the end of the input, without moving; it
      otherwise copies min(n, what is left) bytes and zero-pads to n. */
  lemma ReadAtCases(s: seq<byte>, p: nat, n: nat)
    ensures ReadAt(s, p, n).value.Err? <==> p >= |s|
    ensures ReadAt(s, p, n).value.Err? ==> ReadAt(s, p, n) == Step(Err(EndOfInput), p)
    ensures !ReadAt(s, p, n).value.Panic?
    ensures ReadAt(s, p, n).value.Ok? ==>
      var r, k := ReadAt(s, p, n), Min(n, |s| - p);
      && r.next == p + k <= |s|
      && r.value.value[..k] == s[p..p + k]
      && (forall i :: k <= i < n ==> r.value.value[i] == 0)
  {
    if p < |s| {
      var k := Min(n, |s| - p);
      assert ReadAt(s, p, n).value.value[..k] == s[p..p + k];
    }
  }

  /** `magic`: bytes.Reader.ReadByte. */
  function MagicAt(s: seq<byte>, p: nat): (r: Step<Outcome<byte>>)
    ensures p < |s| ==> r == Step(Ok(s[p]), p + 1)
    ensures p >= |s| ==> r == Step(Err(EndOfInput), p)
  {
    if p >= |s| then Step(Err(EndOfInput), p) else Step(Ok(s[p]), p + 1)
  }

  /** `unpackArray`. A fixarray byte 0x90-0x9F gives its low four bits.
      After 0xDC or 0xDD the source reads a single length byte and hands
      that one-byte slice to binary.BigEndian.Uint16/Uint32, which panics;
      only an end of input right after the tag escapes the panic (-1). Any
      other byte, or the end of input, gives -1. */
  function ArrayAt(s: seq<byte>, p: nat): (r: Step<Header>)
  {
    var m := MagicAt(s, p);
    if m.value.Err? then Step(Size(-1), m.next)
    else
      var magic := m.value.value;
      if magic / 16 == 0x9 then Step(Size(magic % 16), m.next)
      else if magic != 0xDD && magic != 0xDC then Step(Size(-1), m.next)
      else
        var size := ReadAt(s, m.next, 1);
        if size.value.Err? then Step(Size(-1), size.next)
        else Step(Panicked, size.next)
  }

  /** What unpackArray yields, by the byte under the cursor. The byte is
      consumed whenever there is one, even when the result is -1. */
  lemma ArrayAtCases(s: seq<byte>, p: nat)
    ensures p < |s| && 0x90 <= s[p] <= 0x9F ==> ArrayAt(s, p) == Step(Size(s[p] - 0x90), p + 1)
    ensures ArrayAt(s, p).value == Panicked <==> p + 1 < |s| && s[p] in {0xDC, 0xDD}
    ensures ArrayAt(s, p).value == Size(-1) <==>
      || p >= |s|
      || (!(0x90 <= s[p] <= 0x9F) && s[p] !in {0xDC, 0xDD})
      || (s[p] in {0xDC, 0xDD} && p + 1 == |s|)
    ensures ArrayAt(s, p).value.Size? ==> -1 <= ArrayAt(s, p).value.n <= 15
    ensures ArrayAt(s, p).next ==
      if p >= |s| then p else if ArrayAt(s, p).value.Panicked? then p + 2 else p + 1
  {
  }

  /** `unpackUint`: one positive fixint. Every byte with the high bit set
      is rejected, after being consumed. */
  function UintAt(s: seq<byte>, p: nat): (r: Step<Outcome<byte>>)
  {
    var c := ReadAt(s, p, 1);
    if !c.value.Ok? then Step(Err(c.value.error), c.next)
    else if c.value.value[0] >= 0x80 then Step(Err(NotPositiveInt), c.next)
    else Step(Ok(c.value.value[0]), c.next)
  }

  /** What unpackUint yields, by the byte under the cursor. */
  lemma UintAtCases(s: seq<byte>, p: nat)
    ensures p >= |s| ==> UintAt(s, p) == Step(Err(EndOfInput), p)
    ensures p < |s| && s[p] >= 0x80 ==> UintAt(s, p) == Step(Err(NotPositiveInt), p + 1)
    ensures p < |s| && s[p] < 0x80 ==> UintAt(s, p) == Step(Ok(s[p]), p + 1)
  {
  }

  /** `unpackUint16`: binary.BigEndian.Uint16, which needs two bytes. */
  function UnpackUint16(b: seq<byte>): (r: nat)
    requires |b| >= 2
    ensures r == b[0] as int * 256 + b[1] as int
    ensures r < 0x1_0000
  {
    BigEndianBound(b[..2]);
    BigEndian(b[..2])
  }

  /** `unpackBin`: 0xC4 with a one-byte length, 0xC5 with a two-byte
      big-endian length; the payload is then a `read` of that length, and
      every length field is itself a `read`, so short input zero-pads. */
  function BinAt(s: seq<byte>, p: nat): (r: Step<Outcome<seq<byte>>>)
  {
    var c := ReadAt(s, p, 1);
    if !c.value.Ok? then Step(Err(c.value.error), c.next)
    else if c.value.value[0] == 0xC4 then
      var n := ReadAt(s, c.next, 1);
      if !n.value.Ok? then Step(Err(n.value.error), n.next)
      else ReadAt(s, n.next, n.value.value[0])
    else if c.value.value[0] == 0xC5 then
      var n := ReadAt(s, c.next, 2);
      if !n.value.Ok? then Step(Err(n.value.error), n.next)
      else ReadAt(s, n.next, UnpackUint16(n.value.value))
    else Step(Err(InvalidBinTag), c.next)
  }

  /** What unpackBin yields, by the tag under the cursor. It never panics.
      A 0xC5 tag with one byte after it reads a zero-padded length and
      then fails at the end of the input. */
  lemma BinAtCases(s: seq<byte>, p: nat)
    ensures !BinAt(s, p).value.Panic?
    ensures p >= |s| ==> BinAt(s, p) == Step(Err(EndOfInput), p)
    ensures p < |s| && s[p] !in {0xC4, 0xC5} ==> BinAt(s, p) == Step(Err(InvalidBinTag), p + 1)
    ensures p + 1 < |s| && s[p] == 0xC4 ==> BinAt(s, p) == ReadAt(s, p + 2, s[p + 1])
    ensures p + 2 < |s| && s[p] == 0xC5 ==>
      BinAt(s, p) == ReadAt(s, p + 3, s[p + 1] as int * 256 + s[p + 2] as int)
    ensures p + 1 == |s| ==> BinAt(s, p).value.Err? && BinAt(s, p).next == |s|
    ensures p + 1 == |s| && s[p] in {0xC4, 0xC5} ==> BinAt(s, p) == Step(Err(EndOfInput), p + 1)
    ensures p + 2 == |s| && s[p] == 0xC5 ==> BinAt(s, p) == Step(Err(EndOfInput), p + 2)
  {
  }

  /** `unpackInt32`: 0xCE and four bytes, big-endian, reinterpreted as a
      two's-complement int32; -1 on any other tag or at end of input. */
  function Int32At(s: seq<byte>, p: nat): (r: Step<int32>)
  {
    var c := ReadAt(s, p, 1);
    if !c.value.Ok? then Step(-1, c.next)
    else if c.value.value[0] != 0xCE then Step(-1, c.next)
    else
      var cc := ReadAt(s, c.next, 4);
      if !cc.value.Ok? then Step(-1, cc.next)
      else Step(ToInt32(Uint32Of(cc.value.value)), cc.next)
  }

  /** What unpackInt32 yields, by the tag under the cursor and the bytes
      after it. With only one to three bytes after 0xCE, the value is read
      from those bytes zero-padded to four. */
  lemma Int32AtCases(s: seq<byte>, p: nat)
    ensures p >= |s| ==> Int32At(s, p) == Step(-1, p)
    ensures p < |s| && s[p] != 0xCE ==> Int32At(s, p) == Step(-1, p + 1)
    ensures p + 4 < |s| && s[p] == 0xCE ==> Int32At(s, p) == Step(ToInt32(Uint32Of(s[p + 1..p + 5])), p + 5)
    ensures p + 1 == |s| && s[p] == 0xCE ==> Int32At(s, p) == Step(-1, p + 1)
    ensures p + 1 < |s| <= p + 4 && s[p] == 0xCE ==>
      Int32At(s, p) == Step(ToInt32(Uint32Of(s[p + 1..] + Zeros(p + 5 - |s|))), |s|)
  {
    if p + 4 < |s| && s[p] == 0xCE {
      var cc := ReadAt(s, p + 1, 4);
      assert cc.value.value == cc.value.value[..4];
    }
    if p + 1 < |s| <= p + 4 && s[p] == 0xCE {
      assert s[p + 1..p + 1 + (|s| - p - 1)] == s[p + 1..];
    }
  }

  /** `unpackRecoveryKey`: a 2-element array, the positive int 1, a bin. */
  function RecoveryKeyAt(s: seq<byte>, p: nat): (r: Step<Outcome<seq<byte>>>)
  {
    var h := ArrayAt(s, p);
    if h.value.Panicked? then Step(Panic, h.next)
    else if h.value.n != 2 then Step(Err(WrongArity), h.next)
    else
      var t := UintAt(s, h.next);
      if !t.value.Ok? then Step(Err(t.value.error), t.next)
      else if t.value.value != 1 then Step(Err(WrongObjType), t.next)
      else BinAt(s, t.next)
  }

  /** `UnpackRecoveryKey`: the envelope's bin must be exactly 16 bytes. */
  function RecoveryKeyOf(b: seq<byte>): (r: Outcome<seq<byte>>)
    ensures r.Ok? ==> |r.value| == 16
  {
    var k := RecoveryKeyAt(b, 0).value;
    if !k.Ok? then k
    else if |k.value| != 16 then Err(WrongKeyLength)
    else k
  }

  /** One metadata entry as the loop of unpackBlobPayload reads it: an
      array header, a positive int and an int32, whose errors are all
      ignored; only a panic of the header stops it. */
  function EntryAt(s: seq<byte>, p: nat): (r: Step<Outcome<int32>>)
    ensures !r.value.Err?
    ensures r.value.Panic? <==> ArrayAt(s, p).value.Panicked?
  {
    var h := ArrayAt(s, p);
    if h.value.Panicked? then Step(Panic, h.next)
    else
      var u := UintAt(s, h.next);
      var k := Int32At(s, u.next);
      Step(Ok(k.value), k.next)
  }

  /** The remaining `count` iterations of the metadata loop, after the
      key IDs `acc` have been read. */
  function EntriesFrom(s: seq<byte>, p: nat, count: nat, acc: seq<int32>): (r: Step<Outcome<seq<int32>>>)
    ensures !r.value.Err?
    decreases count
  {
    if count == 0 then Step(Ok(acc), p)
    else
      var e := EntryAt(s, p);
      if e.value.Panic? then Step(Panic, e.next)
      else EntriesFrom(s, e.next, count - 1, acc + [e.value.value])
  }

  /** `unpackBlobPayload`: a 3-element array, the positive int 1, a
      metadata container of entries, then a bin that is the result. A
      container header of -1 runs the loop zero times. */
  function BlobPayloadAt(s: seq<byte>, p: nat): (r: Step<BlobScan>)
  {
    var h := ArrayAt(s, p);
    if h.value.Panicked? then Step(BlobScan([], Panic), h.next)
    else if h.value.n != 3 then Step(BlobScan([], Err(WrongArity)), h.next)
    else
      var t := UintAt(s, h.next);
      if !t.value.Ok? then Step(BlobScan([], Err(t.value.error)), t.next)
      else if t.value.value != 1 then Step(BlobScan([], Err(WrongObjType)), t.next)
      else
        var c := ArrayAt(s, t.next);
        if c.value.Panicked? then Step(BlobScan([], Panic), c.next)
        else
          var e := EntriesFrom(s, c.next, if c.value.n < 0 then 0 else c.value.n, []);
          if e.value.Panic? then Step(BlobScan([], Panic), e.next)
          else
            var b := BinAt(s, e.next);
            Step(BlobScan(e.value.value, b.value), b.next)
  }

  /** The cursor over an input byte string. The source's `off` counter is
      written but never read and is not kept. */
  class Decoder {
    const input: seq<byte>
    var pos: nat

    constructor (b: seq<byte>)
      ensures input == b && pos == 0
    {
      input := b;
      pos := 0;
    }

    method Magic() returns (r: Outcome<byte>)
      modifies this
      ensures Step(r, pos) == MagicAt(input, old(pos))
    {
      if pos >= |input| {
        r := Err(EndOfInput);
      } else {
        r := Ok(input[pos]);
        pos := pos + 1;
      }
    }

    method Read(size: nat) returns (r: Outcome<seq<byte>>)
      modifies this
      ensures Step(r, pos) == ReadAt(input, old(pos), size)
    {
      if pos >= |input| {
        r := Err(EndOfInput);
        return;
      }
      var n := Min(size, |input| - pos);
      r := Ok(input[pos..pos + n] + Zeros(size - n));
      pos := pos + n;
    }

    method UnpackArray() returns (h: Header)
      modifies this
      ensures Step(h, pos) == ArrayAt(input, old(pos))
    {
      var magic := Magic();
      if magic.Err? {
        return Size(-1);
      }
      if magic.value / 16 == 0x9 {
        return Size(magic.value % 16);
      }
      if magic.value != 0xDD && magic.value != 0xDC {
        return Size(-1);
      }
      var size := Read(1);
      if size.Err? {
        return Size(-1);
      }
      h := Panicked;
    }

    method UnpackUint() returns (r: Outcome<byte>)
      modifies this
      ensures Step(r, pos) == UintAt(input, old(pos))
    {
      var c := Read(1);
      if c.Err? {
        return Err(c.error);
      }
      if c.value[0] >= 0x80 {
        return Err(NotPositiveInt);
      }
      r := Ok(c.value[0]);
    }

    method UnpackBin() returns (r: Outcome<seq<byte>>)
      modifies this
      ensures Step(r, pos) == BinAt(input, old(pos))
    {
      var c := Read(1);
      if c.Err? {
        return Err(c.error);
      }
      if c.value[0] == 0xC4 {
        var n := Read(1);
        if n.Err? {
          return Err(n.error);
        }
        r := Read(n.value[0]);
      } else if c.value[0] == 0xC5 {
        var n := Read(2);
        if n.Err? {
          return Err(n.error);
        }
        r := Read(UnpackUint16(n.value));
      } else {
        r := Err(InvalidBinTag);
      }
    }

    method UnpackInt32() returns (k: int32)
      modifies this
      ensures Step(k, pos) == Int32At(input, old(pos))
    {
      var c := Read(1);
      if c.Err? || c.value[0] != 0xCE {
        return -1;
      }
      var cc := Read(4);
      if cc.Err? {
        return -1;
      }
      k := ToInt32(Uint32Of(cc.value));
    }

    method UnpackRecoveryKey() returns (r: Outcome<seq<byte>>)
      modifies this
      ensures Step(r, pos) == RecoveryKeyAt(input, old(pos))
    {
      var size := UnpackArray();
      if size.Panicked? {
        return Panic;
      }
      if size.n != 2 {
        return Err(WrongArity);
      }
      var objType := UnpackUint();
      if objType.Err? {
        return Err(objType.error);
      }
      if objType.value != 1 {
        return Err(WrongObjType);
      }
      r := UnpackBin();
    }

    method UnpackBlobPayload() returns (r: BlobScan)
      modifies this
      ensures Step(r, pos) == BlobPayloadAt(input, old(pos))
    {
      var size := UnpackArray();
      if size.Panicked? {
        return BlobScan([], Panic);
      }
      if size.n != 3 {
        return BlobScan([], Err(WrongArity));
      }
      var objType := UnpackUint();
      if objType.Err? {
        return BlobScan([], Err(objType.error));
      }
      if objType.value != 1 {
        return BlobScan([], Err(WrongObjType));
      }
      var container := UnpackArray();
      if container.Panicked? {
        return BlobScan([], Panic);
      }
      var count := if container.n < 0 then 0 else container.n;
      var keyIds := ReadEntries(count);
      if keyIds.Panic? {
        return BlobScan([], Panic);
      }
      var bin := UnpackBin();
      r := BlobScan(keyIds.value, bin);
    }

    /** The metadata loop of unpackBlobPayload: `count` entries, each an
        array header, a positive int and an int32, of which only the int32
        is kept. */
    method ReadEntries(count: nat) returns (r: Outcome<seq<int32>>)
      modifies this
      ensures Step(r, pos) == EntriesFrom(input, old(pos), count, [])
    {
      var keyIds: seq<int32> := [];
      var i := 0;
      while i < count
        invariant 0 <= i <= count
        invariant EntriesFrom(input, old(pos), count, []) == EntriesFrom(input, pos, count - i, keyIds)
      {
        ghost var here := pos;
        var entry := UnpackArray();
        if entry.Panicked? {
          assert EntryAt(input, here).value.Panic?;
          return Panic;
        }
        var _ := UnpackUint();
        var keyId := UnpackInt32();
        assert EntryAt(input, here) == Step(Ok(keyId), pos);
        keyIds := keyIds + [keyId];
        i := i + 1;
      }
      r := Ok(keyIds);
    }
  }

  /** `UnpackRecoveryKey`: decode the envelope from a fresh cursor and
      insist on a 16-byte key. */
  method UnpackRecoveryKey(b: seq<byte>) returns (r: Outcome<seq<byte>>)
    ensures r == RecoveryKeyOf(b)
    ensures r.Ok? ==> |r.value| == 16
  {
    var decoder := new Decoder(b);
    var key := decoder.UnpackRecoveryKey();
    if !key.Ok? {
      return key;
    }
    if |key.value| != 0x10 {
      return Err(WrongKeyLength);
    }
    r := key;
  }

  /** `UnpackBlobPayload`: decode from a fresh cursor and give the bytes the
      source prints (in hex): the payload, or nothing when decoding failed.
      `panicked` is true when the decoder aborts instead. */
  method UnpackBlobPayload(b: seq<byte>) returns (shown: seq<byte>, panicked: bool)
    ensures panicked <==> BlobPayloadAt(b, 0).value.payload.Panic?
    ensures !panicked ==> shown == (var o := BlobPayloadAt(b, 0).value.payload; if o.Ok? then o.value else [])
  {
    var decoder := new Decoder(b);
    var s := decoder.UnpackBlobPayload();
    panicked := s.payload.Panic?;
    shown := if s.payload.Ok? then s.payload.value else [];
  }
}
