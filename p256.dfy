/** stripP256Prefix of sbc/crypto.go: drop the 0x04 marker of an
    uncompressed P-256 point, leaving the 64 bytes of X and Y. */
module P256 {
  import opened Wire

  /** The guard is `len != 65 && first byte != 0x04`, so a 65-byte key loses
      its first byte whatever that byte is, and so does any key that starts
      with 0x04. An empty key makes the Go code index out of range, hence
      the precondition. */
  function StripP256Prefix(key: seq<byte>): (r: seq<byte>)
    requires |key| > 0
    ensures r == key || r == key[1..]
    ensures |key| == 65 ==> |r| == 64
    ensures key[0] == 0x04 ==> r == key[1..]
    ensures r == key <==> (|key| != 65 && key[0] != 0x04)
  {
    if |key| != 65 && key[0] != 0x04 then key else key[1..]
  }

  /** An uncompressed point, marker and coordinates, comes back as its
      coordinates. */
  lemma StripUncompressedPoint(xy: seq<byte>)
    requires |xy| == 64
    ensures StripP256Prefix([0x04] + xy) == xy
  {
    assert ([0x04] + xy)[1..] == xy;
  }
}
