/** Big-endian numbers, as `struct.pack("!H", n)` and `struct.pack("!Q", n)` write them. */
module Bytes {
  type bytes = seq<bv8>

  function Pow256(width: nat): (p: nat)
    ensures p >= 1
  {
    if width == 0 then 1 else 256 * Pow256(width - 1)
  }

  lemma {:induction false} Pow256Values()
    ensures Pow256(2) == 0x1_0000
    ensures Pow256(8) == 0x1_0000_0000_0000_0000
  {
    assert Pow256(4) == 0x1_0000_0000;
  }

  /** The number modulo 256^width in `width` bytes, most significant first. */
  function BigEndian(n: nat, width: nat): (s: bytes)
    ensures |s| == width
  {
    if width == 0 then [] else BigEndian(n / 256, width - 1) + [(n % 256) as bv8]
  }

  function FromBigEndian(s: bytes): nat {
    if s == [] then 0 else FromBigEndian(s[..|s| - 1]) * 256 + s[|s| - 1] as nat
  }

  lemma {:induction false} ByteSuccessor(b: bv8)
    requires b < 255
    ensures (b + 1) as nat == b as nat + 1
  {
  }

  lemma {:induction false} ByteRoundTrip(n: nat)
    requires n < 256
    ensures (n as bv8) as nat == n
  {
    if n > 0 {
      ByteRoundTrip(n - 1);
      ByteSuccessor((n - 1) as bv8);
    }
  }

  /** Unpacking what was packed gives the number back. */
  lemma {:induction false} UnpackPack(n: nat, width: nat)
    requires n < Pow256(width)
    ensures FromBigEndian(BigEndian(n, width)) == n
  {
    if width > 0 {
      UnpackPack(n / 256, width - 1);
      ByteRoundTrip(n % 256);
      var s := BigEndian(n, width);
      assert s[..|s| - 1] == BigEndian(n / 256, width - 1);
    }
  }

  /** Packing what was unpacked gives the bytes back, and every unpacked number fits. */
  lemma {:induction false} PackUnpack(s: bytes)
    ensures FromBigEndian(s) < Pow256(|s|)
    ensures BigEndian(FromBigEndian(s), |s|) == s
  {
    if s != [] {
      var init, last := s[..|s| - 1], s[|s| - 1] as nat;
      PackUnpack(init);
      assert last < 256;
      var n := FromBigEndian(s);
      assert n / 256 == FromBigEndian(init) && n % 256 == last;
      assert s == init + [s[|s| - 1]];
    }
  }

  /** The number shifted right by so many bytes. */
  function ShiftRight(n: nat, places: nat): nat {
    if places == 0 then n else ShiftRight(n / 256, places - 1)
  }

  /** Byte `k` of a packed number is its digit to base 256, the most significant first. */
  lemma {:induction false} PackedDigits(n: nat, width: nat, k: nat)
    requires k < width
    ensures BigEndian(n, width)[k] as nat == ShiftRight(n, width - 1 - k) % 256
  {
    if k == width - 1 {
      ByteRoundTrip(n % 256);
    } else {
      PackedDigits(n / 256, width - 1, k);
    }
  }
}
