/** pkg/helper/utils.go: big-endian integer conversion and the binary form of a UUID. */
module HelperUtils {
  import opened GoHex
  import opened GoUuid

  /** 256 to the power n. */
  function Pow256(n: nat): (p: nat)
    ensures p >= 1
  {
    if n == 0 then 1 else 256 * Pow256(n - 1)
  }

  const TWO_TO_64: nat := 0x1_0000_0000_0000_0000

  lemma Pow256Of8()
    ensures Pow256(8) == TWO_TO_64
  {
    assert Pow256(4) == 0x1_0000_0000;
  }

  type uint64 = x: int | 0 <= x < TWO_TO_64

  /** The big-endian value of a byte string, most significant byte first (Horner's rule). */
  function BigEndian(b: seq<byte>): nat {
    if b == [] then 0 else BigEndian(b[..|b| - 1]) * 256 + b[|b| - 1] as int
  }

  lemma {:induction false} BigEndianBound(b: seq<byte>)
    ensures BigEndian(b) < Pow256(|b|)
  {
    if b != [] {
      BigEndianBound(b[..|b| - 1]);
    }
  }

  /** The n-byte big-endian form of x, least significant byte last (binary.BigEndian.PutUint64 for n = 8). */
  function PutBigEndian(x: nat, n: nat): (b: seq<byte>)
    requires x < Pow256(n)
    ensures |b| == n
  {
    if n == 0 then [] else PutBigEndian(x / 256, n - 1) + [(x % 256) as byte]
  }

  lemma {:induction false} BigEndianOfPut(x: nat, n: nat)
    requires x < Pow256(n)
    ensures BigEndian(PutBigEndian(x, n)) == x
  {
    if n > 0 {
      var t := PutBigEndian(x / 256, n - 1);
      var d := (x % 256) as byte;
      var b := t + [d];
      assert PutBigEndian(x, n) == b;
      assert b[..n - 1] == t && b[n - 1] == d;
      BigEndianOfPut(x / 256, n - 1);
      assert BigEndian(b) == BigEndian(t) * 256 + d as int;
    }
  }

  /** Itob: the 8-byte big-endian form of id. */
  function Itob(id: uint64): (b: seq<byte>)
    ensures |b| == 8
  {
    Pow256Of8();
    PutBigEndian(id, 8)
  }

  /** Btoi: the big-endian value of an 8-byte slice; 0 for a slice of any other length. */
  function Btoi(b: seq<byte>): (x: uint64)
    ensures |b| != 8 ==> x == 0
  {
    if |b| != 8 then 0
    else
      BigEndianBound(b);
      Pow256Of8();
      BigEndian(b)
  }

  /** Btoi undoes Itob for every uint64. */
  lemma BtoiItob(x: uint64)
    ensures Btoi(Itob(x)) == x
  {
    Pow256Of8();
    BigEndianOfPut(x, 8);
  }

  /** Itob is injective, as the round trip forces. */
  lemma ItobInjective(x: uint64, y: uint64)
    requires Itob(x) == Itob(y)
    ensures x == y
  {
    BtoiItob(x);
    BtoiItob(y);
  }

  /** Btoi weighs the bytes of an 8-byte slice big-endian, most significant first. */
  lemma BtoiBigEndian(b: seq<byte>)
    requires |b| == 8
    ensures Btoi(b) == (b[0] as int) * 0x100_0000_0000_0000 + (b[1] as int) * 0x1_0000_0000_0000
                     + (b[2] as int) * 0x100_0000_0000 + (b[3] as int) * 0x1_0000_0000
                     + (b[4] as int) * 0x100_0000 + (b[5] as int) * 0x1_0000
                     + (b[6] as int) * 0x100 + (b[7] as int)
  {
    assert b[..1][..0] == b[..0];
    assert b[..2][..1] == b[..1];
    assert b[..3][..2] == b[..2];
    assert b[..4][..3] == b[..3];
    assert b[..5][..4] == b[..4];
    assert b[..6][..5] == b[..5];
    assert b[..7][..6] == b[..6];
    assert b[..8] == b;
    assert BigEndian(b[..1]) == b[0] as int;
    assert BigEndian(b[..2]) == BigEndian(b[..1]) * 256 + b[1] as int;
    assert BigEndian(b[..3]) == BigEndian(b[..2]) * 256 + b[2] as int;
    assert BigEndian(b[..4]) == BigEndian(b[..3]) * 256 + b[3] as int;
    assert BigEndian(b[..5]) == BigEndian(b[..4]) * 256 + b[4] as int;
    assert BigEndian(b[..6]) == BigEndian(b[..5]) * 256 + b[5] as int;
    assert BigEndian(b[..7]) == BigEndian(b[..6]) * 256 + b[6] as int;
    assert BigEndian(b[..8]) == BigEndian(b[..7]) * 256 + b[7] as int;
  }

  /** UUIDtoBytes: the 16 raw bytes of the id (MarshalBinary never fails for a UUID). */
  function UUIDtoBytes(id: Uuid): (b: seq<byte>)
    ensures |b| == 16 && forall i :: 0 <= i < 16 ==> b[i] == id[i]
  {
    id
  }

  /** Distinct ids give distinct store keys. */
  lemma UUIDtoBytesInjective(a: Uuid, b: Uuid)
    requires UUIDtoBytes(a) == UUIDtoBytes(b)
    ensures a == b
  {
  }
}
