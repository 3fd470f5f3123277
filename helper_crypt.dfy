/** pkg/helper/crypt.go: XOR of byte strings and hex strings, random string and key generation. */
module HelperCrypt {
  import opened Wrappers
  import opened GoHex

  /** 2 to the power n. */
  function Pow2(n: nat): (p: nat)
    ensures p >= 1
  {
    if n == 0 then 1 else 2 * Pow2(n - 1)
  }

  /** Go's ^ on unsigned integers: bitwise exclusive or, built one bit at a time from the lowest. */
  function XorNat(a: nat, b: nat): nat
    decreases a + b
  {
    if a == 0 && b == 0 then 0 else (a % 2 + b % 2) % 2 + 2 * XorNat(a / 2, b / 2)
  }

  /** One step of the bit-by-bit definition, also when both are zero. */
  lemma XorUnfold(a: nat, b: nat)
    ensures XorNat(a, b) == (a % 2 + b % 2) % 2 + 2 * XorNat(a / 2, b / 2)
  {
  }

  /** Exclusive or of two n-bit values is an n-bit value. */
  lemma {:induction false} XorBelow(a: nat, b: nat, n: nat)
    requires a < Pow2(n) && b < Pow2(n)
    ensures XorNat(a, b) < Pow2(n)
  {
    if n > 0 && !(a == 0 && b == 0) {
      XorBelow(a / 2, b / 2, n - 1);
    }
  }

  /** The lowest bit and the rest of bit + 2 * z. */
  lemma LowBit(bit: nat, z: nat)
    requires bit < 2
    ensures (bit + 2 * z) % 2 == bit && (bit + 2 * z) / 2 == z
  {
  }

  /** Exclusive or of one bit with the same bit twice. */
  lemma BitCancel(kb: nat, xb: nat)
    requires kb < 2 && xb < 2
    ensures (kb + (kb + xb) % 2) % 2 == xb
  {
  }

  /** Exclusive or with the same value twice gives back the original. */
  lemma {:induction false} XorCancel(k: nat, x: nat)
    ensures XorNat(k, XorNat(k, x)) == x
    decreases k + x
  {
    var kb, xb, kh, xh := k % 2, x % 2, k / 2, x / 2;
    var z := XorNat(kh, xh);
    var bit := (kb + xb) % 2;
    var y := bit + 2 * z;
    XorUnfold(k, x);
    assert XorNat(k, x) == y;
    LowBit(bit, z);
    XorUnfold(k, y);
    assert XorNat(k, y) == (kb + bit) % 2 + 2 * XorNat(kh, z);
    if k == 0 && x == 0 {
      assert z == 0;
    } else {
      XorCancel(kh, xh);
    }
    assert XorNat(kh, z) == xh;
    BitCancel(kb, xb);
    assert x == xb + 2 * xh;
  }

  /** a ^ b on two bytes. */
  function XorByte(a: byte, b: byte): byte {
    assert Pow2(8) == 256;
    XorBelow(a as nat, b as nat, 8);
    XorNat(a as nat, b as nat) as byte
  }

  /** XOR with the same byte twice gives back the original byte. */
  lemma XorByteCancel(a: byte, b: byte)
    ensures XorByte(a, XorByte(a, b)) == b
  {
    XorCancel(a as nat, b as nat);
  }

  /** The element-wise XOR of input with the first |input| bytes of key. */
  function XorBytes(key: seq<byte>, input: seq<byte>): (r: seq<byte>)
    requires |key| >= |input|
    ensures |r| == |input|
    ensures forall i :: 0 <= i < |r| ==> r[i] == XorByte(key[i], input[i])
  {
    if input == [] then [] else [XorByte(key[0], input[0])] + XorBytes(key[1..], input[1..])
  }

  /** XOR with the same key undoes itself. */
  lemma XorInvolution(key: seq<byte>, x: seq<byte>)
    requires |key| >= |x|
    ensures XorBytes(key, XorBytes(key, x)) == x
  {
    forall i | 0 <= i < |x| {
      XorByteCancel(key[i], x[i]);
    }
  }

  const ErrKeyTooShort := "len(key) must be >= len(input)"

  /** xor: fails exactly when the key is shorter than the input; otherwise fills out[i] = key[i] ^ input[i]. */
  method Xor(key: seq<byte>, input: seq<byte>) returns (r: Result<seq<byte>, string>)
    ensures r.Err? <==> |key| < |input|
    ensures r.Err? ==> r.error == ErrKeyTooShort
    ensures r.Ok? ==> |r.value| == |input| && r.value == XorBytes(key, input)
  {
    if |key| < |input| {
      return Err(ErrKeyTooShort);
    }
    var out := new byte[|input|];
    for i := 0 to |input|
      invariant forall j :: 0 <= j < i ==> out[j] == XorByte(key[j], input[j])
    {
      out[i] := XorByte(key[i], input[i]);
    }
    return Ok(out[..]);
  }

  /** xorString: hex-decode key and input, XOR them, hex-encode the result. */
  function XorString(key: string, input: string): (r: Result<string, string>)
    ensures r.Ok? <==> DecodeString(key).Some? && DecodeString(input).Some?
                       && |DecodeString(key).value| >= |DecodeString(input).value|
    ensures r.Ok? ==> r.value == EncodeToString(XorBytes(DecodeString(key).value, DecodeString(input).value))
    ensures r.Ok? ==> DecodeString(r.value) == Some(XorBytes(DecodeString(key).value, DecodeString(input).value))
  {
    match (DecodeString(key), DecodeString(input))
    case (None, _) => Err("encoding/hex: invalid key")
    case (_, None) => Err("encoding/hex: invalid input")
    case (Some(k), Some(i)) =>
      if |k| < |i| then Err(ErrKeyTooShort)
      else
        DecodeEncode(XorBytes(k, i));
        Ok(EncodeToString(XorBytes(k, i)))
  }

  /** Applying xorString twice with one key gives back the input, in lower-case hex. */
  lemma XorStringTwice(key: string, input: string)
    requires XorString(key, input).Ok?
    ensures XorString(key, XorString(key, input).value) == Ok(EncodeToString(DecodeString(input).value))
  {
    var k, i := DecodeString(key).value, DecodeString(input).value;
    DecodeEncode(XorBytes(k, i));
    XorInvolution(k, i);
  }

  /** GenString never produces more than this many characters. */
  const MaxGenLength := 128

  /** The requested length after GenString's cap. */
  function CapLength(len: int): (n: int)
    ensures n <= MaxGenLength && (len <= MaxGenLength ==> n == len)
  {
    if len > MaxGenLength then MaxGenLength else len
  }

  predicate Dropped(c: char) {
    c == '+' || c == '/'
  }

  /** The characters of buf other than '+' and '/', in their order. */
  function Kept(buf: string): (r: string)
    ensures |r| <= |buf|
    ensures forall i :: 0 <= i < |r| ==> !Dropped(r[i])
  {
    if buf == [] then []
    else Kept(buf[..|buf| - 1]) + (if Dropped(buf[|buf| - 1]) then [] else [buf[|buf| - 1]])
  }

  /** The characters kept from a prefix precede those kept from the rest. */
  lemma {:induction false} KeptPrefix(buf: string, i: nat)
    requires i <= |buf|
    ensures Kept(buf[..i]) <= Kept(buf)
  {
    if i < |buf| {
      KeptPrefix(buf[..|buf| - 1], i);
      assert buf[..|buf| - 1][..i] == buf[..i];
    } else {
      assert buf[..i] == buf;
    }
  }

  /** Length of the unpadded base64 text of m bytes. */
  function EncodedLength(m: nat): nat {
    (4 * m + 2) / 3
  }

  /**
   * The filtering loop of GenString: copy the characters of buf that are not '+' or '/' into a
   * buffer of n characters, stopping once it is full. buf is the base64 text of 2n random bytes.
   * Returns the buffer (unfilled slots keep the zero character) and the count c of filled slots.
   */
  method FillKept(buf: string, n: nat) returns (s1: string, c: nat)
    requires |buf| == EncodedLength(2 * n)
    ensures c == if |Kept(buf)| < n then |Kept(buf)| else n
    ensures |s1| == n && s1[..c] == Kept(buf)[..c]
    ensures forall j :: c <= j < n ==> s1[j] == 0 as char
  {
    var out := new char[n](_ => 0 as char);
    c := 0;
    var i := 0;
    while i < |buf|
      invariant 0 <= i <= |buf|
      invariant c == |Kept(buf[..i])| && c <= n && (c < n || i == |buf|)
      invariant out[..c] == Kept(buf[..i])
      invariant forall j :: c <= j < n ==> out[j] == 0 as char
    {
      assert buf[..i + 1][..i] == buf[..i];
      if !Dropped(buf[i]) {
        out[c] := buf[i];
        c := c + 1;
        assert out[..c] == Kept(buf[..i + 1]);
        if c == n {
          KeptPrefix(buf, i + 1);
          s1 := out[..];
          return;
        }
      }
      i := i + 1;
    }
    assert buf[..i] == buf;
    s1 := out[..];
  }

  /** An attempt that read random bytes but kept fewer than n characters: GenString retries. */
  predicate ShortAttempt(a: Option<string>, n: int) {
    a.Some? && |Kept(a.value)| < n
  }

  /** Every attempt before index k was short, so the k-th attempt is the one GenString looks at. */
  predicate ShortBefore(attempts: seq<Option<string>>, k: int, n: int)
    requires k <= |attempts|
  {
    forall j :: 0 <= j < k ==> ShortAttempt(attempts[j], n)
  }

  /**
   * GenString. The random source is given as the sequence of attempts the retries would draw, each
   * already base64-encoded (None: crypto/rand failed). An attempt that leaves fewer than the capped
   * length of characters after filtering is discarded and the next is tried.
   */
  method GenString(len: int, attempts: seq<Option<string>>) returns (r: Result<string, string>)
    requires len >= 0
    requires forall k :: 0 <= k < |attempts| && attempts[k].Some? ==> |attempts[k].value| == EncodedLength(2 * CapLength(len))
    ensures r.Ok? ==> |r.value| == CapLength(len) && forall i :: 0 <= i < |r.value| ==> !Dropped(r.value[i])
    ensures r.Ok? ==> exists k :: 0 <= k < |attempts| && attempts[k].Some? && r.value <= Kept(attempts[k].value)
    ensures |attempts| > 0 && attempts[0].Some? && |Kept(attempts[0].value)| >= CapLength(len)
            ==> r == Ok(Kept(attempts[0].value)[..CapLength(len)])
    ensures |attempts| > 0 && attempts[0].None? ==> r.Err?
    ensures forall k :: 0 <= k < |attempts| && ShortBefore(attempts, k, CapLength(len)) ==>
              (attempts[k].None? ==> r.Err?) &&
              (attempts[k].Some? && |Kept(attempts[k].value)| >= CapLength(len)
               ==> r == Ok(Kept(attempts[k].value)[..CapLength(len)]))
    ensures ShortBefore(attempts, |attempts|, CapLength(len)) ==> r.Err?
    decreases |attempts|
  {
    var n := CapLength(len);
    if |attempts| == 0 {
      return Err("random source exhausted");
    }
    match attempts[0]
    case None =>
      return Err("crypto/rand: read failed");
    case Some(buf) =>
      var s1, c := FillKept(buf, n);
      if c != n {
        assert CapLength(n) == n;
        r := GenString(n, attempts[1..]);
        if r.Ok? {
          var k :| 0 <= k < |attempts[1..]| && attempts[1..][k].Some? && r.value <= Kept(attempts[1..][k].value);
          assert attempts[k + 1] == attempts[1..][k];
        }
        // The first attempt was short, so the retries decide: shift each index by one.
        forall k | 0 < k <= |attempts| && ShortBefore(attempts, k, n)
          ensures ShortBefore(attempts[1..], k - 1, n)
        {
          forall j | 0 <= j < k - 1 ensures ShortAttempt(attempts[1..][j], n) {
            assert attempts[1..][j] == attempts[j + 1];
          }
        }
        return;
      }
      assert s1 == s1[..c] == Kept(buf)[..n];
      assert attempts[0].Some? && s1 <= Kept(attempts[0].value);
      return Ok(s1);
  }

  /** genKey: nil for length 0 or when the random source fails, otherwise the len random bytes. */
  function GenKey(len: nat, random: Option<seq<byte>>): (r: Option<seq<byte>>)
    requires random.Some? ==> |random.value| == len
    ensures r.None? <==> len == 0 || random.None?
    ensures r.Some? ==> r == random && |r.value| == len > 0
  {
    if len == 0 then None else random
  }
}
