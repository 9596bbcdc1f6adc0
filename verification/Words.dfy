/** 32-byte words: big-endian numbers, addresses and raw bytes, as the signing code lays them out
    (uint256Pad, addressToBytes and bytes32Pad in pkg/polymarket/signing.go). */
module Words {
  import opened Common

  type Byte = x: int | 0 <= x < 256

  type Bytes = seq<Byte>

  function Zeros(n: nat): Bytes { seq(n, i => 0) }

  /** big.Int's Bytes: big-endian, without leading zeros. */
  function BigEndian(v: nat): Bytes {
    if v == 0 then [] else BigEndian(v / 256) + [v % 256]
  }

  function ValueOf(b: Bytes): nat {
    if b == [] then 0 else 256 * ValueOf(b[..|b| - 1]) + b[|b| - 1]
  }

  function Pow256(n: nat): nat { if n == 0 then 1 else 256 * Pow256(n - 1) }

  function Abs(v: int): nat { if v < 0 then -v else v }

  /** uint256Pad: None where the copy would start at a negative index and panic.  The sign is lost. */
  function Uint256Pad(v: int): Option<Bytes> {
    var b := BigEndian(Abs(v));
    if |b| > 32 then None else Some(Zeros(32 - |b|) + b)
  }

  lemma {:induction false} BigEndianValue(v: nat)
    ensures ValueOf(BigEndian(v)) == v
  {
    if v != 0 {
      BigEndianValue(v / 256);
      assert BigEndian(v)[..|BigEndian(v)| - 1] == BigEndian(v / 256);
    }
  }

  /** Big-endian: a byte weighs 256 times more for every byte after it. */
  lemma {:induction false} FirstByteWeighs(x: Byte, b: Bytes)
    ensures ValueOf([x] + b) == x * Pow256(|b|) + ValueOf(b)
  {
    if b == [] {
      assert [x] + b == [x];
      assert [x][..0] == [];
    } else {
      assert ([x] + b)[..|b|] == [x] + b[..|b| - 1];
      FirstByteWeighs(x, b[..|b| - 1]);
      assert 256 * (x * Pow256(|b| - 1)) == x * Pow256(|b|);
    }
  }

  lemma {:induction false} PowOfSum(m: nat, n: nat)
    ensures Pow256(m + n) == Pow256(m) * Pow256(n)
  {
    if m > 0 {
      PowOfSum(m - 1, n);
      assert 256 * (Pow256(m - 1) * Pow256(n)) == Pow256(m) * Pow256(n);
    }
  }

  lemma WordBound()
    ensures Pow256(32) == 0x1_0000000000000000_0000000000000000_0000000000000000_0000000000000000
  {
    assert Pow256(4) == 0x1_0000_0000;
    PowOfSum(4, 4);
    PowOfSum(8, 8);
    PowOfSum(16, 16);
  }

  lemma {:induction false} ZerosAddNothing(n: nat, b: Bytes)
    ensures ValueOf(Zeros(n) + b) == ValueOf(b)
  {
    if b == [] {
      assert Zeros(n) + b == Zeros(n);
      if n > 0 {
        assert Zeros(n)[..n - 1] == Zeros(n - 1);
        ZerosAddNothing(n - 1, []);
        assert Zeros(n - 1) + [] == Zeros(n - 1);
      }
    } else {
      assert (Zeros(n) + b)[..n + |b| - 1] == Zeros(n) + b[..|b| - 1];
      ZerosAddNothing(n, b[..|b| - 1]);
    }
  }

  /** How many bytes a number needs. */
  lemma {:induction false} BigEndianLength(v: nat, n: nat)
    ensures |BigEndian(v)| <= n <==> v < Pow256(n)
  {
    if v != 0 && n != 0 {
      BigEndianLength(v / 256, n - 1);
    } else if v != 0 {
      assert |BigEndian(v)| >= 1;
    } else {
      PowPositive(n);
    }
  }

  lemma {:induction false} PowPositive(n: nat)
    ensures Pow256(n) >= 1
  {
    if n > 0 {
      PowPositive(n - 1);
    }
  }

  lemma PadIsWord(v: int)
    requires Uint256Pad(v).Some?
    ensures |Uint256Pad(v).value| == 32 && ValueOf(Uint256Pad(v).value) == Abs(v)
  {
    var b := BigEndian(Abs(v));
    BigEndianValue(Abs(v));
    ZerosAddNothing(32 - |b|, b);
  }

  /** uint256Pad yields a 32-byte word exactly for magnitudes below 2^256, and big-endian decoding
      gives the magnitude back. */
  lemma PadRoundTrip(v: int)
    ensures Uint256Pad(v).Some? <==> Abs(v) < Pow256(32)
    ensures Uint256Pad(v).Some? ==> |Uint256Pad(v).value| == 32 && ValueOf(Uint256Pad(v).value) == Abs(v)
  {
    BigEndianLength(Abs(v), 32);
    if Uint256Pad(v).Some? {
      PadIsWord(v);
    }
  }

  lemma PadInjectiveIff(a: int, b: int)
    requires Uint256Pad(a).Some?
    ensures Uint256Pad(a) == Uint256Pad(b) <==> Abs(a) == Abs(b)
  {
    PadIsWord(a);
    if Uint256Pad(b).Some? {
      PadIsWord(b);
    }
  }

  /** addressToBytes, from the 20 bytes of the address on. */
  function AddressWord(addr: Bytes): Bytes
    requires |addr| == 20
  {
    Zeros(12) + addr
  }

  /** An address is right-aligned in its word. */
  lemma AddressWordLayout(addr: Bytes)
    requires |addr| == 20
    ensures var w := AddressWord(addr);
            |w| == 32 && w[12..] == addr && forall i :: 0 <= i < 12 ==> w[i] == 0
  {
  }

  lemma AddressWordInjective(a: Bytes, b: Bytes)
    requires |a| == |b| == 20
    ensures |AddressWord(a)| == 32 && (AddressWord(a) == AddressWord(b) <==> a == b)
  {
    assert AddressWord(a)[12..] == a && AddressWord(b)[12..] == b;
  }

  /** bytes32Pad, from the decoded hex on: undecodable or overlong input becomes all zeros. */
  function Bytes32Pad(decoded: Option<Bytes>): Bytes {
    match decoded
    case None => Zeros(32)
    case Some(b) => if |b| > 32 then Zeros(32) else Zeros(32 - |b|) + b
  }

  /** Bytes are right-aligned in their word; undecodable or overlong input leaves it empty. */
  lemma Bytes32PadLayout(decoded: Option<Bytes>)
    ensures var w := Bytes32Pad(decoded);
            var n := if decoded.Some? && |decoded.value| <= 32 then |decoded.value| else 0;
            |w| == 32 && (n > 0 ==> w[32 - n..] == decoded.value) && forall i :: 0 <= i < 32 - n ==> w[i] == 0
  {
  }

  /** Only full-width values survive bytes32Pad unchanged; everything else is re-read as such a value. */
  lemma Bytes32PadIsWord(decoded: Option<Bytes>)
    ensures |Bytes32Pad(decoded)| == 32
    ensures decoded.Some? && |decoded.value| == 32 ==> Bytes32Pad(decoded) == decoded.value
  {
  }

  // ---------------------------------------------------------------- concatenation

  function Concat(words: seq<Bytes>): Bytes {
    if words == [] then [] else Concat(words[..|words| - 1]) + words[|words| - 1]
  }

  ghost predicate AllWords(words: seq<Bytes>) {
    forall i :: 0 <= i < |words| ==> |words[i]| == 32
  }

  lemma {:induction false} ConcatLength(words: seq<Bytes>)
    requires AllWords(words)
    ensures |Concat(words)| == 32 * |words|
  {
    if words != [] {
      ConcatLength(words[..|words| - 1]);
    }
  }

  /** Word i of a concatenation is its 32 bytes from 32 * i on. */
  lemma {:induction false} ConcatSlice(words: seq<Bytes>, i: nat)
    requires AllWords(words) && i < |words|
    ensures |Concat(words)| == 32 * |words| && Concat(words)[32 * i..32 * i + 32] == words[i]
  {
    var init := words[..|words| - 1];
    ConcatLength(words);
    ConcatLength(init);
    if i < |init| {
      ConcatSlice(init, i);
      assert Concat(words)[32 * i..32 * i + 32] == Concat(init)[32 * i..32 * i + 32];
    }
  }

  /** Fixed-width words can be read back from their concatenation. */
  lemma {:induction false} ConcatInjective(a: seq<Bytes>, b: seq<Bytes>)
    requires AllWords(a) && AllWords(b) && Concat(a) == Concat(b)
    ensures a == b
  {
    ConcatLength(a);
    ConcatLength(b);
    if a != [] {
      var a0, b0 := a[..|a| - 1], b[..|b| - 1];
      ConcatLength(a0);
      ConcatLength(b0);
      assert Concat(a)[..|Concat(a0)|] == Concat(a0) && Concat(b)[..|Concat(b0)|] == Concat(b0);
      assert Concat(a)[|Concat(a0)|..] == a[|a| - 1] && Concat(b)[|Concat(b0)|..] == b[|b| - 1];
      ConcatInjective(a0, b0);
      assert a == a0 + [a[|a| - 1]] && b == b0 + [b[|b| - 1]];
    }
  }
}
