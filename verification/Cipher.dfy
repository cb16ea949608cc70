/** Block ciphers as keyed permutations of blocks, zero-IV cipher block
    chaining over them, and the checks built from chaining and exclusive-or. */
module Cipher {
  import opened Common

  // ------------------------------------------------------------ exclusive or

  function Power2(n: nat): nat {
    if n == 0 then 1 else 2 * Power2(n - 1)
  }

  function XorBit(a: nat, b: nat): (x: nat)
    ensures x < 2
  {
    (a % 2 + b % 2) % 2
  }

  function XorBits(a: nat, b: nat, n: nat): (x: nat)
    ensures x < Power2(n)
  {
    if n == 0 then 0 else XorBit(a, b) + 2 * XorBits(a / 2, b / 2, n - 1)
  }

  lemma LowBit(bit: nat, rest: nat)
    requires bit < 2
    ensures (bit + 2 * rest) / 2 == rest && (bit + 2 * rest) % 2 == bit
  {
  }

  lemma XorBitBack(a: nat, b: nat)
    ensures XorBit(XorBit(a, b), b) == a % 2
  {
  }

  /** Only the low bit counts. */
  lemma XorBitLow(x: nat, c: nat, bit: nat)
    requires bit < 2 && x % 2 == bit
    ensures XorBit(x, c) == XorBit(bit, c)
  {
  }

  lemma {:induction false} XorBitsCancels(a: nat, b: nat, n: nat)
    requires a < Power2(n)
    ensures XorBits(XorBits(a, b, n), b, n) == a
  {
    if n > 0 {
      var bit, rest, x := XorBit(a, b), XorBits(a / 2, b / 2, n - 1), XorBits(a, b, n);
      assert x == bit + 2 * rest;
      LowBit(bit, rest);
      XorBitLow(x, b, bit);
      XorBitBack(a, b);
      XorBitsCancels(a / 2, b / 2, n - 1);
      assert XorBits(x, b, n) == XorBit(x, b) + 2 * XorBits(x / 2, b / 2, n - 1);
    }
  }

  lemma OctetRange()
    ensures Power2(8) == 256
  {
    assert Power2(4) == 16 && Power2(8) == 16 * Power2(4);
  }

  function Xor(a: byte, b: byte): byte {
    OctetRange();
    XorBits(a, b, 8)
  }

  lemma XorCancels(a: byte, b: byte)
    ensures Xor(Xor(a, b), b) == a
  {
    OctetRange();
    XorBitsCancels(a, b, 8);
  }

  function XorSeq(a: seq<byte>, b: seq<byte>): (x: seq<byte>)
    requires |a| == |b|
    ensures |x| == |a|
  {
    seq(|a|, i requires 0 <= i < |a| => Xor(a[i], b[i]))
  }

  lemma XorSeqCancels(a: seq<byte>, b: seq<byte>)
    requires |a| == |b|
    ensures XorSeq(XorSeq(a, b), b) == a
  {
    forall i | 0 <= i < |a| ensures XorSeq(XorSeq(a, b), b)[i] == a[i] {
      XorCancels(a[i], b[i]);
    }
  }

  lemma {:induction false} XorBitsCommutes(a: nat, b: nat, n: nat)
    ensures XorBits(a, b, n) == XorBits(b, a, n)
  {
    if n > 0 {
      XorBitsCommutes(a / 2, b / 2, n - 1);
    }
  }

  lemma XorBitAssociates(a: nat, b: nat, c: nat)
    ensures XorBit(XorBit(a, b), c) == XorBit(a, XorBit(b, c))
  {
  }

  lemma {:induction false} XorBitsAssociates(a: nat, b: nat, c: nat, n: nat)
    ensures XorBits(XorBits(a, b, n), c, n) == XorBits(a, XorBits(b, c, n), n)
  {
    if n > 0 {
      var ab, bc := XorBits(a / 2, b / 2, n - 1), XorBits(b / 2, c / 2, n - 1);
      XorBitsAssociates(a / 2, b / 2, c / 2, n - 1);
      LowBit(XorBit(a, b), ab);
      LowBit(XorBit(b, c), bc);
      XorBitAssociates(a, b, c);
      XorBitLow(XorBits(a, b, n), c, XorBit(a, b));
      XorBitLow(XorBits(b, c, n), a, XorBit(b, c));
      XorBitSwaps(XorBits(b, c, n), a);
      XorBitSwaps(XorBit(b, c), a);
    }
  }

  lemma XorBitSwaps(a: nat, b: nat)
    ensures XorBit(a, b) == XorBit(b, a)
  {
  }

  lemma XorAssociates(a: byte, b: byte, c: byte)
    ensures Xor(Xor(a, b), c) == Xor(a, Xor(b, c))
  {
    XorBitsAssociates(a, b, c, 8);
  }

  lemma XorCommutes(a: byte, b: byte)
    ensures Xor(a, b) == Xor(b, a)
  {
    XorBitsCommutes(a, b, 8);
  }

  lemma XorSeqCommutes(a: seq<byte>, b: seq<byte>)
    requires |a| == |b|
    ensures XorSeq(a, b) == XorSeq(b, a)
  {
    forall i | 0 <= i < |a| ensures XorSeq(a, b)[i] == XorSeq(b, a)[i] {
      XorBitsCommutes(a[i], b[i], 8);
    }
  }

  // ---------------------------------------------------------------- ciphers

  /** A block cipher under one key. */
  datatype Block = Block(size: nat, encrypt: seq<byte> -> seq<byte>, decrypt: seq<byte> -> seq<byte>) {
    /** The cipher permutes blocks of its size and `decrypt` is the inverse. */
    ghost predicate Permutes() {
      && size > 0
      && (forall b {:trigger encrypt(b)} :: |b| == size ==> |encrypt(b)| == size && decrypt(encrypt(b)) == b)
      && (forall b {:trigger decrypt(b)} :: |b| == size ==> |decrypt(b)| == size)
    }
  }

  lemma MultipleShrinks(n: nat, d: nat)
    requires d > 0 && n > 0 && n % d == 0
    ensures n >= d && (n - d) % d == 0
  {
    if n < d {
      DivideUnique(n, d, 0, n);
    } else {
      DivideOneMore(n - d, d);
    }
  }

  function CbcEncrypt(c: Block, iv: seq<byte>, data: seq<byte>): (out: seq<byte>)
    requires c.Permutes() && |iv| == c.size && |data| % c.size == 0
    ensures |out| == |data|
    decreases |data|
  {
    if data == [] then []
    else
      MultipleShrinks(|data|, c.size);
      var block := c.encrypt(XorSeq(iv, data[..c.size]));
      block + CbcEncrypt(c, block, data[c.size..])
  }

  function CbcDecrypt(c: Block, iv: seq<byte>, data: seq<byte>): (out: seq<byte>)
    requires c.Permutes() && |iv| == c.size && |data| % c.size == 0
    ensures |out| == |data|
    decreases |data|
  {
    if data == [] then []
    else
      MultipleShrinks(|data|, c.size);
      XorSeq(c.decrypt(data[..c.size]), iv) + CbcDecrypt(c, data[..c.size], data[c.size..])
  }

  /** Chaining is undone by chained decryption, for every permutation. */
  lemma {:induction false} CbcRoundTrip(c: Block, iv: seq<byte>, data: seq<byte>)
    requires c.Permutes() && |iv| == c.size && |data| % c.size == 0
    ensures CbcDecrypt(c, iv, CbcEncrypt(c, iv, data)) == data
    decreases |data|
  {
    if data != [] {
      MultipleShrinks(|data|, c.size);
      var first, rest := data[..c.size], data[c.size..];
      var block := c.encrypt(XorSeq(iv, first));
      var out := CbcEncrypt(c, iv, data);
      assert out[..c.size] == block && out[c.size..] == CbcEncrypt(c, block, rest);
      CbcRoundTrip(c, block, rest);
      XorSeqCommutes(iv, first);
      XorSeqCancels(first, iv);
    }
  }

  // ------------------------------------------------------------ MAC and check

  /** The chaining value after all of data: the CBC-MAC register. */
  function CbcMac(c: Block, mac: seq<byte>, data: seq<byte>): (out: seq<byte>)
    requires c.Permutes() && |mac| == c.size && |data| % c.size == 0
    ensures |out| == c.size
    decreases |data|
  {
    if data == [] then mac
    else
      MultipleShrinks(|data|, c.size);
      CbcMac(c, c.encrypt(XorSeq(mac, data[..c.size])), data[c.size..])
  }

  /** The register is the last block of the chained encryption. */
  lemma {:induction false} CbcMacIsLastBlock(c: Block, mac: seq<byte>, data: seq<byte>)
    requires c.Permutes() && |mac| == c.size && |data| % c.size == 0 && data != []
    ensures |data| >= c.size
    ensures CbcMac(c, mac, data) == CbcEncrypt(c, mac, data)[|data| - c.size..]
    decreases |data|
  {
    MultipleShrinks(|data|, c.size);
    var block, rest := c.encrypt(XorSeq(mac, data[..c.size])), data[c.size..];
    if rest == [] {
      assert CbcEncrypt(c, mac, data) == block + [];
    } else {
      CbcMacIsLastBlock(c, block, rest);
      assert CbcEncrypt(c, mac, data)[|data| - c.size..] == CbcEncrypt(c, block, rest)[|rest| - c.size..];
    }
  }

  /** The block-by-block loop over a register that is updated in place. */
  method ChainBlocks(c: Block, data: seq<byte>) returns (mac: seq<byte>)
    requires c.Permutes() && |data| % c.size == 0
    ensures mac == CbcMac(c, Zeros(c.size), data)
  {
    mac := Zeros(c.size);
    var i := 0;
    assert data[0..] == data;
    while i < |data|
      invariant 0 <= i <= |data| && (|data| - i) % c.size == 0 && |mac| == c.size
      invariant CbcMac(c, mac, data[i..]) == CbcMac(c, Zeros(c.size), data)
      decreases |data| - i
    {
      MultipleShrinks(|data| - i, c.size);
      assert data[i..][..c.size] == data[i..i + c.size];
      assert data[i..][c.size..] == data[i + c.size..];
      mac := c.encrypt(XorSeq(mac, data[i..i + c.size]));
      i := i + c.size;
    }
  }

  /** Exclusive-or of the octets of s at positions j, j + length, ... */
  function Stride(s: seq<byte>, length: nat, j: nat): byte
    requires length > 0
  {
    if s == [] then 0
    else
      var past := Stride(s[..|s| - 1], length, j);
      if (|s| - 1) % length == j then Xor(past, s[|s| - 1]) else past
  }

  /** Folds s, which starts at stream position |before|, into the check octets. */
  method FoldCheck(crc: array<byte>, offset: nat, s: seq<byte>, ghost before: seq<byte>)
    requires crc.Length > 0 && |before| == offset
    requires forall j :: 0 <= j < crc.Length ==> crc[j] == Stride(before, crc.Length, j)
    modifies crc
    ensures forall j :: 0 <= j < crc.Length ==> crc[j] == Stride(before + s, crc.Length, j)
  {
    var i := 0;
    assert before + s[..0] == before;
    while i < |s|
      invariant 0 <= i <= |s|
      invariant forall j :: 0 <= j < crc.Length ==> crc[j] == Stride(before + s[..i], crc.Length, j)
    {
      ghost var now := before + s[..i + 1];
      assert now[..|now| - 1] == before + s[..i] && now[|now| - 1] == s[i];
      var at := (offset + i) % crc.Length;
      crc[at] := Xor(crc[at], s[i]);
      i := i + 1;
    }
    assert s[..|s|] == s;
  }

  /** The redundancy check over header and data: check octet j covers the
      octets of their concatenation at positions congruent to j. */
  method ComputeCrc(header: seq<byte>, data: seq<byte>, length: nat) returns (check: seq<byte>)
    requires length > 0
    ensures check == Crc(header + data, length)
  {
    var crc := new byte[length](i => 0);
    FoldCheck(crc, 0, header, []);
    assert [] + header == header;
    FoldCheck(crc, |header|, data, header);
    return crc[..];
  }

  function Crc(s: seq<byte>, length: nat): (check: seq<byte>)
    requires length > 0
    ensures |check| == length
  {
    seq(length, j requires 0 <= j < length => Stride(s, length, j))
  }

  // ---------------------------------------------------------- what the check sees

  lemma XorSwaps(a: byte, b: byte, c: byte)
    ensures Xor(Xor(a, b), c) == Xor(Xor(a, c), b)
  {
    XorAssociates(a, b, c);
    XorCommutes(b, c);
    XorAssociates(a, c, b);
  }

  /** Replacing one octet takes it out of its check octet and puts the other in. */
  lemma {:induction false} StrideReplaced(s: seq<byte>, length: nat, j: nat, i: nat, x: byte)
    requires length > 0 && i < |s|
    ensures Stride(s[i := x], length, j) ==
              if i % length == j then Xor(Xor(Stride(s, length, j), s[i]), x) else Stride(s, length, j)
  {
    var init, last, s' := s[..|s| - 1], s[|s| - 1], s[i := x];
    var past := Stride(init, length, j);
    if i == |s| - 1 {
      assert s'[..|s| - 1] == init;
      XorCancels(past, last);
    } else {
      assert s'[..|s| - 1] == init[i := x];
      StrideReplaced(init, length, j, i, x);
      XorSwaps(Xor(past, init[i]), x, last);
      XorSwaps(past, init[i], last);
    }
  }

  lemma {:induction false} StrideOfZeros(n: nat, length: nat, j: nat)
    requires length > 0
    ensures Stride(Zeros(n), length, j) == 0
  {
    if n > 0 {
      assert Zeros(n)[..n - 1] == Zeros(n - 1);
      StrideOfZeros(n - 1, length, j);
      XorCancels(0, 0);
      XorZero();
    }
  }

  lemma XorZero()
    ensures Xor(0, 0) == 0
  {
    assert XorBits(0, 0, 4) == 0;
    assert XorBits(0, 0, 8) == 0;
  }

  /** The check sees every change of one octet, and sees where it is: of the check
      octets just the one of its position changes. */
  lemma CrcDetects(s: seq<byte>, length: nat, i: nat, x: byte, j: nat)
    requires length > 0 && i < |s| && j < length
    ensures Crc(s[i := x], length)[j] == Crc(s, length)[j] <==> x == s[i] || j != i % length
  {
    StrideReplaced(s, length, j, i, x);
    var sum := Stride(s, length, j);
    if i % length == j && Xor(Xor(sum, s[i]), x) == sum {
      XorCancels(Xor(sum, s[i]), x);
      XorCancels(sum, x);
      XorSame(sum, s[i], x);
    }
    if x == s[i] {
      assert s[i := x] == s;
    }
  }

  lemma XorSame(a: byte, b: byte, c: byte)
    requires Xor(a, b) == Xor(a, c)
    ensures b == c
  {
    XorCommutes(a, b);
    XorCommutes(a, c);
    XorCancels(b, a);
    XorCancels(c, a);
  }
}
