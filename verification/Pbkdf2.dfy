/**
  Key derivation for the dashboard PIN: the in-place implementation and PBKDF2 as section 5.2 of
  RFC 8018 defines it, for any pseudorandom function of fixed output length.
 */
module Pbkdf2 {
  type Bytes = seq<bv8>

  ghost predicate FixedLength(f: Bytes -> Bytes, n: nat) { forall x: Bytes :: |f(x)| == n }

  // ----- section 5.2 -----

  function Octet(n: nat): bv8 { (n % 256) as bv8 }

  /** INT(i): four octets, most significant first. */
  function Int4(i: nat): Bytes { [Octet(i / 0x100_0000), Octet(i / 0x1_0000), Octet(i / 0x100), Octet(i / 1)] }

  /** U_n of block i. */
  function U(f: Bytes -> Bytes, salt: Bytes, i: nat, n: nat): Bytes
    requires n >= 1
  {
    if n == 1 then f(salt + Int4(i)) else f(U(f, salt, i, n - 1))
  }

  function Xor(a: Bytes, b: Bytes): (r: Bytes)
    requires |a| == |b|
    ensures |r| == |a| && forall k :: 0 <= k < |r| ==> r[k] == a[k] ^ b[k]
  {
    seq(|a|, k requires 0 <= k < |a| => a[k] ^ b[k])
  }

  /** U_1 xor ... xor U_n. */
  ghost function F(f: Bytes -> Bytes, hLen: nat, salt: Bytes, i: nat, n: nat): (t: Bytes)
    requires FixedLength(f, hLen) && n >= 1
    ensures |t| == hLen
  {
    if n == 1 then U(f, salt, i, 1) else Xor(F(f, hLen, salt, i, n - 1), U(f, salt, i, n))
  }

  /** T_1 || ... || T_l. */
  ghost function Blocks(f: Bytes -> Bytes, hLen: nat, salt: Bytes, c: nat, l: nat): (dk: Bytes)
    requires FixedLength(f, hLen) && c >= 1
    ensures |dk| == l * hLen
  {
    if l == 0 then [] else
      assert l * hLen == (l - 1) * hLen + hLen;
      Blocks(f, hLen, salt, c, l - 1) + F(f, hLen, salt, l, c)
  }

  function BlockCount(dkLen: nat, hLen: nat): nat
    requires hLen > 0
  {
    (dkLen + hLen - 1) / hLen
  }

  lemma BlocksSuffice(dkLen: nat, hLen: nat)
    requires hLen > 0
    ensures BlockCount(dkLen, hLen) * hLen >= dkLen
  {
    var n := dkLen + hLen - 1;
    assert n == n / hLen * hLen + n % hLen;
  }

  ghost function Derive(f: Bytes -> Bytes, hLen: nat, salt: Bytes, c: nat, dkLen: nat): (dk: Bytes)
    requires FixedLength(f, hLen) && hLen > 0 && c >= 1
    ensures |dk| == dkLen
  {
    BlocksSuffice(dkLen, hLen);
    Blocks(f, hLen, salt, c, BlockCount(dkLen, hLen))[..dkLen]
  }

  // ----- the implementation -----

  /** The keyed hash object: bytes are written to it and summed into a caller's buffer. */
  class Prf {
    const f: Bytes -> Bytes
    const size: nat
    var written: Bytes

    ghost predicate Valid() { FixedLength(f, size) && size > 0 }

    constructor (f: Bytes -> Bytes, size: nat)
      requires FixedLength(f, size) && size > 0
      ensures Valid() && this.f == f && this.size == size
    {
      this.f, this.size, written := f, size, [];
    }

    method Reset()
      modifies this
      ensures written == []
    {
      written := [];
    }

    method Write(b: array<bv8>)
      modifies this
      ensures written == old(written) + b[..]
    {
      written := written + b[..];
    }

    method Sum(out: array<bv8>)
      requires Valid() && out.Length == size
      modifies out
      ensures out[..] == f(written)
    {
      var digest := f(written);
      for k := 0 to size
        invariant out[..k] == digest[..k]
      {
        out[k] := digest[k];
      }
      assert out[..] == out[..size] && digest == digest[..size];
    }
  }

  method XorInto(t: array<bv8>, u: array<bv8>)
    requires t != u && t.Length == u.Length
    modifies t
    ensures t[..] == Xor(old(t[..]), u[..])
  {
    for x := 0 to t.Length
      invariant forall k :: 0 <= k < x ==> t[k] == old(t[k]) ^ u[k]
      invariant forall k :: x <= k < t.Length ==> t[k] == old(t[k])
    {
      t[x] := t[x] ^ u[x];
    }
  }

  method PutCounter(buf: array<bv8>, at: nat, block: nat)
    requires at + 4 == buf.Length
    modifies buf
    ensures buf[..] == old(buf[..at]) + Int4(block)
  {
    buf[at + 0] := Octet(block / 0x100_0000);
    buf[at + 1] := Octet(block / 0x1_0000);
    buf[at + 2] := Octet(block / 0x100);
    buf[at + 3] := Octet(block / 1);
  }

  /** Hashes one buffer into another, or in place. */
  method Hash(prf: Prf, input: array<bv8>, out: array<bv8>)
    requires prf.Valid() && out.Length == prf.size
    modifies prf, out
    ensures out[..] == prf.f(old(input[..]))
  {
    prf.Reset();
    prf.Write(input);
    assert prf.written == old(input[..]);
    prf.Sum(out);
  }

  method Copy(u: array<bv8>) returns (t: array<bv8>)
    ensures fresh(t) && t[..] == u[..]
  {
    t := new bv8[u.Length];
    for k := 0 to u.Length
      invariant t[..k] == u[..k]
    {
      t[k] := u[k];
    }
    assert t[..] == t[..u.Length] && u[..] == u[..u.Length];
  }

  /** U_n from U_(n-1), xored into the accumulator. */
  method Round(prf: Prf, u: array<bv8>, t: array<bv8>, ghost salt: Bytes, ghost block: nat, ghost n: nat)
    requires prf.Valid() && u != t && n >= 1 && u.Length == t.Length == prf.size
    requires u[..] == U(prf.f, salt, block, n) && t[..] == F(prf.f, prf.size, salt, block, n)
    modifies prf, u, t
    ensures u[..] == U(prf.f, salt, block, n + 1) && t[..] == F(prf.f, prf.size, salt, block, n + 1)
  {
    Hash(prf, u, u);
    XorInto(t, u);
  }

  function Rounds(iter: int): nat { if iter < 1 then 1 else iter }

  /** One block: U_1 from salt and counter, then each U_n from the last, xored together in place. */
  method Block(prf: Prf, buf: array<bv8>, ghost salt: Bytes, ghost block: nat, iter: int) returns (t: array<bv8>)
    requires prf.Valid() && buf[..] == salt + Int4(block)
    modifies prf
    ensures fresh(t) && t[..] == F(prf.f, prf.size, salt, block, Rounds(iter))
  {
    var u := new bv8[prf.size];
    Hash(prf, buf, u);
    t := Copy(u);
    var n := 2;
    while n <= iter
      invariant n == 2 || n <= iter + 1
      invariant 2 <= n && u[..] == U(prf.f, salt, block, n - 1) && t[..] == F(prf.f, prf.size, salt, block, n - 1)
    {
      Round(prf, u, t, salt, block, n - 1);
      n := n + 1;
    }
  }

  method StartBuffer(salt: Bytes) returns (buf: array<bv8>)
    ensures fresh(buf) && buf.Length == |salt| + 4 && buf[..|salt|] == salt
  {
    buf := new bv8[|salt| + 4];
    for k := 0 to |salt|
      invariant buf[..k] == salt[..k]
    {
      buf[k] := salt[k];
    }
  }

  /** The first `n` blocks, one after another. */
  method AllBlocks(prf: Prf, salt: Bytes, iter: int, n: nat) returns (dk: Bytes)
    requires prf.Valid()
    modifies prf
    ensures dk == Blocks(prf.f, prf.size, salt, Rounds(iter), n)
  {
    dk := [];
    var buf := StartBuffer(salt);
    for block := 1 to n + 1
      invariant buf[..|salt|] == salt
      invariant dk == Blocks(prf.f, prf.size, salt, Rounds(iter), block - 1)
    {
      var t := NumberedBlock(prf, buf, salt, block, iter);
      dk := dk + t;
    }
  }

  /** The counter goes into the buffer's last four bytes, behind the salt. */
  method NumberedBlock(prf: Prf, buf: array<bv8>, salt: Bytes, block: nat, iter: int) returns (t: Bytes)
    requires prf.Valid() && buf.Length == |salt| + 4 && buf[..|salt|] == salt
    modifies prf, buf
    ensures buf[..|salt|] == salt && t == F(prf.f, prf.size, salt, block, Rounds(iter))
  {
    PutCounter(buf, |salt|, block);
    var bytes := Block(prf, buf, salt, block, iter);
    t := bytes[..];
  }

  /** An iteration count below one acts as one. */
  method Key(prf: Prf, salt: Bytes, iter: int, keyLen: nat) returns (dk: Bytes)
    requires prf.Valid()
    modifies prf
    ensures dk == Derive(prf.f, prf.size, salt, if iter >= 1 then iter else 1, keyLen)
  {
    dk := AllBlocks(prf, salt, iter, BlockCount(keyLen, prf.size));
    BlocksSuffice(keyLen, prf.size);
    dk := dk[..keyLen];
  }

  // ----- the counter -----

  lemma LastDigit24(i: nat)
    ensures i % 0x100_0000 == 0x100 * (i / 0x100 % 0x1_0000) + i % 0x100
  {
  }

  lemma LastDigit16(i: nat)
    ensures i % 0x1_0000 == 0x100 * (i / 0x100 % 0x100) + i % 0x100
  {
  }

  lemma LastDigit32(i: nat)
    ensures i % 0x1_0000_0000 == 0x100 * (i / 0x100 % 0x100_0000) + i % 0x100
  {
  }

  lemma QuotientDigits(i: nat)
    ensures (i / 0x100_0000 % 256) * 0x100_0000 + (i / 0x1_0000 % 256) * 0x1_0000 + (i / 0x100 % 256) * 0x100 +
            i % 256 == i % 0x1_0000_0000
  {
    LastDigit32(i);
    LastDigit24(i / 0x100);
    LastDigit16(i / 0x100 / 0x100);
    assert i / 0x1_0000 == i / 0x100 / 0x100;
    assert i / 0x100_0000 == i / 0x100 / 0x100 / 0x100;
  }

  /**
    The counter's octets are the base-256 digits, most significant first, of the block number exactly while
    that fits in 32 bits.
   */
  lemma CounterIsBigEndian(i: nat) returns (a: nat, b: nat, c: nat, d: nat)
    ensures a < 256 && b < 256 && c < 256 && d < 256 && Int4(i) == [a as bv8, b as bv8, c as bv8, d as bv8]
    ensures a * 0x100_0000 + b * 0x1_0000 + c * 0x100 + d == i % 0x1_0000_0000
    ensures a * 0x100_0000 + b * 0x1_0000 + c * 0x100 + d == i <==> i < 0x1_0000_0000
  {
    a, b, c, d := i / 0x100_0000 % 256, i / 0x1_0000 % 256, i / 0x100 % 256, i / 1 % 256;
    QuotientDigits(i);
    WordFits(i);
  }

  lemma WordFits(i: nat)
    ensures i % 0x1_0000_0000 == i <==> i < 0x1_0000_0000
  {
  }

  lemma WrapsModulo(i: nat, d: nat)
    requires d == 1 || d == 0x100 || d == 0x1_0000 || d == 0x100_0000
    ensures (i + 0x1_0000_0000) / d % 256 == i / d % 256
  {
    if d == 0x100_0000 { assert (i + 0x1_0000_0000) / d == i / d + 0x100; }
    else if d == 0x1_0000 { assert (i + 0x1_0000_0000) / d == i / d + 0x1_0000; }
    else if d == 0x100 { assert (i + 0x1_0000_0000) / d == i / d + 0x100_0000; }
  }

  lemma OctetRepeats(i: nat, d: nat)
    requires d == 1 || d == 0x100 || d == 0x1_0000 || d == 0x100_0000
    ensures Octet((i + 0x1_0000_0000) / d) == Octet(i / d)
  {
    WrapsModulo(i, d);
  }

  lemma CounterRepeats(i: nat)
    ensures Int4(i + 0x1_0000_0000) == Int4(i)
  {
    OctetRepeats(i, 1);
    OctetRepeats(i, 0x100);
    OctetRepeats(i, 0x1_0000);
    OctetRepeats(i, 0x100_0000);
  }

  /** Past it the counter wraps: blocks 2^32 apart are the same, which is why the standard bounds the key length. */
  lemma {:induction false} BlocksRepeat(f: Bytes -> Bytes, hLen: nat, salt: Bytes, i: nat, n: nat)
    requires FixedLength(f, hLen) && n >= 1
    ensures U(f, salt, i + 0x1_0000_0000, n) == U(f, salt, i, n)
    ensures F(f, hLen, salt, i + 0x1_0000_0000, n) == F(f, hLen, salt, i, n)
  {
    if n == 1 { CounterRepeats(i); } else { BlocksRepeat(f, hLen, salt, i, n - 1); }
  }

  // ----- keys of different lengths -----

  lemma {:induction false} BlocksPrefix(f: Bytes -> Bytes, hLen: nat, salt: Bytes, c: nat, l: nat, m: nat)
    requires FixedLength(f, hLen) && c >= 1 && l <= m
    ensures Blocks(f, hLen, salt, c, l) <= Blocks(f, hLen, salt, c, m)
  {
    if l < m { BlocksPrefix(f, hLen, salt, c, l, m - 1); }
  }

  /** A shorter key is a prefix of a longer one from the same salt and count. */
  lemma ShorterKeyIsPrefix(f: Bytes -> Bytes, hLen: nat, salt: Bytes, c: nat, n: nat, m: nat)
    requires FixedLength(f, hLen) && hLen > 0 && c >= 1 && n <= m
    ensures Derive(f, hLen, salt, c, n) == Derive(f, hLen, salt, c, m)[..n]
  {
    var a, b := BlockCount(n, hLen), BlockCount(m, hLen);
    BlocksSuffice(n, hLen);
    BlocksSuffice(m, hLen);
    if a <= b { BlocksPrefix(f, hLen, salt, c, a, b); } else { BlocksPrefix(f, hLen, salt, c, b, a); }
  }

  // ----- what the bytes of a key are -----

  lemma {:induction false} BlockByte(f: Bytes -> Bytes, hLen: nat, salt: Bytes, c: nat, l: nat, i: nat, j: nat)
    requires FixedLength(f, hLen) && c >= 1 && i < l && j < hLen
    ensures i * hLen + j < l * hLen
    ensures Blocks(f, hLen, salt, c, l)[i * hLen + j] == F(f, hLen, salt, i + 1, c)[j]
  {
    assert l * hLen == (l - 1) * hLen + hLen;
    if i < l - 1 {
      BlockByte(f, hLen, salt, c, l - 1, i, j);
    }
  }

  /** Byte `k` of a key is byte `k % hLen` of block `k / hLen + 1`. */
  lemma KeyByte(f: Bytes -> Bytes, hLen: nat, salt: Bytes, c: nat, dkLen: nat, k: nat)
    requires FixedLength(f, hLen) && hLen > 0 && c >= 1 && k < dkLen
    ensures Derive(f, hLen, salt, c, dkLen)[k] == F(f, hLen, salt, k / hLen + 1, c)[k % hLen]
  {
    BlocksSuffice(dkLen, hLen);
    var l, i := BlockCount(dkLen, hLen), k / hLen;
    assert k == i * hLen + k % hLen;
    if i >= l { assert i * hLen >= l * hLen by { MulMonotone(l, i, hLen); } }
    BlockByte(f, hLen, salt, c, l, i, k % hLen);
  }

  lemma MulMonotone(a: nat, b: nat, c: nat)
    requires a <= b
    ensures a * c <= b * c
  {
  }

  /** One round is the PRF of salt and counter; each further one adds the PRF of what the last one fed it. */
  lemma FirstRounds(f: Bytes -> Bytes, hLen: nat, salt: Bytes, i: nat)
    requires FixedLength(f, hLen)
    ensures var u := f(salt + Int4(i));
            F(f, hLen, salt, i, 1) == u && F(f, hLen, salt, i, 2) == Xor(u, f(u)) &&
            F(f, hLen, salt, i, 3) == Xor(Xor(u, f(u)), f(f(u)))
  {
    assert U(f, salt, i, 3) == f(U(f, salt, i, 2));
  }
}
