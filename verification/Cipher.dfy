// src/core/cipher.cpp: the single-byte XOR cipher.

module Ciphers {
  import opened ByteStrings

  /** Bitwise exclusive or of the low `width` bits, least significant bit first. */
  function XorBits(a: nat, b: nat, width: nat): nat {
    if width == 0 then 0
    else (if a % 2 == b % 2 then 0 else 1) + 2 * XorBits(a / 2, b / 2, width - 1)
  }

  function Pow2(n: nat): nat {
    if n == 0 then 1 else 2 * Pow2(n - 1)
  }

  lemma {:induction false} XorBitsInvolution(a: nat, b: nat, width: nat)
    requires a < Pow2(width)
    ensures XorBits(a, b, width) < Pow2(width)
    ensures XorBits(XorBits(a, b, width), b, width) == a
  {
    if width > 0 {
      XorBitsInvolution(a / 2, b / 2, width - 1);
      var bit, rest := if a % 2 == b % 2 then 0 else 1, XorBits(a / 2, b / 2, width - 1);
      assert (bit + 2 * rest) / 2 == rest && (bit + 2 * rest) % 2 == bit;
    }
  }

  /** Whether bit k of n is set. */
  predicate Bit(n: nat, k: nat) {
    if k == 0 then n % 2 == 1 else Bit(n / 2, k - 1)
  }

  lemma {:induction false} XorBitsBit(a: nat, b: nat, width: nat, k: nat)
    requires k < width
    ensures Bit(XorBits(a, b, width), k) <==> Bit(a, k) != Bit(b, k)
  {
    var bit, rest := if a % 2 == b % 2 then 0 else 1, XorBits(a / 2, b / 2, width - 1);
    assert (bit + 2 * rest) / 2 == rest && (bit + 2 * rest) % 2 == bit;
    if k > 0 {
      XorBitsBit(a / 2, b / 2, width - 1, k - 1);
    }
  }

  function XorByte(c: Byte, key: Byte): Byte {
    ByteRange();
    XorBitsInvolution(c as nat, key as nat, 8);
    XorBits(c as nat, key as nat, 8) as char
  }

  lemma ByteRange()
    ensures Pow2(8) == 256
  {
    assert Pow2(4) == 16;
  }

  lemma XorByteBit(c: Byte, key: Byte, k: nat)
    requires k < 8
    ensures Bit(XorByte(c, key) as nat, k) <==> Bit(c as nat, k) != Bit(key as nat, k)
  {
    ByteRange();
    XorBitsInvolution(c as nat, key as nat, 8);
    XorBitsBit(c as nat, key as nat, 8, k);
  }

  lemma XorByteInvolution(c: Byte, key: Byte)
    ensures XorByte(XorByte(c, key), key) == c
  {
    ByteRange();
    XorBitsInvolution(c as nat, key as nat, 8);
  }

  /** What `Cipher::encrypt` computes: every byte XORed with the key. */
  function Xor(s: Bytes, key: Byte): (r: Bytes)
    ensures |r| == |s|
  {
    if s == [] then [] else [XorByte(s[0], key)] + Xor(s[1..], key)
  }

  /** Each bit of each byte is set afterwards iff it is set in exactly one of byte and key. */
  lemma {:induction false} XorIsBitwise(s: Bytes, key: Byte, i: nat, k: nat)
    requires i < |s| && k < 8
    ensures Bit(Xor(s, key)[i] as nat, k) <==> Bit(s[i] as nat, k) != Bit(key as nat, k)
  {
    if i == 0 {
      XorByteBit(s[0], key, k);
    } else {
      XorIsBitwise(s[1..], key, i - 1, k);
    }
  }

  /** The cipher is its own inverse (tests/core/test_cipher.cpp, cipher.h). */
  lemma {:induction false} XorInvolution(s: Bytes, key: Byte)
    ensures Xor(Xor(s, key), key) == s
  {
    if s != [] {
      XorByteInvolution(s[0], key);
      XorInvolution(s[1..], key);
    }
  }

  /** Two plaintexts with the same ciphertext are the same plaintext. */
  lemma XorInjective(s: Bytes, t: Bytes, key: Byte)
    ensures Xor(s, key) == Xor(t, key) <==> s == t
  {
    XorInvolution(s, key);
    XorInvolution(t, key);
  }

  lemma {:induction false} XorConcat(s: Bytes, t: Bytes, key: Byte)
    ensures Xor(s + t, key) == Xor(s, key) + Xor(t, key)
  {
    if s == [] {
      assert s + t == t;
    } else {
      assert (s + t)[1..] == s[1..] + t;
      XorConcat(s[1..], t, key);
    }
  }

  class Cipher {
    const key: Byte

    constructor (key: Byte := 0x5A as char)
      ensures this.key == key
    {
      this.key := key;
    }

    method Encrypt(data: Bytes) returns (out: Bytes)
      ensures out == Xor(data, key)
    {
      out := [];
      for i := 0 to |data|
        invariant out == Xor(data[..i], key)
      {
        assert data[..i + 1] == data[..i] + [data[i]];
        XorConcat(data[..i], [data[i]], key);
        out := out + [XorByte(data[i], key)];
      }
      assert data[..|data|] == data;
    }

    method Decrypt(data: Bytes) returns (out: Bytes)
      ensures Xor(out, key) == data
    {
      out := Encrypt(data);
      XorInvolution(data, key);
    }
  }
}
