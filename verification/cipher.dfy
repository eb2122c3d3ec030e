/**
 * The autokey XOR obfuscation the bulbs and plugs apply to every datagram
 * (`TpLinkDevice.encrypt` / `TpLinkDevice.decrypt`).
 *
 * Each byte is XORed with a running key. Encryption then sets the key to the
 * byte it just wrote; decryption sets it to the byte it just read. A Node.js
 * `Buffer` stores every assigned number modulo 256, so a key is a byte.
 */
module Cipher {

  type Byte = bv8

  /** The initial key both directions use when the caller gives none. */
  const DEFAULT_KEY: Byte := 0xAB

  /** Encryption as a value: the output byte becomes the next key. */
  function EncryptSeq(s: seq<Byte>, key: Byte): (r: seq<Byte>)
    ensures |r| == |s|
  {
    if s == [] then []
    else
      var out := s[0] ^ key;
      [out] + EncryptSeq(s[1..], out)
  }

  /** Decryption as a value: the input byte becomes the next key. */
  function DecryptSeq(s: seq<Byte>, key: Byte): (r: seq<Byte>)
    ensures |r| == |s|
  {
    if s == [] then [] else [s[0] ^ key] + DecryptSeq(s[1..], s[0])
  }

  /** `r` is `s` encrypted byte by byte: out[0] = in[0] ^ key, out[i] = in[i] ^ out[i-1]. */
  ghost predicate ChainedEncryption(s: seq<Byte>, key: Byte, r: seq<Byte>) {
    && |r| == |s|
    && (|s| > 0 ==> r[0] == s[0] ^ key)
    && forall i :: 0 < i < |s| ==> r[i] == s[i] ^ r[i - 1]
  }

  /** `r` is `s` decrypted byte by byte: out[0] = in[0] ^ key, out[i] = in[i] ^ in[i-1]. */
  ghost predicate ChainedDecryption(s: seq<Byte>, key: Byte, r: seq<Byte>) {
    && |r| == |s|
    && (|s| > 0 ==> r[0] == s[0] ^ key)
    && forall i :: 0 < i < |s| ==> r[i] == s[i] ^ s[i - 1]
  }

  /** The recursive definition satisfies the per-byte encryption recurrence. */
  lemma {:induction false} EncryptSatisfiesChain(s: seq<Byte>, key: Byte)
    ensures ChainedEncryption(s, key, EncryptSeq(s, key))
  {
    if s != [] {
      var out := s[0] ^ key;
      var tail := EncryptSeq(s[1..], out);
      var r := [out] + tail;
      EncryptSatisfiesChain(s[1..], out);
      forall i | 0 < i < |s|
        ensures r[i] == s[i] ^ r[i - 1]
      {
        if i > 1 {
          assert tail[i - 1] == s[1..][i - 1] ^ tail[i - 2];
        }
      }
      assert ChainedEncryption(s, key, r);
      assert r == EncryptSeq(s, key);
    }
  }

  /** The per-byte encryption recurrence has no other solution. */
  lemma {:induction false} ChainedEncryptionIsUnique(s: seq<Byte>, key: Byte, r: seq<Byte>)
    requires ChainedEncryption(s, key, r)
    ensures r == EncryptSeq(s, key)
  {
    if s != [] {
      var out := s[0] ^ key;
      forall i | 0 < i < |s| - 1
        ensures r[1..][i] == s[1..][i] ^ r[1..][i - 1]
      {
        assert r[i + 1] == s[i + 1] ^ r[i];
      }
      ChainedEncryptionIsUnique(s[1..], out, r[1..]);
      assert r == [r[0]] + r[1..];
    }
  }

  /** out[0] = in[0] ^ key and out[i] = in[i] ^ out[i-1] describe encryption exactly. */
  lemma EncryptIsChained(s: seq<Byte>, key: Byte, r: seq<Byte>)
    ensures r == EncryptSeq(s, key) <==> ChainedEncryption(s, key, r)
  {
    EncryptSatisfiesChain(s, key);
    if ChainedEncryption(s, key, r) {
      ChainedEncryptionIsUnique(s, key, r);
    }
  }

  /** The recursive definition satisfies the per-byte decryption recurrence. */
  lemma {:induction false} DecryptSatisfiesChain(s: seq<Byte>, key: Byte)
    ensures ChainedDecryption(s, key, DecryptSeq(s, key))
  {
    if s != [] {
      var tail := DecryptSeq(s[1..], s[0]);
      var r := [s[0] ^ key] + tail;
      DecryptSatisfiesChain(s[1..], s[0]);
      forall i | 0 < i < |s|
        ensures r[i] == s[i] ^ s[i - 1]
      {
        if i > 1 {
          assert tail[i - 1] == s[1..][i - 1] ^ s[1..][i - 2];
        }
      }
      assert ChainedDecryption(s, key, r);
      assert r == DecryptSeq(s, key);
    }
  }

  /** The per-byte decryption recurrence has no other solution. */
  lemma {:induction false} ChainedDecryptionIsUnique(s: seq<Byte>, key: Byte, r: seq<Byte>)
    requires ChainedDecryption(s, key, r)
    ensures r == DecryptSeq(s, key)
  {
    if s != [] {
      forall i | 0 < i < |s| - 1
        ensures r[1..][i] == s[1..][i] ^ s[1..][i - 1]
      {
        assert r[i + 1] == s[i + 1] ^ s[i];
      }
      ChainedDecryptionIsUnique(s[1..], s[0], r[1..]);
      assert r == [r[0]] + r[1..];
    }
  }

  /** out[0] = in[0] ^ key and out[i] = in[i] ^ in[i-1] describe decryption exactly. */
  lemma DecryptIsChained(s: seq<Byte>, key: Byte, r: seq<Byte>)
    ensures r == DecryptSeq(s, key) <==> ChainedDecryption(s, key, r)
  {
    DecryptSatisfiesChain(s, key);
    if ChainedDecryption(s, key, r) {
      ChainedDecryptionIsUnique(s, key, r);
    }
  }

  /** Decrypting with the key used for encryption restores every plaintext. */
  lemma {:induction false} DecryptInvertsEncrypt(s: seq<Byte>, key: Byte)
    ensures DecryptSeq(EncryptSeq(s, key), key) == s
  {
    if s != [] {
      var out := s[0] ^ key;
      var rest := EncryptSeq(s[1..], out);
      DecryptInvertsEncrypt(s[1..], out);
      assert EncryptSeq(s, key) == [out] + rest;
      assert ([out] + rest)[1..] == rest;
      assert out ^ key == s[0];
      assert s == [s[0]] + s[1..];
    }
  }

  /** Encrypting with the key used for decryption restores every ciphertext. */
  lemma {:induction false} EncryptInvertsDecrypt(c: seq<Byte>, key: Byte)
    ensures EncryptSeq(DecryptSeq(c, key), key) == c
  {
    if c != [] {
      var plain := c[0] ^ key;
      var rest := DecryptSeq(c[1..], c[0]);
      EncryptInvertsDecrypt(c[1..], c[0]);
      assert DecryptSeq(c, key) == [plain] + rest;
      assert ([plain] + rest)[1..] == rest;
      assert plain ^ key == c[0];
      assert c == [c[0]] + c[1..];
    }
  }

  /** `TpLinkDevice.encrypt`: rewrites `buffer` in place and returns the same buffer. */
  method Encrypt(buffer: array<Byte>, key: Byte := DEFAULT_KEY) returns (r: array<Byte>)
    modifies buffer
    ensures r == buffer
    ensures buffer[..] == EncryptSeq(old(buffer[..]), key)
  {
    var k := key;
    for i := 0 to buffer.Length
      invariant k == if i == 0 then key else buffer[i - 1]
      invariant i > 0 ==> buffer[0] == old(buffer[0]) ^ key
      invariant forall j :: 0 < j < i ==> buffer[j] == old(buffer[j]) ^ buffer[j - 1]
      invariant forall j :: i <= j < buffer.Length ==> buffer[j] == old(buffer[j])
    {
      var c := buffer[i];
      buffer[i] := c ^ k;
      k := buffer[i];
    }
    EncryptIsChained(old(buffer[..]), key, buffer[..]);
    r := buffer;
  }

  /** `TpLinkDevice.decrypt`: rewrites `buffer` in place and returns the same buffer. */
  method Decrypt(buffer: array<Byte>, key: Byte := DEFAULT_KEY) returns (r: array<Byte>)
    modifies buffer
    ensures r == buffer
    ensures buffer[..] == DecryptSeq(old(buffer[..]), key)
  {
    var k := key;
    for i := 0 to buffer.Length
      invariant k == if i == 0 then key else old(buffer[i - 1])
      invariant i > 0 ==> buffer[0] == old(buffer[0]) ^ key
      invariant forall j :: 0 < j < i ==> buffer[j] == old(buffer[j]) ^ old(buffer[j - 1])
      invariant forall j :: i <= j < buffer.Length ==> buffer[j] == old(buffer[j])
    {
      var c := buffer[i];
      buffer[i] := c ^ k;
      k := c;
    }
    DecryptIsChained(old(buffer[..]), key, buffer[..]);
    r := buffer;
  }
}
