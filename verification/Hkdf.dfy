/** HKDF with SHA-256, section 2 of RFC 5869, as the key tools compute it. */
module Hkdf {
  import opened Bytes
  import opened Options

  const HASH_BYTES := 32

  /** HMAC-SHA-256: a key, a message, 32 bytes. */
  type Block = b: Bytes | |b| == 32 witness seq(32, _ => 0)

  type Mac = (Bytes, Bytes) -> Block

  const NO_SALT: Bytes := seq(HASH_BYTES, _ => 0)

  /** Section 2.2: an absent salt is a string of zeros. */
  function Extract(mac: Mac, salt: Bytes, material: Bytes): Block {
    mac(if salt == [] then NO_SALT else salt, material)
  }

  /** Section 2.3: T(i), with T(0) empty. */
  function T(mac: Mac, key: Bytes, info: Bytes, i: nat): (b: Bytes)
    requires i <= 255
    ensures i > 0 ==> |b| == HASH_BYTES
  {
    if i == 0 then [] else mac(key, T(mac, key, info, i - 1) + info + [i as byte])
  }

  /** T(1) to T(n), one after the other. */
  function Stream(mac: Mac, key: Bytes, info: Bytes, n: nat): (b: Bytes)
    requires n <= 255
    ensures |b| == HASH_BYTES * n
  {
    if n == 0 then [] else Stream(mac, key, info, n - 1) + T(mac, key, info, n)
  }

  /** The least number of blocks that hold a length. */
  function Blocks(length: nat): (n: nat)
    ensures HASH_BYTES * n >= length && (n > 0 ==> HASH_BYTES * (n - 1) < length)
  {
    (length + HASH_BYTES - 1) / HASH_BYTES
  }

  /** Output keying material: the first bytes of the whole stream of 255 blocks. */
  function Okm(mac: Mac, salt: Bytes, material: Bytes, info: Bytes, length: nat): (r: Bytes)
    requires length <= 255 * HASH_BYTES
    ensures |r| == length
  {
    Stream(mac, Extract(mac, salt, material), info, 255)[..length]
  }

  lemma {:induction false} StreamGrows(mac: Mac, key: Bytes, info: Bytes, m: nat, n: nat)
    requires m <= n <= 255
    ensures Stream(mac, key, info, m) <= Stream(mac, key, info, n)
    decreases n - m
  {
    if m < n {
      StreamGrows(mac, key, info, m, n - 1);
    }
  }

  /** Runs just as many HMAC blocks as the length needs, and returns the first bytes of T(1), T(2), ... */
  method Derive(mac: Mac, material: Bytes, info: Bytes, length: int, salt: Bytes) returns (r: Option<Bytes>, count: nat)
    ensures r.None? <==> !(0 < length <= 255 * HASH_BYTES)
    ensures r.Some? ==> r.value == Okm(mac, salt, material, info, length) && count == Blocks(length)
  {
    count := 0;
    if !(0 < length <= 255 * HASH_BYTES) {
      return None, 0;
    }
    var key := Extract(mac, salt, material);
    var output, block: Bytes := [], [];
    var counter := 1;
    while counter < 256
      invariant 1 <= counter <= 256 && count == counter - 1
      invariant output == Stream(mac, key, info, count) && block == T(mac, key, info, count)
      invariant count > 0 ==> HASH_BYTES * (count - 1) < length
    {
      if |output| >= length {
        break;
      }
      block := mac(key, block + info + [counter as byte]);
      output := output + block;
      count := count + 1;
      counter := counter + 1;
    }
    StreamGrows(mac, key, info, count, 255);
    assert output[..length] == Stream(mac, key, info, 255)[..length];
    r := Some(output[..length]);
  }

  /** A shorter output is a prefix of a longer one. */
  lemma ShorterIsPrefix(mac: Mac, salt: Bytes, material: Bytes, info: Bytes, m: nat, n: nat)
    requires m <= n <= 255 * HASH_BYTES
    ensures Okm(mac, salt, material, info, m) == Okm(mac, salt, material, info, n)[..m]
  {
  }

  /** Byte by byte: the output at a position is a byte of the block that position falls in. */
  lemma {:induction false} StreamAt(mac: Mac, key: Bytes, info: Bytes, n: nat, k: nat)
    requires n <= 255 && k < HASH_BYTES * n
    ensures k / HASH_BYTES + 1 <= n
    ensures Stream(mac, key, info, n)[k] == T(mac, key, info, k / HASH_BYTES + 1)[k % HASH_BYTES]
  {
    if k < HASH_BYTES * (n - 1) {
      StreamAt(mac, key, info, n - 1, k);
    } else {
      assert k / HASH_BYTES == n - 1 && k % HASH_BYTES == k - HASH_BYTES * (n - 1);
    }
  }

  lemma OutputAt(mac: Mac, salt: Bytes, material: Bytes, info: Bytes, length: nat, k: nat)
    requires k < length <= 255 * HASH_BYTES
    ensures Okm(mac, salt, material, info, length)[k]
         == T(mac, Extract(mac, salt, material), info, k / HASH_BYTES + 1)[k % HASH_BYTES]
  {
    StreamAt(mac, Extract(mac, salt, material), info, 255, k);
  }

  /** A chain of blocks as section 2.3 of RFC 5869 defines them: each is the MAC of the block before it, the info and
      its own number. */
  ghost predicate IsChain(mac: Mac, key: Bytes, info: Bytes, t: seq<Bytes>) {
    |t| <= 255 && forall i :: 0 <= i < |t| ==> IsLink(mac, key, info, t, i)
  }

  predicate IsLink(mac: Mac, key: Bytes, info: Bytes, t: seq<Bytes>, i: nat)
    requires i < |t| <= 255
  {
    t[i] == mac(key, (if i == 0 then [] else t[i - 1]) + info + [(i + 1) as byte])
  }

  function Concat(t: seq<Bytes>): Bytes {
    if t == [] then [] else Concat(t[..|t| - 1]) + t[|t| - 1]
  }

  lemma {:induction false} ChainIs(mac: Mac, key: Bytes, info: Bytes, t: seq<Bytes>)
    requires IsChain(mac, key, info, t)
    ensures Concat(t) == Stream(mac, key, info, |t|)
    ensures t != [] ==> t[|t| - 1] == T(mac, key, info, |t|)
    decreases |t|
  {
    if t != [] {
      var most := t[..|t| - 1];
      forall i | 0 <= i < |most|
        ensures IsLink(mac, key, info, most, i)
      {
        assert IsLink(mac, key, info, t, i);
      }
      ChainIs(mac, key, info, most);
      assert IsLink(mac, key, info, t, |t| - 1);
      if most != [] {
        assert most[|most| - 1] == t[|t| - 2];
      }
    }
  }

  /** The output is the beginning of any such chain that is long enough, under the key that section 2.2 extracts: the
      MAC of the material under the salt, or under 32 zeros where there is none. */
  lemma OkmExactly(mac: Mac, salt: Bytes, zeros: Bytes, material: Bytes, info: Bytes, length: nat, t: seq<Bytes>)
    requires |zeros| == 32 && forall i :: 0 <= i < 32 ==> zeros[i] == 0
    requires IsChain(mac, mac(if salt == [] then zeros else salt, material), info, t) && length <= 32 * |t|
    ensures |Concat(t)| == 32 * |t| && Okm(mac, salt, material, info, length) == Concat(t)[..length]
  {
    hide Concat, T, Stream;
    assert zeros == NO_SALT;
    ChainIs(mac, Extract(mac, salt, material), info, t);
    StreamGrows(mac, Extract(mac, salt, material), info, |t|, 255);
  }
}
