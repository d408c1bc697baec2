/** Byte strings and the fixed-width integer encodings the tools read and write. */
module Bytes {
  newtype byte = b: int | 0 <= b < 256

  type Bytes = seq<byte>

  function Pow256(k: nat): (r: nat)
    ensures r > 0
  {
    if k == 0 then 1 else 256 * Pow256(k - 1)
  }

  /** int.from_bytes(s, "little") */
  function LittleEndian(s: Bytes): (n: nat)
    ensures n < Pow256(|s|)
  {
    if s == [] then 0 else s[0] as nat + 256 * LittleEndian(s[1..])
  }

  /** n.to_bytes(k, "little"); to_bytes raises when n does not fit. */
  function ToLittleEndian(n: nat, k: nat): (s: Bytes)
    requires n < Pow256(k)
    ensures |s| == k && LittleEndian(s) == n
  {
    if k == 0 then [] else
      var rest := ToLittleEndian(n / 256, k - 1);
      [(n % 256) as byte] + rest
  }

  lemma {:induction false} LittleEndianInjective(s: Bytes, t: Bytes)
    requires |s| == |t| && LittleEndian(s) == LittleEndian(t)
    ensures s == t
  {
    if s != [] {
      assert s[0] == t[0] && LittleEndian(s[1..]) == LittleEndian(t[1..]);
      LittleEndianInjective(s[1..], t[1..]);
      assert s == [s[0]] + s[1..] && t == [t[0]] + t[1..];
    }
  }

  lemma ScaleProduct(p: nat, x: nat)
    ensures 256 * (p * x) == (256 * p) * x
  {
  }

  /** The most significant byte carries the multiples of the next lower power. */
  lemma {:induction false} LittleEndianLast(s: Bytes, last: byte)
    ensures LittleEndian(s + [last]) == LittleEndian(s) + Pow256(|s|) * last as nat
  {
    if s == [] {
      assert LittleEndian([last]) == last as nat + 256 * LittleEndian([]);
    } else {
      assert (s + [last])[1..] == s[1..] + [last];
      LittleEndianLast(s[1..], last);
      ScaleProduct(Pow256(|s| - 1), last as nat);
    }
  }

  /** struct.pack(">Q", n) and struct.pack(">I", n) for k = 8 and k = 4. */
  function BigEndian(n: nat, k: nat): (s: Bytes)
    requires n < Pow256(k)
    ensures |s| == k
  {
    if k == 0 then [] else BigEndian(n / 256, k - 1) + [(n % 256) as byte]
  }

  function FromBigEndian(s: Bytes): nat {
    if s == [] then 0 else FromBigEndian(s[..|s| - 1]) * 256 + s[|s| - 1] as nat
  }

  lemma {:induction false} BigEndianRoundTrip(n: nat, k: nat)
    requires n < Pow256(k)
    ensures FromBigEndian(BigEndian(n, k)) == n
  {
    if k > 0 {
      var s := BigEndian(n, k);
      assert s[..|s| - 1] == BigEndian(n / 256, k - 1);
      BigEndianRoundTrip(n / 256, k - 1);
    }
  }
}
