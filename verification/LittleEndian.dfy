/** Numbers as bytes, least significant first. */
module LittleEndian {
  import opened Basics

  function Power256(n: nat): (p: nat)
    ensures p > 0
  {
    if n == 0 then 1 else 256 * Power256(n - 1)
  }

  function Encode(v: nat, n: nat): (bs: seq<Byte>)
    ensures |bs| == n
  {
    if n == 0 then [] else [v % 256] + Encode(v / 256, n - 1)
  }

  function Decode(bs: seq<Byte>): nat {
    if bs == [] then 0 else bs[0] + 256 * Decode(bs[1..])
  }

  lemma {:induction false} DecodeEncode(v: nat, n: nat)
    requires v < Power256(n)
    ensures Decode(Encode(v, n)) == v
  {
    if n > 0 {
      assert v / 256 < Power256(n - 1);
      DecodeEncode(v / 256, n - 1);
    }
  }

  lemma Multiples(d: nat, a: nat, b: nat)
    ensures a <= b ==> d * a <= d * b
  {
  }

  lemma Quotient(v: nat, d: nat, q: nat)
    requires d > 0 && d * q <= v < d * (q + 1)
    ensures v / d == q
  {
    var e := v / d;
    assert d * e <= v < d * (e + 1);
    Multiples(d, e + 1, q);
    Multiples(d, q + 1, e);
  }

  lemma DivTwice(v: nat, p: nat)
    requires p > 0
    ensures v / 256 / p == v / (256 * p)
  {
    var u := v / 256;
    var q := u / p;
    assert 256 * u <= v < 256 * (u + 1);
    assert p * q <= u < p * (q + 1);
    assert 256 * p * q == 256 * (p * q) && 256 * p * (q + 1) == 256 * (p * (q + 1));
    Quotient(v, 256 * p, q);
  }

  /** Byte `i` counts the multiples of the i-th power of 256. */
  lemma {:induction false} EncodeAt(v: nat, n: nat, i: nat)
    requires i < n
    ensures Encode(v, n)[i] == v / Power256(i) % 256
  {
    if i > 0 {
      EncodeAt(v / 256, n - 1, i - 1);
      DivTwice(v, Power256(i - 1));
    }
  }
}
