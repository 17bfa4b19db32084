/** SHA-256 sized digests and the running XOR that a JWT store keeps over all of its files. */
module Digests {

  const SIZE: nat := 32

  type Digest = s: seq<bv8> | |s| == SIZE witness seq(SIZE, _ => 0)

  const ZERO: Digest := seq(SIZE, _ => 0)

  function Xor(a: Digest, b: Digest): (c: Digest) {
    seq(SIZE, i requires 0 <= i < SIZE => a[i] ^ b[i])
  }

  lemma XorCommutes(a: Digest, b: Digest)
    ensures Xor(a, b) == Xor(b, a)
  {
    forall i | 0 <= i < SIZE
      ensures Xor(a, b)[i] == Xor(b, a)[i]
    {
    }
  }

  lemma XorAssociates(a: Digest, b: Digest, c: Digest)
    ensures Xor(a, Xor(b, c)) == Xor(Xor(a, b), c)
  {
    forall i | 0 <= i < SIZE
      ensures Xor(a, Xor(b, c))[i] == Xor(Xor(a, b), c)[i]
    {
    }
  }

  /** XORing a digest in twice takes it out again, wherever it was. */
  lemma XorCancels(a: Digest, b: Digest)
    ensures Xor(a, Xor(a, b)) == b && Xor(Xor(b, a), a) == b
  {
    forall i | 0 <= i < SIZE
      ensures Xor(a, Xor(a, b))[i] == b[i] && Xor(Xor(b, a), a)[i] == b[i]
    {
      ByteCancels(a[i], b[i]);
    }
  }

  lemma ByteCancels(x: bv8, y: bv8)
    ensures x ^ (x ^ y) == y && (y ^ x) ^ x == y
  {
  }

  /** The in-place loop over the bytes of a digest. */
  method XorAssign(l: array<bv8>, r: Digest)
    requires l.Length == SIZE
    modifies l
    ensures l[..] == Xor(old(l[..]), r)
  {
    for i := 0 to SIZE
      invariant forall k :: 0 <= k < i ==> l[k] == old(l[k]) ^ r[k]
      invariant forall k :: i <= k < SIZE ==> l[k] == old(l[k])
    {
      l[i] := l[i] ^ r[i];
    }
  }

  /** The XOR of a whole family of digests; the fold order is left open on purpose. */
  ghost function XorAll(m: map<string, Digest>): (d: Digest)
    decreases |m|
  {
    if m == map[] then ZERO else
      var k :| k in m;
      Xor(m[k], XorAll(m - {k}))
  }

  /** Whichever key is taken out first, the fold comes out the same. */
  lemma {:induction false} XorAllTake(m: map<string, Digest>, k: string)
    requires k in m
    ensures XorAll(m) == Xor(m[k], XorAll(m - {k}))
    decreases |m|
  {
    var j :| j in m && XorAll(m) == Xor(m[j], XorAll(m - {j}));
    if j != k {
      XorAllTake(m - {j}, k);
      XorAllTake(m - {k}, j);
      assert (m - {j}) - {k} == (m - {k}) - {j};
      var rest := XorAll((m - {j}) - {k});
      XorAssociates(m[j], m[k], rest);
      XorCommutes(m[j], m[k]);
      XorAssociates(m[k], m[j], rest);
    }
  }

  /** Setting one entry changes the fold by XORing the old digest out and the new one in. */
  lemma XorAllSet(m: map<string, Digest>, k: string, d: Digest)
    ensures k in m ==> XorAll(m[k := d]) == Xor(Xor(XorAll(m), m[k]), d)
    ensures k !in m ==> XorAll(m[k := d]) == Xor(XorAll(m), d)
  {
    var rest := XorAll(m - {k});
    XorAllTake(m[k := d], k);
    assert m[k := d] - {k} == m - {k};
    XorCommutes(d, rest);
    if k in m {
      XorAllTake(m, k);
      XorCommutes(m[k], rest);
      XorCancels(m[k], rest);
    } else {
      assert m - {k} == m;
    }
  }

  /** Dropping one entry XORs its digest out. */
  lemma XorAllDrop(m: map<string, Digest>, k: string)
    requires k in m
    ensures XorAll(m - {k}) == Xor(XorAll(m), m[k])
  {
    XorAllTake(m, k);
    XorCommutes(m[k], XorAll(m - {k}));
    XorCancels(m[k], XorAll(m - {k}));
  }
}
