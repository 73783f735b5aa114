/**
 * Fingerprints: the parts of a fact joined by NUL characters, then hashed. Hashing is taken to be injective,
 * so the joined text itself stands for its hash.
 */
module Fingerprints {

  const NUL: char := '\0'

  function Fingerprint(parts: seq<string>): string {
    if parts == [] then ""
    else if |parts| == 1 then parts[0]
    else parts[0] + [NUL] + Fingerprint(parts[1..])
  }

  predicate NulFree(s: string) { NUL !in s }

  /** As many NUL-free parts as there were are recovered from the joined text. */
  lemma {:induction false} FingerprintIsInjective(a: seq<string>, b: seq<string>)
    requires |a| == |b|
    requires forall p :: p in a || p in b ==> NulFree(p)
    requires Fingerprint(a) == Fingerprint(b)
    ensures a == b
  {
    if |a| > 1 {
      var x, y := Fingerprint(a), Fingerprint(b);
      assert a[0] in a && b[0] in b;
      FirstPartEnds(a[0], b[0], Fingerprint(a[1..]), Fingerprint(b[1..]));
      assert forall p :: p in a[1..] ==> p in a;
      assert forall p :: p in b[1..] ==> p in b;
      FingerprintIsInjective(a[1..], b[1..]);
      assert a == [a[0]] + a[1..] && b == [b[0]] + b[1..];
    }
  }

  lemma FirstPartEnds(p: string, q: string, s: string, t: string)
    requires NulFree(p) && NulFree(q)
    requires p + [NUL] + s == q + [NUL] + t
    ensures p == q && s == t
  {
    var x, y := p + [NUL] + s, q + [NUL] + t;
    assert forall i :: 0 <= i < |p| ==> x[i] == p[i];
    assert forall i :: 0 <= i < |q| ==> y[i] == q[i];
    assert x[|p|] == NUL && y[|q|] == NUL;
    assert |p| == |q|;
    assert x[..|p|] == p && y[..|q|] == q;
    assert x[|p| + 1..] == s && y[|q| + 1..] == t;
  }
}
