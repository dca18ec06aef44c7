/** Comparing two secrets in a number of passes that depends on their lengths only. */
module Secrets {
  import opened Base64

  const WORD := 0x1_0000_0000

  // ----- The bit operators, on natural numbers -----

  function Xor(a: nat, b: nat): nat
    decreases a + b
  {
    if a == 0 && b == 0 then 0 else (a + b) % 2 + 2 * Xor(a / 2, b / 2)
  }

  function Or(a: nat, b: nat): nat
    decreases a + b
  {
    if a == 0 && b == 0 then 0 else (if a % 2 + b % 2 > 0 then 1 else 0) + 2 * Or(a / 2, b / 2)
  }

  lemma {:induction false} XorZero(a: nat, b: nat)
    ensures Xor(a, b) == 0 <==> a == b
    decreases a + b
  {
    if a != 0 || b != 0 {
      XorZero(a / 2, b / 2);
    }
  }

  /** A bit once set in the accumulator stays set. */
  lemma {:induction false} OrZero(a: nat, b: nat)
    ensures Or(a, b) == 0 <==> a == 0 && b == 0
    decreases a + b
  {
    if a != 0 || b != 0 {
      OrZero(a / 2, b / 2);
    }
  }

  /** The byte at `i`, or zero past the end. */
  function ByteAt(s: seq<byte>, i: nat): nat {
    if i < |s| then s[i] as int else 0
  }

  function Longer(left: seq<byte>, right: seq<byte>): nat {
    if |left| < |right| then |right| else |left|
  }

  /** What the comparison decides: lengths modulo the machine word, and bytes padded with zeros. */
  predicate SecretsEqual(left: seq<byte>, right: seq<byte>) {
    && |left| % WORD == |right| % WORD
    && forall i | 0 <= i < Longer(left, right) :: ByteAt(left, i) == ByteAt(right, i)
  }

  method SecretsMatch(left: seq<byte>, right: seq<byte>) returns (ok: bool)
    ensures ok <==> SecretsEqual(left, right)
    ensures |left| < WORD && |right| < WORD ==> (ok <==> left == right)
  {
    var difference := Xor(|left| % WORD, |right| % WORD);
    XorZero(|left| % WORD, |right| % WORD);
    var length := Longer(left, right);
    for index := 0 to length
      invariant difference == 0 <==>
                && |left| % WORD == |right| % WORD
                && forall i | 0 <= i < index :: ByteAt(left, i) == ByteAt(right, i)
    {
      var pass := Xor(ByteAt(left, index), ByteAt(right, index));
      XorZero(ByteAt(left, index), ByteAt(right, index));
      OrZero(difference, pass);
      difference := Or(difference, pass);
    }
    ok := difference == 0;
    EqualSecrets(left, right);
  }

  /** Below the word size, equal under the comparison means equal. */
  lemma EqualSecrets(left: seq<byte>, right: seq<byte>)
    ensures |left| < WORD && |right| < WORD ==> (SecretsEqual(left, right) <==> left == right)
  {
    if |left| < WORD && |right| < WORD && SecretsEqual(left, right) {
      forall i | 0 <= i < |left| ensures left[i] == right[i] {
        assert ByteAt(left, i) == ByteAt(right, i);
      }
    }
  }
}
