/** Constant-shape token comparison: an XOR and OR accumulation over padded character codes. */
module TokenCompare {

  const WORD: nat := 0x1_0000_0000

  /** A token, shorter than the 32-bit range that bitwise operators see of its length. */
  type Token = s: string | |s| < WORD

  function Xor(a: nat, b: nat): nat {
    if a == 0 && b == 0 then 0
    else (if a % 2 != b % 2 then 1 else 0) + 2 * Xor(a / 2, b / 2)
  }

  function Or(a: nat, b: nat): nat {
    if a == 0 && b == 0 then 0
    else (if a % 2 == 1 || b % 2 == 1 then 1 else 0) + 2 * Or(a / 2, b / 2)
  }

  lemma {:induction false} XorZero(a: nat, b: nat)
    ensures Xor(a, b) == 0 <==> a == b
  {
    if a != 0 || b != 0 {
      XorZero(a / 2, b / 2);
    }
  }

  lemma {:induction false} OrZero(a: nat, b: nat)
    ensures Or(a, b) == 0 <==> a == 0 && b == 0
  {
    if a != 0 || b != 0 {
      OrZero(a / 2, b / 2);
    }
  }

  /** The character code at `i`, or 0 past the end. */
  function Code(s: string, i: nat): nat {
    if i < |s| then s[i] as nat else 0
  }

  /** The lengths agree as 32-bit words and the zero-padded codes agree everywhere. */
  ghost predicate Agree(expected: string, actual: string) {
    && |expected| % WORD == |actual| % WORD
    && forall i: nat :: Code(expected, i) == Code(actual, i)
  }

  method TokensMatch(expected: string, actual: string) returns (same: bool)
    ensures same <==> Agree(expected, actual)
  {
    var length := if |expected| > |actual| then |expected| else |actual|;
    var mismatch := Xor(|expected| % WORD, |actual| % WORD);
    XorZero(|expected| % WORD, |actual| % WORD);
    for index := 0 to length
      invariant mismatch == 0 <==>
        |expected| % WORD == |actual| % WORD && (forall i: nat :: i < index ==> Code(expected, i) == Code(actual, i))
    {
      var expectedCode := if index < |expected| then expected[index] as nat else 0;
      var actualCode := if index < |actual| then actual[index] as nat else 0;
      XorZero(expectedCode, actualCode);
      OrZero(mismatch, Xor(expectedCode, actualCode));
      assert Code(expected, index) == expectedCode && Code(actual, index) == actualCode;
      mismatch := Or(mismatch, Xor(expectedCode, actualCode));
    }
    same := mismatch == 0;
  }

  /**
   * Agreement is equality, except between strings whose lengths differ by a multiple of 2^32
   * and whose longer one ends in NUL characters only.
   */
  lemma AgreeExact(expected: string, actual: string)
    ensures Agree(expected, actual) <==>
      || expected == actual
      || (&& |expected| != |actual| && |expected| % WORD == |actual| % WORD
          && var (short, long) := if |expected| < |actual| then (expected, actual) else (actual, expected);
          && short <= long
          && forall i :: |short| <= i < |long| ==> long[i] as nat == 0)
  {
    var (short, long) := if |expected| < |actual| then (expected, actual) else (actual, expected);
    if Agree(expected, actual) {
      forall i | 0 <= i < |short| ensures short[i] == long[i] {
        assert Code(expected, i) == Code(actual, i);
      }
      forall i | |short| <= i < |long| ensures long[i] as nat == 0 {
        assert Code(expected, i) == Code(actual, i);
      }
    }
  }

  /** On tokens the comparison is string equality. */
  lemma TokensMatchIsEquality(expected: Token, actual: Token)
    ensures Agree(expected, actual) <==> expected == actual
  {
    AgreeExact(expected, actual);
  }
}
