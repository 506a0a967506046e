/** Case-insensitive comparison of opcodes, as `String.equalsIgnoreCase` does it for ASCII text. */
module CaseFold {

  /** Maps an upper-case ASCII letter to its lower-case form and leaves every other character alone. */
  function ToLowerAscii(c: char): char
  {
    if 'A' <= c <= 'Z' then (c as int - 'A' as int + 'a' as int) as char else c
  }

  predicate SameIgnoringCase(c: char, d: char)
  {
    ToLowerAscii(c) == ToLowerAscii(d)
  }

  /** Two strings of the same length whose characters agree position by position, ignoring case. */
  predicate EqualsIgnoreCase(a: string, b: string)
    ensures EqualsIgnoreCase(a, b) ==> |a| == |b|
    ensures a == b ==> EqualsIgnoreCase(a, b)
    ensures EqualsIgnoreCase(a, b) && (forall i :: 0 <= i < |a| ==> !('A' <= a[i] <= 'Z') && !('A' <= b[i] <= 'Z')) ==> a == b
  {
    |a| == |b| && forall i :: 0 <= i < |a| ==> SameIgnoringCase(a[i], b[i])
  }

  /** Comparing while ignoring case is an equivalence, so opcodes fall into classes of spellings. */
  lemma EqualsIgnoreCaseIsEquivalence(a: string, b: string, c: string)
    ensures EqualsIgnoreCase(a, a)
    ensures EqualsIgnoreCase(a, b) ==> EqualsIgnoreCase(b, a)
    ensures EqualsIgnoreCase(a, b) && EqualsIgnoreCase(b, c) ==> EqualsIgnoreCase(a, c)
  {
  }

  /** The only characters that fold to the lower-case letter `l` are `l` itself and its capital. */
  lemma FoldsToLetter(c: char, l: char)
    requires 'a' <= l <= 'z' && ToLowerAscii(c) == l
    ensures c == l || c as int == l as int - 32
  {
  }

  /** A character that folds to a non-letter `x` is `x` itself. */
  lemma FoldsToNonLetter(c: char, x: char)
    requires !('a' <= x <= 'z') && !('A' <= x <= 'Z') && ToLowerAscii(c) == x
    ensures c == x
  {
  }

  /** Exactly four spellings of the matrix-multiply opcode are accepted. */
  lemma MatrixMultiplyOpcodeSpellings(op: string)
    ensures EqualsIgnoreCase(op, "ba+*") <==> op in {"ba+*", "bA+*", "Ba+*", "BA+*"}
  {
    if EqualsIgnoreCase(op, "ba+*") {
      assert SameIgnoringCase(op[0], 'b') && SameIgnoringCase(op[1], 'a');
      assert SameIgnoringCase(op[2], '+') && SameIgnoringCase(op[3], '*');
      FoldsToLetter(op[0], 'b');
      FoldsToLetter(op[1], 'a');
      FoldsToNonLetter(op[2], '+');
      FoldsToNonLetter(op[3], '*');
      assert op == [op[0], op[1], op[2], op[3]];
    }
  }

  /** Exactly eight spellings of the covariance opcode are accepted. */
  lemma CovarianceOpcodeSpellings(op: string)
    ensures EqualsIgnoreCase(op, "cov") <==>
              op in {"cov", "coV", "cOv", "cOV", "Cov", "CoV", "COv", "COV"}
  {
    if EqualsIgnoreCase(op, "cov") {
      assert SameIgnoringCase(op[0], 'c') && SameIgnoringCase(op[1], 'o') && SameIgnoringCase(op[2], 'v');
      FoldsToLetter(op[0], 'c');
      FoldsToLetter(op[1], 'o');
      FoldsToLetter(op[2], 'v');
      assert op == [op[0], op[1], op[2]];
    }
  }
}
