/** The pool of characters a password may be drawn from: up to three fixed
    alphabets, concatenated in a fixed order according to three toggles. */
module CharacterPool {

  const UppercaseAlphabetical: string := "ABCDEFGHIJKLMNOPQRSTUVWXYZ"
  const LowercaseAlphabetical: string := "abcdefghijklmnopqrstuvwxyz"
  const Alphabetical: string := UppercaseAlphabetical + LowercaseAlphabetical
  const Numerical: string := "1234567890"
  const Symbols: string := "!@$%^&*+#_.-"

  /** The three character classes, stated independently of the constant strings. */
  predicate IsLetter(c: char) { 'A' <= c <= 'Z' || 'a' <= c <= 'z' }
  predicate IsDigit(c: char) { '0' <= c <= '9' }
  predicate IsSymbol(c: char) {
    c == '!' || c == '@' || c == '$' || c == '%' || c == '^' || c == '&' ||
    c == '*' || c == '+' || c == '#' || c == '_' || c == '.' || c == '-'
  }

  /** The block a character of the pool belongs to: letters, then digits, then symbols. */
  function Block(c: char): (b: nat)
    ensures b <= 2
  {
    if IsLetter(c) then 0 else if IsDigit(c) then 1 else 2
  }

  /** No character occurs twice. */
  predicate Distinct(s: string) {
    forall i, j :: 0 <= i < j < |s| ==> s[i] != s[j]
  }

  /** Every character of `s` lies in a block between `lo` and `hi`. */
  predicate InBlocks(s: string, lo: nat, hi: nat) {
    forall i :: 0 <= i < |s| ==> lo <= Block(s[i]) <= hi
  }

  /** Blocks never decrease from left to right. */
  predicate BlockOrdered(s: string) {
    forall i, j :: 0 <= i <= j < |s| ==> Block(s[i]) <= Block(s[j])
  }

  // The constant alphabets are exactly their classes, without repetition.

  lemma AlphabeticalIsLetters()
    ensures |Alphabetical| == 52 && Distinct(Alphabetical)
    ensures forall c :: c in Alphabetical <==> IsLetter(c)
  {
    assert forall i | 0 <= i < 26 :: UppercaseAlphabetical[i] as int == 'A' as int + i;
    assert forall i | 0 <= i < 26 :: LowercaseAlphabetical[i] as int == 'a' as int + i;
  }

  lemma NumericalIsDigits()
    ensures |Numerical| == 10 && Distinct(Numerical)
    ensures forall c :: c in Numerical <==> IsDigit(c)
  {
  }

  lemma SymbolsAreSymbols()
    ensures |Symbols| == 12 && Distinct(Symbols)
    ensures forall c :: c in Symbols <==> IsSymbol(c)
  {
  }

  /** The three classes are pairwise disjoint. */
  lemma ClassesDisjoint(c: char)
    ensures !(IsLetter(c) && IsDigit(c))
    ensures !(IsLetter(c) && IsSymbol(c))
    ensures !(IsDigit(c) && IsSymbol(c))
  {
  }

  /** The pool for the three toggles: the enabled alphabets, in the order
      letters, digits, symbols. With every toggle off it is empty. */
  function Pool(alphabet: bool, numbers: bool, symbols: bool): (pool: string)
    ensures |pool| == (if alphabet then 52 else 0) + (if numbers then 10 else 0) + (if symbols then 12 else 0)
    ensures pool == [] <==> !alphabet && !numbers && !symbols
    ensures forall c :: c in pool <==>
      (alphabet && IsLetter(c)) || (numbers && IsDigit(c)) || (symbols && IsSymbol(c))
  {
    AlphabeticalIsLetters();
    NumericalIsDigits();
    SymbolsAreSymbols();
    ""
    + (if alphabet then Alphabetical else "")
    + (if numbers then Numerical else "")
    + (if symbols then Symbols else "")
  }

  /** Concatenating two duplicate-free strings with no character in common
      gives a duplicate-free string. */
  lemma DistinctConcat(a: string, b: string)
    requires Distinct(a) && Distinct(b)
    requires forall c :: c in a ==> c !in b
    ensures Distinct(a + b)
  {
    forall i, j | 0 <= i < j < |a + b|
      ensures (a + b)[i] != (a + b)[j]
    {
      if i < |a| && |a| <= j {
        assert (a + b)[i] == a[i] && a[i] in a;
        assert (a + b)[j] == b[j - |a|] && b[j - |a|] in b;
      }
    }
  }

  /** The pool never holds a character twice. */
  lemma PoolDistinct(alphabet: bool, numbers: bool, symbols: bool)
    ensures Distinct(Pool(alphabet, numbers, symbols))
  {
    AlphabeticalIsLetters();
    NumericalIsDigits();
    SymbolsAreSymbols();
    forall c ensures !(IsLetter(c) && IsDigit(c)) && !(IsLetter(c) && IsSymbol(c)) && !(IsDigit(c) && IsSymbol(c)) {
      ClassesDisjoint(c);
    }
    var a := if alphabet then Alphabetical else "";
    var n := if numbers then Numerical else "";
    var s := if symbols then Symbols else "";
    DistinctConcat(a, n);
    DistinctConcat(a + n, s);
    assert Pool(alphabet, numbers, symbols) == a + n + s;
  }

  lemma AlphabeticalBlock()
    ensures InBlocks(Alphabetical, 0, 0)
  {
    AlphabeticalIsLetters();
    forall i | 0 <= i < |Alphabetical| ensures Block(Alphabetical[i]) == 0 {
      assert Alphabetical[i] in Alphabetical;
    }
  }

  lemma NumericalBlock()
    ensures InBlocks(Numerical, 1, 1)
  {
    NumericalIsDigits();
    forall i | 0 <= i < |Numerical| ensures Block(Numerical[i]) == 1 {
      assert Numerical[i] in Numerical;
    }
  }

  lemma SymbolsBlock()
    ensures InBlocks(Symbols, 2, 2)
  {
    SymbolsAreSymbols();
    forall i | 0 <= i < |Symbols| ensures Block(Symbols[i]) == 2 {
      assert Symbols[i] in Symbols;
      ClassesDisjoint(Symbols[i]);
    }
  }

  /** Two block-ordered strings, the first in blocks up to `k` and the second
      in blocks from `k` on, concatenate to a block-ordered string. */
  lemma ConcatBlockOrdered(a: string, b: string, lo: nat, k: nat, hi: nat)
    requires lo <= k <= hi
    requires BlockOrdered(a) && BlockOrdered(b)
    requires InBlocks(a, lo, k) && InBlocks(b, k, hi)
    ensures BlockOrdered(a + b) && InBlocks(a + b, lo, hi)
  {
    forall i, j | 0 <= i <= j < |a + b|
      ensures Block((a + b)[i]) <= Block((a + b)[j])
    {
      if i < |a| { assert (a + b)[i] == a[i]; } else { assert (a + b)[i] == b[i - |a|]; }
      if j < |a| { assert (a + b)[j] == a[j]; } else { assert (a + b)[j] == b[j - |a|]; }
    }
    forall i | 0 <= i < |a + b|
      ensures lo <= Block((a + b)[i]) <= hi
    {
      if i < |a| { assert (a + b)[i] == a[i]; } else { assert (a + b)[i] == b[i - |a|]; }
    }
  }

  lemma WidenBlocks(s: string, lo: nat, hi: nat, lo': nat, hi': nat)
    requires InBlocks(s, lo, hi) && lo' <= lo && hi <= hi'
    ensures InBlocks(s, lo', hi')
  {
  }

  /** Three strings lying in blocks 0, 1 and 2 respectively concatenate to
      a block-ordered string. */
  lemma ThreeBlocksOrdered(a: string, n: string, s: string)
    requires InBlocks(a, 0, 0) && InBlocks(n, 1, 1) && InBlocks(s, 2, 2)
    ensures BlockOrdered(a + n + s)
  {
    assert BlockOrdered(a) && BlockOrdered(n) && BlockOrdered(s);
    WidenBlocks(n, 1, 1, 0, 1);
    WidenBlocks(s, 2, 2, 1, 2);
    ConcatBlockOrdered(a, n, 0, 0, 1);
    ConcatBlockOrdered(a + n, s, 0, 1, 2);
  }

  /** Within the pool, every letter comes before every digit and every digit
      before every symbol: no enabled block is reordered or interleaved. */
  lemma PoolBlocksOrdered(alphabet: bool, numbers: bool, symbols: bool)
    ensures BlockOrdered(Pool(alphabet, numbers, symbols))
  {
    AlphabeticalBlock();
    NumericalBlock();
    SymbolsBlock();
    var a := if alphabet then Alphabetical else "";
    var n := if numbers then Numerical else "";
    var s := if symbols then Symbols else "";
    ThreeBlocksOrdered(a, n, s);
    assert Pool(alphabet, numbers, symbols) == a + n + s;
  }
}
