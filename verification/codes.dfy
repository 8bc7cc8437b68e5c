/** Short codes: the alphabet they are drawn from and the random code builder. */
module Codes {

  /** Length of every code the service generates (the default argument of create_random_code). */
  const CodeLength: nat := 6

  /** The `n` consecutive characters starting at `first`. */
  function CharRange(first: char, n: nat): (r: string)
    requires first as int + n <= 0xD800
    ensures |r| == n
    ensures forall i :: 0 <= i < n ==> r[i] as int == first as int + i
  {
    seq(n, i requires 0 <= i < n => (first as int + i) as char)
  }

  /** Python's `string.ascii_letters + string.digits`: a-z, A-Z, 0-9. */
  const Alphabet: string := CharRange('a', 26) + CharRange('A', 26) + CharRange('0', 10)

  /** One call of `random.choice(chars)`, given by the index of the symbol it picked. */
  type Choice = i: int | 0 <= i < 62

  /** A well-formed generated code: the fixed length, only symbols of the alphabet. */
  predicate IsCode(s: string) {
    |s| == CodeLength && forall i :: 0 <= i < |s| ==> s[i] in Alphabet
  }

  /** The alphabet has 62 distinct symbols, none of them the path separator. */
  lemma AlphabetFacts()
    ensures |Alphabet| == 62
    ensures forall i :: 0 <= i < |Alphabet| ==> Alphabet[i] != '/'
    ensures forall i, j :: 0 <= i < j < |Alphabet| ==> Alphabet[i] != Alphabet[j]
  {
  }

  /**
   * create_random_code(length): `length` draws of the random source `draws`,
   * each turned into its symbol of the alphabet, joined in draw order.
   */
  function CreateRandomCode(length: nat, draws: nat -> Choice): (code: string)
    ensures |code| == length
    ensures forall i :: 0 <= i < length ==> code[i] == Alphabet[draws(i)]
  {
    seq(length, i requires 0 <= i < length => Alphabet[draws(i)])
  }

  /** Every code of the default length that create_random_code returns is well formed. */
  lemma RandomCodeIsCode(draws: nat -> Choice)
    ensures IsCode(CreateRandomCode(CodeLength, draws))
  {
  }

  /** A well-formed code never contains the separator `/` that joins it to the base URL. */
  lemma CodeHasNoSlash(s: string)
    requires IsCode(s)
    ensures '/' !in s
  {
    AlphabetFacts();
    forall i | 0 <= i < |s| ensures s[i] != '/' {
      var j :| 0 <= j < |Alphabet| && Alphabet[j] == s[i];
    }
  }
}
