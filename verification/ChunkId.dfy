/** The text a chunk id is hashed from, and why it names its chunk. */
module ChunkId {

  function Digit(d: nat): char
    requires d < 10
  {
    '0' + d as char
  }

  /** Decimal numerals, as the source's template strings print whole numbers. */
  function Numeral(n: nat): (s: string)
    ensures s != "" && forall k :: 0 <= k < |s| ==> '0' <= s[k] <= '9'
  {
    if n < 10 then [Digit(n)] else Numeral(n / 10) + [Digit(n % 10)]
  }

  function Decimal(n: int): string {
    if n < 0 then "-" + Numeral(-n) else Numeral(n)
  }

  function Value(s: string): nat
    requires forall k :: 0 <= k < |s| ==> '0' <= s[k] <= '9'
  {
    if s == "" then 0 else Value(s[..|s| - 1]) * 10 + (s[|s| - 1] - '0') as nat
  }

  lemma {:induction false} NumeralValue(n: nat)
    ensures Value(Numeral(n)) == n
  {
    if n >= 10 {
      NumeralValue(n / 10);
      assert Numeral(n)[..|Numeral(n)| - 1] == Numeral(n / 10);
    } else {
      assert [Digit(n)][..0] == "";
    }
  }

  lemma DecimalInjective(m: int, n: int)
    requires Decimal(m) == Decimal(n)
    ensures m == n
  {
    DecimalSign(m);
    DecimalSign(n);
    if m < 0 {
      NumeralInjective(-m, -n);
    } else {
      NumeralInjective(m, n);
    }
  }

  lemma NumeralInjective(m: nat, n: nat)
    requires Numeral(m) == Numeral(n)
    ensures m == n
  {
    NumeralValue(m);
    NumeralValue(n);
  }

  lemma DecimalSign(n: int)
    ensures Decimal(n) != "" && (Decimal(n)[0] == '-' <==> n < 0)
    ensures n < 0 ==> Decimal(n)[1..] == Numeral(-n)
  {
  }

  predicate NoColon(s: string) {
    forall k :: 0 <= k < |s| ==> s[k] != ':'
  }

  lemma DecimalNoColon(n: int)
    ensures NoColon(Decimal(n))
  {
  }

  /** A text splits at its last colon in one way only. */
  lemma LastColon(a: string, b: string, a': string, b': string)
    requires a + ":" + b == a' + ":" + b' && NoColon(b) && NoColon(b')
    ensures a == a' && b == b'
  {
    var s := a + ":" + b;
    var s' := a' + ":" + b';
    assert s[|a|] == ':' && s'[|a'|] == ':';
    assert forall k :: |a| < k < |s| ==> s[k] == b[k - |a| - 1] && s[k] != ':';
    assert forall k :: |a'| < k < |s'| ==> s'[k] == b'[k - |a'| - 1] && s'[k] != ':';
    assert s[..|a|] == a && s'[..|a'|] == a';
    assert s[|a| + 1..] == b && s'[|a'| + 1..] == b';
  }

  function IdText(docKey: string, startLine: int, endLine: int, contentHash: string): string {
    docKey + ":" + Decimal(startLine) + ":" + Decimal(endLine) + ":" + contentHash
  }

  /** The id text determines the document, the lines and the content hash, whatever colons the document key holds. */
  lemma IdTextInjective(docKey: string, startLine: int, endLine: int, contentHash: string,
                        docKey': string, startLine': int, endLine': int, contentHash': string)
    requires IdText(docKey, startLine, endLine, contentHash) == IdText(docKey', startLine', endLine', contentHash')
    requires NoColon(contentHash) && NoColon(contentHash')
    ensures docKey == docKey' && startLine == startLine' && endLine == endLine' && contentHash == contentHash'
  {
    var front := docKey + ":" + Decimal(startLine);
    var front' := docKey' + ":" + Decimal(startLine');
    DecimalNoColon(startLine);
    DecimalNoColon(startLine');
    DecimalNoColon(endLine);
    DecimalNoColon(endLine');
    LastColon(front + ":" + Decimal(endLine), contentHash, front' + ":" + Decimal(endLine'), contentHash');
    LastColon(front, Decimal(endLine), front', Decimal(endLine'));
    LastColon(docKey, Decimal(startLine), docKey', Decimal(startLine'));
    DecimalInjective(startLine, startLine');
    DecimalInjective(endLine, endLine');
  }
}
