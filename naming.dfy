/** The default column names of a data source: `"Series %d" % n`, where
    `%d` renders a natural number in decimal without leading zeros, and the
    search for the first such name that is not yet a key of the data. */
module Naming {

  /** The decimal digit character for `d`. */
  function DigitChar(d: nat): (c: char)
    requires d < 10
    ensures '0' <= c <= '9'
  {
    (48 + d) as char
  }

  /** The value of a decimal digit character. */
  function DigitValue(c: char): (d: nat)
    requires '0' <= c <= '9'
    ensures d < 10
  {
    c as int - 48
  }

  /** `"%d" % n` for a natural number `n`. */
  function Decimal(n: nat): (s: string)
    ensures |s| > 0 && IsDigits(s)
    ensures s[0] == '0' ==> n == 0
    decreases n
  {
    if n < 10 then [DigitChar(n)] else Decimal(n / 10) + [DigitChar(n % 10)]
  }

  predicate IsDigits(s: string) {
    forall i :: 0 <= i < |s| ==> '0' <= s[i] <= '9'
  }

  /** Reads a string of decimal digits back as a number (most significant first). */
  function ParseDecimal(s: string): (n: nat)
    requires IsDigits(s)
    decreases |s|
  {
    if s == [] then 0 else ParseDecimal(s[..|s| - 1]) * 10 + DigitValue(s[|s| - 1])
  }

  /** Rendering a number and reading it back gives the number. */
  lemma {:induction false} ParseDecimalOfDecimal(n: nat)
    ensures IsDigits(Decimal(n)) && ParseDecimal(Decimal(n)) == n
    decreases n
  {
    if n >= 10 {
      var s := Decimal(n / 10);
      ParseDecimalOfDecimal(n / 10);
      assert Decimal(n)[..|Decimal(n)| - 1] == s;
    }
  }

  /** Distinct numbers have distinct decimal renderings. */
  lemma DecimalInjective(a: nat, b: nat)
    requires Decimal(a) == Decimal(b)
    ensures a == b
  {
    ParseDecimalOfDecimal(a);
    ParseDecimalOfDecimal(b);
  }

  const SeriesPrefix: string := "Series "

  /** `"Series %d" % n`. */
  function SeriesName(n: nat): (s: string)
  {
    SeriesPrefix + Decimal(n)
  }

  /** A default name is "Series " followed by the decimal digits of its
      number, which read back as that number. */
  lemma SeriesNameParses(n: nat)
    ensures |SeriesName(n)| > |SeriesPrefix| && SeriesName(n)[..|SeriesPrefix|] == SeriesPrefix
    ensures IsDigits(SeriesName(n)[|SeriesPrefix|..]) && ParseDecimal(SeriesName(n)[|SeriesPrefix|..]) == n
  {
    assert SeriesName(n)[|SeriesPrefix|..] == Decimal(n);
    ParseDecimalOfDecimal(n);
  }

  /** The default names are pairwise distinct. */
  lemma SeriesNameInjective(a: nat, b: nat)
    ensures SeriesName(a) == SeriesName(b) <==> a == b
  {
    SeriesNameParses(a);
    SeriesNameParses(b);
  }

  /** The default names `"Series lo"` .. `"Series (hi-1)"`. */
  function SeriesNamesIn(lo: nat, hi: nat): set<string> {
    set k: nat | lo <= k < hi :: SeriesName(k)
  }

  /** There are exactly `hi - lo` of them. */
  lemma {:induction false} SeriesNamesInCard(lo: nat, hi: nat)
    requires lo <= hi
    ensures |SeriesNamesIn(lo, hi)| == hi - lo
    decreases hi - lo
  {
    if lo < hi {
      SeriesNamesInCard(lo, hi - 1);
      assert SeriesNamesIn(lo, hi) == SeriesNamesIn(lo, hi - 1) + {SeriesName(hi - 1)};
      if SeriesName(hi - 1) in SeriesNamesIn(lo, hi - 1) {
        var k: nat :| lo <= k < hi - 1 && SeriesName(k) == SeriesName(hi - 1);
        SeriesNameInjective(k, hi - 1);
      }
    } else {
      assert SeriesNamesIn(lo, hi) == {};
    }
  }

  /** `"Series n"` is not among the names numbered below `n`. */
  lemma SeriesNameNotBelow(n: nat)
    ensures SeriesName(n) !in SeriesNamesIn(0, n)
  {
    if SeriesName(n) in SeriesNamesIn(0, n) {
      var k: nat :| k < n && SeriesName(k) == SeriesName(n);
      SeriesNameInjective(k, n);
    }
  }

  /** The number of the first default name, counting upward from `n`, that
      is not in `keys`; the result of the loop in `add`. */
  function FirstFree(keys: set<string>, n: nat): (m: nat)
    ensures n <= m && SeriesName(m) !in keys
    ensures forall k: nat :: n <= k < m ==> SeriesName(k) in keys
    decreases keys - SeriesNamesIn(0, n)
  {
    if SeriesName(n) !in keys then n
    else
      SeriesNameNotBelow(n);
      assert SeriesNamesIn(0, n + 1) == SeriesNamesIn(0, n) + {SeriesName(n)};
      FirstFree(keys, n + 1)
  }

  /** At most `|keys|` numbers collide, so the search ends within `|keys|` steps. */
  lemma FirstFreeBound(keys: set<string>, n: nat)
    ensures FirstFree(keys, n) <= n + |keys|
  {
    var m := FirstFree(keys, n);
    assert SeriesNamesIn(n, m) <= keys;
    SeriesNamesInCard(n, m);
    assert |SeriesNamesIn(n, m)| <= |keys| by {
      SubsetCard(SeriesNamesIn(n, m), keys);
    }
  }

  lemma SubsetCard<X>(a: set<X>, b: set<X>)
    requires a <= b
    ensures |a| <= |b|
  {
    assert b == a + (b - a);
  }
}
