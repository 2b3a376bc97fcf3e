/** The names of the training images: a class prefix, a dash, the 1-based
    image index written as at least two decimal digits, and the extension;
    and the joining of such a name onto the training directory. */
module FileNames {

  predicate IsDigit(c: char)
  {
    '0' <= c <= '9'
  }

  predicate AllDigits(s: string)
  {
    forall k :: 0 <= k < |s| ==> IsDigit(s[k])
  }

  function Digit(d: nat): (c: char)
    requires d < 10
    ensures IsDigit(c)
  {
    ('0' as int + d) as char
  }

  function DigitValue(c: char): (d: nat)
    requires IsDigit(c)
    ensures d < 10
    ensures Digit(d) == c
  {
    c as int - '0' as int
  }

  /** The decimal numeral of `n` with no leading zeros, as Python's `str`. */
  function Decimal(n: nat): (s: string)
    ensures |s| >= 1 && AllDigits(s)
    ensures n < 10 <==> |s| == 1
  {
    if n < 10 then [Digit(n)] else Decimal(n / 10) + [Digit(n % 10)]
  }

  /** Python's `format(n, "02d")` on a non-negative `n`: the numeral, padded
      on the left with zeros to at least two characters. */
  function ZeroPad2(n: nat): (s: string)
    ensures |s| >= 2 && AllDigits(s)
  {
    var d := Decimal(n);
    if |d| < 2 then "0" + d else d
  }

  /** The value of a numeral; the inverse of `Decimal` and `ZeroPad2`. */
  function ParseDecimal(s: string): nat
    requires AllDigits(s)
  {
    if s == [] then 0 else 10 * ParseDecimal(s[..|s| - 1]) + DigitValue(s[|s| - 1])
  }

  lemma {:induction false} DecimalRoundTrip(n: nat)
    ensures ParseDecimal(Decimal(n)) == n
  {
    if n >= 10 {
      DecimalRoundTrip(n / 10);
      var s := Decimal(n);
      assert s[..|s| - 1] == Decimal(n / 10);
    }
  }

  lemma {:induction false} LeadingZero(s: string)
    requires AllDigits(s)
    ensures ParseDecimal("0" + s) == ParseDecimal(s)
  {
    if s != [] {
      LeadingZero(s[..|s| - 1]);
      assert ("0" + s)[..|s|] == "0" + s[..|s| - 1];
    }
  }

  /** Padding does not change the index a name encodes. */
  lemma ZeroPad2RoundTrip(n: nat)
    ensures ParseDecimal(ZeroPad2(n)) == n
  {
    DecimalRoundTrip(n);
    LeadingZero(Decimal(n));
  }

  /** Indices below 100 are written with exactly two digits, tens first. */
  lemma ZeroPad2TwoDigits(n: nat)
    requires n < 100
    ensures ZeroPad2(n) == [Digit(n / 10), Digit(n % 10)]
  {
    if n >= 10 {
      assert Decimal(n / 10) == [Digit(n / 10)];
    }
  }

  /** The name of training image `index` of the class whose files start
      with `prefix`. */
  function TrainingFileName(prefix: string, index: nat, extension: string): string
  {
    prefix + "-" + ZeroPad2(index) + extension
  }

  /** A training file name can be taken apart again: the prefix, the dash,
      two digits that read back as the index, and the extension. */
  lemma TrainingFileNameRoundTrip(prefix: string, index: nat, extension: string)
    requires index < 100
    ensures var name := TrainingFileName(prefix, index, extension);
      |name| == |prefix| + 3 + |extension| &&
      name[..|prefix|] == prefix &&
      name[|prefix|] == '-' &&
      AllDigits(name[|prefix| + 1..|prefix| + 3]) &&
      ParseDecimal(name[|prefix| + 1..|prefix| + 3]) == index &&
      name[|prefix| + 3..] == extension
  {
    var name := TrainingFileName(prefix, index, extension);
    ZeroPad2TwoDigits(index);
    ZeroPad2RoundTrip(index);
    assert name[|prefix| + 1..|prefix| + 3] == ZeroPad2(index);
  }

  /** Different indices give different files, so no image is read twice:
      two names with the same prefix and extension are equal only for the
      same index, whatever its number of digits. */
  lemma TrainingFileNamesDistinct(prefix: string, i: nat, j: nat, extension: string)
    ensures TrainingFileName(prefix, i, extension) == TrainingFileName(prefix, j, extension) ==> i == j
  {
    var a, b := TrainingFileName(prefix, i, extension), TrainingFileName(prefix, j, extension);
    if a == b {
      var zi, zj := ZeroPad2(i), ZeroPad2(j);
      assert |zi| == |zj|;
      assert a[|prefix| + 1..|prefix| + 1 + |zi|] == zi;
      assert b[|prefix| + 1..|prefix| + 1 + |zj|] == zj;
      ZeroPad2RoundTrip(i);
      ZeroPad2RoundTrip(j);
    }
  }

  /** POSIX `os.path.join` of two parts: an absolute second part replaces
      the first; otherwise a '/' is put between them unless the first is
      empty or already ends with one. */
  function Join(directory: string, name: string): (path: string)
    ensures |path| >= |name| && path[|path| - |name|..] == name
    ensures |name| > 0 && name[0] == '/' ==> path == name
    ensures !(|name| > 0 && name[0] == '/') ==>
      |directory| + |name| <= |path| <= |directory| + 1 + |name| && path[..|directory|] == directory
    ensures !(|name| > 0 && name[0] == '/') && directory != [] ==> path[|path| - |name| - 1] == '/'
    ensures !(|name| > 0 && name[0] == '/') && (directory == [] || directory[|directory| - 1] == '/') ==>
      |path| == |directory| + |name|
  {
    if |name| > 0 && name[0] == '/' then name
    else if directory == [] || directory[|directory| - 1] == '/' then directory + name
    else
      assert (directory + "/" + name)[..|directory|] == directory;
      directory + "/" + name
  }
}
