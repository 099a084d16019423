/** The file catalog: the zero-padded file names and the master list built
    from them once at start-up. */
module Catalog {
  import opened Seqs

  type Path = string

  /** The folder the clips live in. */
  const AudioFolder: string := "/audio/"

  /** The configured number of clips. */
  const NumAudioFiles: int := 41

  const Extension: string := ".wav"

  predicate IsDigit(c: char)
  {
    '0' <= c <= '9'
  }

  predicate AllDigits(s: string)
  {
    forall k :: 0 <= k < |s| ==> IsDigit(s[k])
  }

  function DigitChar(d: nat): (c: char)
    requires d < 10
    ensures IsDigit(c) && c as int - '0' as int == d
  {
    (48 + d) as char
  }

  /** The decimal numeral of `i`, without leading zeros. */
  function Decimal(i: nat): (s: string)
    ensures 1 <= |s| && AllDigits(s)
  {
    if i < 10 then [DigitChar(i)] else Decimal(i / 10) + [DigitChar(i % 10)]
  }

  /** The value of a string of decimal digits (leading zeros allowed). */
  function ValueOf(s: string): nat
    requires AllDigits(s)
  {
    if s == [] then 0 else ValueOf(s[..|s| - 1]) * 10 + (s[|s| - 1] as int - '0' as int)
  }

  function Zeros(k: int): (z: string)
    ensures |z| == if k < 0 then 0 else k
    ensures forall j :: 0 <= j < |z| ==> z[j] == '0'
  {
    if k <= 0 then [] else Zeros(k - 1) + ['0']
  }

  /** Python's `f"{i:04d}"` for a non-negative `i`: the decimal numeral,
      left-filled with zeros to a width of at least four characters. */
  function ZeroPad4(i: nat): (s: string)
    ensures AllDigits(s)
    ensures |s| == if |Decimal(i)| < 4 then 4 else |Decimal(i)|
    ensures s[|s| - |Decimal(i)|..] == Decimal(i)
  {
    Zeros(4 - |Decimal(i)|) + Decimal(i)
  }

  /** The path of clip number `i`: `folder + pad4(i) + ".wav"`. */
  function PathFor(folder: string, i: nat): (p: Path)
    ensures |p| >= |folder| + 8
    ensures p[..|folder|] == folder && p[|p| - 4..] == Extension
  {
    folder + ZeroPad4(i) + Extension
  }

  lemma {:induction false} ValueOfDecimal(i: nat)
    ensures ValueOf(Decimal(i)) == i
  {
    if i >= 10 {
      var s := Decimal(i);
      assert s[..|s| - 1] == Decimal(i / 10);
      ValueOfDecimal(i / 10);
    }
  }

  /** Leading zeros do not change the value of a numeral. */
  lemma {:induction false} ValueOfLeadingZeros(k: int, s: string)
    requires AllDigits(s)
    ensures AllDigits(Zeros(k) + s) && ValueOf(Zeros(k) + s) == ValueOf(s)
  {
    var z := Zeros(k);
    if s == [] {
      assert z + s == z;
      if k > 0 {
        assert z[..|z| - 1] == Zeros(k - 1);
        ValueOfLeadingZeros(k - 1, s);
        assert Zeros(k - 1) + s == Zeros(k - 1);
      }
    } else {
      var init := s[..|s| - 1];
      assert (z + s)[..|z + s| - 1] == z + init;
      ValueOfLeadingZeros(k, init);
    }
  }

  /** Reading the padded numeral back gives the number: padding loses nothing. */
  lemma ZeroPad4RoundTrip(i: nat)
    ensures ValueOf(ZeroPad4(i)) == i
  {
    ValueOfLeadingZeros(4 - |Decimal(i)|, Decimal(i));
    ValueOfDecimal(i);
  }

  function Pow10(w: nat): (p: nat)
    ensures p >= 1
  {
    if w == 0 then 1 else 10 * Pow10(w - 1)
  }

  /** A number below `10^w` has at most `w` digits. */
  lemma {:induction false} DecimalLength(i: nat, w: nat)
    requires 1 <= w && i < Pow10(w)
    ensures |Decimal(i)| <= w
  {
    if i >= 10 {
      assert w >= 2;
      assert i / 10 < Pow10(w - 1);
      DecimalLength(i / 10, w - 1);
    }
  }

  /** For the indices 1..9999 the padded part is exactly four digits, and
      their value is the index. */
  lemma ZeroPad4Digits(i: nat)
    requires 1 <= i <= 9999
    ensures |ZeroPad4(i)| == 4 && AllDigits(ZeroPad4(i)) && ValueOf(ZeroPad4(i)) == i
  {
    DecimalLength(i, 4);
    ZeroPad4RoundTrip(i);
  }

  /** Distinct indices give distinct paths. */
  lemma PathForInjective(folder: string, i: nat, j: nat)
    requires PathFor(folder, i) == PathFor(folder, j)
    ensures i == j
  {
    var p := PathFor(folder, i);
    assert p[|folder|..|p| - 4] == ZeroPad4(i);
    assert PathFor(folder, j)[|folder|..|p| - 4] == ZeroPad4(j);
    ZeroPad4RoundTrip(i);
    ZeroPad4RoundTrip(j);
  }

  /** The configured catalog runs from `/audio/0001.wav` to `/audio/0041.wav`. */
  lemma ConfiguredPaths()
    ensures PathFor(AudioFolder, 1) == "/audio/0001.wav"
    ensures PathFor(AudioFolder, NumAudioFiles) == "/audio/0041.wav"
  {
    assert Decimal(1) == "1";
    assert Decimal(41) == Decimal(4) + "1" == "41";
  }

  /** A list whose entry `k` is the path of clip `k + 1` has no duplicates. */
  lemma CatalogDistinct(folder: string, master: seq<Path>)
    requires forall k :: 0 <= k < |master| ==> master[k] == PathFor(folder, k + 1)
    ensures NoDup(master)
  {
    forall i, j | 0 <= i < j < |master| ensures master[i] != master[j] {
      if master[i] == master[j] {
        PathForInjective(folder, i + 1, j + 1);
      }
    }
  }

  /** Builds the master list by appending the path of clip `i` for
      `i` in `range(1, n + 1)`; a count below one gives the empty list. */
  method BuildMaster(folder: string, n: int) returns (master: seq<Path>)
    ensures |master| == if n < 0 then 0 else n
    ensures forall k :: 0 <= k < |master| ==> master[k] == PathFor(folder, k + 1)
    ensures NoDup(master)
  {
    master := [];
    var i := 1;
    while i <= n
      invariant 1 <= i <= if n < 1 then 1 else n + 1
      invariant |master| == i - 1
      invariant forall k :: 0 <= k < |master| ==> master[k] == PathFor(folder, k + 1)
    {
      master := master + [PathFor(folder, i)];
      i := i + 1;
    }
    CatalogDistinct(folder, master);
  }
}
