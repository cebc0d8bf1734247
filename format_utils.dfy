/** The number formatters of the `src/` dashboard (src/lib/utils.ts):
    compact K/M/B/T notation, a currency prefix and a signed percentage.
    `Number.prototype.toFixed` is a parameter `toFixed(x, decimals)`: its
    digit rendering is not modelled. */
module FormatUtils {

  /** The `decimals` all three formatters use when called without one. */
  const DefaultDecimals: nat := 2

  const Thousand: real := 1000.0
  const Million: real := 1000000.0
  const Billion: real := 1000000000.0
  const Trillion: real := 1000000000000.0

  /** A number written as `magnitude` times the power its suffix names. */
  datatype Scaled = Scaled(magnitude: real, power: real, suffix: string)

  /** The first threshold the number reaches, from trillions down. */
  function ScaleOf(num: real): (s: Scaled)
    ensures s.power > 0.0 && s.magnitude * s.power == num
    ensures s.suffix == "T" <==> num >= Trillion
    ensures s.suffix == "B" <==> Billion <= num < Trillion
    ensures s.suffix == "M" <==> Million <= num < Billion
    ensures s.suffix == "K" <==> Thousand <= num < Million
    ensures s.suffix == "" <==> num < Thousand
    ensures s.suffix == "" ==> s.power == 1.0
    ensures s.suffix != "" ==> 1.0 <= s.magnitude
    ensures s.suffix in {"K", "M", "B"} ==> s.magnitude < 1000.0
  {
    if num >= Trillion then Scaled(num / Trillion, Trillion, "T")
    else if num >= Billion then Scaled(num / Billion, Billion, "B")
    else if num >= Million then Scaled(num / Million, Million, "M")
    else if num >= Thousand then Scaled(num / Thousand, Thousand, "K")
    else Scaled(num, 1.0, "")
  }

  /** `formatNumber(num, decimals)` */
  function FormatNumber(num: real, decimals: nat := DefaultDecimals, toFixed: (real, nat) -> string): (r: string)
    ensures num >= Trillion ==> r == toFixed(num / Trillion, decimals) + "T"
    ensures Billion <= num < Trillion ==> r == toFixed(num / Billion, decimals) + "B"
    ensures Million <= num < Billion ==> r == toFixed(num / Million, decimals) + "M"
    ensures Thousand <= num < Million ==> r == toFixed(num / Thousand, decimals) + "K"
    ensures num < Thousand ==> r == toFixed(num, decimals)
  {
    var s := ScaleOf(num);
    toFixed(s.magnitude, decimals) + s.suffix
  }

  /** Position of a suffix in the order none < K < M < B < T. */
  function SuffixRank(suffix: string): nat
  {
    if suffix == "K" then 1
    else if suffix == "M" then 2
    else if suffix == "B" then 3
    else if suffix == "T" then 4
    else 0
  }

  /** A larger number never gets a smaller suffix. */
  lemma SuffixMonotone(a: real, b: real)
    requires a <= b
    ensures SuffixRank(ScaleOf(a).suffix) <= SuffixRank(ScaleOf(b).suffix)
  {
    var sa, sb := ScaleOf(a), ScaleOf(b);
    assert sa.suffix in {"", "K", "M", "B", "T"} && sb.suffix in {"", "K", "M", "B", "T"};
  }

  /** A negative number is printed whole, without a suffix. */
  lemma NegativeHasNoSuffix(num: real, decimals: nat, toFixed: (real, nat) -> string)
    requires num < 0.0
    ensures FormatNumber(num, decimals, toFixed) == toFixed(num, decimals)
  {
    assert ScaleOf(num).suffix == "";
  }

  /** `formatCurrency(num, decimals)`: a dollar sign before the compact number. */
  function FormatCurrency(num: real, decimals: nat := DefaultDecimals, toFixed: (real, nat) -> string): (r: string)
    ensures |r| >= 1 && r[0] == '$'
    ensures r[1..] == FormatNumber(num, decimals, toFixed)
  {
    "$" + FormatNumber(num, decimals, toFixed)
  }

  /** The sign `formatPercentage` writes itself: "+" for zero and above. */
  function SignPrefix(num: real): (s: string)
    ensures s == "+" <==> num >= 0.0
    ensures s == "" <==> num < 0.0
  {
    if num >= 0.0 then "+" else ""
  }

  /** `formatPercentage(num, decimals)` */
  function FormatPercentage(num: real, decimals: nat := DefaultDecimals, toFixed: (real, nat) -> string): (r: string)
    ensures |r| >= 1 && r[|r| - 1] == '%'
    ensures num >= 0.0 ==> r == "+" + toFixed(num, decimals) + "%"
    ensures num < 0.0 ==> r == toFixed(num, decimals) + "%"
  {
    SignPrefix(num) + toFixed(num, decimals) + "%"
  }

  /** Called without `decimals`, as the dashboard's panels call them, the
      formatters use two decimals: the total market cap 2.48e12 is shown as
      "$" + toFixed(2.48, 2) + "T", a rise of 2.4 as "+" + toFixed(2.4, 2) + "%". */
  lemma DefaultDecimalsUsed(toFixed: (real, nat) -> string)
    ensures FormatCurrency(2480000000000.0, toFixed := toFixed) == "$" + toFixed(2.48, 2) + "T"
    ensures FormatPercentage(2.4, toFixed := toFixed) == "+" + toFixed(2.4, 2) + "%"
  {
    assert 2480000000000.0 / Trillion == 2.48;
  }

  /** `toFixed` itself never writes a leading "+" (a negative number starts
      with "-", any other with a digit). */
  ghost predicate NoLeadingPlus(toFixed: (real, nat) -> string)
  {
    forall x: real, d: nat :: |toFixed(x, d)| == 0 || toFixed(x, d)[0] != '+'
  }

  /** With such a `toFixed`, a percentage starts with "+" exactly when the
      number is zero or above. */
  lemma PercentagePlusIffNonNegative(num: real, decimals: nat, toFixed: (real, nat) -> string)
    requires NoLeadingPlus(toFixed)
    ensures FormatPercentage(num, decimals, toFixed)[0] == '+' <==> num >= 0.0
  {
    var r := FormatPercentage(num, decimals, toFixed);
    var digits := toFixed(num, decimals);
    if num < 0.0 {
      assert r == digits + "%";
      if |digits| == 0 {
        assert r[0] == '%';
      } else {
        assert r[0] == digits[0];
      }
    }
  }
}
