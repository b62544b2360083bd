/**
 * `generateChartColors`: the fixed palette, topped up with random colours
 * when a chart needs more slices than it has, then cut to the count.
 * A call of the random source is modelled as the next number of `draws`,
 * the value of `Math.floor(Math.random() * 16777215)`.
 */
module Chart {
  const Palette: seq<string> := [
    "#3498db", "#2ecc71", "#9b59b6", "#e74c3c",
    "#f39c12", "#1abc9c", "#34495e", "#16a085",
    "#27ae60", "#2980b9", "#8e44ad", "#f1c40f"
  ]

  /** `Math.floor(Math.random() * 16777215)` lies in `[0, 16777215)`. */
  const DrawBound: nat := 16777215

  /** A lower-case hexadecimal digit, as `toString(16)` writes them. */
  predicate IsHexDigit(c: char) {
    '0' <= c <= '9' || 'a' <= c <= 'f'
  }

  /** The digit for `d`: `0`-`9`, then `a`-`f`. */
  function HexDigit(d: nat): (c: char)
    requires d < 16
    ensures IsHexDigit(c)
  {
    if d < 10 then ('0' as int + d) as char else ('a' as int + d - 10) as char
  }

  /** `n.toString(16)`: lower-case hexadecimal without leading zeros. */
  function ToHex(n: nat): (r: string)
    ensures |r| >= 1
    ensures forall i :: 0 <= i < |r| ==> IsHexDigit(r[i])
    decreases n
  {
    if n < 16 then [HexDigit(n)] else ToHex(n / 16) + [HexDigit(n % 16)]
  }

  /** The value of a hexadecimal digit. */
  function DigitValue(c: char): (d: nat)
    ensures d < 16
    ensures IsHexDigit(c) ==> HexDigit(d) == c
  {
    if '0' <= c <= '9' then c as int - '0' as int
    else if 'a' <= c <= 'f' then c as int - 'a' as int + 10
    else 0
  }

  /** The number a string of hexadecimal digits denotes, as a colour parser reads it. */
  function FromHex(s: string): nat {
    if s == [] then 0 else FromHex(s[..|s| - 1]) * 16 + DigitValue(s[|s| - 1])
  }

  lemma DigitsRoundTrip(d: nat)
    requires d < 16
    ensures DigitValue(HexDigit(d)) == d
  {
  }

  lemma {:induction false} ToHexRoundTrip(n: nat)
    ensures FromHex(ToHex(n)) == n
    decreases n
  {
    DigitsRoundTrip(n % 16);
    if n >= 16 {
      ToHexRoundTrip(n / 16);
      var s := ToHex(n);
      assert s[..|s| - 1] == ToHex(n / 16);
    }
  }

  /** At most six digits for a number below 16^6. */
  lemma {:induction false} ToHexLength(n: nat, k: nat)
    requires n < Pow16(k) && k >= 1
    ensures |ToHex(n)| <= k
    decreases k
  {
    if n >= 16 {
      assert n / 16 < Pow16(k - 1);
      ToHexLength(n / 16, k - 1);
    }
  }

  function Pow16(k: nat): (p: nat)
    ensures p >= 1
  {
    if k == 0 then 1 else 16 * Pow16(k - 1)
  }

  function Zeros(k: nat): (r: string)
    ensures |r| == k && forall i :: 0 <= i < k ==> r[i] == '0'
  {
    if k == 0 then [] else Zeros(k - 1) + ['0']
  }

  /** Leading zeros do not change the number. */
  lemma {:induction false} FromHexZeros(k: nat, s: string)
    ensures FromHex(Zeros(k) + s) == FromHex(s)
    decreases |s|
  {
    if s == [] {
      ZerosValue(k);
      assert Zeros(k) + s == Zeros(k);
    } else {
      var z := Zeros(k) + s;
      assert z[..|z| - 1] == Zeros(k) + s[..|s| - 1];
      FromHexZeros(k, s[..|s| - 1]);
    }
  }

  lemma {:induction false} ZerosValue(k: nat)
    ensures FromHex(Zeros(k)) == 0
  {
    if k > 0 {
      ZerosValue(k - 1);
      assert Zeros(k)[..k - 1] == Zeros(k - 1);
    }
  }

  /** The random colour as written: `'#' + n.toString(16)`, without padding. */
  function RandomColorAsWritten(n: nat): (r: string)
    ensures |r| >= 2 && r[0] == '#'
    ensures forall i :: 1 <= i < |r| ==> IsHexDigit(r[i])
    ensures FromHex(r[1..]) == n
  {
    ToHexRoundTrip(n);
    var h := ToHex(n);
    assert ("#" + h)[1..] == h;
    "#" + h
  }

  /** Any draw below 0x100000 gives fewer than six digits: not a `#rrggbb` colour. */
  lemma ShortRandomColors(n: nat)
    requires n < 0x10_0000
    ensures |RandomColorAsWritten(n)| < 7
  {
    ToHexLength(n, 5);
  }

  /** The draw 167 gives `#a7`, which is no colour at all. */
  lemma RandomColorAsWrittenExample()
    ensures RandomColorAsWritten(167) == "#a7"
  {
    assert ToHex(167 / 16) == "a";
  }

  /** The random colour as intended: six digits, zero-padded on the left. */
  function RandomColor(n: nat): (r: string)
    requires n < DrawBound
    ensures |r| == 7 && r[0] == '#'
  {
    ToHexLength(n, 6);
    var h := ToHex(n);
    "#" + Zeros(6 - |h|) + h
  }

  /** A padded colour is `#` and six hex digits, and it reads back as the number drawn. */
  lemma RandomColorRoundTrip(n: nat)
    requires n < DrawBound
    ensures forall i :: 1 <= i < 7 ==> IsHexDigit(RandomColor(n)[i])
    ensures FromHex(RandomColor(n)[1..]) == n
  {
    ToHexLength(n, 6);
    var h := ToHex(n);
    assert RandomColor(n)[1..] == Zeros(6 - |h|) + h;
    FromHexZeros(6 - |h|, h);
    ToHexRoundTrip(n);
  }

  /** `colors.slice(0, end)`: a negative end counts back from the length. */
  function SliceTo<T>(s: seq<T>, end: int): (r: seq<T>)
    ensures |r| <= |s| && r == s[..|r|]
    ensures 0 <= end ==> |r| == if end <= |s| then end else |s|
    ensures end < 0 ==> |r| == if |s| + end <= 0 then 0 else |s| + end
  {
    if end < 0 then (if |s| + end <= 0 then [] else s[..|s| + end])
    else if end <= |s| then s[..end] else s
  }

  lemma PaletteShape()
    ensures |Palette| == 12
    ensures forall i :: 0 <= i < 12 ==> |Palette[i]| == 7 && Palette[i][0] == '#'
  {
  }

  /**
   * The colours for `count` slices: the palette's first `count` when it has
   * enough, else the whole palette in order followed by one random colour per
   * extra slice.
   */
  method GenerateChartColors(count: int, draws: seq<nat>) returns (colors: seq<string>)
    requires count > |Palette| ==> |draws| >= count - |Palette|
    requires forall k :: 0 <= k < |draws| ==> draws[k] < DrawBound
    ensures 0 <= count <= 12 ==> colors == Palette[..count]
    ensures count < 0 ==> colors == Palette[..if 12 + count < 0 then 0 else 12 + count]
    ensures count > 12 ==> |colors| == count && colors[..12] == Palette
                           && forall i :: 12 <= i < count ==> colors[i] == RandomColor(draws[i - 12])
    ensures forall i :: 0 <= i < |colors| ==> |colors[i]| == 7 && colors[i][0] == '#'
  {
    PaletteShape();
    var cs := Palette;
    if count > |cs| {
      for i := |Palette| to count
        invariant |cs| == i
        invariant cs[..12] == Palette
        invariant forall j :: 12 <= j < i ==> cs[j] == RandomColor(draws[j - 12])
        invariant forall j :: 0 <= j < i ==> |cs[j]| == 7 && cs[j][0] == '#'
      {
        cs := cs + [RandomColor(draws[i - 12])];
      }
    }
    colors := SliceTo(cs, count);
  }
}
