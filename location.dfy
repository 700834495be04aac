/** The location key `lat.toFixed(4) + "," + lon.toFixed(4)` under which both
    history managers file their records, and the coordinates text the location
    card falls back to.  Coordinates are integers scaled by 10^4, so the
    rounding `toFixed` performs has already happened. */
module Location {
  import opened Wrappers
  import opened Strings

  const Scale: nat := 10000

  predicate IsDigit(c: char) {
    '0' <= c <= '9'
  }

  predicate AllDigits(s: string) {
    forall i :: 0 <= i < |s| ==> IsDigit(s[i])
  }

  function DigitChar(d: nat): (c: char)
    requires d < 10
    ensures IsDigit(c) && c as int - '0' as int == d
  {
    ('0' as int + d) as char
  }

  /** Decimal digits of `n`, without leading zeros. */
  function Digits(n: nat): (s: string)
    ensures |s| >= 1 && AllDigits(s)
  {
    if n < 10 then [DigitChar(n)] else Digits(n / 10) + [DigitChar(n % 10)]
  }

  /** Exactly four digits: the fractional part `toFixed(4)` prints. */
  function Pad4(n: nat): (s: string)
    requires n < 10000
    ensures |s| == 4 && AllDigits(s)
  {
    [DigitChar(n / 10 / 10 / 10), DigitChar(n / 10 / 10 % 10), DigitChar(n / 10 % 10), DigitChar(n % 10)]
  }

  function DigitsValue(s: string): nat
    requires AllDigits(s)
  {
    if s == [] then 0 else DigitsValue(s[..|s| - 1]) * 10 + (s[|s| - 1] as int - '0' as int)
  }

  lemma {:induction false} DigitsRoundTrip(n: nat)
    ensures DigitsValue(Digits(n)) == n
  {
    if n >= 10 {
      DigitsRoundTrip(n / 10);
      var s := Digits(n);
      assert s[..|s| - 1] == Digits(n / 10);
    }
  }

  lemma Pad4RoundTrip(n: nat)
    requires n < 10000
    ensures DigitsValue(Pad4(n)) == n
  {
    var s := Pad4(n);
    var d0, d1, d2, d3 := n / 10 / 10 / 10, n / 10 / 10 % 10, n / 10 % 10, n % 10;
    assert DigitsValue(s[..1]) == d0 by {
      assert s[..1][..0] == [];
    }
    assert DigitsValue(s[..2]) == d0 * 10 + d1 by {
      assert s[..2][..1] == s[..1];
    }
    assert DigitsValue(s[..3]) == (d0 * 10 + d1) * 10 + d2 by {
      assert s[..3][..2] == s[..2];
    }
    assert DigitsValue(s) == ((d0 * 10 + d1) * 10 + d2) * 10 + d3 by {
      assert s[..|s| - 1] == s[..3];
    }
    assert ((d0 * 10 + d1) * 10 + d2) * 10 + d3 == n by {
      assert d0 * 10 + d1 == n / 10 / 10;
      assert n / 10 / 10 * 10 + d2 == n / 10;
      assert n / 10 * 10 + d3 == n;
    }
  }

  /** `x.toFixed(4)` for a coordinate `q / 10^4`. */
  function Fixed4(q: int): string {
    if q < 0 then "-" + Unsigned4(-q) else Unsigned4(q)
  }

  /** `a / 10^4` with exactly four decimals. */
  function Unsigned4(a: nat): string {
    Digits(a / Scale) + "." + Pad4(a % Scale)
  }

  /** The value of `whole.frac` when both are digit runs and `whole` is not empty. */
  function ParseUnsigned(whole: string, frac: string): Option<int> {
    if whole == [] || !AllDigits(whole) || !AllDigits(frac) then None
    else Some(DigitsValue(whole) * Scale + DigitsValue(frac))
  }

  /** Reads back a string printed by `Fixed4`. */
  function ParseFixed4(s: string): Option<int> {
    if |s| < 6 || s[|s| - 5] != '.' then None
    else
      var neg := s[0] == '-';
      match ParseUnsigned(s[(if neg then 1 else 0)..|s| - 5], s[|s| - 4..])
      case None => None
      case Some(m) => Some(if neg then -m else m)
  }

  /** The unsigned text `d.p`: its point, its whole part and its fraction. */
  lemma UnsignedText(d: string, p: string)
    requires d != [] && AllDigits(d) && |p| == 4
    ensures var t := d + "." + p;
      |t| >= 6 && t[|t| - 5] == '.' && t[..|t| - 5] == d && t[|t| - 4..] == p && IsDigit(t[0])
  {
  }

  /** `-t` and `t` parse to opposite values. */
  lemma ParseSigned(t: string)
    requires |t| >= 6 && t[|t| - 5] == '.' && IsDigit(t[0])
    ensures ParseFixed4(t) == ParseUnsigned(t[..|t| - 5], t[|t| - 4..])
    ensures ParseFixed4(['-'] + t) == match ParseUnsigned(t[..|t| - 5], t[|t| - 4..]) case None => None case Some(m) => Some(-m)
  {
    var s := ['-'] + t;
    assert s[1..|s| - 5] == t[..|t| - 5];
    assert s[|s| - 4..] == t[|t| - 4..];
    assert s[|s| - 5] == t[|t| - 5];
  }

  /** `a / 10^4` and its negation are read back. */
  lemma ParseUnsigned4(a: nat)
    ensures ParseFixed4(Unsigned4(a)) == Some(a)
    ensures ParseFixed4("-" + Unsigned4(a)) == Some(-(a as int))
  {
    var d, p := Digits(a / Scale), Pad4(a % Scale);
    UnsignedText(d, p);
    ParseSigned(d + "." + p);
    DigitsRoundTrip(a / Scale);
    Pad4RoundTrip(a % Scale);
  }

  lemma Fixed4RoundTrip(q: int)
    ensures ParseFixed4(Fixed4(q)) == Some(q)
  {
    if q < 0 {
      ParseUnsigned4(-q);
    } else {
      ParseUnsigned4(q);
    }
  }

  lemma Fixed4HasNoComma(q: int)
    ensures ',' !in Fixed4(q)
  {
    var a := if q < 0 then -q else q;
    var d, p := Digits(a / Scale), Pad4(a % Scale);
    var t := Unsigned4(a);
    assert t == d + "." + p;
    forall i | 0 <= i < |t| ensures t[i] != ',' {
      if i < |d| { assert t[i] == d[i]; }
      else if i > |d| { assert t[i] == p[i - |d| - 1]; }
    }
    if q < 0 {
      assert Fixed4(q) == ['-'] + t;
    }
  }

  /** `getLocationKey(latitude, longitude)`. */
  function LocationKey(lat: int, lon: int): string {
    Fixed4(lat) + "," + Fixed4(lon)
  }

  /** Reads the coordinates back out of a location key. */
  function ParseLocationKey(key: string): Option<(int, int)> {
    var pieces := Split(key, ',');
    if |pieces| != 2 then None
    else match (ParseFixed4(pieces[0]), ParseFixed4(pieces[1]))
      case (Some(lat), Some(lon)) => Some((lat, lon))
      case _ => None
  }

  /** The key keeps both coordinates at full (four-decimal) precision. */
  lemma LocationKeyRoundTrip(lat: int, lon: int)
    ensures ParseLocationKey(LocationKey(lat, lon)) == Some((lat, lon))
  {
    Fixed4RoundTrip(lat);
    Fixed4RoundTrip(lon);
    Fixed4HasNoComma(lat);
    Fixed4HasNoComma(lon);
    SplitAround(Fixed4(lat), Fixed4(lon), ',');
    SplitOfSeparatorFree(Fixed4(lon), ',');
  }

  /** Two locations share a history only if their rounded coordinates agree. */
  lemma LocationKeyInjective(lat1: int, lon1: int, lat2: int, lon2: int)
    requires LocationKey(lat1, lon1) == LocationKey(lat2, lon2)
    ensures lat1 == lat2 && lon1 == lon2
  {
    LocationKeyRoundTrip(lat1, lon1);
    LocationKeyRoundTrip(lat2, lon2);
  }

  /** `${lat.toFixed(4)}, ${lon.toFixed(4)}`: the text the location card shows
      when no place name is available. */
  function CoordinatesText(lat: int, lon: int): string {
    Fixed4(lat) + ", " + Fixed4(lon)
  }
}
