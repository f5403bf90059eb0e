/**
 * The `assets` command: one field per downloadable asset of an item, with its
 * download and installed sizes written in binary units.
 */
module Assets {
  import opened Wrappers
  import opened Text
  import opened Discord
  import opened Client
  import opened Catalog
  import Items

  /** The unit names, one per power of 1024. */
  const Units := ["Bytes", "KB", "MB", "GB", "TB", "PB", "EB", "ZB", "YB"]

  function Pow(base: nat, exp: nat): (r: nat)
    ensures base >= 1 ==> r >= 1
  {
    if exp == 0 then 1 else base * Pow(base, exp - 1)
  }

  lemma {:induction false} PowMonotone(a: nat, b: nat)
    requires a <= b
    ensures Pow(1024, a) <= Pow(1024, b)
    decreases b
  {
    if a < b {
      PowMonotone(a, b - 1);
    }
  }

  /** The unit index of a positive byte count: the largest i with 1024^i <= bytes. */
  function UnitIndex(bytes: nat): (i: nat)
    requires bytes >= 1
    ensures Pow(1024, i) <= bytes < Pow(1024, i + 1)
  {
    if bytes < 1024 then 0
    else
      var j := UnitIndex(bytes / 1024);
      assert Pow(1024, j + 1) == 1024 * Pow(1024, j);
      assert Pow(1024, j + 2) == 1024 * Pow(1024, j + 1);
      assert 1024 * (bytes / 1024) <= bytes < 1024 * (bytes / 1024 + 1);
      j + 1
  }

  /** The bracketing power of 1024 is unique: UnitIndex is the floor of the base-1024 logarithm. */
  lemma UnitIndexUnique(bytes: nat, i: nat)
    requires bytes >= 1 && Pow(1024, i) <= bytes < Pow(1024, i + 1)
    ensures UnitIndex(bytes) == i
  {
    var j := UnitIndex(bytes);
    if j < i {
      PowMonotone(j + 1, i);
    } else if i < j {
      PowMonotone(i + 1, j);
    }
  }

  /** `sizes[i]`; past the table the interpolation prints "undefined". */
  function UnitName(i: nat): string
  {
    if i < |Units| then Units[i] else "undefined"
  }

  /** `s` padded on the left with '0' to at least `width` characters. */
  function PadLeft(s: string, width: nat): (r: string)
    ensures |r| >= width && |r| >= |s|
    ensures AllDigits(s) ==> AllDigits(r)
  {
    if |s| >= width then s else "0" + PadLeft(s, width - 1)
  }

  predicate NumberChars(s: string)
  {
    forall i :: 0 <= i < |s| ==> IsDigit(s[i]) || s[i] == '.'
  }

  lemma PointBetweenDigits(whole: string, fraction: string)
    requires AllDigits(whole) && AllDigits(fraction)
    ensures NumberChars(whole + "." + fraction)
  {
  }

  /**
   * The number n / 10^digits as JavaScript prints it after `toFixed(digits)`
   * and `parseFloat`: trailing zeros of the fraction, and a bare point, dropped.
   */
  function Decimal(n: nat, digits: nat): (r: string)
    ensures |r| > 0 && NumberChars(r)
  {
    if digits == 0 then NatToString(n)
    else if n % 10 == 0 then Decimal(n / 10, digits - 1)
    else
      var whole, fraction := WholePart(n, digits), FractionPart(n, digits);
      PointBetweenDigits(whole, fraction);
      whole + "." + fraction
  }

  /** The digits before the point of n / 10^digits. */
  function WholePart(n: nat, digits: nat): (r: string)
    ensures AllDigits(r)
  {
    NatToString(n / Pow(10, digits))
  }

  /** The `digits` digits after the point of n / 10^digits. */
  function FractionPart(n: nat, digits: nat): (r: string)
    ensures AllDigits(r) && |r| >= digits
  {
    PadLeft(NatToString(n % Pow(10, digits)), digits)
  }

  lemma ShiftDecimal(k: nat, digits: nat)
    requires digits > 0
    ensures (k * Pow(10, digits)) % 10 == 0
    ensures (k * Pow(10, digits)) / 10 == k * Pow(10, digits - 1)
  {
    var m := k * Pow(10, digits - 1);
    assert k * Pow(10, digits) == 10 * m;
  }

  /** A multiple of 10^digits prints as the plain whole number. */
  lemma {:induction false} DecimalOfWhole(k: nat, digits: nat)
    ensures Decimal(k * Pow(10, digits), digits) == NatToString(k)
  {
    if digits > 0 {
      ShiftDecimal(k, digits);
      DecimalOfWhole(k, digits - 1);
    }
  }

  /** The number of characters after the decimal point of a printed number, 0 without a point. */
  function FractionDigits(s: string): nat
  {
    if |s| == 0 || '.' !in s || s[|s| - 1] == '.' then 0
    else 1 + FractionDigits(s[..|s| - 1])
  }

  /** The digits of a printed number read as one whole number, the point skipped. */
  function Mantissa(s: string): nat
    requires NumberChars(s)
  {
    if |s| == 0 then 0
    else if s[|s| - 1] == '.' then Mantissa(s[..|s| - 1])
    else 10 * Mantissa(s[..|s| - 1]) + DigitValue(s[|s| - 1])
  }

  lemma {:induction false} MantissaOfDigits(w: string)
    requires AllDigits(w)
    ensures NumberChars(w) && Mantissa(w) == DigitsValue(w)
  {
    if |w| > 0 {
      MantissaOfDigits(w[..|w| - 1]);
    }
  }

  /** `w.f` reads as the digits of `w` then those of `f`. */
  lemma {:induction false} MantissaWithPoint(w: string, f: string)
    requires AllDigits(w) && AllDigits(f)
    ensures NumberChars(w + "." + f)
    ensures Mantissa(w + "." + f) == DigitsValue(w) * Pow(10, |f|) + DigitsValue(f)
  {
    PointBetweenDigits(w, f);
    if |f| == 0 {
      assert (w + "." + f)[..|w|] == w;
      MantissaOfDigits(w);
    } else {
      var g, d := f[..|f| - 1], f[|f| - 1];
      assert AllDigits(g) && IsDigit(d);
      assert w + "." + f == (w + "." + g) + [d];
      MantissaWithPoint(w, g);
      MantissaSnoc(w + "." + g, d);
      assert DigitsValue(f) == 10 * DigitsValue(g) + DigitValue(d);
      ShiftArithmetic(DigitsValue(w), Pow(10, |g|), DigitsValue(g), DigitValue(d));
    }
  }

  lemma MantissaSnoc(t: string, d: char)
    requires NumberChars(t) && IsDigit(d)
    ensures NumberChars(t + [d]) && Mantissa(t + [d]) == 10 * Mantissa(t) + DigitValue(d)
  {
    assert (t + [d])[..|t|] == t;
  }

  lemma ShiftArithmetic(a: nat, p: nat, b: nat, e: nat)
    ensures 10 * (a * p + b) + e == a * (10 * p) + (10 * b + e)
  {
  }

  /** `w.f` shows `|f|` places. */
  lemma {:induction false} PlacesWithPoint(w: string, f: string)
    requires '.' !in f
    ensures FractionDigits(w + "." + f) == |f|
  {
    var s := w + "." + f;
    assert s[|w|] == '.';
    if |f| > 0 {
      var g := f[..|f| - 1];
      assert s == (w + "." + g) + [f[|f| - 1]];
      assert s[..|s| - 1] == w + "." + g;
      PlacesWithPoint(w, g);
    }
  }

  /** Leading zeros do not change the value of a string of digits. */
  lemma {:induction false} LeadingZero(t: string)
    requires AllDigits(t)
    ensures AllDigits("0" + t) && DigitsValue("0" + t) == DigitsValue(t)
  {
    if |t| > 0 {
      LeadingZero(t[..|t| - 1]);
      assert ("0" + t)[..|t|] == "0" + t[..|t| - 1];
    }
  }

  lemma {:induction false} PadLeftValue(t: string, width: nat)
    requires AllDigits(t)
    ensures DigitsValue(PadLeft(t, width)) == DigitsValue(t)
    ensures |t| <= width ==> |PadLeft(t, width)| == width
    decreases width
  {
    if |t| < width {
      PadLeftValue(t, width - 1);
      LeadingZero(PadLeft(t, width - 1));
    }
  }

  /** A number below 10^m has at most m digits. */
  lemma {:induction false} NatToStringLength(b: nat, m: nat)
    requires m >= 1 && b < Pow(10, m)
    ensures |NatToString(b)| <= m
  {
    if b >= 10 {
      assert Pow(10, 1) == 10;
      assert m >= 2;
      var p := Pow(10, m - 1);
      assert Pow(10, m) == 10 * p;
      assert b / 10 < p;
      NatToStringLength(b / 10, m - 1);
    }
  }

  /**
   * `r` is a canonical decimal numeral for n / 10^digits: its digits, read as
   * a whole number and shifted by the places not shown, give back `n`; it
   * shows at most `digits` places and no trailing zero after the point; and
   * only digits come before the point, if there is one.
   */
  predicate Denotes(r: string, n: nat, digits: nat)
  {
    NumberChars(r) &&
    FractionDigits(r) <= digits &&
    Mantissa(r) * Pow(10, digits - FractionDigits(r)) == n &&
    (FractionDigits(r) == 0 ==> AllDigits(r)) &&
    (FractionDigits(r) > 0 ==>
       Mantissa(r) % 10 != 0 && |r| > FractionDigits(r) + 1 &&
       r[|r| - 1 - FractionDigits(r)] == '.' && AllDigits(r[..|r| - 1 - FractionDigits(r)]))
  }

  /** What `Decimal(n, digits)` prints denotes n / 10^digits. */
  lemma {:induction false} DecimalDenotes(n: nat, digits: nat)
    ensures Denotes(Decimal(n, digits), n, digits)
  {
    if digits == 0 {
      var r := NatToString(n);
      DigitsRoundTrip(n);
      MantissaOfDigits(r);
      assert '.' !in r by { assert AllDigits(r); }
      assert FractionDigits(r) == 0;
      assert Pow(10, 0) == 1;
      assert Denotes(r, n, 0);
    } else if n % 10 == 0 {
      DecimalDenotes(n / 10, digits - 1);
      ShiftDenotes(Decimal(n / 10, digits - 1), n, digits);
    } else {
      DecimalPointCase(n, digits);
    }
  }

  /** Shifting by one more place multiplies by ten. */
  lemma ShiftDenotes(r: string, n: nat, digits: nat)
    requires digits > 0 && n % 10 == 0 && Denotes(r, n / 10, digits - 1)
    ensures Denotes(r, n, digits)
  {
    var m, shift := Mantissa(r), digits - FractionDigits(r);
    assert Pow(10, shift) == 10 * Pow(10, shift - 1);
    assert m * Pow(10, shift) == 10 * (m * Pow(10, shift - 1));
  }

  lemma DecimalPointCase(n: nat, digits: nat)
    requires digits > 0 && n % 10 != 0
    ensures Denotes(Decimal(n, digits), n, digits)
  {
    var p := Pow(10, digits);
    var q, b := n / p, n % p;
    var w, f := NatToString(q), PadLeft(NatToString(b), digits);
    DivMod(n, p);
    DigitsRoundTrip(q);
    DigitsRoundTrip(b);
    NatToStringLength(b, digits);
    PadLeftValue(NatToString(b), digits);
    assert |f| == digits && DigitsValue(w) == q && DigitsValue(f) == b;
    PointNumeral(w, f, n);
    DecimalPointForm(n, digits);
  }

  lemma DecimalPointForm(n: nat, digits: nat)
    requires digits > 0 && n % 10 != 0
    ensures Decimal(n, digits) ==
              NatToString(n / Pow(10, digits)) + "." + PadLeft(NatToString(n % Pow(10, digits)), digits)
  {
  }

  lemma DivMod(n: nat, p: nat)
    requires p >= 1
    ensures n == (n / p) * p + n % p && n % p < p
  {
  }

  /** A numeral `w.f` with a non-zero last digit denotes its digits over 10^|f|. */
  lemma PointNumeral(w: string, f: string, n: nat)
    requires AllDigits(w) && AllDigits(f) && |w| >= 1 && |f| >= 1
    requires n == DigitsValue(w) * Pow(10, |f|) + DigitsValue(f) && n % 10 != 0
    ensures Denotes(w + "." + f, n, |f|)
  {
    MantissaWithPoint(w, f);
    assert '.' !in f by { assert AllDigits(f); }
    PlacesWithPoint(w, f);
    var r := w + "." + f;
    assert r[..|w|] == w && r[|w|] == '.';
    assert Pow(10, 0) == 1;
  }


  /** bytes / 1024^i scaled by 10^digits and rounded half up, as `toFixed` rounds. */
  function Rounded(bytes: nat, i: nat, digits: nat): nat
  {
    (2 * bytes * Pow(10, digits) + Pow(1024, i)) / (2 * Pow(1024, i))
  }

  /**
   * The rounded value is a nearest whole number to bytes * 10^digits / 1024^i,
   * the upper one on a tie: it is off by at most half a unit, and strictly
   * less than half a unit below.
   */
  lemma RoundedNearest(bytes: nat, i: nat, digits: nat)
    ensures var x, u, q := bytes * Pow(10, digits), Pow(1024, i), Rounded(bytes, i, digits);
              (2 * q - 1) * u <= 2 * x < (2 * q + 1) * u
  {
    var x, u := bytes * Pow(10, digits), Pow(1024, i);
    assert 2 * bytes * Pow(10, digits) == 2 * x;
    HalfUp(x, u);
  }

  lemma HalfUp(x: nat, u: nat)
    requires u >= 1
    ensures var q := (2 * x + u) / (2 * u);
              (2 * q - 1) * u <= 2 * x < (2 * q + 1) * u
  {
    var y, d := 2 * x + u, 2 * u;
    var q := y / d;
    FloorBounds(y, d);
    assert (2 * q - 1) * u == d * q - u;
    assert (2 * q + 1) * u == d * q + u;
  }

  lemma FloorBounds(y: nat, d: nat)
    requires d >= 1
    ensures d * (y / d) <= y < d * (y / d) + d
  {
  }

  /**
   * Beyond zero, the number printed by `formatBytes` denotes the count
   * rounded to the places asked for in the unit at UnitIndex.
   */
  lemma FormatBytesDenotes(bytes: nat, decimals: int)
    requires bytes >= 1
    ensures var i, p := UnitIndex(bytes), Places(decimals);
              var number := Decimal(Rounded(bytes, i, p), p);
              FormatBytes(bytes, decimals) == number + " " + UnitName(i) &&
              Denotes(number, Rounded(bytes, i, p), p)
  {
    var i, p := UnitIndex(bytes), Places(decimals);
    DecimalDenotes(Rounded(bytes, i, p), p);
  }

  /**
   * `formatBytes(bytes, decimals)`: "0 Bytes" for zero; otherwise the count
   * scaled down to its unit, rounded to `decimals` places (negative means 0),
   * a space and the unit name.
   */
  function FormatBytes(bytes: nat, decimals: int): (r: string)
    ensures bytes == 0 ==> r == "0 Bytes"
    ensures bytes >= 1 ==>
              var unit := " " + UnitName(UnitIndex(bytes));
              |r| > |unit| && r[|r| - |unit|..] == unit && NumberChars(r[..|r| - |unit|])
  {
    if bytes == 0 then "0 Bytes"
    else
      var i := UnitIndex(bytes);
      WithUnit(Decimal(Rounded(bytes, i, Places(decimals)), Places(decimals)), UnitName(i))
  }

  /** A negative number of decimals counts as none. */
  function Places(decimals: int): (p: nat)
    ensures decimals >= 0 ==> p == decimals
    ensures decimals < 0 ==> p == 0
  {
    if decimals < 0 then 0 else decimals
  }

  /** A number, a space and a unit name. */
  function WithUnit(number: string, name: string): (r: string)
    ensures |r| == |number| + 1 + |name|
    ensures r[..|number|] == number
    ensures r[|number|..] == " " + name
  {
    number + " " + name
  }

  lemma MulMonotone(d: int, a: int, b: int)
    requires d >= 0 && a <= b
    ensures d * a <= d * b
  {
    assert d * b - d * a == d * (b - a);
  }

  /** The quotient is the unique q with d * q <= x < d * (q + 1). */
  lemma DivUnique(x: int, d: int, q: int)
    requires d > 0 && d * q <= x < d * (q + 1)
    ensures x / d == q
  {
    var r := x / d;
    assert d * r <= x < d * (r + 1);
    if r < q {
      MulMonotone(d, r + 1, q);
    } else if q < r {
      MulMonotone(d, q + 1, r);
    }
  }

  /** Rounding half up leaves a whole number of units unchanged. */
  lemma RoundedWhole(k: nat, u: nat, p: nat)
    requires u >= 1
    ensures (2 * (k * u) * p + u) / (2 * u) == k * p
  {
    var q := k * p;
    assert 2 * (k * u) * p == (2 * u) * q;
    assert (2 * u) * (q + 1) == (2 * u) * q + 2 * u;
    DivUnique((2 * u) * q + u, 2 * u, q);
  }

  /** A whole number of units prints as that number and the unit: 1024 bytes is "1 KB". */
  lemma WholeUnits(k: nat, i: nat, decimals: int)
    requires 1 <= k < 1024
    ensures FormatBytes(k * Pow(1024, i), decimals) == NatToString(k) + " " + UnitName(i)
  {
    var digits := Places(decimals);
    WholeUnitsIndex(k, i);
    WholeUnitsRounded(k, i, digits);
    DecimalOfWhole(k, digits);
  }

  /** `k` whole units of rank `i` (1 <= k < 1024) are shown in unit `i`. */
  lemma WholeUnitsIndex(k: nat, i: nat)
    requires 1 <= k < 1024
    ensures k * Pow(1024, i) >= 1 && UnitIndex(k * Pow(1024, i)) == i
  {
    var u := Pow(1024, i);
    assert Pow(1024, i + 1) == 1024 * u;
    MulMonotone(u, 1, k);
    MulMonotone(u, k, 1023);
    UnitIndexUnique(k * u, i);
  }

  /** Rounding `k` whole units of rank `i` leaves `k`, scaled by the decimals. */
  lemma WholeUnitsRounded(k: nat, i: nat, digits: nat)
    ensures Rounded(k * Pow(1024, i), i, digits) == k * Pow(10, digits)
  {
    RoundedWhole(k, Pow(1024, i), Pow(10, digits));
  }

  lemma OneKilobyte()
    ensures FormatBytes(1024, 2) == "1 KB"
  {
    assert Pow(1024, 1) == 1024;
    WholeUnits(1, 1, 2);
    assert NatToString(1) == "1";
    assert UnitName(1) == "KB";
  }

  lemma OneAndAHalfKilobytes()
    ensures FormatBytes(1536, 1) == "1.5 KB"
  {
    assert UnitIndex(1536) == 1;
    assert Rounded(1536, 1, 1) == 15;
  }

  /** An asset of an item: its platform and its two sizes in bytes. */
  datatype Asset = Asset(platform: string, downloadSizeBytes: nat, installedSizeBytes: nat)

  /** One field per asset: its platform and its two sizes (src/commands/assets.ts:92-99). */
  function AssetField(asset: Asset): Field
  {
    Field(asset.platform,
          "Download size: " + FormatBytes(asset.downloadSizeBytes, 2)
            + "\nInstalled size: " + FormatBytes(asset.installedSizeBytes, 2),
          false)
  }

  lemma TwoLines(first: string, second: string)
    requires '\n' !in first && '\n' !in second
    ensures Split(first + "\n" + second, '\n') == [first, second]
  {
    assert Join([first, second], "\n") == first + "\n" + second;
    SplitJoin([first, second], '\n');
  }

  /** The value of an asset field is exactly two lines: the download size, then the installed size. */
  lemma AssetFieldLines(asset: Asset)
    ensures Split(AssetField(asset).value, '\n') ==
              ["Download size: " + FormatBytes(asset.downloadSizeBytes, 2),
               "Installed size: " + FormatBytes(asset.installedSizeBytes, 2)]
  {
    var download, installed := FormatBytes(asset.downloadSizeBytes, 2), FormatBytes(asset.installedSizeBytes, 2);
    var first, second := "Download size: " + download, "Installed size: " + installed;
    assert '\n' !in first by {
      NoNewline(asset.downloadSizeBytes);
    }
    assert '\n' !in second by {
      NoNewline(asset.installedSizeBytes);
    }
    assert AssetField(asset).value == first + "\n" + second;
    TwoLines(first, second);
  }

  lemma NoNewline(bytes: nat)
    ensures '\n' !in FormatBytes(bytes, 2)
  {
    if bytes >= 1 {
      var i := UnitIndex(bytes);
      var number := Decimal(Rounded(bytes, i, 2), 2);
      assert FormatBytes(bytes, 2) == number + " " + UnitName(i);
      assert '\n' !in number;
      UnitNameSingleLine(i);
    }
  }

  lemma UnitNameSingleLine(i: nat)
    ensures '\n' !in UnitName(i)
  {
    if i < |Units| {
      assert Units[i] in Units;
    }
  }

  /** One field per asset, in order; none when the assets request failed. */
  function AssetFields(assets: Option<seq<Asset>>): (r: seq<Field>)
    ensures assets.None? ==> r == []
    ensures assets.Some? ==> |r| == |assets.value|
    ensures assets.Some? ==> forall i :: 0 <= i < |r| ==>
              r[i].name == assets.value[i].platform && !r[i].inline && r[i] == AssetField(assets.value[i])
  {
    match assets
    case None => []
    case Some(list) => seq(|list|, i requires 0 <= i < |list| => AssetField(list[i]))
  }

  function AssetsRequest(id: string): Call
  {
    Get("/items/" + id + "/assets", [])
  }

  /**
   * `execute`: without a query it asks for one; otherwise it requests the item
   * and its assets together. A failed item request means no item was found,
   * whatever became of the assets; otherwise the item embed carries the asset
   * fields.
   */
  function Execute(query: Option<string>, item: Option<Item>, assets: Option<seq<Asset>>,
                   getImage: ImagePicker): (x: Execution)
    ensures query.None? ==> x == Execution([], Ephemeral(MissingQuery))
    ensures query.Some? ==> x.calls == [Items.ItemRequest(query.value), AssetsRequest(query.value)]
    ensures query.Some? && item.None? ==> x.reply == Ephemeral(Items.NotFound)
    ensures query.Some? && item.Some? ==>
              x.reply.Embeds? && |x.reply.embeds| == 1 &&
              x.reply.embeds[0].title == Some(item.value.title) &&
              x.reply.embeds[0].fields == AssetFields(assets)
  {
    match query
    case None => Execution([], Ephemeral(MissingQuery))
    case Some(id) =>
      var calls := [Items.ItemRequest(id), AssetsRequest(id)];
      match item
      case None => Execution(calls, Ephemeral(Items.NotFound))
      case Some(it) => Execution(calls, Embeds([Items.ItemEmbed(it, getImage).(fields := AssetFields(assets))]))
  }

  /** Executable-item suggestions: the first five hits in order, named by title, valued with the id. */
  function Autocomplete(response: Option<seq<Item>>): (r: seq<Choice>)
    ensures response.None? ==> r == []
    ensures response.Some? ==> |r| == Min(MaxChoices, |response.value|)
    ensures response.Some? ==> forall i :: 0 <= i < |r| ==>
              r[i] == Choice(response.value[i].title, response.value[i].id)
  {
    FirstChoices(response, (hit: Item) => Choice(hit.title, hit.id))
  }
}
