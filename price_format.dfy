/** `format_price(amount)`: the amount with its digits grouped in threes
    (Python's `{amount:,}`), followed by the currency symbol from the
    `currency` setting, and every comma then turned into a space. */
module PriceFormat {
  import opened Text

  /** The outcome of `SELECT value FROM settings WHERE key = 'currency'`. */
  datatype CurrencyRow = Row(value: string) | NoRow | StorageError

  /** A digit string with `sep` before every group of three digits counted
      from the right. */
  function GroupDigits(d: string, sep: char): (g: string)
    ensures |g| == |d| + (if |d| == 0 then 0 else (|d| - 1) / 3)
    decreases |d|
  {
    if |d| <= 3 then d else GroupDigits(d[..|d| - 3], sep) + [sep] + d[|d| - 3..]
  }

  /** Digits grouped in threes by `sep`: position `i` holds `sep` exactly when
      the distance to the end is a multiple of four, and a digit everywhere else;
      in particular it does not start with `sep`. */
  predicate IsGrouped(g: string, sep: char) {
    && |g| > 0
    && g[0] != sep
    && forall i :: 0 <= i < |g| ==>
         (g[i] == sep <==> (|g| - i) % 4 == 0) && (g[i] != sep ==> IsDigit(g[i]))
  }

  /** Python's `{n:,}` grouping of a digit string: a comma before every group of
      three digits counted from the right, and nothing else added. */
  function GroupThousands(d: string): (g: string)
    ensures |g| == |d| + (if |d| == 0 then 0 else (|d| - 1) / 3)
    ensures |d| > 0 && AllDigits(d) ==> IsGrouped(g, ',') && RemoveChar(g, ',') == d
  {
    if |d| > 0 && AllDigits(d) then
      GroupDigitsShape(d, ',');
      GroupDigitsRemove(d, ',');
      GroupDigits(d, ',')
    else GroupDigits(d, ',')
  }

  /** The same grouping with spaces for separators. */
  function SpaceThousands(d: string): string {
    GroupDigits(d, ' ')
  }

  /** `{amount:,}`: the sign, then the grouped digits. */
  function Grouped(amount: int): string {
    if amount < 0 then "-" + GroupThousands(NatToDecimal(-amount))
    else GroupThousands(NatToDecimal(amount))
  }

  /** The symbol `format_price` appends: the stored setting, else `fallback`
      (the configured CURRENCY). */
  function Symbol(row: CurrencyRow, fallback: string): string {
    if row.Row? then row.value else fallback
  }

  /** `format_price(amount)`. `fallback` is the configured CURRENCY; a failing
      settings query takes the `except` branch, which neither groups nor
      replaces. Otherwise the text ends with the symbol, commas turned into
      spaces. */
  function FormatPrice(amount: int, row: CurrencyRow, fallback: string): (r: string)
    ensures row.StorageError? ==> r == IntToDecimal(amount) + fallback
    ensures !row.StorageError? ==>
              |r| >= |Symbol(row, fallback)|
              && r[|r| - |Symbol(row, fallback)|..] == ReplaceChar(Symbol(row, fallback), ',', ' ')
  {
    if row.StorageError? then IntToDecimal(amount) + fallback
    else
      ReplaceCharConcat(Grouped(amount), Symbol(row, fallback), ',', ' ');
      ReplaceChar(Grouped(amount) + Symbol(row, fallback), ',', ' ')
  }

  /** Replacing the commas of the grouped digits by spaces gives SpaceThousands. */
  lemma {:induction false} ReplaceGroupCommas(d: string)
    requires AllDigits(d)
    ensures ReplaceChar(GroupThousands(d), ',', ' ') == SpaceThousands(d)
    decreases |d|
  {
    if |d| > 3 {
      var p, tail := d[..|d| - 3], d[|d| - 3..];
      ReplaceGroupCommas(p);
      ReplaceCharConcat(GroupDigits(p, ',') + ",", tail, ',', ' ');
      ReplaceCharConcat(GroupDigits(p, ','), ",", ',', ' ');
      assert ',' !in tail;
      ReplaceCharAbsent(tail, ',', ' ');
    } else {
      assert ',' !in d;
      ReplaceCharAbsent(d, ',', ' ');
    }
  }

  lemma GroupedExtend(gp: string, tail: string, sep: char)
    requires IsGrouped(gp, sep) && !IsDigit(sep) && |tail| == 3 && AllDigits(tail)
    ensures IsGrouped(gp + [sep] + tail, sep)
  {
    var g := gp + [sep] + tail;
    forall i | 0 <= i < |g|
      ensures (g[i] == sep <==> (|g| - i) % 4 == 0) && (g[i] != sep ==> IsDigit(g[i]))
    {
      if i < |gp| {
        assert g[i] == gp[i];
        assert |g| - i == (|gp| - i) + 4;
      } else if i > |gp| {
        assert g[i] == tail[i - |gp| - 1];
      }
    }
  }

  lemma {:induction false} GroupDigitsShape(d: string, sep: char)
    requires |d| > 0 && AllDigits(d) && !IsDigit(sep)
    ensures IsGrouped(GroupDigits(d, sep), sep)
    decreases |d|
  {
    if |d| > 3 {
      var p := d[..|d| - 3];
      GroupDigitsShape(p, sep);
      GroupedExtend(GroupDigits(p, sep), d[|d| - 3..], sep);
    }
  }

  lemma RemoveSeparator(gp: string, p: string, tail: string, sep: char)
    requires RemoveChar(gp, sep) == p && sep !in tail
    ensures RemoveChar(gp + [sep] + tail, sep) == p + tail
  {
    RemoveCharConcat(gp + [sep], tail, sep);
    RemoveCharConcat(gp, [sep], sep);
    assert RemoveChar([sep], sep) == [] by {
      assert [sep][1..] == [];
    }
    RemoveCharAbsent(tail, sep);
    assert RemoveChar(gp + [sep] + tail, sep) == RemoveChar(gp + [sep], sep) + tail;
    assert RemoveChar(gp + [sep], sep) == p;
  }

  lemma {:induction false} GroupDigitsRemove(d: string, sep: char)
    requires AllDigits(d) && !IsDigit(sep)
    ensures RemoveChar(GroupDigits(d, sep), sep) == d
    decreases |d|
  {
    if |d| <= 3 {
      assert sep !in d;
      RemoveCharAbsent(d, sep);
    } else {
      var p, tail := d[..|d| - 3], d[|d| - 3..];
      GroupDigitsRemove(p, sep);
      assert sep !in tail;
      RemoveSeparator(GroupDigits(p, sep), p, tail, sep);
      assert p + tail == d;
    }
  }

  /** The price text splits into the amount part and the symbol part: deleting
      the spaces from the amount part gives back `str(amount)`, its digits are
      grouped in threes from the right with single spaces, and the symbol part
      is the symbol with its commas replaced by spaces. */
  lemma FormatPriceRoundTrip(amount: int, row: CurrencyRow, fallback: string)
    requires !row.StorageError?
    ensures var r := FormatPrice(amount, row, fallback);
            var n := |r| - |Symbol(row, fallback)|;
            && RemoveChar(r[..n], ' ') == IntToDecimal(amount)
            && (amount >= 0 ==> IsGrouped(r[..n], ' '))
            && (amount < 0 ==> r[0] == '-' && IsGrouped(r[1..n], ' '))
            && r[n..] == ReplaceChar(Symbol(row, fallback), ',', ' ')
  {
    var sym := Symbol(row, fallback);
    var mag := NatToDecimal(if amount < 0 then -amount else amount);
    GroupDigitsShape(mag, ' ');
    GroupDigitsRemove(mag, ' ');
    ReplaceGroupCommas(mag);
    var body := SpaceThousands(mag);
    ReplaceCharConcat(Grouped(amount), sym, ',', ' ');
    var r := FormatPrice(amount, row, fallback);
    if amount < 0 {
      ReplaceCharConcat("-", GroupThousands(mag), ',', ' ');
      assert ReplaceChar("-", ',', ' ') == "-";
      assert r == "-" + body + ReplaceChar(sym, ',', ' ');
      assert r[..|r| - |sym|] == "-" + body;
      RemoveCharConcat("-", body, ' ');
      assert RemoveChar("-", ' ') == "-";
    } else {
      assert r == body + ReplaceChar(sym, ',', ' ');
      assert r[..|r| - |sym|] == body;
    }
  }

  /** A stored currency setting takes the place of the configured symbol: the
      price is the one the stored symbol would give as the configuration, and
      the configuration then makes no difference. */
  lemma SymbolChoice(amount: int, stored: string, fallback: string, other: string)
    ensures FormatPrice(amount, Row(stored), fallback) == FormatPrice(amount, NoRow, stored)
    ensures FormatPrice(amount, Row(stored), fallback) == FormatPrice(amount, Row(stored), other)
  {
  }

  /** 12345 with the symbol "₪" is rendered "12 345₪". */
  lemma FormatPriceExample()
    ensures FormatPrice(12345, NoRow, "₪") == "12 345₪"
  {
    assert NatToDecimal(12345) == "12345" by {
      assert NatToDecimal(1) == "1";
      assert NatToDecimal(12) == "12";
      assert NatToDecimal(123) == "123";
      assert NatToDecimal(1234) == "1234";
    }
    assert GroupThousands("12345") == "12,345";
  }
}
