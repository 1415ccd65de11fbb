/** The SAP report extractor (PPM.py): tolerant cell parsing, year/month
    scanners, the product report's 41-row blocks, the factory report's
    first-matching-row lookups, the cost statement's total rows, the keyed
    "last one wins" CSV upsert and the monthly merge of `main`.

    A sheet is what `pd.read_excel(..., header=None)` gives: rows of cells. A
    cell is empty (None or NaN), a string, or a number together with the text
    `str()` gives for it. Every lookup in the source that guards a row or column
    index with the frame's shape and falls back to an empty value reads an
    empty cell here, so `At` answers `Blank` outside the sheet. */
module Ppm {
  import opened Strings
  import opened Paths

  datatype Cell = Blank | Text(s: string) | Num(value: real, text: string)

  type Sheet = seq<seq<Cell>>

  function At(sheet: Sheet, r: int, c: int): Cell {
    if 0 <= r < |sheet| && 0 <= c < |sheet[r]| then sheet[r][c] else Blank
  }

  /** `str(v)` of a cell that is not NaN; the empty text for an empty cell. */
  function CellText(c: Cell): string {
    match c
    case Blank => ""
    case Text(s) => s
    case Num(_, t) => t
  }

  // ---------------------------------------------------------------------------
  // _to_int
  // ---------------------------------------------------------------------------

  /** `int(x)` on a finite float: truncation toward zero. */
  function Trunc(x: real): (n: int)
    ensures 0.0 <= x ==> 0 <= n && n as real <= x < n as real + 1.0
    ensures x < 0.0 ==> n <= 0 && n as real - 1.0 < x <= n as real
  {
    if x >= 0.0 then x.Floor else -((-x).Floor)
  }

  /** The length of the run of decimal digits at index `j` of `s`. */
  function DigitRunFrom(s: string, j: nat): (k: nat)
    requires j <= |s|
    ensures j <= k <= |s| && (k == |s| || !IsDigit(s[k]))
    ensures forall i :: j <= i < k ==> IsDigit(s[i])
    decreases |s| - j
  {
    if j < |s| && IsDigit(s[j]) then DigitRunFrom(s, j + 1) else j
  }

  /** `int(float(u))` for the decimal forms handled here: an optional sign, then
      digits with at most one point among or after them, at least one digit in
      all. `None` where `float` raises, and also where `int` of a NaN or an
      infinity raises. */
  function ParseDecimal(u: string): Option<int> {
    var signed := u != [] && (u[0] == '-' || u[0] == '+');
    var start := if signed then 1 else 0;
    var k := DigitRunFrom(u, start);
    var frac := u[k..];
    if (frac == [] && k > start)
       || (frac != [] && frac[0] == '.' && AllDigits(frac[1..]) && (k > start || |frac| > 1))
    then
      var whole: int := DigitsValue(u[start..k]);
      Some(if signed && u[0] == '-' then -whole else whole)
    else None
  }

  /** `_to_int`: an empty cell and blank text give 0; text loses its commas,
      `(x)` stands for `-x`, and what `float` cannot read gives 0; numbers are
      truncated toward zero. */
  function ToInt(x: Cell): int {
    match x
    case Blank => 0
    case Num(v, _) => Trunc(v)
    case Text(s) =>
      if Strip(s) == [] then 0
      else
        var t := RemoveChar(Strip(s), ',');
        OrZero(ParseDecimal(Strip(Unparen(t))))
  }

  /** `"(x)"` becomes `"-x"`; other text is left alone. */
  function Unparen(t: string): string {
    if |t| >= 2 && t[0] == '(' && t[|t| - 1] == ')' then "-" + t[1..|t| - 1] else t
  }

  /** The value of a parse, or 0 where the source's `except` branch answers. */
  function OrZero(r: Option<int>): int {
    match r
    case Some(n) => n
    case None => 0
  }

  lemma {:induction false} RemoveCharAbsent(s: string, c: char)
    requires c !in s
    ensures RemoveChar(s, c) == s
  {
    if s != [] {
      assert s[0] != c;
      RemoveCharAbsent(s[1..], c);
      assert [s[0]] + s[1..] == s;
    }
  }

  /** `strip` leaves text alone whose first and last characters are not whitespace. */
  lemma StripKeeps(s: string)
    requires s == [] || (!IsSpace(s[0]) && !IsSpace(s[|s| - 1]))
    ensures Strip(s) == s
  {
    assert LStrip(s) == s;
  }

  /** What `ParseDecimal` reads from a sign and decimal digits, followed by a
      point and digits or by nothing. */
  lemma ParseDecimalDigits(sign: string, digits: string, tail: string)
    requires sign == "" || sign == "-"
    requires digits != [] && AllDigits(digits)
    requires tail == [] || (tail[0] == '.' && AllDigits(tail[1..]))
    ensures ParseDecimal(sign + digits + tail)
         == Some(if sign == "-" then -(DigitsValue(digits) as int) else DigitsValue(digits))
  {
    var u := sign + digits + tail;
    var start := |sign|;
    var k := DigitRunFrom(u, start);
    assert u[start..start + |digits|] == digits;
    forall i | start <= i < start + |digits| ensures IsDigit(u[i]) {
      assert u[i] == digits[i - start];
    }
    if tail != [] {
      assert u[start + |digits|] == '.';
    }
    assert k == start + |digits|;
    assert u[k..] == tail;
  }

  /** Text with no comma and no whitespace at either end is what `_to_int` hands on. */
  lemma Cleaned(s: string)
    requires s != [] && !IsSpace(s[0]) && !IsSpace(s[|s| - 1]) && ',' !in s
    ensures Strip(s) == s && RemoveChar(Strip(s), ',') == s
  {
    StripKeeps(s);
    RemoveCharAbsent(s, ',');
  }

  /** Text that starts and ends with neither whitespace nor a parenthesis and
      has no comma goes straight to `float`. */
  lemma ToIntOfPlain(s: string)
    requires s != [] && !IsSpace(s[0]) && !IsSpace(s[|s| - 1]) && ',' !in s && s[0] != '('
    ensures ToInt(Text(s)) == OrZero(ParseDecimal(s))
  {
    Cleaned(s);
  }

  /** Text `(x)` with no comma reads as `-x`. */
  lemma ToIntOfParens(x: string)
    requires x != [] && !IsSpace(x[|x| - 1]) && ',' !in x
    ensures ToInt(Text("(" + x + ")")) == OrZero(ParseDecimal("-" + x))
  {
    var s := "(" + x + ")";
    assert ',' !in s;
    Cleaned(s);
    assert s[1..|s| - 1] == x;
    assert Unparen(s) == "-" + x;
    StripKeeps("-" + x);
  }

  lemma DigitsAreNotSpaces(s: string)
    requires AllDigits(s)
    ensures NoSpace(s) && ',' !in s && '(' !in s && '.' !in s
  {
    forall i | 0 <= i < |s| ensures !IsSpace(s[i]) && s[i] != ',' && s[i] != '(' && s[i] != '.' {
      assert IsDigit(s[i]);
    }
  }

  /** A sign, digits and an optional fractional part form text that `strip`,
      the comma removal and the parenthesis rule leave alone. */
  lemma NumberTextIsPlain(sign: string, digits: string, tail: string)
    requires sign == "" || sign == "-"
    requires digits != [] && AllDigits(digits)
    requires tail == [] || (tail[0] == '.' && AllDigits(tail[1..]))
    ensures var s := sign + digits + tail;
            s != [] && !IsSpace(s[0]) && !IsSpace(s[|s| - 1]) && ',' !in s && s[0] != '('
  {
    var s := sign + digits + tail;
    DigitsAreNotSpaces(digits);
    assert ',' !in tail by {
      if tail != [] {
        DigitsAreNotSpaces(tail[1..]);
        assert tail == [tail[0]] + tail[1..];
      }
    }
    assert ',' !in s;
    assert s[0] == '-' || s[0] == digits[0];
    assert !IsSpace(s[|s| - 1]) by {
      if |tail| > 1 {
        assert s[|s| - 1] == tail[1..][|tail| - 2];
      } else if tail == [] {
        assert s[|s| - 1] == digits[|digits| - 1];
      }
    }
  }

  /** `_to_int` of a sign, decimal digits and an optional fractional part is
      the signed value of the digits. */
  lemma ToIntOfNumber(sign: string, digits: string, tail: string)
    requires sign == "" || sign == "-"
    requires digits != [] && AllDigits(digits)
    requires tail == [] || (tail[0] == '.' && AllDigits(tail[1..]))
    ensures ToInt(Text(sign + digits + tail))
         == if sign == "-" then -(DigitsValue(digits) as int) else DigitsValue(digits)
  {
    NumberTextIsPlain(sign, digits, tail);
    ToIntOfPlain(sign + digits + tail);
    ParseDecimalDigits(sign, digits, tail);
  }

  /** `_to_int` reads back the decimal text of every integer. */
  lemma ToIntOfIntText(n: int)
    ensures ToInt(Text(IntText(n))) == n
  {
    var m: nat := if n < 0 then -n else n;
    var sign := if n < 0 then "-" else "";
    assert IntText(n) == sign + NatText(m) + "";
    ToIntOfNumber(sign, NatText(m), "");
    NatTextValue(m);
  }

  /** The accountants' `(x)` notation reads as the negative of `x`. */
  lemma ToIntOfParenthesised(n: nat)
    ensures ToInt(Text("(" + NatText(n) + ")")) == -(n as int)
  {
    var digits := NatText(n);
    DigitsAreNotSpaces(digits);
    ToIntOfParens(digits);
    ParseDecimalDigits("-", digits, "");
    assert "-" + digits + "" == "-" + digits;
    NatTextValue(n);
  }

  /** A fractional part is dropped, so negative values round toward zero:
      "-3.7" reads as -3. */
  lemma ToIntTruncatesText(n: int, fraction: string)
    requires AllDigits(fraction)
    ensures ToInt(Text(IntText(n) + "." + fraction)) == n
  {
    var m: nat := if n < 0 then -n else n;
    var sign := if n < 0 then "-" else "";
    var tail := "." + fraction;
    assert tail[1..] == fraction;
    assert IntText(n) + "." + fraction == sign + NatText(m) + tail;
    ToIntOfNumber(sign, NatText(m), tail);
    NatTextValue(m);
  }

  /** `_to_int` of an empty cell or of blank text is 0. */
  lemma ToIntBlank(s: string)
    requires IsBlank(s)
    ensures ToInt(Text(s)) == 0 && ToInt(Blank) == 0
  {
    StripEmptyIffBlank(s);
  }

  // ---------------------------------------------------------------------------
  // Year and month in text and in file names
  // ---------------------------------------------------------------------------

  datatype YearMonth = YearMonth(year: nat, month: nat)

  /** The index of the first non-whitespace character at or after `j`. */
  function SkipSpaces(s: string, j: nat): (k: nat)
    requires j <= |s|
    ensures j <= k <= |s| && (k == |s| || !IsSpace(s[k]))
    ensures forall i :: j <= i < k ==> IsSpace(s[i])
    decreases |s| - j
  {
    if j < |s| && IsSpace(s[j]) then SkipSpaces(s, j + 1) else j
  }

  /** What `re.search` reports for a pattern whose match at each index is
      given by `at`: the match at the leftmost index that has one. */
  function SearchFrom<T>(s: string, at: (string, nat) -> Option<T>, i: nat): Option<T>
    requires i <= |s|
    decreases |s| - i
  {
    if at(s, i).Some? || i == |s| then at(s, i) else SearchFrom(s, at, i + 1)
  }

  lemma {:induction false} SearchFromFirst<T>(s: string, at: (string, nat) -> Option<T>, i: nat, k: nat)
    requires i <= k <= |s| && at(s, k).Some?
    requires forall j :: i <= j < k ==> at(s, j).None?
    ensures SearchFrom(s, at, i) == at(s, k)
    decreases k - i
  {
    if i < k {
      SearchFromFirst(s, at, i + 1, k);
    }
  }

  /** The search finds nothing exactly when no index has a match, and what it
      finds is the match at the first index that has one. */
  lemma {:induction false} SearchFromSpec<T>(s: string, at: (string, nat) -> Option<T>, i: nat)
    requires i <= |s|
    ensures SearchFrom(s, at, i).None? <==> forall j :: i <= j <= |s| ==> at(s, j).None?
    ensures SearchFrom(s, at, i).Some? ==>
              exists k :: i <= k <= |s| && SearchFrom(s, at, i) == at(s, k)
                          && forall j :: i <= j < k ==> at(s, j).None?
    decreases |s| - i
  {
    if at(s, i).None? && i < |s| {
      SearchFromSpec(s, at, i + 1);
      if SearchFrom(s, at, i).Some? {
        var k :| i + 1 <= k <= |s| && SearchFrom(s, at, i + 1) == at(s, k)
                 && forall j :: i + 1 <= j < k ==> at(s, j).None?;
        assert forall j :: i <= j < k ==> at(s, j).None?;
      }
    }
  }

  /** The pattern `(\d{4})\.(\d{1,2})` at index `i`: four digits, a point, and
      a month of two digits when a second one follows, else of one. */
  function DotDateAt(s: string, i: nat): Option<YearMonth> {
    if i + 6 <= |s| && AllDigits(s[i..i + 4]) && s[i + 4] == '.' && IsDigit(s[i + 5]) then
      var e := if i + 7 <= |s| && IsDigit(s[i + 6]) then i + 7 else i + 6;
      Some(YearMonth(DigitsValue(s[i..i + 4]), DigitsValue(s[i + 5..e])))
    else None
  }

  /** `\s*월` at index `e`. */
  predicate MonthMarkAt(s: string, e: nat)
    requires e <= |s|
  {
    var w := SkipSpaces(s, e);
    w < |s| && s[w] == '월'
  }

  /** The pattern `(\d{4})\s*년\s*(\d{1,2})\s*월` at index `i`. Each run of
      whitespace is taken whole, since a shorter run leaves a whitespace
      character where a digit or a mark is needed; the month has two digits
      when `월` can follow them, else one. */
  function HangulDateAt(s: string, i: nat): Option<YearMonth> {
    if i + 4 <= |s| && AllDigits(s[i..i + 4]) then
      var j := SkipSpaces(s, i + 4);
      if j < |s| && s[j] == '년' then
        var d := SkipSpaces(s, j + 1);
        if d + 2 <= |s| && IsDigit(s[d]) && IsDigit(s[d + 1]) && MonthMarkAt(s, d + 2) then
          Some(YearMonth(DigitsValue(s[i..i + 4]), DigitsValue(s[d..d + 2])))
        else if d + 1 <= |s| && IsDigit(s[d]) && MonthMarkAt(s, d + 1) then
          Some(YearMonth(DigitsValue(s[i..i + 4]), DigitsValue(s[d..d + 1])))
        else None
      else None
    else None
  }

  /** `_extract_yyyymm_from_text`: nothing for empty text; otherwise the first
      `YYYY.M` date, and only when there is none the first `YYYY년 M월` date. */
  function YearMonthFromText(text: string): Option<YearMonth> {
    if text == [] then None
    else
      var dotted := SearchFrom(text, DotDateAt, 0);
      if dotted.Some? then dotted else SearchFrom(text, HangulDateAt, 0)
  }

  /** The pattern `(\d{4})[.\-_]?\s*(\d{2})` at index `i`. The separator is
      taken when present, as leaving it out leaves a non-digit where the month
      must start. */
  function FileDateAt(s: string, i: nat): Option<YearMonth> {
    if i + 4 <= |s| && AllDigits(s[i..i + 4]) then
      var j := if i + 4 < |s| && s[i + 4] in ".-_" then i + 5 else i + 4;
      var d := SkipSpaces(s, j);
      if d + 2 <= |s| && IsDigit(s[d]) && IsDigit(s[d + 1]) then
        Some(YearMonth(DigitsValue(s[i..i + 4]), DigitsValue(s[d..d + 2])))
      else None
    else None
  }

  /** `_extract_yyyymm_from_filename`: the first date in the file name's stem. */
  function YearMonthFromFilename(path: string): Option<YearMonth> {
    SearchFrom(PathStem(Basename(path)), FileDateAt, 0)
  }

  lemma AtMostTwoDigits(m: nat)
    requires m < 100
    ensures |NatText(m)| <= 2
  {
    if m >= 10 {
      assert |NatText(m / 10)| == 1;
    }
  }

  lemma FourDigitYear(y: nat)
    requires 1000 <= y <= 9999
    ensures |NatText(y)| == 4
  {
    assert |NatText(y / 1000)| == 1;
    assert NatText(y / 100) == NatText(y / 1000) + [DigitChar(y / 100 % 10)];
    assert NatText(y / 10) == NatText(y / 100) + [DigitChar(y / 10 % 10)];
  }

  /** A month below 100 written with two digits, as file names carry it. */
  function TwoDigits(m: nat): (t: string)
    requires m < 100
    ensures |t| == 2 && AllDigits(t) && DigitsValue(t) == m
  {
    assert DigitsValue([DigitChar(m / 10)]) == m / 10;
    [DigitChar(m / 10), DigitChar(m % 10)]
  }

  lemma DigitsCarryNoMarks(s: string)
    requires AllDigits(s)
    ensures '.' !in s && '년' !in s && '월' !in s && '/' !in s
    ensures forall i :: 0 <= i < |s| ==> !IsSpace(s[i])
  {
    forall i | 0 <= i < |s| ensures s[i] != '.' && s[i] != '년' && s[i] != '월' && s[i] != '/' && !IsSpace(s[i]) {
      assert IsDigit(s[i]);
    }
  }

  /** A `YYYY.M` date is found after any text without a point, as in
      `기준기간 [2025.12 ~2025.12]`. */
  lemma DotDateFound(prefix: string, y: nat, m: nat, rest: string)
    requires '.' !in prefix
    requires 1000 <= y <= 9999 && m < 100
    requires rest == [] || !IsDigit(rest[0])
    ensures YearMonthFromText(prefix + NatText(y) + "." + NatText(m) + rest) == Some(YearMonth(y, m))
  {
    var year, month := NatText(y), NatText(m);
    var s := prefix + year + "." + month + rest;
    var p := |prefix|;
    FourDigitYear(y);
    DigitsCarryNoMarks(year);
    forall j | 0 <= j < p ensures DotDateAt(s, j).None? {
      if j + 4 < p {
        assert s[j + 4] == prefix[j + 4];
      } else {
        assert s[j + 4] == year[j + 4 - p];
      }
    }
    assert s[p..p + 4] == year;
    assert s[p + 4] == '.';
    assert s[p + 5] == month[0];
    var e := p + 5 + |month|;
    assert s[p + 5..e] == month;
    if |month| == 1 {
      assert e == |s| || s[e] == rest[0];
    } else {
      assert s[p + 6] == month[1];
    }
    NatTextValue(y);
    NatTextValue(m);
    assert DotDateAt(s, p) == Some(YearMonth(y, m));
    SearchFromFirst(s, DotDateAt, 0, p);
  }

  /** Text without a point holds no `YYYY.M` date. */
  lemma NoPointNoDotDate(s: string)
    requires '.' !in s
    ensures SearchFrom(s, DotDateAt, 0).None?
  {
    forall j | 0 <= j <= |s| ensures DotDateAt(s, j).None? {
      if j + 6 <= |s| {
        assert s[j + 4] in s;
      }
    }
    SearchFromSpec(s, DotDateAt, 0);
  }

  /** `HangulDateAt` reads four digits, `년`, one or two digits and `월`. */
  lemma HangulDateAtParts(s: string, p: nat, year: string, month: string)
    requires |year| == 4 && AllDigits(year) && 1 <= |month| <= 2 && AllDigits(month)
    requires p + 6 + |month| <= |s|
    requires s[p..p + 4] == year && s[p + 4] == '년'
    requires s[p + 5..p + 5 + |month|] == month && s[p + 5 + |month|] == '월'
    ensures HangulDateAt(s, p) == Some(YearMonth(DigitsValue(year), DigitsValue(month)))
  {
    var d := p + 5;
    var e := d + |month|;
    assert SkipSpaces(s, p + 4) == p + 4;
    assert s[d] == month[0] && IsDigit(s[d]);
    assert SkipSpaces(s, d) == d;
    assert SkipSpaces(s, e) == e;
    if |month| == 2 {
      assert s[d + 1] == month[1];
      assert s[d..d + 2] == month;
    } else {
      assert s[d..d + 1] == month;
    }
  }

  /** The year and month of `YYYY년M월` written after `prefix`. */
  lemma HangulDateAtYear(prefix: string, y: nat, m: nat, rest: string)
    requires 1000 <= y <= 9999 && m < 100
    ensures HangulDateAt(prefix + NatText(y) + "년" + NatText(m) + "월" + rest, |prefix|)
         == Some(YearMonth(y, m))
  {
    var year, month := NatText(y), NatText(m);
    var s := prefix + year + "년" + month + "월" + rest;
    var p := |prefix|;
    FourDigitYear(y);
    AtMostTwoDigits(m);
    assert s[p..p + 4] == year;
    assert s[p + 4] == '년';
    assert s[p + 5..p + 5 + |month|] == month;
    assert s[p + 5 + |month|] == '월';
    HangulDateAtParts(s, p, year, month);
    NatTextValue(y);
    NatTextValue(m);
  }

  /** A `YYYY년M월` date is found in text that has no point anywhere, as in
      `1기준기간(2025년12월~2025년12월)`, provided no `년` comes before it. */
  lemma HangulDateFound(prefix: string, y: nat, m: nat, rest: string)
    requires '.' !in prefix && '.' !in rest && '년' !in prefix
    requires 1000 <= y <= 9999 && m < 100
    ensures YearMonthFromText(prefix + NatText(y) + "년" + NatText(m) + "월" + rest) == Some(YearMonth(y, m))
  {
    var year, month := NatText(y), NatText(m);
    var s := prefix + year + "년" + month + "월" + rest;
    var p := |prefix|;
    FourDigitYear(y);
    DigitsCarryNoMarks(year);
    DigitsCarryNoMarks(month);
    assert '.' !in s;
    NoPointNoDotDate(s);
    assert s[p] == year[0];
    forall j | 0 <= j < p ensures HangulDateAt(s, j).None? {
      if j + 4 <= |s| && AllDigits(s[j..j + 4]) {
        var k := SkipSpaces(s, j + 4);
        if k < p {
          assert s[k] == prefix[k];
        } else if k < p + 4 {
          assert s[k] == year[k - p];
        }
      }
    }
    HangulDateAtYear(prefix, y, m, rest);
    SearchFromFirst(s, HangulDateAt, 0, p);
  }

  /** `Path(p).stem` of a file `stem.ext` in any directory. */
  lemma StemOfJoin(dir: string, stem: string, ext: string)
    requires stem != [] && ext != [] && '.' !in ext && '/' !in stem && '/' !in ext
    ensures PathStem(Basename(Join(dir, stem + "." + ext))) == stem
  {
    var name := stem + "." + ext;
    assert '/' !in name;
    BasenameOfJoin(dir, name);
    assert LastIndexOf(stem + ".", '.') == |stem|;
    LastIndexOfAppend(stem + ".", ext, '.');
    assert name == (stem + ".") + ext;
  }

  /** The year and the two-digit month, with or without one of `.`, `-` or
      `_` between them, match at the start. */
  lemma FileDateAtStart(y: nat, m: nat, sep: string)
    requires 1000 <= y <= 9999 && m < 100
    requires sep in ["", ".", "-", "_"]
    ensures FileDateAt(NatText(y) + sep + TwoDigits(m), 0) == Some(YearMonth(y, m))
  {
    var year, month := NatText(y), TwoDigits(m);
    var stem := year + sep + month;
    FourDigitYear(y);
    assert stem[..4] == year;
    var d := 4 + |sep|;
    assert SkipSpaces(stem, d) == d by {
      assert stem[d] == month[0];
    }
    assert stem[d..d + 2] == month;
    NatTextValue(y);
  }

  /** A file whose name starts with the year and the two-digit month, with or
      without one of `.`, `-` or `_` between them, yields that year and month. */
  lemma FilenameDateFound(dir: string, y: nat, m: nat, sep: string, ext: string)
    requires 1000 <= y <= 9999 && m < 100
    requires sep in ["", ".", "-", "_"]
    requires ext != [] && '.' !in ext && '/' !in ext
    ensures YearMonthFromFilename(Join(dir, NatText(y) + sep + TwoDigits(m) + "." + ext))
         == Some(YearMonth(y, m))
  {
    var year, month := NatText(y), TwoDigits(m);
    var stem := year + sep + month;
    FourDigitYear(y);
    DigitsCarryNoMarks(year);
    DigitsCarryNoMarks(month);
    StemOfJoin(dir, stem, ext);
    FileDateAtStart(y, m, sep);
  }

  // ---------------------------------------------------------------------------
  // Product code and name
  // ---------------------------------------------------------------------------

  const CodeMark: string := "제품코드(명)"
  const NameMark: string := "(제품명)"

  /** The class `[0-9A-Za-z_-]`. */
  predicate IsCodeChar(c: char) {
    IsDigit(c) || 'A' <= c <= 'Z' || 'a' <= c <= 'z' || c == '_' || c == '-'
  }

  /** The end of the run of code characters at index `j`. */
  function CodeRunFrom(s: string, j: nat): (k: nat)
    requires j <= |s|
    ensures j <= k <= |s| && (k == |s| || !IsCodeChar(s[k]))
    ensures forall i :: j <= i < k ==> IsCodeChar(s[i])
    decreases |s| - j
  {
    if j < |s| && IsCodeChar(s[j]) then CodeRunFrom(s, j + 1) else j
  }

  /** The index of the first newline at or after `j`, or the end of the text. */
  function LineEnd(s: string, j: nat): (e: nat)
    requires j <= |s|
    ensures j <= e <= |s| && (e == |s| || s[e] == '\n')
    ensures forall i :: j <= i < e ==> s[i] != '\n'
    decreases |s| - j
  {
    if j < |s| && s[j] != '\n' then LineEnd(s, j + 1) else j
  }

  /** `\s*(.+)$` at index `j`, where `.` is any character but a newline and `$`
      matches at the end of the text or before a final newline. The whitespace
      run is tried from its full length, ending at `k`, down to nothing, as the
      regular expression engine backtracks. */
  function RestOfLine(s: string, j: nat, k: nat): Option<string>
    requires j <= k <= |s|
    decreases k - j
  {
    var e := LineEnd(s, k);
    if e > k && (e == |s| || e + 1 == |s|) then Some(s[k..e])
    else if k == j then None
    else RestOfLine(s, j, k - 1)
  }

  /** Where the code of a match starts and ends, and where its `/` is. */
  datatype CodeSpan = CodeSpan(start: nat, end: nat, slash: nat)

  // The part `제품코드\(명\)\s*:\s*([0-9A-Za-z_-]+)\s*/` of the product pattern at
  // index `i`. Whitespace and code runs are taken whole, since a shorter one
  // leaves a character the next part cannot start with.
  function CodeSpanAt(s: string, i: nat): (span: Option<CodeSpan>)
    ensures span.Some? ==> span.value.start < span.value.end <= span.value.slash < |s|
    ensures span.Some? ==> s[span.value.slash] == '/'
    ensures span.Some? ==> forall k :: span.value.start <= k < span.value.end ==> IsCodeChar(s[k])
  {
    if OccursAt(s, CodeMark, i) then
      var a := SkipSpaces(s, i + |CodeMark|);
      if a < |s| && s[a] == ':' then
        var b := SkipSpaces(s, a + 1);
        var e := CodeRunFrom(s, b);
        var f := SkipSpaces(s, e);
        if b < e && f < |s| && s[f] == '/' then Some(CodeSpan(b, e, f)) else None
      else None
    else None
  }

  /** The whole product pattern, ending in `\s*(.+)$`, at index `i`: the code
      and the name as captured. */
  function CodeNameAt(s: string, i: nat): Option<(string, string)> {
    match CodeSpanAt(s, i)
    case None => None
    case Some(span) =>
      match RestOfLine(s, span.slash + 1, SkipSpaces(s, span.slash + 1))
      case Some(name) => Some((s[span.start..span.end], name))
      case None => None
  }

  /** `\(제품명\)\s*:\s*(.+)$` at index `i`: the name as captured. */
  function NameAt(s: string, i: nat): Option<string> {
    if OccursAt(s, NameMark, i) then
      var a := SkipSpaces(s, i + |NameMark|);
      if a < |s| && s[a] == ':' then RestOfLine(s, a + 1, SkipSpaces(s, a + 1)) else None
    else None
  }

  /** `_parse_product_code_name`: the stripped code and name of the first
      `제품코드(명) : code / name` in the cell; when that gives no name, the
      stripped text after the first `(제품명) :` instead. */
  function ParseCodeName(cell: string): (string, string) {
    (FoundCode(cell), FoundName(cell))
  }

  function FoundCode(cell: string): string {
    var found := SearchFrom(cell, CodeNameAt, 0);
    if found.Some? then Strip(found.value.0) else ""
  }

  function FoundName(cell: string): string {
    var found := SearchFrom(cell, CodeNameAt, 0);
    var name := if found.Some? then Strip(found.value.1) else "";
    if name != [] then name
    else
      var fallback := SearchFrom(cell, NameAt, 0);
      if fallback.Some? then Strip(fallback.value) else ""
  }

  predicate IsCode(code: string) {
    forall i :: 0 <= i < |code| ==> IsCodeChar(code[i])
  }

  /** A captured code is a non-empty run of code characters, so `strip` keeps it. */
  lemma CodeNameAtCode(s: string, i: nat)
    requires CodeNameAt(s, i).Some?
    ensures var code := CodeNameAt(s, i).value.0; code != [] && IsCode(code) && Strip(code) == code
  {
    var span := CodeSpanAt(s, i).value;
    var code := s[span.start..span.end];
    assert CodeNameAt(s, i).value.0 == code;
    assert IsCodeChar(code[0]) && IsCodeChar(code[|code| - 1]);
    StripKeeps(code);
  }

  /** The code is always made of `[0-9A-Za-z_-]`, and is empty exactly when
      the cell has no `제품코드(명) : code / name` at all. */
  lemma ParsedCodeIsCode(cell: string)
    ensures IsCode(FoundCode(cell))
    ensures FoundCode(cell) == [] <==> SearchFrom(cell, CodeNameAt, 0).None?
  {
    SearchFromSpec(cell, CodeNameAt, 0);
    var found := SearchFrom(cell, CodeNameAt, 0);
    if found.Some? {
      var k :| 0 <= k <= |cell| && found == CodeNameAt(cell, k);
      CodeNameAtCode(cell, k);
    }
  }

  /** A cell without `제품코드(명)` gives no code, so its block is skipped. */
  lemma NoCodeMarkNoCode(cell: string)
    requires !Contains(cell, CodeMark)
    ensures FoundCode(cell) == []
  {
    forall k | 0 <= k <= |cell| ensures CodeNameAt(cell, k).None? {
      assert !OccursAt(cell, CodeMark, k);
    }
    SearchFromSpec(cell, CodeNameAt, 0);
  }

  /** `제품코드(명) :<code> / <name>` gives back the code and the name. */
  lemma ParseCodeNameRoundTrip(code: string, name: string)
    requires code != [] && IsCode(code)
    requires name != [] && '\n' !in name && !IsSpace(name[0]) && !IsSpace(name[|name| - 1])
    ensures ParseCodeName(CodeMark + " :" + code + " / " + name) == (code, name)
  {
    var s := CodeMark + " :" + code + " / " + name;
    CodeNameOfLabel(code, name);
    SearchFromFirst(s, CodeNameAt, 0, 0);
    StripKeeps(code);
    StripKeeps(name);
  }

  lemma CodeNameOfLabel(code: string, name: string)
    requires code != [] && IsCode(code)
    requires name != [] && '\n' !in name && !IsSpace(name[0])
    ensures CodeNameAt(CodeMark + " :" + code + " / " + name, 0) == Some((code, name))
  {
    var s := CodeMark + " :" + code + " / " + name;
    var e := |CodeMark| + 2 + |code|;
    CodeSpanOfLabel(code, name);
    var n := e + 3;
    assert SkipSpaces(s, e + 2) == n by {
      assert s[e + 2] == ' ' && s[n] == name[0];
    }
    assert LineEnd(s, n) == |s| by {
      forall i | n <= i < |s| ensures s[i] != '\n' {
        assert s[i] == name[i - n];
      }
    }
    assert s[n..|s|] == name;
    assert RestOfLine(s, e + 2, n) == Some(name);
    assert s[|CodeMark| + 2..e] == code;
  }

  lemma CodeSpanOfLabel(code: string, name: string)
    requires code != [] && IsCode(code)
    ensures var s := CodeMark + " :" + code + " / " + name;
            CodeSpanAt(s, 0) == Some(CodeSpan(|CodeMark| + 2, |CodeMark| + 2 + |code|, |CodeMark| + 3 + |code|))
  {
    var s := CodeMark + " :" + code + " / " + name;
    var m := |CodeMark|;
    assert OccursAt(s, CodeMark, 0);
    assert SkipSpaces(s, m) == m + 1 by {
      assert s[m] == ' ' && s[m + 1] == ':';
    }
    var b := m + 2;
    assert SkipSpaces(s, b) == b by {
      assert s[b] == code[0];
    }
    var e := b + |code|;
    assert CodeRunFrom(s, b) == e by {
      forall i | b <= i < e ensures IsCodeChar(s[i]) {
        assert s[i] == code[i - b];
      }
      assert s[e] == ' ';
    }
    assert SkipSpaces(s, e) == e + 1 by {
      assert s[e + 1] == '/';
    }
  }

  // ---------------------------------------------------------------------------
  // Product report: the reference period of a block
  // ---------------------------------------------------------------------------

  const PeriodMark: string := "기준기간"

  /** A cell `_extract_product_yyyymm` collects: a string naming the reference period. */
  predicate IsPeriodCell(c: Cell) {
    c.Text? && Contains(c.s, PeriodMark)
  }

  /** The period texts in columns `0..n-1` of row `r`, left to right. */
  function RowPeriodTexts(sheet: Sheet, r: int, n: nat): seq<string> {
    if n == 0 then []
    else
      var c := At(sheet, r, n - 1);
      RowPeriodTexts(sheet, r, n - 1) + (if IsPeriodCell(c) then [c.s] else [])
  }

  /** The period texts in the first `rows` rows from `b`, in columns 0 to 7,
      row by row. */
  function BlockPeriodTexts(sheet: Sheet, b: nat, rows: nat): seq<string> {
    if rows == 0 then [] else BlockPeriodTexts(sheet, b, rows - 1) + RowPeriodTexts(sheet, b + rows - 1, 8)
  }

  /** The number of rows `range(b, min(b + 6, nrows))` visits. */
  function ScanRows(nrows: nat, b: nat): nat {
    if b + 6 <= nrows then 6 else if b < nrows then nrows - b else 0
  }

  /** The texts tried for a block's period: the period cells near its start,
      or when there are none the text of column 0 in the row below the start. */
  function PeriodCandidates(sheet: Sheet, b: nat): (ts: seq<string>)
    ensures ts != []
  {
    var found := BlockPeriodTexts(sheet, b, ScanRows(|sheet|, b));
    if found != [] then found else [CellText(At(sheet, b + 1, 0))]
  }

  /** The date in the first text at or after index `k` that has one. */
  function FirstDate(ts: seq<string>, k: nat): Option<YearMonth>
    requires k <= |ts|
    decreases |ts| - k
  {
    if k == |ts| then None
    else
      var d := YearMonthFromText(ts[k]);
      if d.Some? then d else FirstDate(ts, k + 1)
  }

  /** `_extract_product_yyyymm`'s answer, (0, 0) when no candidate has a date. */
  function ProductPeriod(sheet: Sheet, b: nat): YearMonth {
    match FirstDate(PeriodCandidates(sheet, b), 0)
    case Some(d) => d
    case None => YearMonth(0, 0)
  }

  /** `_extract_product_yyyymm`: collect the period cells row by row, fall
      back to the cell below the start, and return the first date found. */
  method ProductYearMonth(sheet: Sheet, b: nat) returns (ym: YearMonth)
    ensures ym == ProductPeriod(sheet, b)
  {
    var candidates: seq<string> := [];
    for r := 0 to ScanRows(|sheet|, b)
      invariant candidates == BlockPeriodTexts(sheet, b, r)
    {
      for c := 0 to 8
        invariant candidates == BlockPeriodTexts(sheet, b, r) + RowPeriodTexts(sheet, b + r, c)
      {
        var v := At(sheet, b + r, c);
        if v.Text? && Contains(v.s, PeriodMark) {
          candidates := candidates + [v.s];
        }
      }
    }
    if candidates == [] {
      candidates := [CellText(At(sheet, b + 1, 0))];
    }
    for k := 0 to |candidates|
      invariant FirstDate(candidates, 0) == FirstDate(candidates, k)
    {
      var found := YearMonthFromText(candidates[k]);
      if found.Some? {
        return found.value;
      }
    }
    return YearMonth(0, 0);
  }

  /** The first candidate with a date decides: every earlier one has none. */
  lemma {:induction false} FirstDateIsFirst(ts: seq<string>, k: nat, j: nat)
    requires k <= j < |ts| && YearMonthFromText(ts[j]).Some?
    requires forall i :: k <= i < j ==> YearMonthFromText(ts[i]).None?
    ensures FirstDate(ts, k) == YearMonthFromText(ts[j])
    decreases j - k
  {
    if k < j {
      FirstDateIsFirst(ts, k + 1, j);
    }
  }

  // ---------------------------------------------------------------------------
  // Product report: 41-row blocks
  // ---------------------------------------------------------------------------

  /** One row of the product table. */
  datatype ProductRow = ProductRow(
    period: YearMonth, code: string, name: string,
    materials: int, labour: int, overheads: int, utilities: int,
    cost: int, production: int, quantity: int)

  /** `val(offset, 7)` in the block starting at row `i`. */
  function BlockValue(sheet: Sheet, i: nat, offset: nat): int {
    ToInt(At(sheet, i + offset, 7))
  }

  /** What the block starting at row `i` contributes: nothing when its first
      cell names no product code, else one row. */
  function BlockRow(sheet: Sheet, i: nat): seq<ProductRow> {
    var cell := CellText(At(sheet, i, 0));
    var code := FoundCode(cell);
    if code == [] then []
    else
      [ProductRow(ProductPeriod(sheet, i), code, FoundName(cell),
                  BlockValue(sheet, i, 4), BlockValue(sheet, i, 9), BlockValue(sheet, i, 20),
                  BlockValue(sheet, i, 23), BlockValue(sheet, i, 31), BlockValue(sheet, i, 33),
                  BlockValue(sheet, i, 35))]
  }

  /** `for i in range(start, n, 41)`, collecting what `block` gives for each `i`. */
  function EveryFortyFirst<R>(n: nat, block: nat -> seq<R>, i: nat): seq<R>
    decreases n - i
  {
    if i >= n then [] else block(i) + EveryFortyFirst(n, block, i + 41)
  }

  /** The rows of the blocks starting at `i`, `i + 41`, ... inside the sheet. */
  function ProductRowsFrom(sheet: Sheet, i: nat): seq<ProductRow> {
    EveryFortyFirst(|sheet|, (b: nat) => BlockRow(sheet, b), i)
  }

  /** The row of one block, as the body of the loop in `extract_products`
      builds it. */
  method ProductBlock(sheet: Sheet, i: nat) returns (block: seq<ProductRow>)
    ensures block == BlockRow(sheet, i)
  {
    var cell := CellText(At(sheet, i, 0));
    var code, name := FoundCode(cell), FoundName(cell);
    if code == [] {
      return [];
    }
    var period := ProductYearMonth(sheet, i);
    block := [ProductRow(period, code, name,
                         BlockValue(sheet, i, 4), BlockValue(sheet, i, 9), BlockValue(sheet, i, 20),
                         BlockValue(sheet, i, 23), BlockValue(sheet, i, 31), BlockValue(sheet, i, 33),
                         BlockValue(sheet, i, 35))];
  }

  /** `extract_products`: walk the blocks starting at rows 1, 42, 83, ... and
      keep one row per block whose product code is present. */
  method ExtractProducts(sheet: Sheet) returns (rows: seq<ProductRow>)
    ensures rows == ProductRowsFrom(sheet, 1)
  {
    rows := [];
    var i := 1;
    while i < |sheet|
      invariant rows + ProductRowsFrom(sheet, i) == ProductRowsFrom(sheet, 1)
      decreases |sheet| - i
    {
      var found := ProductBlock(sheet, i);
      ProductRowsStep(sheet, i, rows, found);
      rows := rows + found;
      i := i + 41;
    }
  }

  /** One step of the walk: the block at `i` comes before the blocks after it. */
  lemma ProductRowsStep(sheet: Sheet, i: nat, rows: seq<ProductRow>, found: seq<ProductRow>)
    requires i < |sheet| && found == BlockRow(sheet, i)
    ensures rows + ProductRowsFrom(sheet, i) == (rows + found) + ProductRowsFrom(sheet, i + 41)
  {
    var block := (b: nat) => BlockRow(sheet, b);
    assert EveryFortyFirst(|sheet|, block, i) == block(i) + EveryFortyFirst(|sheet|, block, i + 41);
  }

  /** Whatever the walk collects comes from one block start `i + 41 k` inside
      the sheet. */
  lemma {:induction false} EveryFortyFirstMember<R>(n: nat, block: nat -> seq<R>, i: nat, x: R)
    requires x in EveryFortyFirst(n, block, i)
    ensures exists k: nat :: i + 41 * k < n && x in block(i + 41 * k)
    decreases n - i
  {
    if x in block(i) {
      assert i + 41 * 0 < n && x in block(i + 41 * 0);
    } else {
      EveryFortyFirstMember(n, block, i + 41, x);
      var k: nat :| i + 41 + 41 * k < n && x in block(i + 41 + 41 * k);
      assert i + 41 * (k + 1) == i + 41 + 41 * k;
    }
  }

  /** And every block start `i + 41 k` inside the sheet is visited. */
  lemma {:induction false} EveryFortyFirstVisits<R>(n: nat, block: nat -> seq<R>, i: nat, k: nat, x: R)
    requires i + 41 * k < n && x in block(i + 41 * k)
    ensures x in EveryFortyFirst(n, block, i)
    decreases k
  {
    if k > 0 {
      assert i + 41 + 41 * (k - 1) == i + 41 * k;
      EveryFortyFirstVisits(n, block, i + 41, k - 1, x);
    }
  }

  /** A block yields at most one row, and only when its first cell names a
      non-empty code of `[0-9A-Za-z_-]`. */
  lemma BlockRowCode(sheet: Sheet, i: nat, row: ProductRow)
    requires row in BlockRow(sheet, i)
    ensures BlockRow(sheet, i) == [row]
    ensures row.code != [] && IsCode(row.code)
  {
    ParsedCodeIsCode(CellText(At(sheet, i, 0)));
  }

  /** Every product row is the row of a block starting at `1 + 41 k` inside the
      sheet. */
  lemma ProductRowsMember(sheet: Sheet, row: ProductRow)
    requires row in ProductRowsFrom(sheet, 1)
    ensures exists k: nat :: 1 + 41 * k < |sheet| && BlockRow(sheet, 1 + 41 * k) == [row]
  {
    var block := (b: nat) => BlockRow(sheet, b);
    EveryFortyFirstMember(|sheet|, block, 1, row);
    var k: nat :| 1 + 41 * k < |sheet| && row in block(1 + 41 * k);
    BlockRowCode(sheet, 1 + 41 * k, row);
  }

  /** Every block starting at `1 + 41 k` inside the sheet whose first cell
      names a code yields its row. */
  lemma ProductRowsVisit(sheet: Sheet, k: nat, row: ProductRow)
    requires 1 + 41 * k < |sheet| && BlockRow(sheet, 1 + 41 * k) == [row]
    ensures row in ProductRowsFrom(sheet, 1)
  {
    var block := (b: nat) => BlockRow(sheet, b);
    assert row in block(1 + 41 * k);
    EveryFortyFirstVisits(|sheet|, block, 1, k, row);
  }

  /** The rows `extract_products` returns are exactly the rows of the blocks at
      `1 + 41 k` whose first cell names a code, and each carries that code. */
  lemma ProductRowsAreBlocks(sheet: Sheet, row: ProductRow)
    ensures row in ProductRowsFrom(sheet, 1) <==>
              exists k: nat :: 1 + 41 * k < |sheet| && BlockRow(sheet, 1 + 41 * k) == [row]
    ensures row in ProductRowsFrom(sheet, 1) ==> row.code != [] && IsCode(row.code)
  {
    if row in ProductRowsFrom(sheet, 1) {
      ProductRowsMember(sheet, row);
      var k: nat :| 1 + 41 * k < |sheet| && BlockRow(sheet, 1 + 41 * k) == [row];
      BlockRowCode(sheet, 1 + 41 * k, row);
    }
    if exists k: nat :: 1 + 41 * k < |sheet| && BlockRow(sheet, 1 + 41 * k) == [row] {
      var k: nat :| 1 + 41 * k < |sheet| && BlockRow(sheet, 1 + 41 * k) == [row];
      ProductRowsVisit(sheet, k, row);
    }
  }

  // ---------------------------------------------------------------------------
  // First matching row
  // ---------------------------------------------------------------------------

  /** The first index in `r..n-1` where `ok` holds. */
  function FirstWhere(n: nat, ok: nat -> bool, r: nat): Option<nat>
    requires r <= n
    decreases n - r
  {
    if r == n then None else if ok(r) then Some(r) else FirstWhere(n, ok, r + 1)
  }

  /** `FirstWhere` finds the least index where `ok` holds, and nothing when
      there is none. */
  lemma {:induction false} FirstWhereSpec(n: nat, ok: nat -> bool, r: nat)
    requires r <= n
    ensures var m := FirstWhere(n, ok, r);
            (m.Some? ==> r <= m.value < n && ok(m.value) && forall q :: r <= q < m.value ==> !ok(q))
            && (m.None? <==> forall q :: r <= q < n ==> !ok(q))
    decreases n - r
  {
    if r < n && !ok(r) {
      FirstWhereSpec(n, ok, r + 1);
    }
  }

  /** The first index where `ok` holds is the one found. */
  lemma FirstWhereAt(n: nat, ok: nat -> bool, r: nat)
    requires r < n && ok(r)
    requires forall q :: 0 <= q < r ==> !ok(q)
    ensures FirstWhere(n, ok, 0) == Some(r)
  {
    FirstWhereSpec(n, ok, 0);
  }

  /** A `pick` path: the keys looked for in columns 0, 1 and 2. */
  datatype PickPath = PickPath(key0: Option<string>, key1: Option<string>, key2: Option<string>)

  /** `_cell_str`. */
  function CellStr(c: Cell): string {
    Strip(CellText(c))
  }

  predicate KeyIn(key: Option<string>, text: string) {
    key.None? || Contains(text, key.value)
  }

  /** Row `r` has every given key in its column. */
  predicate PathMatches(sheet: Sheet, r: nat, path: PickPath) {
    KeyIn(path.key0, CellStr(At(sheet, r, 0)))
    && KeyIn(path.key1, CellStr(At(sheet, r, 1)))
    && KeyIn(path.key2, CellStr(At(sheet, r, 2)))
  }

  /** The value `pick` finds: column `col` of the first matching row, 0 if none. */
  function PickValue(sheet: Sheet, path: PickPath, col: nat): int {
    match FirstWhere(|sheet|, (r: nat) => PathMatches(sheet, r, path), 0)
    case Some(r) => ToInt(At(sheet, r, col))
    case None => 0
  }

  /** `pick`: scan the rows in order and return at the first that matches. */
  method Pick(sheet: Sheet, path: PickPath, col: nat) returns (v: int)
    ensures v == PickValue(sheet, path, col)
  {
    ghost var ok := (q: nat) => PathMatches(sheet, q, path);
    for r := 0 to |sheet|
      invariant FirstWhere(|sheet|, ok, 0) == FirstWhere(|sheet|, ok, r)
    {
      if PathMatches(sheet, r, path) {
        return ToInt(At(sheet, r, col));
      }
    }
    return 0;
  }

  /** `norm`: the cell's text with all whitespace removed. */
  function Norm(c: Cell): string {
    RemoveSpaces(CellText(c))
  }

  /** `pick_total`'s test of row `r`: column 0 holds `key0`; for a top-level
      total columns 1 and 2 are empty, for a sub-total column 1 holds `key1`
      and columns 3 and 4 are empty. */
  predicate IsTotalRow(sheet: Sheet, r: nat, key0: string, key1: Option<string>) {
    Contains(Norm(At(sheet, r, 0)), key0)
    && match key1
       case None => Norm(At(sheet, r, 1)) == [] && Norm(At(sheet, r, 2)) == []
       case Some(k) =>
         Contains(Norm(At(sheet, r, 1)), k) && Norm(At(sheet, r, 3)) == [] && Norm(At(sheet, r, 4)) == []
  }

  /** `df.empty`: no rows, or no columns. */
  predicate IsEmptyFrame(sheet: Sheet) {
    forall r :: 0 <= r < |sheet| ==> sheet[r] == []
  }

  /** The value `pick_total` finds: column H (index 7) of the first total row. */
  function TotalValue(sheet: Sheet, key0: string, key1: Option<string>): int {
    if IsEmptyFrame(sheet) then 0
    else
      match FirstWhere(|sheet|, (r: nat) => IsTotalRow(sheet, r, key0, key1), 0)
      case Some(r) => ToInt(At(sheet, r, 7))
      case None => 0
  }

  /** `pick_total`: skip rows that fail a test, return at the first total row. */
  method PickTotal(sheet: Sheet, key0: string, key1: Option<string>) returns (v: int)
    ensures v == TotalValue(sheet, key0, key1)
  {
    if IsEmptyFrame(sheet) {
      return 0;
    }
    ghost var ok := (q: nat) => IsTotalRow(sheet, q, key0, key1);
    for r := 0 to |sheet|
      invariant FirstWhere(|sheet|, ok, 0) == FirstWhere(|sheet|, ok, r)
    {
      var c0, c1, c2 := Norm(At(sheet, r, 0)), Norm(At(sheet, r, 1)), Norm(At(sheet, r, 2));
      if !Contains(c0, key0) {
        continue;
      }
      if key1.None? {
        if c1 != [] || c2 != [] {
          continue;
        }
        return ToInt(At(sheet, r, 7));
      } else {
        if !Contains(c1, key1.value) {
          continue;
        }
        var c3, c4 := Norm(At(sheet, r, 3)), Norm(At(sheet, r, 4));
        if c3 == [] && c4 == [] {
          return ToInt(At(sheet, r, 7));
        }
      }
    }
    return 0;
  }

  /** `pick` returns column `col` of the first row that matches the path. */
  lemma PickValueAt(sheet: Sheet, path: PickPath, col: nat, r: nat)
    requires r < |sheet| && PathMatches(sheet, r, path)
    requires forall q :: 0 <= q < r ==> !PathMatches(sheet, q, path)
    ensures PickValue(sheet, path, col) == ToInt(At(sheet, r, col))
  {
    var ok := (q: nat) => PathMatches(sheet, q, path);
    FirstWhereSpec(|sheet|, ok, 0);
    FirstWhereAt(|sheet|, ok, r);
  }

  /** `pick` returns 0 when no row matches the path. */
  lemma PickValueNone(sheet: Sheet, path: PickPath, col: nat)
    requires forall r :: 0 <= r < |sheet| ==> !PathMatches(sheet, r, path)
    ensures PickValue(sheet, path, col) == 0
  {
    var ok := (q: nat) => PathMatches(sheet, q, path);
    FirstWhereSpec(|sheet|, ok, 0);
    assert forall q :: 0 <= q < |sheet| ==> !ok(q);
  }

  /** `pick_total` returns column H of the first total row of a non-empty
      frame. */
  lemma TotalValueAt(sheet: Sheet, key0: string, key1: Option<string>, r: nat)
    requires r < |sheet| && IsTotalRow(sheet, r, key0, key1)
    requires forall q :: 0 <= q < r ==> !IsTotalRow(sheet, q, key0, key1)
    requires !IsEmptyFrame(sheet)
    ensures TotalValue(sheet, key0, key1) == ToInt(At(sheet, r, 7))
  {
    var ok := (q: nat) => IsTotalRow(sheet, q, key0, key1);
    FirstWhereSpec(|sheet|, ok, 0);
    FirstWhereAt(|sheet|, ok, r);
  }

  /** `pick_total` returns 0 when no row is a total row for the keys. */
  lemma TotalValueNone(sheet: Sheet, key0: string, key1: Option<string>)
    requires forall r :: 0 <= r < |sheet| ==> !IsTotalRow(sheet, r, key0, key1)
    ensures TotalValue(sheet, key0, key1) == 0
  {
    var ok := (q: nat) => IsTotalRow(sheet, q, key0, key1);
    FirstWhereSpec(|sheet|, ok, 0);
    assert forall q :: 0 <= q < |sheet| ==> !ok(q);
  }

  // ---------------------------------------------------------------------------
  // Monthly records
  // ---------------------------------------------------------------------------

  /** A row of `DB.csv` before it is written: column name to value. */
  type Record = map<string, int>

  /** A dict literal `{name: value(arg), ...}` built from a table of entries;
      a later entry overrides an earlier one of the same name. */
  function Entries<T>(table: seq<(string, T)>, value: T -> int, n: nat): Record
    requires n <= |table|
  {
    if n == 0 then map[] else Entries(table, value, n - 1)[table[n - 1].0 := value(table[n - 1].1)]
  }

  function Names<T>(table: seq<(string, T)>): set<string> {
    set i | 0 <= i < |table| :: table[i].0
  }

  predicate DistinctNames<T>(table: seq<(string, T)>) {
    forall i, j :: 0 <= i < j < |table| ==> table[i].0 != table[j].0
  }

  /** The dict holds exactly the table's names, and with distinct names each
      one is bound to the value of its own entry. */
  lemma {:induction false} EntriesSpec<T>(table: seq<(string, T)>, value: T -> int, n: nat)
    requires n <= |table| && DistinctNames(table)
    ensures Entries(table, value, n).Keys == Names(table[..n])
    ensures forall i :: 0 <= i < n ==> Entries(table, value, n)[table[i].0] == value(table[i].1)
  {
    if n > 0 {
      EntriesSpec(table, value, n - 1);
      assert table[..n] == table[..n - 1] + [table[n - 1]];
      assert Names(table[..n]) == Names(table[..n - 1]) + {table[n - 1].0} by {
        forall x | x in Names(table[..n])
          ensures x in Names(table[..n - 1]) + {table[n - 1].0}
        {
          var i :| 0 <= i < n && table[..n][i].0 == x;
          if i < n - 1 {
            assert table[..n - 1][i] == table[i];
          }
        }
        forall x | x in Names(table[..n - 1]) + {table[n - 1].0}
          ensures x in Names(table[..n])
        {
          if x != table[n - 1].0 {
            var i :| 0 <= i < n - 1 && table[..n - 1][i].0 == x;
            assert table[..n][i] == table[..n - 1][i];
          } else {
            assert table[..n][n - 1] == table[n - 1];
          }
        }
      }
    }
  }

  /** The period printed in the header cell (row 2, column 3), (0, 0) if none. */
  function HeaderPeriod(sheet: Sheet): YearMonth {
    match YearMonthFromText(CellText(At(sheet, 2, 3)))
    case Some(ym) => ym
    case None => YearMonth(0, 0)
  }

  const YearKey := "년"
  const MonthKey := "월"

  /** The thirteen figures `extract_factory_monthly` picks, with their paths. */
  const FactoryPicks: seq<(string, PickPath)> := [
    ("재료비_합계", PickPath(Some("재료비"), Some("합계"), None)),
    ("재료비_원재료비", PickPath(None, Some("원재료비"), None)),
    ("재료비_부재료비", PickPath(None, Some("부재료비"), None)),
    ("노무비_합계", PickPath(Some("노무비"), Some("합계"), None)),
    ("노무비_직접비_합계", PickPath(None, Some("직접비"), Some("합계"))),
    ("노무비_간접비_합계", PickPath(None, Some("간접비"), Some("합계"))),
    ("제조경비_합계", PickPath(Some("제조경비"), Some("합계"), None)),
    ("제조경비_유틸리티_합계", PickPath(None, Some("유틸리티"), Some("합계"))),
    ("제조경비_감가상각_합계", PickPath(None, Some("감가상각"), Some("합계"))),
    ("제조이익", PickPath(Some("제조이익"), None, None)),
    ("생산금액", PickPath(Some("생산금액"), None, None)),
    ("생산량(KG)", PickPath(Some("생산량(KG)"), None, None)),
    ("생산량(EA)", PickPath(Some("생산량(EA)"), None, None))
  ]

  /** `extract_factory_monthly`: the header period and the thirteen figures,
      each read from column 9. */
  function FactoryMonthly(sheet: Sheet): (rec: Record)
    ensures YearKey in rec && MonthKey in rec
  {
    var ym := HeaderPeriod(sheet);
    map[YearKey := ym.year as int, MonthKey := ym.month as int]
      + Entries(FactoryPicks, (path: PickPath) => PickValue(sheet, path, 9), |FactoryPicks|)
  }

  /** The four KPIs `extract_cost_statement_monthly` reads from column H:
      name, the key of column 0 and the key of column 1. */
  const CostKpis: seq<(string, (string, Option<string>))> := [
    ("KPI_노무비", ("2.노무비", None)),
    ("KPI_경비", ("3.경비", None)),
    ("KPI_경비_수도광열비", ("3.경비", Some("1)수도광열비"))),
    ("KPI_경비_감가상각비", ("3.경비", Some("4)감가상각비")))
  ]

  /** `extract_cost_statement_monthly`: the four KPI totals, and no period. */
  function CostStatementKpis(sheet: Sheet): Record {
    Entries(CostKpis, (keys: (string, Option<string>)) => TotalValue(sheet, keys.0, keys.1), |CostKpis|)
  }

  /** No two figures share a name, and none is named 년 or 월. */
  lemma FactoryPicksNames()
    ensures DistinctNames(FactoryPicks)
    ensures YearKey !in Names(FactoryPicks) && MonthKey !in Names(FactoryPicks)
  {
  }

  /** The factory record carries the header period under 년/월 and, under each
      figure's name, what `pick` finds for that figure's path in column 9. */
  lemma FactoryMonthlySpec(sheet: Sheet)
    ensures FactoryMonthly(sheet).Keys == {YearKey, MonthKey} + Names(FactoryPicks)
    ensures FactoryMonthly(sheet)[YearKey] == HeaderPeriod(sheet).year
    ensures FactoryMonthly(sheet)[MonthKey] == HeaderPeriod(sheet).month
    ensures forall i :: 0 <= i < |FactoryPicks| ==>
              FactoryMonthly(sheet)[FactoryPicks[i].0] == PickValue(sheet, FactoryPicks[i].1, 9)
  {
    var value := (path: PickPath) => PickValue(sheet, path, 9);
    FactoryPicksNames();
    EntriesSpec(FactoryPicks, value, |FactoryPicks|);
    assert FactoryPicks[..|FactoryPicks|] == FactoryPicks;
  }

  /** The KPI record holds exactly the four KPI names, each bound to what
      `pick_total` finds for its keys in column H. */
  lemma CostStatementKpisSpec(sheet: Sheet)
    ensures CostStatementKpis(sheet).Keys == Names(CostKpis)
    ensures forall i :: 0 <= i < |CostKpis| ==>
              CostStatementKpis(sheet)[CostKpis[i].0] == TotalValue(sheet, CostKpis[i].1.0, CostKpis[i].1.1)
  {
    var value := (keys: (string, Option<string>)) => TotalValue(sheet, keys.0, keys.1);
    assert DistinctNames(CostKpis);
    EntriesSpec(CostKpis, value, |CostKpis|);
    assert CostKpis[..|CostKpis|] == CostKpis;
  }
}
