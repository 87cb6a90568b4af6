/**
 * Stage 2, the aggregator (analysis): reads the canonical CSV written by the
 * normaliser, keeps the rows of one year, and folds the chosen station's
 * rain and temperature into twelve month buckets, then writes a 12-row
 * summary.
 */
module Analysis {
  import opened Wrappers
  import opened Fields

  // ---------------------------------------------------------------------
  // split_csv

  /** split_csv: cut at every `,`, keeping empty pieces. */
  method SplitCsv(s: string) returns (v: seq<string>)
    ensures v == Split(s, ',')
    ensures |v| == Count(s, ',') + 1
    ensures NoneContains(v, ',')
    ensures Join(v, ',') == s
  {
    v := [];
    var current := "";
    for i := 0 to |s|
      invariant v + [current] == Split(s[..i], ',')
    {
      assert s[..i + 1] == s[..i] + [s[i]];
      SplitSnoc(s[..i], s[i], ',');
      if s[i] == ',' {
        v := v + [current];
        current := "";
      } else {
        current := current + [s[i]];
      }
    }
    v := v + [current];
    assert s[..|s|] == s;
    SplitCount(s, ',');
    SplitPiecesFree(s, ',');
    JoinSplit(s, ',');
  }

  // ---------------------------------------------------------------------
  // std::stoi, as the aggregator uses it on the year argument and on the
  // year and month of each date

  const IntMin: int := -0x8000_0000
  const IntMax: int := 0x7FFF_FFFF

  /** The characters isspace accepts in the C locale. */
  predicate IsSpace(c: char)
  {
    c == ' ' || c == '\t' || c == '\n' || c == '\r' || c == '\U{000B}' || c == '\U{000C}'
  }

  /** The index of the first non-space character at or after `i`. */
  function SpaceEnd(s: string, i: nat): (r: nat)
    requires i <= |s|
    ensures i <= r <= |s|
    ensures forall p :: i <= p < r ==> IsSpace(s[p])
    ensures r < |s| ==> !IsSpace(s[r])
    decreases |s| - i
  {
    if i < |s| && IsSpace(s[i]) then SpaceEnd(s, i + 1) else i
  }

  /** The end of the run of digits that starts at `i`. */
  function DigitEnd(s: string, i: nat): (r: nat)
    requires i <= |s|
    ensures i <= r <= |s|
    ensures forall p :: i <= p < r ==> IsDigit(s[p])
    ensures r < |s| ==> !IsDigit(s[r])
    decreases |s| - i
  {
    if i < |s| && IsDigit(s[i]) then DigitEnd(s, i + 1) else i
  }

  /** The value of one decimal digit. */
  function DigitValue(c: char): nat
    requires IsDigit(c)
  {
    c as int - '0' as int
  }

  /** The decimal value of the digits `s[i..j]`. */
  function DigitsValue(s: string, i: nat, j: nat): nat
    requires i <= j <= |s|
    requires forall p :: i <= p < j ==> IsDigit(s[p])
    decreases j - i
  {
    if j == i then 0
    else 10 * DigitsValue(s, i, j - 1) + DigitValue(s[j - 1])
  }

  /**
   * std::stoi: skip leading white space, read an optional sign and the
   * longest run of digits after it. None stands for the exception stoi
   * throws: no digit at all, or a value outside the 32-bit int range.
   * Anything after the digits is ignored.
   */
  function Stoi(s: string): (r: Option<int>)
    ensures r.Some? ==> IntMin <= r.value <= IntMax
  {
    var i := SpaceEnd(s, 0);
    var signed := i < |s| && (s[i] == '+' || s[i] == '-');
    var j := if signed then i + 1 else i;
    var k := DigitEnd(s, j);
    if k == j then None
    else
      var magnitude: int := DigitsValue(s, j, k);
      var v := if signed && s[i] == '-' then -magnitude else magnitude;
      if IntMin <= v <= IntMax then Some(v) else None
  }

  /** 10 to the power `n`. */
  function Pow10(n: nat): (r: nat)
    ensures r >= 1
  {
    if n == 0 then 1 else 10 * Pow10(n - 1)
  }

  /** A run of `j - i` digits is worth less than 10 to the power `j - i`. */
  lemma {:induction false} DigitsValueBound(s: string, i: nat, j: nat)
    requires i <= j <= |s|
    requires forall p :: i <= p < j ==> IsDigit(s[p])
    ensures DigitsValue(s, i, j) < Pow10(j - i)
    decreases j - i
  {
    if j > i {
      DigitsValueBound(s, i, j - 1);
    }
  }

  /** A string of one to nine digits and nothing else parses to its decimal value. */
  lemma StoiOfDigits(s: string)
    requires 1 <= |s| <= 9
    requires forall p :: 0 <= p < |s| ==> IsDigit(s[p])
    ensures Stoi(s) == Some(DigitsValue(s, 0, |s|))
  {
    assert SpaceEnd(s, 0) == 0 by {
      assert !IsSpace(s[0]);
    }
    DigitEndAll(s, 0);
    DigitsValueBound(s, 0, |s|);
    Pow10Grows(|s|, 9);
    assert Pow10(9) == 1_000_000_000;
  }

  /** Powers of ten grow with the exponent. */
  lemma {:induction false} Pow10Grows(m: nat, n: nat)
    requires m <= n
    ensures Pow10(m) <= Pow10(n)
    decreases n - m
  {
    if m < n {
      Pow10Grows(m, n - 1);
    }
  }

  /** Over a string that is digits from `i` on, the digit run reaches the end. */
  lemma {:induction false} DigitEndAll(s: string, i: nat)
    requires i <= |s|
    requires forall p :: i <= p < |s| ==> IsDigit(s[p])
    ensures DigitEnd(s, i) == |s|
    decreases |s| - i
  {
    if i < |s| {
      DigitEndAll(s, i + 1);
    }
  }

  /** A year as written in a canonical date parses to its value. */
  lemma StoiYear()
    ensures Stoi("1961") == Some(1961)
  {
    StoiOfDigits("1961");
  }

  /** stoi stops at the first character that is not a digit. */
  lemma StoiStopsAtNonDigit()
    ensures Stoi("19a1") == Some(19)
  {
    assert DigitEnd("19a1", 2) == 2;
  }

  /** stoi throws on text with no digit after the blanks and the sign. */
  lemma StoiRejectsText()
    ensures Stoi("year") == None
    ensures Stoi(" -") == None
    ensures Stoi("") == None
  {
  }

  // ---------------------------------------------------------------------
  // Station and column selection

  datatype Station = A | B

  /** The first character of the station argument; only 'A' selects A. */
  function StationOf(arg: string): (st: Station)
    ensures st == A <==> |arg| > 0 && arg[0] == 'A'
  {
    if |arg| > 0 && arg[0] == 'A' then A else B
  }

  /** The column of the station's rain reading. */
  function RainColumn(st: Station): (c: nat)
    ensures c == 1 <==> st.A?
    ensures c == 3 <==> st.B?
  {
    if st == A then 1 else 3
  }

  /** The column of the station's temperature reading. */
  function TempColumn(st: Station): (c: nat)
    ensures c == RainColumn(st) + 1
  {
    if st == A then 2 else 4
  }

  /**
   * Station A reads columns 1 and 2; any other first character, and an
   * empty argument, reads columns 3 and 4. Temperature is always the column
   * right after rain, and both lie within the five columns a kept row has.
   */
  lemma StationColumns(arg: string)
    ensures var st := StationOf(arg);
      && (RainColumn(st) == 1 <==> |arg| > 0 && arg[0] == 'A')
      && (RainColumn(st) == 3 <==> !(|arg| > 0 && arg[0] == 'A'))
      && TempColumn(st) == RainColumn(st) + 1
      && 1 <= RainColumn(st) && TempColumn(st) <= 4
  {
  }

  // ---------------------------------------------------------------------
  // One row of the read loop

  /** What a kept row contributes to its month. */
  datatype Reading = Reading(rain: real, temp: Option<real>)

  /** The loop's verdict on a row: skipped, fatal (an uncaught exception), or counted. */
  datatype Effect = Skip | Abort | Observe(month: int, reading: Reading)

  /** The year and station the run was asked for. */
  datatype Selection = Selection(year: int, station: Station)

  /** A rain field: empty is 0.0, otherwise stod (None: it throws). */
  function ReadRain(field: string, parse: string -> Option<real>): (r: Option<real>)
    ensures field == "" ==> r == Some(0.0)
    ensures field != "" ==> r == parse(field)
  {
    if field == "" then Some(0.0) else parse(field)
  }

  /**
   * A temperature field: empty is "no reading" (the NaN of the source),
   * otherwise stod (outer None: it throws).
   */
  function ReadTemp(field: string, parse: string -> Option<real>): (r: Option<Option<real>>)
    ensures field == "" ==> r == Some(None)
    ensures field != "" ==> (r.None? <==> parse(field).None?)
    ensures field != "" && r.Some? ==> r.value == Some(parse(field).value)
  {
    if field == "" then Some(None)
    else match parse(field)
      case None => None
      case Some(t) => Some(Some(t))
  }

  /** The body of the read loop, as a verdict on one line. */
  function Classify(line: string, sel: Selection, parse: string -> Option<real>): (e: Effect)
    ensures e.Observe? ==> 1 <= e.month <= 12
  {
    if line == "" then Skip
    else
      var cols := Split(line, ',');
      if |cols| < 5 then Skip
      else
        var date := cols[0];
        if |date| < 10 then Skip
        else match Stoi(date[..4])
          case None => Abort
          case Some(y) =>
            if y != sel.year then Skip
            else match Stoi(date[5..7])
              case None => Abort
              case Some(m) =>
                if m < 1 || m > 12 then Skip
                else
                  var rain := ReadRain(cols[RainColumn(sel.station)], parse);
                  var temp := ReadTemp(cols[TempColumn(sel.station)], parse);
                  if rain.None? || temp.None? then Abort
                  else Observe(m, Reading(rain.value, temp.value))
  }

  /**
   * One pass of the read loop: split the row, check the date, the year and
   * the month, and read the station's two fields.
   */
  method ReadRow(line: string, sel: Selection, parse: string -> Option<real>) returns (e: Effect)
    ensures e == Classify(line, sel, parse)
  {
    if line == "" {
      return Skip;
    }
    var cols := SplitCsv(line);
    if |cols| < 5 {
      return Skip;
    }
    var date := cols[0];
    if |date| < 10 {
      return Skip;
    }
    var y := Stoi(date[..4]);
    if y.None? {
      return Abort;
    }
    if y.value != sel.year {
      return Skip;
    }
    var m := Stoi(date[5..7]);
    if m.None? {
      return Abort;
    }
    if m.value < 1 || m.value > 12 {
      return Skip;
    }
    var rain := ReadRain(cols[RainColumn(sel.station)], parse);
    var temp := ReadTemp(cols[TempColumn(sel.station)], parse);
    if rain.None? || temp.None? {
      return Abort;
    }
    return Observe(m.value, Reading(rain.value, temp.value));
  }

  // ---------------------------------------------------------------------
  // The month buckets

  /** The starting maximum and minimum of every month (-1e300 and 1e300). */
  const TMaxStart: real := -1e300
  const TMinStart: real := 1e300

  /** std::max: the first argument unless it is less than the second. */
  function Max(a: real, b: real): (r: real)
    ensures r >= a && r >= b && (r == a || r == b)
  {
    if a < b then b else a
  }

  /** std::min: the first argument unless the second is less. */
  function Min(a: real, b: real): (r: real)
    ensures r <= a && r <= b && (r == a || r == b)
  {
    if b < a then b else a
  }

  /** One month of the table: the five arrays of main at one index. */
  datatype Bucket = Bucket(rainSum: real, rainyDays: nat, tmax: real, tmin: real, seen: bool)

  /** A month before any row is read. */
  const Fresh: Bucket := Bucket(0.0, 0, TMaxStart, TMinStart, false)

  /** The twelve months before any row is read; month m is at index m - 1. */
  function InitialTable(): (t: seq<Bucket>)
    ensures |t| == 12 && forall k :: 0 <= k < 12 ==> t[k] == Fresh
  {
    seq(12, _ => Fresh)
  }

  /**
   * A counted row folded into its month: rain adds its positive part and
   * counts a rainy day exactly when it is above zero; a temperature, when
   * there is one, widens the extremes to include it and marks the month seen.
   */
  function Absorb(b: Bucket, rd: Reading): (r: Bucket)
    ensures r.rainSum >= b.rainSum
    ensures rd.rain > 0.0 ==> r.rainSum == b.rainSum + rd.rain && r.rainyDays == b.rainyDays + 1
    ensures rd.rain <= 0.0 ==> r.rainSum == b.rainSum && r.rainyDays == b.rainyDays
    ensures rd.temp.None? ==> r.tmax == b.tmax && r.tmin == b.tmin && r.seen == b.seen
    ensures rd.temp.Some? ==>
      && r.seen
      && r.tmin <= rd.temp.value <= r.tmax
      && b.tmax <= r.tmax && r.tmin <= b.tmin
      && (r.tmax == b.tmax || r.tmax == rd.temp.value)
      && (r.tmin == b.tmin || r.tmin == rd.temp.value)
  {
    var rainSum := b.rainSum + Max(0.0, rd.rain);
    var rainyDays := if rd.rain > 0.0 then b.rainyDays + 1 else b.rainyDays;
    match rd.temp
    case None => Bucket(rainSum, rainyDays, b.tmax, b.tmin, b.seen)
    case Some(t) => Bucket(rainSum, rainyDays, Max(b.tmax, t), Min(b.tmin, t), true)
  }

  /** The table after one more row, or None once a row has aborted the run. */
  function Step(t: Option<seq<Bucket>>, e: Effect): (r: Option<seq<Bucket>>)
    requires t.Some? ==> |t.value| == 12
    requires e.Observe? ==> 1 <= e.month <= 12
    ensures r.Some? ==> |r.value| == 12
  {
    match t
    case None => None
    case Some(table) =>
      match e
      case Skip => t
      case Abort => None
      case Observe(m, rd) => Some(table[m - 1 := Absorb(table[m - 1], rd)])
  }

  /** The read loop over the rows after the header. */
  function Fold(rows: seq<string>, sel: Selection, parse: string -> Option<real>): (r: Option<seq<Bucket>>)
    ensures r.Some? ==> |r.value| == 12
  {
    if |rows| == 0 then Some(InitialTable())
    else Step(Fold(rows[..|rows| - 1], sel, parse), Classify(rows[|rows| - 1], sel, parse))
  }

  /** The zero-fill loop on one month: a month never seen reports 0 for both extremes. */
  function Settle(b: Bucket): (r: Bucket)
    ensures b.seen ==> r == b
    ensures !b.seen ==> r.tmax == 0.0 && r.tmin == 0.0
    ensures r.rainSum == b.rainSum && r.rainyDays == b.rainyDays && r.seen == b.seen
  {
    if b.seen then b else b.(tmax := 0.0, tmin := 0.0)
  }

  /** The zero-fill loop over the twelve months. */
  function Finalize(t: seq<Bucket>): (r: seq<Bucket>)
    requires |t| == 12
    ensures |r| == 12 && forall k :: 0 <= k < 12 ==> r[k] == Settle(t[k])
  {
    seq(12, k requires 0 <= k < 12 => Settle(t[k]))
  }

  /** One output line, as numbers: month, total rain, max, min, rainy days. */
  datatype SummaryRow = SummaryRow(month: int, totalRain: real, tmax: real, tmin: real, rainyDays: nat)

  const SummaryHeader: string := "month,total_rain_mm,monthly_tmax_C,monthly_tmin_C,rainy_days"

  /** The output loop: one row per month, months 1 to 12 in order. */
  function Summary(t: seq<Bucket>): (rows: seq<SummaryRow>)
    requires |t| == 12
    ensures |rows| == 12
    ensures forall k :: 0 <= k < 12 ==>
      rows[k] == SummaryRow(k + 1, t[k].rainSum, t[k].tmax, t[k].tmin, t[k].rainyDays)
  {
    seq(12, k requires 0 <= k < 12 => SummaryRow(k + 1, t[k].rainSum, t[k].tmax, t[k].tmin, t[k].rainyDays))
  }

  // ---------------------------------------------------------------------
  // main

  /** How a run ends. Aborted is an uncaught exception from stoi or stod. */
  datatype Outcome =
    | UsageError
    | Aborted
    | InputUnopenable
    | EmptyInput
    | OutputUnopenable
    | Written(header: string, rows: seq<SummaryRow>)

  /** The status main returns; an aborted run returns none. */
  function ExitCode(o: Outcome): (r: Option<int>)
    ensures r.None? <==> o.Aborted?
    ensures r == Some(0) <==> o.Written?
    ensures r.Some? ==> 0 <= r.value <= 4
  {
    match o
    case UsageError => Some(1)
    case InputUnopenable => Some(2)
    case EmptyInput => Some(3)
    case OutputUnopenable => Some(4)
    case Written(_, _) => Some(0)
    case Aborted => None
  }

  /** Each way a run can end has its own status: equal statuses mean the same kind of end. */
  lemma ExitCodesDistinct(o1: Outcome, o2: Outcome)
    requires ExitCode(o1) == ExitCode(o2)
    ensures o1.UsageError? == o2.UsageError? && o1.InputUnopenable? == o2.InputUnopenable?
    ensures o1.EmptyInput? == o2.EmptyInput? && o1.OutputUnopenable? == o2.OutputUnopenable?
    ensures o1.Written? == o2.Written? && o1.Aborted? == o2.Aborted?
  {
  }


  /**
   * The outcome of main. `args` is argv (program name first), `input` the
   * lines of the input file (None: it cannot be opened), `outputWritable`
   * whether the output file can be opened, `parse` is std::stod.
   */
  function Expected(args: seq<string>, input: Option<seq<string>>, outputWritable: bool,
                    parse: string -> Option<real>): (o: Outcome)
    ensures o.Written? ==> |args| >= 5 && input.Some? && |input.value| >= 1 && outputWritable
    ensures o.Written? ==> o.header == SummaryHeader && |o.rows| == 12
    ensures o.Written? ==> forall k :: 0 <= k < 12 ==> o.rows[k].month == k + 1
  {
    if |args| < 5 then UsageError
    else match Stoi(args[2])
      case None => Aborted
      case Some(year) =>
        var sel := Selection(year, StationOf(args[3]));
        match input
        case None => InputUnopenable
        case Some(lines) =>
          if |lines| == 0 then EmptyInput
          else match Fold(lines[1..], sel, parse)
            case None => Aborted
            case Some(t) =>
              if !outputWritable then OutputUnopenable
              else Written(SummaryHeader, Summary(Finalize(t)))
  }

  /** The five arrays of main: 13 slots each (slot 0 unused), the real ones distinct. */
  predicate Shaped(rainSum: array<real>, rainyDays: array<nat>, tmax: array<real>, tmin: array<real>, seen: array<bool>)
  {
    && rainSum.Length == 13 && rainyDays.Length == 13 && tmax.Length == 13
    && tmin.Length == 13 && seen.Length == 13
    && rainSum != tmax && rainSum != tmin && tmax != tmin
  }

  /** The table the five arrays hold, month m at index m - 1. */
  ghost function Snapshot(rainSum: array<real>, rainyDays: array<nat>, tmax: array<real>, tmin: array<real>,
                          seen: array<bool>): (t: seq<Bucket>)
    requires Shaped(rainSum, rainyDays, tmax, tmin, seen)
    reads rainSum, rainyDays, tmax, tmin, seen
    ensures |t| == 12
    ensures forall k :: 0 <= k < 12 ==>
      t[k] == Bucket(rainSum[k + 1], rainyDays[k + 1], tmax[k + 1], tmin[k + 1], seen[k + 1])
  {
    seq(12, k requires 0 <= k < 12 reads rainSum, rainyDays, tmax, tmin, seen =>
      Bucket(rainSum[k + 1], rainyDays[k + 1], tmax[k + 1], tmin[k + 1], seen[k + 1]))
  }

  /** The update of the read loop for a counted row of month `m`. */
  method AbsorbAt(m: int, rd: Reading,
                  rainSum: array<real>, rainyDays: array<nat>, tmax: array<real>, tmin: array<real>, seen: array<bool>)
    requires 1 <= m <= 12
    requires Shaped(rainSum, rainyDays, tmax, tmin, seen)
    modifies rainSum, rainyDays, tmax, tmin, seen
    ensures Snapshot(rainSum, rainyDays, tmax, tmin, seen) ==
      old(Snapshot(rainSum, rainyDays, tmax, tmin, seen))[m - 1 := Absorb(old(Snapshot(rainSum, rainyDays, tmax, tmin, seen))[m - 1], rd)]
  {
    ghost var before := Snapshot(rainSum, rainyDays, tmax, tmin, seen);
    if rd.rain > 0.0 {
      rainyDays[m] := rainyDays[m] + 1;
    }
    rainSum[m] := rainSum[m] + Max(0.0, rd.rain);
    if rd.temp.Some? {
      tmax[m] := Max(tmax[m], rd.temp.value);
      tmin[m] := Min(tmin[m], rd.temp.value);
      seen[m] := true;
    }
    ghost var after := Snapshot(rainSum, rainyDays, tmax, tmin, seen);
    assert after == before[m - 1 := Absorb(before[m - 1], rd)];
  }

  /** Reading one more row is one more Step. */
  lemma FoldSnoc(rows: seq<string>, i: nat, sel: Selection, parse: string -> Option<real>)
    requires i < |rows|
    ensures Fold(rows[..i + 1], sel, parse) == Step(Fold(rows[..i], sel, parse), Classify(rows[i], sel, parse))
  {
    assert rows[..i + 1][..i] == rows[..i];
  }

  /** Once a row has aborted the run, no later row brings it back. */
  lemma {:induction false} FoldAbortSticky(rows: seq<string>, i: nat, sel: Selection, parse: string -> Option<real>)
    requires i <= |rows| && Fold(rows[..i], sel, parse).None?
    ensures Fold(rows, sel, parse).None?
  {
    if i == |rows| {
      assert rows[..i] == rows;
    } else {
      var front := rows[..|rows| - 1];
      assert front[..i] == rows[..i];
      FoldAbortSticky(front, i, sel, parse);
    }
  }

  /** The read loop of main, on the five arrays. False: a row aborted the run. */
  method Accumulate(rows: seq<string>, sel: Selection, parse: string -> Option<real>,
                    rainSum: array<real>, rainyDays: array<nat>, tmax: array<real>, tmin: array<real>, seen: array<bool>)
    returns (ok: bool)
    requires Shaped(rainSum, rainyDays, tmax, tmin, seen)
    requires Snapshot(rainSum, rainyDays, tmax, tmin, seen) == InitialTable()
    modifies rainSum, rainyDays, tmax, tmin, seen
    ensures ok <==> Fold(rows, sel, parse).Some?
    ensures ok ==> Fold(rows, sel, parse) == Some(Snapshot(rainSum, rainyDays, tmax, tmin, seen))
  {
    for i := 0 to |rows|
      invariant Fold(rows[..i], sel, parse) == Some(Snapshot(rainSum, rainyDays, tmax, tmin, seen))
    {
      FoldSnoc(rows, i, sel, parse);
      var counted := Consume(rows[i], sel, parse, rainSum, rainyDays, tmax, tmin, seen);
      if !counted {
        FoldAbortSticky(rows, i + 1, sel, parse);
        return false;
      }
    }
    assert rows[..|rows|] == rows;
    return true;
  }

  /** One pass of the read loop: a row read and folded into the arrays, or false when it aborts. */
  method Consume(line: string, sel: Selection, parse: string -> Option<real>,
                 rainSum: array<real>, rainyDays: array<nat>, tmax: array<real>, tmin: array<real>, seen: array<bool>)
    returns (ok: bool)
    requires Shaped(rainSum, rainyDays, tmax, tmin, seen)
    modifies rainSum, rainyDays, tmax, tmin, seen
    ensures ok <==> Classify(line, sel, parse) != Abort
    ensures ok ==> Step(Some(old(Snapshot(rainSum, rainyDays, tmax, tmin, seen))), Classify(line, sel, parse))
                   == Some(Snapshot(rainSum, rainyDays, tmax, tmin, seen))
  {
    var e := ReadRow(line, sel, parse);
    match e
    case Skip => ok := true;
    case Abort => ok := false;
    case Observe(m, rd) =>
      AbsorbAt(m, rd, rainSum, rainyDays, tmax, tmin, seen);
      ok := true;
  }

  /** The zero-fill loop: months never seen get 0 for both extremes. */
  method ZeroFill(rainSum: array<real>, rainyDays: array<nat>, tmax: array<real>, tmin: array<real>, seen: array<bool>)
    requires Shaped(rainSum, rainyDays, tmax, tmin, seen)
    modifies tmax, tmin
    ensures Snapshot(rainSum, rainyDays, tmax, tmin, seen) == Finalize(old(Snapshot(rainSum, rainyDays, tmax, tmin, seen)))
  {
    ghost var before := Snapshot(rainSum, rainyDays, tmax, tmin, seen);
    for m := 1 to 13
      invariant forall k :: 1 <= k < 13 ==>
        tmax[k] == (if k < m then Settle(before[k - 1]).tmax else before[k - 1].tmax)
      invariant forall k :: 1 <= k < 13 ==>
        tmin[k] == (if k < m then Settle(before[k - 1]).tmin else before[k - 1].tmin)
    {
      if !seen[m] {
        tmax[m] := 0.0;
        tmin[m] := 0.0;
      }
    }
    assert Snapshot(rainSum, rainyDays, tmax, tmin, seen) == Finalize(before);
  }

  /** The output loop: one row per month, 1 to 12. */
  method Emit(rainSum: array<real>, rainyDays: array<nat>, tmax: array<real>, tmin: array<real>, seen: array<bool>)
    returns (rows: seq<SummaryRow>)
    requires Shaped(rainSum, rainyDays, tmax, tmin, seen)
    ensures rows == Summary(Snapshot(rainSum, rainyDays, tmax, tmin, seen))
  {
    rows := [];
    for m := 1 to 13
      invariant |rows| == m - 1
      invariant forall k :: 0 <= k < m - 1 ==>
        rows[k] == SummaryRow(k + 1, rainSum[k + 1], tmax[k + 1], tmin[k + 1], rainyDays[k + 1])
    {
      rows := rows + [SummaryRow(m, rainSum[m], tmax[m], tmin[m], rainyDays[m])];
    }
  }

  /**
   * The arrays of main before the read loop: rain sums, rainy days and seen
   * flags zeroed, maxima at -1e300 and minima at 1e300 for months 1 to 12.
   */
  method NewTable() returns (rainSum: array<real>, rainyDays: array<nat>, tmax: array<real>, tmin: array<real>,
                             seen: array<bool>)
    ensures fresh(rainSum) && fresh(rainyDays) && fresh(tmax) && fresh(tmin) && fresh(seen)
    ensures Shaped(rainSum, rainyDays, tmax, tmin, seen)
    ensures Snapshot(rainSum, rainyDays, tmax, tmin, seen) == InitialTable()
  {
    rainSum := new real[13](_ => 0.0);
    rainyDays := new nat[13](_ => 0);
    tmax := MonthArray(TMaxStart);
    tmin := MonthArray(TMinStart);
    seen := new bool[13](_ => false);
    ghost var t := Snapshot(rainSum, rainyDays, tmax, tmin, seen);
    assert forall k :: 0 <= k < 12 ==> t[k] == InitialTable()[k];
  }

  /** A month array of main whose months 1 to 12 are set to `v` by a loop. */
  method MonthArray(v: real) returns (a: array<real>)
    ensures fresh(a) && a.Length == 13
    ensures forall k :: 1 <= k < 13 ==> a[k] == v
  {
    a := new real[13](_ => 0.0);
    for m := 1 to 13
      invariant forall k :: 1 <= k < m ==> a[k] == v
    {
      a[m] := v;
    }
  }

  /**
   * main: check the arguments, read the year (stoi) and the station, open
   * the input, skip its header, fold the rows into the month arrays,
   * zero-fill unseen months and write the header and twelve rows.
   */
  method Run(args: seq<string>, input: Option<seq<string>>, outputWritable: bool,
             parse: string -> Option<real>) returns (o: Outcome)
    ensures o == Expected(args, input, outputWritable, parse)
  {
    if |args| < 5 {
      return UsageError;
    }
    var year := Stoi(args[2]);
    if year.None? {
      return Aborted;
    }
    var sel := Selection(year.value, StationOf(args[3]));
    if input.None? {
      return InputUnopenable;
    }
    var rainSum, rainyDays, tmax, tmin, seen := NewTable();
    var lines := input.value;
    if |lines| == 0 {
      return EmptyInput;
    }
    var ok := Accumulate(lines[1..], sel, parse, rainSum, rainyDays, tmax, tmin, seen);
    if !ok {
      return Aborted;
    }
    ZeroFill(rainSum, rainyDays, tmax, tmin, seen);
    if !outputWritable {
      return OutputUnopenable;
    }
    var rows := Emit(rainSum, rainyDays, tmax, tmin, seen);
    return Written(SummaryHeader, rows);
  }

  // ---------------------------------------------------------------------
  // Properties of the read loop

  /**
   * Rows the loop skips leave every month as it was: an empty row, fewer
   * than five fields, a date shorter than ten characters, another year, or
   * a month outside 1 to 12.
   */
  lemma SkippedRowLeavesTable(rows: seq<string>, line: string, sel: Selection, parse: string -> Option<real>)
    requires var cols := Split(line, ',');
      || line == ""
      || |cols| < 5
      || |cols[0]| < 10
      || (Stoi(cols[0][..4]).Some? && Stoi(cols[0][..4]).value != sel.year)
      || (Stoi(cols[0][..4]) == Some(sel.year) && Stoi(cols[0][5..7]).Some? &&
          (Stoi(cols[0][5..7]).value < 1 || Stoi(cols[0][5..7]).value > 12))
    ensures Classify(line, sel, parse) == Skip
    ensures Fold(rows + [line], sel, parse) == Fold(rows, sel, parse)
  {
    assert (rows + [line])[..|rows|] == rows;
  }

  /** A counted row changes its own month, by Absorb, and none of the other eleven. */
  lemma CountedRowTouchesOwnMonth(rows: seq<string>, line: string, sel: Selection, parse: string -> Option<real>)
    requires Classify(line, sel, parse).Observe?
    requires Fold(rows, sel, parse).Some?
    ensures var e := Classify(line, sel, parse);
      var before := Fold(rows, sel, parse).value;
      && Fold(rows + [line], sel, parse).Some?
      && var after := Fold(rows + [line], sel, parse).value;
      && after[e.month - 1] == Absorb(before[e.month - 1], e.reading)
      && forall k :: 0 <= k < 12 && k != e.month - 1 ==> after[k] == before[k]
  {
    assert (rows + [line])[..|rows|] == rows;
  }

  /** The run aborts exactly when some row makes stoi or stod throw. */
  lemma {:induction false} FoldAbortsIff(rows: seq<string>, sel: Selection, parse: string -> Option<real>)
    ensures Fold(rows, sel, parse).None? <==>
      exists i :: 0 <= i < |rows| && Classify(rows[i], sel, parse) == Abort
  {
    if |rows| > 0 {
      var front := rows[..|rows| - 1];
      FoldAbortsIff(front, sel, parse);
      if Classify(rows[|rows| - 1], sel, parse) != Abort {
        forall i | 0 <= i < |rows| - 1
          ensures rows[i] == front[i]
        {
        }
      }
    }
  }

  // Reference definitions of what a month reports, from its readings alone.

  /** The readings the loop counts for month `m`, in input order. */
  function Readings(rows: seq<string>, sel: Selection, parse: string -> Option<real>, m: int): seq<Reading>
  {
    if |rows| == 0 then []
    else
      var earlier := Readings(rows[..|rows| - 1], sel, parse, m);
      match Classify(rows[|rows| - 1], sel, parse)
      case Observe(month, rd) => if month == m then earlier + [rd] else earlier
      case _ => earlier
  }

  /** Total rain of a run of readings: the sum of the positive amounts. */
  function RainTotal(rds: seq<Reading>): real
  {
    if |rds| == 0 then 0.0
    else
      var r := rds[|rds| - 1].rain;
      RainTotal(rds[..|rds| - 1]) + (if r > 0.0 then r else 0.0)
  }

  /** The number of readings with rain above zero. */
  function RainyCount(rds: seq<Reading>): nat
  {
    if |rds| == 0 then 0
    else RainyCount(rds[..|rds| - 1]) + (if rds[|rds| - 1].rain > 0.0 then 1 else 0)
  }

  /** The temperatures present among the readings, in order. */
  function Temps(rds: seq<Reading>): seq<real>
  {
    if |rds| == 0 then []
    else
      var earlier := Temps(rds[..|rds| - 1]);
      match rds[|rds| - 1].temp
      case None => earlier
      case Some(t) => earlier + [t]
  }

  /** The largest of `lo` and the values of `ts`. */
  function Highest(lo: real, ts: seq<real>): real
  {
    if |ts| == 0 then lo else Max(Highest(lo, ts[..|ts| - 1]), ts[|ts| - 1])
  }

  /** The smallest of `hi` and the values of `ts`. */
  function Lowest(hi: real, ts: seq<real>): real
  {
    if |ts| == 0 then hi else Min(Lowest(hi, ts[..|ts| - 1]), ts[|ts| - 1])
  }

  /** What a month holds after the loop, from its readings. */
  function Reference(rds: seq<Reading>): Bucket
  {
    var ts := Temps(rds);
    Bucket(RainTotal(rds), RainyCount(rds), Highest(TMaxStart, ts), Lowest(TMinStart, ts), |ts| > 0)
  }

  /** Total rain is never negative. */
  lemma {:induction false} RainTotalNonNegative(rds: seq<Reading>)
    ensures RainTotal(rds) >= 0.0
  {
    if |rds| > 0 {
      RainTotalNonNegative(rds[..|rds| - 1]);
    }
  }

  /** Rainy days never outnumber the readings. */
  lemma {:induction false} RainyCountBound(rds: seq<Reading>)
    ensures RainyCount(rds) <= |rds|
  {
    if |rds| > 0 {
      RainyCountBound(rds[..|rds| - 1]);
    }
  }

  /**
   * The maximum bounds every value and the start, and is one of them; the
   * minimum likewise from below.
   */
  lemma {:induction false} ExtremesMeaning(lo: real, hi: real, ts: seq<real>)
    ensures forall t :: t in ts ==> Lowest(hi, ts) <= t <= Highest(lo, ts)
    ensures lo <= Highest(lo, ts) && Lowest(hi, ts) <= hi
    ensures Highest(lo, ts) == lo || Highest(lo, ts) in ts
    ensures Lowest(hi, ts) == hi || Lowest(hi, ts) in ts
  {
    if |ts| > 0 {
      var front := ts[..|ts| - 1];
      ExtremesMeaning(lo, hi, front);
      assert ts == front + [ts[|ts| - 1]];
    }
  }

  /**
   * When every temperature lies within the starting values (-1e300 to
   * 1e300), the maximum and minimum of a month with readings are readings.
   */
  lemma ExtremesAreReadings(ts: seq<real>)
    requires |ts| > 0
    requires forall t :: t in ts ==> TMaxStart <= t <= TMinStart
    ensures Highest(TMaxStart, ts) in ts && Lowest(TMinStart, ts) in ts
  {
    ExtremesMeaning(TMaxStart, TMinStart, ts);
    assert ts[0] in ts;
  }

  /** One more reading moves the reference of a month exactly as Absorb does. */
  lemma ReferenceSnoc(rds: seq<Reading>, rd: Reading)
    ensures Reference(rds + [rd]) == Absorb(Reference(rds), rd)
  {
    var all := rds + [rd];
    assert all[..|rds|] == rds;
    match rd.temp
    case None =>
      assert Temps(all) == Temps(rds);
    case Some(t) =>
      var ts := Temps(rds);
      assert Temps(all) == ts + [t];
      assert (ts + [t])[..|ts|] == ts;
  }

  /**
   * After the loop each month holds, and only from its own readings, the
   * sum of positive rain, the count of rainy readings, the extremes of its
   * temperatures against the starting values, and whether it had one.
   */
  lemma {:induction false} FoldByMonth(rows: seq<string>, sel: Selection, parse: string -> Option<real>)
    requires Fold(rows, sel, parse).Some?
    ensures forall k :: 0 <= k < 12 ==>
      Fold(rows, sel, parse).value[k] == Reference(Readings(rows, sel, parse, k + 1))
  {
    if |rows| > 0 {
      var front := rows[..|rows| - 1];
      var e := Classify(rows[|rows| - 1], sel, parse);
      assert Fold(front, sel, parse).Some?;
      var before := Fold(front, sel, parse).value;
      assert Fold(rows, sel, parse) == Step(Some(before), e);
      FoldByMonth(front, sel, parse);
      forall k | 0 <= k < 12
        ensures Fold(rows, sel, parse).value[k] == Reference(Readings(rows, sel, parse, k + 1))
      {
        var rds := Readings(front, sel, parse, k + 1);
        assert Readings(rows, sel, parse, k + 1) ==
          rds + (if e.Observe? && e.month == k + 1 then [e.reading] else []);
        MonthStep(before, e, rds, k);
      }
    }
  }

  /** One more verdict keeps a month equal to the reference value of its readings. */
  lemma MonthStep(before: seq<Bucket>, e: Effect, rds: seq<Reading>, k: nat)
    requires |before| == 12 && k < 12 && before[k] == Reference(rds)
    requires e.Observe? ==> 1 <= e.month <= 12
    requires e != Abort
    ensures Step(Some(before), e).value[k] ==
      Reference(rds + (if e.Observe? && e.month == k + 1 then [e.reading] else []))
  {
    if e.Observe? && e.month == k + 1 {
      ReferenceSnoc(rds, e.reading);
    } else {
      assert rds + [] == rds;
    }
  }

  /** The twelve months of a header-only file all report zero. */
  const ZeroRows: seq<SummaryRow> := seq(12, k requires 0 <= k < 12 => SummaryRow(k + 1, 0.0, 0.0, 0.0, 0))

  // ---------------------------------------------------------------------
  // Properties of main

  /**
   * A written summary is the fixed header and one row per month, 1 to 12 in
   * order. Each month reports the total of its positive rain (never
   * negative) and the number of rainy readings; a month without a
   * temperature reports 0 for both extremes; one with temperatures reports
   * a minimum and maximum that enclose all of them, and are among them
   * when they lie within the starting values.
   */
  lemma WrittenSummary(args: seq<string>, input: Option<seq<string>>, outputWritable: bool,
                       parse: string -> Option<real>)
    requires Expected(args, input, outputWritable, parse).Written?
    ensures |args| >= 5 && Stoi(args[2]).Some? && input.Some? && |input.value| >= 1
    ensures var o := Expected(args, input, outputWritable, parse);
      var sel := Selection(Stoi(args[2]).value, StationOf(args[3]));
      && o.header == SummaryHeader
      && |o.rows| == 12
      && forall k :: 0 <= k < 12 ==>
        var row := o.rows[k];
        var rds := Readings(input.value[1..], sel, parse, k + 1);
        var ts := Temps(rds);
        && row.month == k + 1
        && row.totalRain == RainTotal(rds) && row.totalRain >= 0.0
        && row.rainyDays == RainyCount(rds) <= |rds|
        && (|ts| == 0 ==> row.tmax == 0.0 && row.tmin == 0.0)
        && (|ts| > 0 ==> row.tmin <= row.tmax && forall t :: t in ts ==> row.tmin <= t <= row.tmax)
        && (|ts| > 0 && (forall t :: t in ts ==> TMaxStart <= t <= TMinStart) ==> row.tmax in ts && row.tmin in ts)
  {
    var o := Expected(args, input, outputWritable, parse);
    var sel := Selection(Stoi(args[2]).value, StationOf(args[3]));
    var rows := input.value[1..];
    FoldByMonth(rows, sel, parse);
    forall k | 0 <= k < 12
      ensures var rds := Readings(rows, sel, parse, k + 1);
        var ts := Temps(rds);
        var row := o.rows[k];
        && row.month == k + 1
        && row.totalRain == RainTotal(rds) && row.totalRain >= 0.0
        && row.rainyDays == RainyCount(rds) <= |rds|
        && (|ts| == 0 ==> row.tmax == 0.0 && row.tmin == 0.0)
        && (|ts| > 0 ==> row.tmin <= row.tmax && forall t :: t in ts ==> row.tmin <= t <= row.tmax)
        && (|ts| > 0 && (forall t :: t in ts ==> TMaxStart <= t <= TMinStart) ==> row.tmax in ts && row.tmin in ts)
    {
      var rds := Readings(rows, sel, parse, k + 1);
      var ts := Temps(rds);
      RainTotalNonNegative(rds);
      RainyCountBound(rds);
      ExtremesMeaning(TMaxStart, TMinStart, ts);
      if |ts| > 0 {
        assert ts[0] in ts;
        if forall t :: t in ts ==> TMaxStart <= t <= TMinStart {
          ExtremesAreReadings(ts);
        }
      }
    }
  }

  /** A file holding only its header gives twelve months of zeros. */
  lemma HeaderOnly(args: seq<string>, header: string, parse: string -> Option<real>)
    requires |args| >= 5 && Stoi(args[2]).Some?
    ensures Expected(args, Some([header]), true, parse) == Written(SummaryHeader, ZeroRows)
  {
    var sel := Selection(Stoi(args[2]).value, StationOf(args[3]));
    assert [header][1..] == [];
    var t := Summary(Finalize(InitialTable()));
    assert forall k :: 0 <= k < 12 ==> t[k] == ZeroRows[k];
  }

  /** The first line is skipped unread: whatever it holds, the outcome is the same. */
  lemma HeaderIgnored(args: seq<string>, h1: string, h2: string, rows: seq<string>, outputWritable: bool,
                      parse: string -> Option<real>)
    ensures Expected(args, Some([h1] + rows), outputWritable, parse) ==
            Expected(args, Some([h2] + rows), outputWritable, parse)
  {
    assert ([h1] + rows)[1..] == rows == ([h2] + rows)[1..];
  }

  /**
   * The exit status follows the order of the checks in main: too few
   * arguments (1), then the year (an abort), then the input file (2), then
   * an empty file (3), then the rows (an abort), then the output file (4);
   * 0 only when all passed.
   */
  lemma ExitCodeOrder(args: seq<string>, input: Option<seq<string>>, outputWritable: bool,
                      parse: string -> Option<real>)
    ensures var code := ExitCode(Expected(args, input, outputWritable, parse));
      var sel := if |args| >= 5 && Stoi(args[2]).Some? then Selection(Stoi(args[2]).value, StationOf(args[3]))
                 else Selection(0, B);
      && (code == Some(1) <==> |args| < 5)
      && (code == Some(2) <==> |args| >= 5 && Stoi(args[2]).Some? && input.None?)
      && (code == Some(3) <==> |args| >= 5 && Stoi(args[2]).Some? && input == Some([]))
      && (code == Some(4) <==> |args| >= 5 && Stoi(args[2]).Some? && input.Some? && |input.value| > 0
                               && Fold(input.value[1..], sel, parse).Some? && !outputWritable)
      && (code == Some(0) <==> |args| >= 5 && Stoi(args[2]).Some? && input.Some? && |input.value| > 0
                               && Fold(input.value[1..], sel, parse).Some? && outputWritable)
      && (code.None? <==> |args| >= 5 &&
                          (Stoi(args[2]).None? ||
                           (input.Some? && |input.value| > 0 && Fold(input.value[1..], sel, parse).None?)))
  {
  }

  /** The canonical CSV header, as the normaliser writes it. */
  const CanonicalHeader: string := "date,rain_Lund_mm,temp_Lund_C,rain_Uppsala_mm,temp_Uppsala_C"

  /** A canonical row with the given date and station A readings, stations B fields empty. */
  lemma ClassifyStationARow(date: string, rain: string, temp: string, parse: string -> Option<real>,
                            r: real, t: real)
    requires |date| == 10 && ',' !in date && ',' !in rain && ',' !in temp
    requires date[..4] == "1961" && date[5..7] == "01"
    requires rain != "" && temp != "" && parse(rain) == Some(r) && parse(temp) == Some(t)
    ensures Classify(date + "," + rain + "," + temp + ",,", Selection(1961, A), parse) ==
            Observe(1, Reading(r, Some(t)))
  {
    var line := date + "," + rain + "," + temp + ",,";
    StationARowColumns(date, rain, temp);
    JanuaryDate(date);
    var cols := Split(line, ',');
    assert ReadRain(cols[1], parse) == Some(r) && ReadTemp(cols[2], parse) == Some(Some(t));
  }

  /** The five columns of a canonical row whose station B fields are empty. */
  lemma StationARowColumns(date: string, rain: string, temp: string)
    requires ',' !in date && ',' !in rain && ',' !in temp
    ensures Split(date + "," + rain + "," + temp + ",,", ',') == [date, rain, temp, "", ""]
  {
    SplitFive(date, rain, temp, "", "", ',');
    assert date + "," + rain + "," + temp + ",," == date + [','] + rain + [','] + temp + [','] + "" + [','] + "";
  }

  /** A date of January 1961 reads as year 1961, month 1. */
  lemma JanuaryDate(date: string)
    requires |date| == 10 && date[..4] == "1961" && date[5..7] == "01"
    ensures Stoi(date[..4]) == Some(1961) && Stoi(date[5..7]) == Some(1)
  {
    StoiYear();
    StoiOfDigits("01");
    assert DigitsValue("01", 0, 2) == 1;
  }

  /**
   * The January example, for station A and year 1961: two January rows, one
   * dry at -7.2 and one with 5.0 of rain at 1.0 (the rows of JanuaryDryRow and JanuaryRainyRow),
   * give January rain 5.0 on one rainy day, maximum 1.0 and minimum -7.2;
   * the other months are zero.
   */
  lemma JanuaryExample(args: seq<string>, r1: string, r2: string, parse: string -> Option<real>)
    requires |args| == 5 && Stoi(args[2]) == Some(1961) && StationOf(args[3]) == A
    requires Classify(r1, Selection(1961, A), parse) == Observe(1, Reading(0.0, Some(-7.2)))
    requires Classify(r2, Selection(1961, A), parse) == Observe(1, Reading(5.0, Some(1.0)))
    ensures var o := Expected(args, Some([CanonicalHeader, r1, r2]), true, parse);
      && o.Written?
      && o.rows[0] == SummaryRow(1, 5.0, 1.0, -7.2, 1)
      && forall k :: 1 <= k < 12 ==> o.rows[k] == ZeroRows[k]
  {
    var rd1, rd2 := Reading(0.0, Some(-7.2)), Reading(5.0, Some(1.0));
    var b1, b2 := Bucket(0.0, 0, -7.2, -7.2, true), Bucket(5.0, 1, 1.0, -7.2, true);
    JanuaryDryDay();
    JanuaryRainyDay();
    TwoRowsOfOneMonth(r1, r2, Selection(1961, A), parse, 1, rd1, rd2, b1, b2);
    JanuarySummary(args, r1, r2, parse);
  }

  /** The dry day at -7.2 sets both extremes of January and no rainy day. */
  lemma JanuaryDryDay()
    ensures Absorb(Fresh, Reading(0.0, Some(-7.2))) == Bucket(0.0, 0, -7.2, -7.2, true)
  {
  }

  /** The rainy day at 1.0 adds its rain and a rainy day, and raises the maximum only. */
  lemma JanuaryRainyDay()
    ensures Absorb(Bucket(0.0, 0, -7.2, -7.2, true), Reading(5.0, Some(1.0))) == Bucket(5.0, 1, 1.0, -7.2, true)
  {
  }

  /** The summary of two rows that fold to the table of the January example. */
  lemma JanuarySummary(args: seq<string>, r1: string, r2: string, parse: string -> Option<real>)
    requires |args| == 5 && Stoi(args[2]) == Some(1961) && StationOf(args[3]) == A
    requires Fold([r1, r2], Selection(1961, A), parse) == Some(InitialTable()[0 := Bucket(5.0, 1, 1.0, -7.2, true)])
    ensures var o := Expected(args, Some([CanonicalHeader, r1, r2]), true, parse);
      && o.Written?
      && o.rows[0] == SummaryRow(1, 5.0, 1.0, -7.2, 1)
      && forall k :: 1 <= k < 12 ==> o.rows[k] == ZeroRows[k]
  {
    var t := InitialTable()[0 := Bucket(5.0, 1, 1.0, -7.2, true)];
    YearRunOutcome(args, parse, r1, r2, t);
    UntouchedMonthsZero(t, 0);
  }

  /** Months still as before any row read report zero everywhere. */
  lemma UntouchedMonthsZero(t: seq<Bucket>, j: nat)
    requires |t| == 12 && j < 12
    requires forall k :: 0 <= k < 12 && k != j ==> t[k] == Fresh
    ensures forall k :: 0 <= k < 12 && k != j ==> Summary(Finalize(t))[k] == ZeroRows[k]
  {
    assert Settle(Fresh) == Bucket(0.0, 0, 0.0, 0.0, false);
  }

  /** Station A, year 1961, a header and two rows: the summary of what the rows fold to. */
  lemma YearRunOutcome(args: seq<string>, parse: string -> Option<real>, r1: string, r2: string, t: seq<Bucket>)
    requires |args| == 5 && Stoi(args[2]) == Some(1961) && StationOf(args[3]) == A
    requires Fold([r1, r2], Selection(1961, A), parse) == Some(t)
    ensures Expected(args, Some([CanonicalHeader, r1, r2]), true, parse) == Written(SummaryHeader, Summary(Finalize(t)))
  {
    assert [CanonicalHeader, r1, r2][1..] == [r1, r2];
  }

  /** The dry row of the January example is counted for January with its readings. */
  lemma JanuaryDryRow(parse: string -> Option<real>)
    requires parse("0.0") == Some(0.0) && parse("-7.2") == Some(-7.2)
    ensures Classify("1961-01-10,0.0,-7.2,,", Selection(1961, A), parse) == Observe(1, Reading(0.0, Some(-7.2)))
  {
    ClassifyStationARow("1961-01-10", "0.0", "-7.2", parse, 0.0, -7.2);
    assert "1961-01-10,0.0,-7.2,," == "1961-01-10" + "," + "0.0" + "," + "-7.2" + ",,";
  }

  /** The rainy row of the January example is counted for January with its readings. */
  lemma JanuaryRainyRow(parse: string -> Option<real>)
    requires parse("5.0") == Some(5.0) && parse("1.0") == Some(1.0)
    ensures Classify("1961-01-20,5.0,1.0,,", Selection(1961, A), parse) == Observe(1, Reading(5.0, Some(1.0)))
  {
    ClassifyStationARow("1961-01-20", "5.0", "1.0", parse, 5.0, 1.0);
    assert "1961-01-20,5.0,1.0,," == "1961-01-20" + "," + "5.0" + "," + "1.0" + ",,";
  }

  /** Two counted rows of the same month, and nothing else, fill only that month. */
  lemma TwoRowsOfOneMonth(r1: string, r2: string, sel: Selection, parse: string -> Option<real>,
                          m: int, rd1: Reading, rd2: Reading, b1: Bucket, b2: Bucket)
    requires 1 <= m <= 12
    requires Classify(r1, sel, parse) == Observe(m, rd1) && Classify(r2, sel, parse) == Observe(m, rd2)
    requires b1 == Absorb(Fresh, rd1) && b2 == Absorb(b1, rd2)
    ensures Fold([r1, r2], sel, parse) == Some(InitialTable()[m - 1 := b2])
  {
    FoldTwo(r1, r2, sel, parse);
    StepTwice(InitialTable(), m, rd1, rd2);
    assert InitialTable()[m - 1] == Fresh;
  }

  /** Two rows fold as two steps from the initial table. */
  lemma FoldTwo(r1: string, r2: string, sel: Selection, parse: string -> Option<real>)
    ensures Fold([r1, r2], sel, parse) == Step(Step(Some(InitialTable()), Classify(r1, sel, parse)), Classify(r2, sel, parse))
  {
    assert [r1, r2][..1] == [r1] && [r1][..0] == [];
    assert Fold([r1], sel, parse) == Step(Some(InitialTable()), Classify(r1, sel, parse));
  }

  /** Two readings of one month, folded into a table, change that month only, one after the other. */
  lemma StepTwice(t: seq<Bucket>, m: int, rd1: Reading, rd2: Reading)
    requires |t| == 12 && 1 <= m <= 12
    ensures Step(Step(Some(t), Observe(m, rd1)), Observe(m, rd2)) ==
            Some(t[m - 1 := Absorb(Absorb(t[m - 1], rd1), rd2)])
  {
    var t1 := t[m - 1 := Absorb(t[m - 1], rd1)];
    assert Step(Some(t), Observe(m, rd1)) == Some(t1);
    assert t1[m - 1 := Absorb(t1[m - 1], rd2)] == t[m - 1 := Absorb(Absorb(t[m - 1], rd1), rd2)];
  }

}
