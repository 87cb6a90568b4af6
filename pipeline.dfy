/**
 * The two stages together: what the aggregator sees when it reads a row the
 * normaliser wrote.
 */
module Pipeline {
  import opened Wrappers
  import opened Fields
  import R = RainDataClean
  import An = Analysis

  /** The header the normaliser writes is the one the aggregator's January example starts from. */
  lemma HeadersAgree()
    ensures R.Header == An.CanonicalHeader
  {
  }

  /** The year and month of a date-shaped field are digit strings stoi reads without throwing. */
  lemma DateParts(date: string)
    requires R.IsDateShape(date)
    ensures An.Stoi(date[..4]).Some? && 0 <= An.Stoi(date[..4]).value < 10000
    ensures An.Stoi(date[5..7]).Some? && 0 <= An.Stoi(date[5..7]).value < 100
  {
    var y, m := date[..4], date[5..7];
    assert forall p :: 0 <= p < 4 ==> IsDigit(y[p]) by {
      assert y[0] == date[0] && y[1] == date[1] && y[2] == date[2] && y[3] == date[3];
    }
    assert forall p :: 0 <= p < 2 ==> IsDigit(m[p]) by {
      assert m[0] == date[5] && m[1] == date[6];
    }
    An.StoiOfDigits(y);
    An.StoiOfDigits(m);
    An.DigitsValueBound(y, 0, 4);
    An.DigitsValueBound(m, 0, 2);
    assert An.Pow10(4) == 10000 && An.Pow10(2) == 100;
  }

  /** Five pieces joined by commas: the count of pieces of the whole. */
  lemma SplitOfCommaJoin(a: string, b: string, c: string, d: string, e: string)
    ensures |Split(a + "," + b + "," + c + "," + d + "," + e, ',')| >= 5
  {
    SplitAppend(a, b, ',');
    SplitAppend(a + [','] + b, c, ',');
    SplitAppend(a + [','] + b + [','] + c, d, ',');
    SplitAppend(a + [','] + b + [','] + c + [','] + d, e, ',');
    assert a + "," + b + "," + c + "," + d + "," + e == a + [','] + b + [','] + c + [','] + d + [','] + e;
  }

  /**
   * A row the normaliser keeps has at least five comma-separated fields, its
   * first field is the ten-character date, and the aggregator reads its
   * year and month without throwing: the row can only abort the aggregator
   * through a station field stod cannot read.
   */
  lemma KeptRowReadable(line: string, sel: An.Selection, parse: string -> Option<real>)
    requires R.CleanLine(line).Some?
    ensures var row := R.CleanLine(line).value;
      var cols := Split(row, ',');
      var date := R.Trim(Split(R.Trim(line), ';')[0]);
      && |cols| >= 5 && cols[0] == date && |date| == 10
      && An.Stoi(date[..4]).Some? && An.Stoi(date[5..7]).Some?
      && (An.Classify(row, sel, parse) == An.Abort ==>
            var rain := cols[An.RainColumn(sel.station)];
            var temp := cols[An.TempColumn(sel.station)];
            (rain != "" && parse(rain).None?) || (temp != "" && parse(temp).None?))
  {
    var pieces := Split(R.Trim(line), ';');
    var date := R.Trim(pieces[0]);
    R.KeptRowFields(line);
    var rest := pieces[1] + "," + pieces[2] + "," + pieces[3] + "," + pieces[4];
    var row := R.CleanLine(line).value;
    assert row == date + [','] + rest;
    SplitHead(date, rest, ',');
    SplitOfCommaJoin(date, pieces[1], pieces[2], pieces[3], pieces[4]);
    DateParts(date);
  }

  /**
   * When fields 1 to 4 of a kept line hold no comma, the aggregator's
   * columns are exactly the normaliser's: the trimmed date, then fields 1
   * to 4 as they were.
   */
  lemma KeptRowColumns(line: string)
    requires R.CleanLine(line).Some?
    requires var pieces := Split(R.Trim(line), ';');
      ',' !in pieces[1] && ',' !in pieces[2] && ',' !in pieces[3] && ',' !in pieces[4]
    ensures var pieces := Split(R.Trim(line), ';');
      Split(R.CleanLine(line).value, ',') == [R.Trim(pieces[0]), pieces[1], pieces[2], pieces[3], pieces[4]]
  {
    var pieces := Split(R.Trim(line), ';');
    var date := R.Trim(pieces[0]);
    R.KeptRowFields(line);
    SplitFive(date, pieces[1], pieces[2], pieces[3], pieces[4], ',');
    assert R.CleanLine(line).value ==
      date + [','] + pieces[1] + [','] + pieces[2] + [','] + pieces[3] + [','] + pieces[4];
  }

  /**
   * The normaliser copies fields verbatim, so a rain value written with a
   * decimal comma in field 1 becomes two columns: the aggregator then reads
   * its integer part as station A's rain and its fraction as station A's
   * temperature.
   */
  lemma DecimalCommaShiftsColumns(line: string, whole: string, fraction: string)
    requires R.CleanLine(line).Some?
    requires var pieces := Split(R.Trim(line), ';');
      && pieces[1] == whole + "," + fraction
      && ',' !in whole && ',' !in fraction
      && ',' !in pieces[2] && ',' !in pieces[3] && ',' !in pieces[4]
    ensures var cols := Split(R.CleanLine(line).value, ',');
      && |cols| == 6
      && cols[An.RainColumn(An.A)] == whole
      && cols[An.TempColumn(An.A)] == fraction
  {
    var pieces := Split(R.Trim(line), ';');
    var date := R.Trim(pieces[0]);
    R.KeptRowFields(line);
    var row := R.CleanLine(line).value;
    var six := [date, whole, fraction, pieces[2], pieces[3], pieces[4]];
    assert row == Join(six, ',') by {
      JoinSix(date, whole, fraction, pieces[2], pieces[3], pieces[4]);
    }
    assert NoneContains(six, ',');
    SplitJoin(six, ',');
  }

  /** Six pieces joined by commas, written out. */
  lemma JoinSix(a: string, b: string, c: string, d: string, e: string, f: string)
    ensures Join([a, b, c, d, e, f], ',') == a + "," + (b + "," + c) + "," + d + "," + e + "," + f
  {
    var p1, p2, p3, p4, p5, p6 := [a], [a, b], [a, b, c], [a, b, c, d], [a, b, c, d, e], [a, b, c, d, e, f];
    assert p6[..5] == p5 && p5[..4] == p4 && p4[..3] == p3 && p3[..2] == p2 && p2[..1] == p1;
    assert Join(p1, ',') == a;
    assert Join(p2, ',') == a + "," + b;
    assert Join(p3, ',') == a + "," + b + "," + c;
    assert Join(p4, ',') == a + "," + b + "," + c + "," + d;
    assert Join(p5, ',') == a + "," + b + "," + c + "," + d + "," + e;
  }
}
