/**
 * Stage 1, the normaliser: turns the raw semicolon-separated daily feed into
 * the canonical comma-separated dataset, dropping malformed lines and
 * counting how many lines it kept and skipped.
 *
 * The input and output files are sequences of lines (without their line
 * terminators); the two file paths of the program are not part of the model.
 */
module RainDataClean {
  import opened Wrappers
  import opened Fields

  /** The header line written before any data row. */
  const Header: string := "date,rain_Lund_mm,temp_Lund_C,rain_Uppsala_mm,temp_Uppsala_C"

  /** Number of leading lines of the feed that are metadata and are dropped uncounted. */
  const PreambleLines: nat := 2

  // ---------------------------------------------------------------------
  // trim

  /** The characters trim removes: space, tab and newline (and no others). */
  predicate IsBlank(c: char)
  {
    c == ' ' || c == '\t' || c == '\n'
  }

  predicate AllBlank(s: string)
  {
    forall i :: 0 <= i < |s| ==> IsBlank(s[i])
  }

  /** Every character of `s` in positions [lo, hi) is blank. */
  predicate BlankBetween(s: string, lo: int, hi: int)
  {
    forall i :: lo <= i < hi && 0 <= i < |s| ==> IsBlank(s[i])
  }

  /** find_first_not_of(" \t\n"): the first non-blank index, None for npos. */
  function FindFirstNotBlank(s: string): (r: Option<nat>)
    ensures r.Some? ==> r.value < |s| && !IsBlank(s[r.value])
  {
    FirstNotBlankFrom(s, 0)
  }

  /** The first non-blank index at or after `i`. */
  function FirstNotBlankFrom(s: string, i: nat): (r: Option<nat>)
    ensures r.Some? ==> i <= r.value < |s| && !IsBlank(s[r.value])
    decreases |s| - i
  {
    if i >= |s| then None
    else if !IsBlank(s[i]) then Some(i)
    else FirstNotBlankFrom(s, i + 1)
  }

  /** find_last_not_of(" \t\n"): the last non-blank index, None for npos. */
  function FindLastNotBlank(s: string): (r: Option<nat>)
    ensures r.Some? ==> r.value < |s| && !IsBlank(s[r.value])
  {
    LastNotBlankBefore(s, |s|)
  }

  /** The last non-blank index before `j`. */
  function LastNotBlankBefore(s: string, j: nat): (r: Option<nat>)
    requires j <= |s|
    ensures r.Some? ==> r.value < j && !IsBlank(s[r.value])
  {
    if j == 0 then None
    else if !IsBlank(s[j - 1]) then Some(j - 1)
    else LastNotBlankBefore(s, j - 1)
  }

  /** The forward search from `i` skips exactly the blanks before what it finds. */
  lemma {:induction false} FirstFromMeaning(s: string, i: nat)
    requires i <= |s|
    ensures FirstNotBlankFrom(s, i).None? <==> BlankBetween(s, i, |s|)
    ensures FirstNotBlankFrom(s, i).Some? ==>
      var a := FirstNotBlankFrom(s, i).value; !IsBlank(s[a]) && BlankBetween(s, i, a)
    decreases |s| - i
  {
    if i < |s| && IsBlank(s[i]) {
      FirstFromMeaning(s, i + 1);
    }
  }

  /** The backward search from `j` skips exactly the blanks after what it finds. */
  lemma {:induction false} LastBeforeMeaning(s: string, j: nat)
    requires j <= |s|
    ensures LastNotBlankBefore(s, j).None? <==> BlankBetween(s, 0, j)
    ensures LastNotBlankBefore(s, j).Some? ==>
      var b := LastNotBlankBefore(s, j).value; !IsBlank(s[b]) && BlankBetween(s, b + 1, j)
  {
    if j > 0 && IsBlank(s[j - 1]) {
      LastBeforeMeaning(s, j - 1);
    }
  }

  /** The first search finds nothing exactly on blank input, else the first non-blank. */
  lemma FindFirstMeaning(s: string)
    ensures FindFirstNotBlank(s).None? <==> AllBlank(s)
    ensures FindFirstNotBlank(s).Some? ==>
      var a := FindFirstNotBlank(s).value; !IsBlank(s[a]) && BlankBetween(s, 0, a)
  {
    FirstFromMeaning(s, 0);
  }

  /** The last search finds nothing exactly on blank input, else the last non-blank. */
  lemma FindLastMeaning(s: string)
    ensures FindLastNotBlank(s).None? <==> AllBlank(s)
    ensures FindLastNotBlank(s).Some? ==>
      var b := FindLastNotBlank(s).value; !IsBlank(s[b]) && BlankBetween(s, b + 1, |s|)
  {
    LastBeforeMeaning(s, |s|);
  }

  /** Where the first search finds a non-blank, the last search finds one no earlier. */
  lemma FindBoundsMeet(s: string)
    ensures FindFirstNotBlank(s).Some? ==>
      FindLastNotBlank(s).Some? && FindFirstNotBlank(s).value <= FindLastNotBlank(s).value
  {
    FindFirstMeaning(s);
    FindLastMeaning(s);
  }

  /**
   * `r` is `s` with blanks removed from its two ends only, and `r` neither
   * starts nor ends with a blank.
   */
  ghost predicate IsTrimOf(s: string, r: string)
  {
    && (r == "" || (!IsBlank(r[0]) && !IsBlank(r[|r| - 1])))
    && exists a, b :: 0 <= a <= b <= |s| && r == s[a..b] && BlankBetween(s, 0, a) && BlankBetween(s, b, |s|)
  }

  /** trim: the input without its leading and trailing blanks. */
  function Trim(s: string): (r: string)
    ensures |r| <= |s|
    ensures r != "" ==> !IsBlank(r[0]) && !IsBlank(r[|r| - 1])
  {
    match FindFirstNotBlank(s)
    case None => ""
    case Some(a) =>
      FindBoundsMeet(s);
      s[a..FindLastNotBlank(s).value + 1]
  }

  /**
   * What trim returns: the empty string exactly when every character is a
   * blank, and otherwise the input with blanks cut from its two ends only.
   */
  lemma TrimMeaning(s: string)
    ensures Trim(s) == "" <==> AllBlank(s)
    ensures IsTrimOf(s, Trim(s))
  {
    FindFirstMeaning(s);
    FindLastMeaning(s);
    FindBoundsMeet(s);
    match FindFirstNotBlank(s)
    case None =>
      assert BlankBetween(s, 0, |s|) && s[|s|..|s|] == "";
    case Some(a) =>
      var b := FindLastNotBlank(s).value;
      var r := s[a..b + 1];
      assert r[0] == s[a] && r[|r| - 1] == s[b];
  }

  /** A non-blank preceded only by blanks is what the first search finds. */
  lemma FirstNotBlankIs(s: string, a: nat)
    requires a < |s| && !IsBlank(s[a]) && BlankBetween(s, 0, a)
    ensures FindFirstNotBlank(s) == Some(a)
  {
    FindFirstMeaning(s);
    var a' := FindFirstNotBlank(s).value;
    assert !(a' < a) by { assert !IsBlank(s[a']); }
    assert !(a < a') by { assert BlankBetween(s, 0, a'); }
  }

  /** A non-blank followed only by blanks is what the last search finds. */
  lemma LastNotBlankIs(s: string, b: nat)
    requires b < |s| && !IsBlank(s[b]) && BlankBetween(s, b + 1, |s|)
    ensures FindLastNotBlank(s) == Some(b)
  {
    FindLastMeaning(s);
    var b' := FindLastNotBlank(s).value;
    assert !(b' < b) by { assert BlankBetween(s, b' + 1, |s|); }
    assert !(b < b') by { assert !IsBlank(s[b']); }
  }

  /** A cut of `s` between two blank-only ends that is empty means `s` is all blank. */
  lemma EmptyCutAllBlank(s: string, a: nat, b: nat)
    requires a <= b <= |s| && s[a..b] == ""
    requires BlankBetween(s, 0, a) && BlankBetween(s, b, |s|)
    ensures AllBlank(s)
  {
    forall i | 0 <= i < |s| ensures IsBlank(s[i]) {
      assert i < a || b <= i;
    }
  }

  /** A non-empty cut between blank-only ends, with non-blank ends of its own, is the trim. */
  lemma CutIsTrim(s: string, a: nat, b: nat)
    requires a < b <= |s| && !IsBlank(s[a]) && !IsBlank(s[b - 1])
    requires BlankBetween(s, 0, a) && BlankBetween(s, b, |s|)
    ensures Trim(s) == s[a..b]
  {
    FirstNotBlankIs(s, a);
    LastNotBlankIs(s, b - 1);
  }

  /** Trim gives the only string with the two properties of IsTrimOf. */
  lemma TrimUnique(s: string, r: string)
    requires IsTrimOf(s, r)
    ensures r == Trim(s)
  {
    var a, b :| 0 <= a <= b <= |s| && r == s[a..b] && BlankBetween(s, 0, a) && BlankBetween(s, b, |s|);
    if r == "" {
      EmptyCutAllBlank(s, a, b);
      TrimMeaning(s);
    } else {
      assert r[0] == s[a] && r[|r| - 1] == s[b - 1];
      CutIsTrim(s, a, b);
    }
  }

  /** Trimming twice is trimming once. */
  lemma TrimIdempotent(s: string)
    ensures Trim(Trim(s)) == Trim(s)
  {
    var t := Trim(s);
    TrimMeaning(s);
    assert t[0..|t|] == t;
    assert IsTrimOf(t, t);
    TrimUnique(t, t);
  }

  // ---------------------------------------------------------------------
  // split_semicolon

  /** split_semicolon: cut at every `;`, keeping empty pieces. */
  method SplitSemicolon(s: string) returns (out: seq<string>)
    ensures out == Split(s, ';')
    ensures |out| == Count(s, ';') + 1
    ensures NoneContains(out, ';')
    ensures Join(out, ';') == s
  {
    out := [];
    var current := "";
    for i := 0 to |s|
      invariant out + [current] == Split(s[..i], ';')
    {
      assert s[..i + 1] == s[..i] + [s[i]];
      SplitSnoc(s[..i], s[i], ';');
      if s[i] == ';' {
        out := out + [current];
        current := "";
      } else {
        current := current + [s[i]];
      }
    }
    out := out + [current];
    assert s[..|s|] == s;
    SplitCount(s, ';');
    SplitPiecesFree(s, ';');
    JoinSplit(s, ';');
  }

  // ---------------------------------------------------------------------
  // looks_like_date

  /** The shape DDDD-DD-DD: four digits, a dash, two digits, a dash, two digits. */
  predicate IsDateShape(s: string)
  {
    && |s| == 10
    && IsDigit(s[0]) && IsDigit(s[1]) && IsDigit(s[2]) && IsDigit(s[3])
    && s[4] == '-'
    && IsDigit(s[5]) && IsDigit(s[6])
    && s[7] == '-'
    && IsDigit(s[8]) && IsDigit(s[9])
  }

  /** looks_like_date: a shape check only, with no calendar check. */
  method LooksLikeDate(s: string) returns (ok: bool)
    ensures ok <==> IsDateShape(s)
  {
    if |s| != 10 {
      return false;
    }
    for i := 0 to 10
      invariant forall j :: 0 <= j < i ==> if j == 4 || j == 7 then s[j] == '-' else IsDigit(s[j])
    {
      if i == 4 || i == 7 {
        if s[i] != '-' {
          return false;
        }
      } else if !IsDigit(s[i]) {
        return false;
      }
    }
    return true;
  }

  /** The shape check accepts dates no calendar has, and rejects other separators. */
  lemma DateShapeHasNoCalendar()
    ensures IsDateShape("1961-13-32")
    ensures !IsDateShape("1961/01/01")
    ensures !IsDateShape("1961-1-01")
  {
  }

  // ---------------------------------------------------------------------
  // The line loop of main

  /** The canonical row a data line becomes, or None when the line is skipped. */
  function CleanLine(line: string): (r: Option<string>)
    ensures r.Some? ==> |r.value| >= 14 && IsDateShape(r.value[..10]) && r.value[10] == ','
  {
    var t := Trim(line);
    if t == "" then None
    else
      var cols := Split(t, ';');
      if |cols| < 5 then None
      else
        var date := Trim(cols[0]);
        if !IsDateShape(date) then None
        else
          var row := date + "," + cols[1] + "," + cols[2] + "," + cols[3] + "," + cols[4];
          assert row[..10] == date;
          Some(row)
  }

  /** The verdict on each data line, position by position. */
  function Verdicts(lines: seq<string>): (vs: seq<Option<string>>)
    ensures |vs| == |lines|
  {
    seq(|lines|, k requires 0 <= k < |lines| => CleanLine(lines[k]))
  }

  /** The rows among a run of verdicts, in order. */
  function Kept(vs: seq<Option<string>>): seq<string>
  {
    if |vs| == 0 then []
    else
      var rows := Kept(vs[..|vs| - 1]);
      match vs[|vs| - 1]
      case None => rows
      case Some(row) => rows + [row]
  }

  /** The rows the data lines become, in input order. */
  function CleanRows(lines: seq<string>): seq<string>
  {
    Kept(Verdicts(lines))
  }

  /** The lines after the preamble (fewer than two lines: none). */
  function DataLines(lines: seq<string>): (r: seq<string>)
    ensures |r| == if |lines| <= PreambleLines then 0 else |lines| - PreambleLines
    ensures forall k :: 0 <= k < |r| ==> r[k] == lines[k + PreambleLines]
  {
    if |lines| <= PreambleLines then [] else lines[PreambleLines..]
  }

  /**
   * The body of the line loop: trim the line, cut it at `;`, check the
   * trimmed first field, and build the comma-separated row; None where the
   * loop counts the line as skipped.
   */
  method NormaliseLine(line: string) returns (row: Option<string>)
    ensures row == CleanLine(line)
  {
    var t := Trim(line);
    if t == "" {
      return None;
    }
    var cols := SplitSemicolon(t);
    if |cols| < 5 {
      return None;
    }
    var date := Trim(cols[0]);
    var isDate := LooksLikeDate(date);
    if !isDate {
      return None;
    }
    var rA, tA, rB, tB := cols[1], cols[2], cols[3], cols[4];
    return Some(date + "," + rA + "," + tA + "," + rB + "," + tB);
  }

  /**
   * main: drop the preamble, then classify every remaining line, write the
   * header and one row per kept line, and count kept and skipped lines.
   */
  method Clean(lines: seq<string>) returns (out: seq<string>, kept: nat, skipped: nat)
    ensures out == [Header] + CleanRows(DataLines(lines))
    ensures kept == |out| - 1
    ensures kept + skipped == |DataLines(lines)|
  {
    out := [Header];
    kept, skipped := 0, 0;
    var i := 0;
    while i < PreambleLines && i < |lines|
      invariant i <= PreambleLines && i <= |lines|
    {
      i := i + 1;
    }
    assert lines[i..] == DataLines(lines);
    var rows, k, sk := CleanData(lines[i..]);
    out := out + rows;
    kept, skipped := k, sk;
  }

  /**
   * The read loop of main over the data lines: each line is kept or
   * skipped, kept lines add their row in order.
   */
  method CleanData(data: seq<string>) returns (rows: seq<string>, kept: nat, skipped: nat)
    ensures rows == CleanRows(data)
    ensures kept == |rows|
    ensures kept + skipped == |data|
  {
    rows := [];
    kept, skipped := 0, 0;
    for i := 0 to |data|
      invariant rows == CleanRows(data[..i])
      invariant kept == |rows|
      invariant kept + skipped == i
    {
      var row := NormaliseLine(data[i]);
      CleanRowsSnoc(data, i, row);
      if row.None? {
        skipped := skipped + 1;
      } else {
        rows := rows + [row.value];
        kept := kept + 1;
      }
    }
    assert data[..|data|] == data;
  }

  /** One more line adds its row, if it has one, to the rows so far. */
  lemma CleanRowsSnoc(data: seq<string>, i: nat, row: Option<string>)
    requires i < |data| && row == CleanLine(data[i])
    ensures CleanRows(data[..i + 1]) == CleanRows(data[..i]) + (if row.Some? then [row.value] else [])
  {
    var vs := Verdicts(data[..i + 1]);
    assert vs[..i] == Verdicts(data[..i]);
  }

  // ---------------------------------------------------------------------
  // Properties of the line loop

  /**
   * A line is kept exactly when its trimmed form is not empty, holds at least
   * four semicolons, and its first field, trimmed, has the date shape.
   */
  lemma KeptIff(line: string)
    ensures CleanLine(line).Some? <==>
      && !AllBlank(line)
      && Count(Trim(line), ';') >= 4
      && IsDateShape(Trim(Split(Trim(line), ';')[0]))
  {
    TrimMeaning(line);
    SplitCount(Trim(line), ';');
  }

  /**
   * A kept row is the trimmed date followed by fields 1 to 4 of the line
   * exactly as they were (not trimmed, not checked); later fields are dropped.
   */
  lemma KeptRowFields(line: string)
    requires CleanLine(line).Some?
    ensures var cols := Split(Trim(line), ';');
      var date := Trim(cols[0]);
      && CleanLine(line).value == date + "," + cols[1] + "," + cols[2] + "," + cols[3] + "," + cols[4]
      && IsDateShape(date)
      && ',' !in date
  {
    DateHasNoComma(Trim(Split(Trim(line), ';')[0]));
  }

  /** A date-shaped field holds only digits and dashes, so no comma. */
  lemma DateHasNoComma(date: string)
    requires IsDateShape(date)
    ensures ',' !in date
  {
    assert forall i | 0 <= i < |date| :: date[i] == '-' || IsDigit(date[i]);
  }

  /** Verdicts of two runs are the rows of each, in order. */
  lemma {:induction false} KeptAppend(xs: seq<Option<string>>, ys: seq<Option<string>>)
    ensures Kept(xs + ys) == Kept(xs) + Kept(ys)
  {
    if |ys| == 0 {
      assert xs + ys == xs;
    } else {
      var ys' := ys[..|ys| - 1];
      assert (xs + ys)[..|xs + ys| - 1] == xs + ys';
      KeptAppend(xs, ys');
    }
  }

  /** The rows of two stretches of input are the rows of each, in order. */
  lemma CleanRowsAppend(xs: seq<string>, ys: seq<string>)
    ensures CleanRows(xs + ys) == CleanRows(xs) + CleanRows(ys)
  {
    var vs := Verdicts(xs + ys);
    assert vs[..|xs|] == Verdicts(xs);
    assert vs[|xs|..] == Verdicts(ys);
    assert vs == vs[..|xs|] + vs[|xs|..];
    KeptAppend(Verdicts(xs), Verdicts(ys));
  }

  /** The preamble is dropped whatever it holds: changing it changes nothing. */
  lemma PreambleIgnored(p: seq<string>, q: seq<string>, rest: seq<string>)
    requires |p| == PreambleLines && |q| == PreambleLines
    ensures DataLines(p + rest) == DataLines(q + rest) == rest
  {
    assert (p + rest)[PreambleLines..] == rest;
    assert (q + rest)[PreambleLines..] == rest;
  }
}
