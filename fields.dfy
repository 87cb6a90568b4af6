/**
 * Delimited text: both stages cut a line into fields at a one-character
 * separator (`;` in the normaliser, `,` in the aggregator). This module holds
 * the meaning of that cut once, together with its inverse, Join.
 */
module Fields {

  /** An ASCII decimal digit. */
  predicate IsDigit(c: char)
  {
    '0' <= c <= '9'
  }

  /** Number of occurrences of `c` in `s`. */
  function Count(s: string, c: char): nat
  {
    if |s| == 0 then 0
    else Count(s[..|s| - 1], c) + (if s[|s| - 1] == c then 1 else 0)
  }

  /**
   * The pieces of `s` between the occurrences of `sep`, left to right. It is
   * stated by how the last character extends the pieces of the rest.
   */
  function Split(s: string, sep: char): (r: seq<string>)
    ensures |r| >= 1
    decreases |s|
  {
    if |s| == 0 then [""]
    else Extend(Split(s[..|s| - 1], sep), s[|s| - 1], sep)
  }

  /**
   * One more character read: a separator opens a new, empty piece; any other
   * character is appended to the current last piece.
   */
  function Extend(ps: seq<string>, c: char, sep: char): (r: seq<string>)
    requires |ps| >= 1
    ensures |r| >= 1
  {
    if c == sep then ps + [""]
    else ps[..|ps| - 1] + [ps[|ps| - 1] + [c]]
  }

  /** The pieces written one after another with `sep` between neighbours. */
  function Join(ps: seq<string>, sep: char): string
    requires |ps| >= 1
  {
    if |ps| == 1 then ps[0]
    else Join(ps[..|ps| - 1], sep) + [sep] + ps[|ps| - 1]
  }

  /** No piece of `ps` contains `sep`. */
  predicate NoneContains(ps: seq<string>, sep: char)
  {
    forall k :: 0 <= k < |ps| ==> sep !in ps[k]
  }

  /** There is one piece more than there are separators. */
  lemma {:induction false} SplitCount(s: string, sep: char)
    ensures |Split(s, sep)| == Count(s, sep) + 1
  {
    if |s| > 0 {
      SplitCount(s[..|s| - 1], sep);
    }
  }

  /** No piece contains the separator. */
  lemma {:induction false} SplitPiecesFree(s: string, sep: char)
    ensures NoneContains(Split(s, sep), sep)
  {
    if |s| > 0 {
      SplitPiecesFree(s[..|s| - 1], sep);
      var init := Split(s[..|s| - 1], sep);
      var c := s[|s| - 1];
      if c != sep {
        var last := init[|init| - 1];
        assert sep !in last;
        assert sep !in last + [c];
      }
    }
  }

  /** Appending to the last piece appends to the joined text. */
  lemma JoinExtendLast(ps: seq<string>, sep: char, x: string)
    requires |ps| >= 1
    ensures Join(ps[..|ps| - 1] + [ps[|ps| - 1] + x], sep) == Join(ps, sep) + x
  {
    var qs := ps[..|ps| - 1] + [ps[|ps| - 1] + x];
    if |ps| > 1 {
      assert qs[..|qs| - 1] == ps[..|ps| - 1];
    }
  }

  /** Joining the pieces gives back the text that was cut. */
  lemma {:induction false} JoinSplit(s: string, sep: char)
    ensures Join(Split(s, sep), sep) == s
  {
    if |s| > 0 {
      var s' := s[..|s| - 1];
      var c := s[|s| - 1];
      var init := Split(s', sep);
      JoinSplit(s', sep);
      if c == sep {
        var r := init + [""];
        assert r[..|r| - 1] == init;
        assert Join(r, sep) == s' + [sep] + "";
      } else {
        JoinExtendLast(init, sep, [c]);
      }
      assert s == s' + [c];
    }
  }

  /** Text without the separator is a single piece. */
  lemma {:induction false} SplitWithout(s: string, sep: char)
    requires sep !in s
    ensures Split(s, sep) == [s]
  {
    if |s| > 0 {
      var s' := s[..|s| - 1];
      var c := s[|s| - 1];
      assert c != sep;
      assert sep !in s' by {
        forall i | 0 <= i < |s'| ensures s'[i] != sep {
          assert s'[i] == s[i];
        }
      }
      SplitWithout(s', sep);
      assert s' + [c] == s;
      SplitSnoc(s', c, sep);
    }
  }

  /** One more character extends the pieces read so far. */
  lemma SplitSnoc(s: string, c: char, sep: char)
    ensures Split(s + [c], sep) == Extend(Split(s, sep), c, sep)
  {
    assert (s + [c])[..|s|] == s;
  }

  /** Extending the pieces of `pa + pb` extends those of `pb`. */
  lemma ExtendConcat(pa: seq<string>, pb: seq<string>, c: char, sep: char)
    requires |pb| >= 1
    ensures Extend(pa + pb, c, sep) == pa + Extend(pb, c, sep)
  {
  }

  /** Cutting at a separator cuts the two sides independently. */
  lemma {:induction false} SplitAppend(a: string, b: string, sep: char)
    ensures Split(a + [sep] + b, sep) == Split(a, sep) + Split(b, sep)
  {
    if |b| == 0 {
      assert a + [sep] + b == a + [sep];
      SplitSnoc(a, sep, sep);
    } else {
      var b' := b[..|b| - 1];
      var c := b[|b| - 1];
      var s0 := a + [sep] + b';
      assert b == b' + [c];
      assert a + [sep] + b == s0 + [c];
      SplitAppend(a, b', sep);
      SplitSnoc(s0, c, sep);
      SplitSnoc(b', c, sep);
      ExtendConcat(Split(a, sep), Split(b', sep), c, sep);
    }
  }

  /** Cutting the joined text gives back the pieces, when none contains the separator. */
  lemma {:induction false} SplitJoin(ps: seq<string>, sep: char)
    requires |ps| >= 1
    requires NoneContains(ps, sep)
    ensures Split(Join(ps, sep), sep) == ps
  {
    if |ps| == 1 {
      SplitWithout(ps[0], sep);
    } else {
      var init := ps[..|ps| - 1];
      SplitJoin(init, sep);
      SplitAppend(Join(init, sep), ps[|ps| - 1], sep);
      SplitWithout(ps[|ps| - 1], sep);
      assert init + [ps[|ps| - 1]] == ps;
    }
  }

  /** Five separator-free fields joined by the separator split back into those five. */
  lemma SplitFive(a: string, b: string, c: string, d: string, e: string, sep: char)
    requires sep !in a && sep !in b && sep !in c && sep !in d && sep !in e
    ensures Split(a + [sep] + b + [sep] + c + [sep] + d + [sep] + e, sep) == [a, b, c, d, e]
  {
    SplitWithout(a, sep);
    SplitWithout(b, sep);
    SplitWithout(c, sep);
    SplitWithout(d, sep);
    SplitWithout(e, sep);
    SplitAppend(a, b, sep);
    SplitAppend(a + [sep] + b, c, sep);
    SplitAppend(a + [sep] + b + [sep] + c, d, sep);
    SplitAppend(a + [sep] + b + [sep] + c + [sep] + d, e, sep);
  }

  /** Text before the first separator is the first piece, whatever follows. */
  lemma SplitHead(a: string, rest: string, sep: char)
    requires sep !in a
    ensures Split(a + [sep] + rest, sep)[0] == a
    ensures |Split(a + [sep] + rest, sep)| == 1 + |Split(rest, sep)|
  {
    SplitWithout(a, sep);
    SplitAppend(a, rest, sep);
  }
}
