/** What the tokeniser guarantees: `split()` takes back what single spaces
    joined, `strip()` before `split()` changes nothing, a line ending is
    ignored, `int` reads back every decimal rendering, and so an instance
    written out one list per line is read back exactly. */
module ReadDataProperties {
  import opened Wrappers
  import opened ReadData

  // ---------------------------------------------------------------------
  // Decimal rendering and int()

  function Digit(d: nat): (c: char)
    requires d < 10
    ensures IsDigit(c) && DigitValue(c) == d
  {
    ('0' as int + d) as char
  }

  /** The decimal digits of `n`, most significant first. */
  function ShowNat(n: nat): (s: string)
    ensures |s| > 0 && forall k :: 0 <= k < |s| ==> IsDigit(s[k])
  {
    if n < 10 then [Digit(n)] else ShowNat(n / 10) + [Digit(n % 10)]
  }

  /** `str(n)` for an integer. */
  function ShowInt(n: int): string
  {
    if n < 0 then "-" + ShowNat(-n) else ShowNat(n)
  }

  lemma {:induction false} NumeralShowNat(n: nat)
    ensures IsNumeral(ShowNat(n)) && NumeralValue(ShowNat(n)) == n
  {
    if n >= 10 {
      NumeralShowNat(n / 10);
      var s := ShowNat(n);
      var prefix := ShowNat(n / 10);
      assert s[..|s| - 1] == prefix;
      assert s[|s| - 2] == prefix[|prefix| - 1];
    }
  }

  /** `int(str(n)) == n`. */
  lemma ParseShowInt(n: int)
    ensures ParseInt(ShowInt(n)) == Some(n)
  {
    if n < 0 {
      NumeralShowNat(-n);
      assert ShowInt(n)[1..] == ShowNat(-n);
    } else {
      NumeralShowNat(n);
      assert IsDigit(ShowInt(n)[0]);
    }
  }

  lemma ShowIntIsWord(n: int)
    ensures IsWord(ShowInt(n))
  {
    var s := ShowInt(n);
    forall k | 0 <= k < |s| ensures !IsSpace(s[k]) {
      if n < 0 && k > 0 {
        assert s[k] == ShowNat(-n)[k - 1];
      }
    }
  }

  // ---------------------------------------------------------------------
  // split() and strip()

  /** Nothing but whitespace to drop: the rest is empty. */
  lemma {:induction false} DropAllSpace(u: string)
    requires AllSpace(u)
    ensures DropSpace(u) == []
  {
    if |u| > 0 {
      DropAllSpace(u[1..]);
    }
  }

  lemma {:induction false} DropSpaceAppend(t: string, u: string)
    ensures DropSpace(t + u) == if DropSpace(t) == [] then DropSpace(u) else DropSpace(t) + u
  {
    if |t| == 0 {
      assert t + u == u;
    } else if IsSpace(t[0]) {
      assert (t + u)[1..] == t[1..] + u;
      DropSpaceAppend(t[1..], u);
    }
  }

  lemma {:induction false} TakeWordAppend(t: string, u: string)
    requires |TakeWord(t)| < |t| || u == [] || IsSpace(u[0])
    ensures TakeWord(t + u) == TakeWord(t)
  {
    if |t| == 0 {
      assert t + u == u;
    } else if !IsSpace(t[0]) {
      assert (t + u)[1..] == t[1..] + u;
      TakeWordAppend(t[1..], u);
    }
  }

  /** A word followed by whitespace or by nothing is taken whole. */
  lemma {:induction false} TakeWordPrefix(w: string, rest: string)
    requires NoSpace(w) && (rest == [] || IsSpace(rest[0]))
    ensures TakeWord(w + rest) == w
  {
    if |w| == 0 {
      assert w + rest == rest;
    } else {
      assert (w + rest)[1..] == w[1..] + rest;
      TakeWordPrefix(w[1..], rest);
      assert [w[0]] + w[1..] == w;
    }
  }

  /** Splitting a word followed by whitespace or by nothing yields that word first. */
  lemma WordsCons(w: string, rest: string)
    requires IsWord(w) && (rest == [] || IsSpace(rest[0]))
    ensures Words(w + rest) == [w] + Words(rest)
  {
    TakeWordPrefix(w, rest);
    assert DropSpace(w + rest) == w + rest;
    assert (w + rest)[|w|..] == rest;
  }

  /** Leading whitespace does not change the split. */
  lemma WordsDropSpace(s: string)
    ensures Words(DropSpace(s)) == Words(s)
  {
    assert DropSpace(DropSpace(s)) == DropSpace(s);
  }

  /** Trailing whitespace does not change the split. */
  lemma {:induction false} WordsTrailing(t: string, u: string)
    requires AllSpace(u)
    ensures Words(t + u) == Words(t)
    decreases |t|
  {
    var d := DropSpace(t);
    DropSpaceAppend(t, u);
    if d == [] {
      DropAllSpace(u);
    } else {
      var w := TakeWord(d);
      TakeWordAppend(d, u);
      assert (d + u)[|w|..] == d[|w|..] + u;
      WordsTrailing(d[|w|..], u);
    }
  }

  /** `line.strip().split()` is `line.split()`. */
  lemma StripThenSplit(s: string)
    ensures Words(Strip(s)) == Words(s)
  {
    var d := DropSpace(s);
    var e := DropTrailingSpace(d);
    DropTrailingSplit(d);
    WordsTrailing(e, d[|e|..]);
    WordsDropSpace(s);
  }

  /** A line ending left on a line by `readlines` does not change its list. */
  lemma LineEndIgnored(line: string)
    ensures ParseLine(line + "\n") == ParseLine(line)
  {
    StripThenSplit(line + "\n");
    StripThenSplit(line);
    WordsTrailing(line, "\n");
  }

  /** The words joined by single spaces split back into the same words. */
  lemma {:induction false} WordsUnwords(ws: seq<string>)
    requires forall k :: 0 <= k < |ws| ==> IsWord(ws[k])
    ensures Words(Unwords(ws)) == ws
  {
    if |ws| == 1 {
      WordsCons(ws[0], "");
      assert ws[0] + "" == ws[0];
    } else if |ws| > 1 {
      var rest := Unwords(ws[1..]);
      WordsUnwords(ws[1..]);
      assert ws[0] + " " + rest == ws[0] + (" " + rest);
      WordsCons(ws[0], " " + rest);
      assert DropSpace(" " + rest) == DropSpace(rest) by {
        assert (" " + rest)[1..] == rest;
      }
      assert [ws[0]] + ws[1..] == ws;
    }
  }

  // ---------------------------------------------------------------------
  // Whole lines and files

  /** Every integer of a list written out. */
  function ShowAll(row: seq<int>): (ws: seq<string>)
    ensures |ws| == |row| && forall t :: 0 <= t < |row| ==> ws[t] == ShowInt(row[t])
  {
    if |row| == 0 then [] else ShowAll(row[..|row| - 1]) + [ShowInt(row[|row| - 1])]
  }

  /** A list of integers written on one line, separated by single spaces. */
  function ShowRow(row: seq<int>): string
  {
    Unwords(ShowAll(row))
  }

  /** An instance written out one list per line. */
  function Render(rows: seq<seq<int>>): (lines: seq<string>)
    ensures |lines| == |rows| && forall k :: 0 <= k < |rows| ==> lines[k] == ShowRow(rows[k])
  {
    if |rows| == 0 then [] else Render(rows[..|rows| - 1]) + [ShowRow(rows[|rows| - 1])]
  }

  /** A line written by `ShowRow` is read back as the same list. */
  lemma ParseShowRow(row: seq<int>)
    ensures ParseLine(ShowRow(row)) == Some(row)
  {
    var ws := ShowAll(row);
    forall k | 0 <= k < |ws| ensures IsWord(ws[k]) && ParseInt(ws[k]) == Some(row[k]) {
      ShowIntIsWord(row[k]);
      ParseShowInt(row[k]);
    }
    WordsUnwords(ws);
    StripThenSplit(Unwords(ws));
    var r := ParseAll(ws);
    assert r.value == row;
  }

  /** An instance written out one list per line is read back exactly. */
  lemma ReadRendered(rows: seq<seq<int>>)
    ensures Collect(ParseLine, Render(rows)) == Ok(rows)
  {
    var lines := Render(rows);
    forall k | 0 <= k < |rows| ensures ParseLine(lines[k]) == Some(rows[k]) {
      ParseShowRow(rows[k]);
    }
    var r := Collect(ParseLine, lines);
    assert r.value == rows;
  }

  /** Lines that `parse` reads alike are collected alike. */
  lemma {:induction false} CollectCongruent(parse: string -> Option<seq<int>>, a: seq<string>, b: seq<string>)
    requires |a| == |b| && forall k :: 0 <= k < |a| ==> parse(a[k]) == parse(b[k])
    ensures Collect(parse, a) == Collect(parse, b)
  {
    if |a| > 0 {
      var a', b' := a[..|a| - 1], b[..|b| - 1];
      assert forall k :: 0 <= k < |a'| ==> a'[k] == a[k] && b'[k] == b[k];
      CollectCongruent(parse, a', b');
    }
  }

  /** Reading two files one after the other: when both read, the lists of the
      first are followed by those of the second. */
  lemma CollectAppend(parse: string -> Option<seq<int>>, a: seq<string>, b: seq<string>)
    requires Collect(parse, a).Ok? && Collect(parse, b).Ok?
    ensures Collect(parse, a + b) == Ok(Collect(parse, a).value + Collect(parse, b).value)
  {
    var ra, rb, ab := Collect(parse, a).value, Collect(parse, b).value, a + b;
    forall k | 0 <= k < |ab| ensures parse(ab[k]) == Some((ra + rb)[k]) {
      if k >= |a| {
        assert ab[k] == b[k - |a|];
      }
    }
    var r := Collect(parse, ab);
    assert r.value == ra + rb;
  }

  /** A blank line reads as the empty list. */
  lemma BlankLineReadsEmpty(blank: string)
    requires AllSpace(blank)
    ensures ParseLine(blank) == Some([])
  {
    DropAllSpace(blank);
  }

  /** The lines as `readlines` returns them, each ending in `\n`. */
  function WithLineEnds(lines: seq<string>): (ended: seq<string>)
    ensures |ended| == |lines| && forall k :: 0 <= k < |lines| ==> ended[k] == lines[k] + "\n"
  {
    if |lines| == 0 then [] else WithLineEnds(lines[..|lines| - 1]) + [lines[|lines| - 1] + "\n"]
  }

  /** Reading the lines with their `\n` kept gives the same lists and the same first bad line. */
  lemma ReadIgnoresLineEnds(lines: seq<string>)
    ensures Collect(ParseLine, WithLineEnds(lines)) == Collect(ParseLine, lines)
  {
    var ended := WithLineEnds(lines);
    forall k | 0 <= k < |lines| ensures ParseLine(ended[k]) == ParseLine(lines[k]) {
      LineEndIgnored(lines[k]);
    }
    CollectCongruent(ParseLine, ended, lines);
  }
}
