/** Tokenising an instance file that has already been read into lines: each
    line is stripped, split on whitespace, and every token converted with
    Python's `int`. A token `int` refuses makes the whole read fail; the
    failure names the first offending line. */
module ReadData {
  import opened Wrappers

  /** The characters Python's `str.isspace` accepts; `str.strip()` and
      `str.split()` without arguments break on exactly these. */
  predicate IsSpace(c: char)
  {
    || c == ' '
    || '\t' <= c <= '\r'
    || '\U{1C}' <= c <= '\U{1F}'
    || c == '\U{85}' || c == '\U{A0}' || c == '\U{1680}'
    || '\U{2000}' <= c <= '\U{200A}'
    || c == '\U{2028}' || c == '\U{2029}' || c == '\U{202F}' || c == '\U{205F}' || c == '\U{3000}'
  }

  predicate NoSpace(s: string)
  {
    forall k :: 0 <= k < |s| ==> !IsSpace(s[k])
  }

  predicate AllSpace(s: string)
  {
    forall k :: 0 <= k < |s| ==> IsSpace(s[k])
  }

  /** What `split()` yields: a non-empty run of non-whitespace characters. */
  predicate IsWord(w: string)
  {
    |w| > 0 && NoSpace(w)
  }

  // ---------------------------------------------------------------------
  // strip() and split()

  /** `s` without its leading whitespace. */
  function DropSpace(s: string): (t: string)
    ensures |t| <= |s|
    ensures t == [] || !IsSpace(t[0])
  {
    if |s| > 0 && IsSpace(s[0]) then DropSpace(s[1..]) else s
  }

  /** `s` without its trailing whitespace. */
  function DropTrailingSpace(s: string): (t: string)
    ensures |t| <= |s|
    ensures t == [] || !IsSpace(t[|t| - 1])
  {
    if |s| > 0 && IsSpace(s[|s| - 1]) then DropTrailingSpace(s[..|s| - 1]) else s
  }

  /** What `rstrip()` drops is a whitespace suffix: the rest is a prefix. */
  lemma {:induction false} DropTrailingSplit(s: string)
    ensures s == DropTrailingSpace(s) + s[|DropTrailingSpace(s)|..]
    ensures AllSpace(s[|DropTrailingSpace(s)|..])
  {
    if |s| > 0 && IsSpace(s[|s| - 1]) {
      var init := s[..|s| - 1];
      DropTrailingSplit(init);
      var e := DropTrailingSpace(init);
      assert s[|e|..] == init[|e|..] + [s[|s| - 1]];
    }
  }

  /** `str.strip()`: both ends without whitespace. */
  function Strip(s: string): (t: string)
    ensures |t| <= |s|
    ensures t == [] || (!IsSpace(t[0]) && !IsSpace(t[|t| - 1]))
  {
    DropTrailingSplit(DropSpace(s));
    DropTrailingSpace(DropSpace(s))
  }

  /** The longest prefix of `s` holding no whitespace. */
  function TakeWord(s: string): (w: string)
    ensures |w| <= |s|
    ensures NoSpace(w)
    ensures |s| > 0 && !IsSpace(s[0]) ==> |w| > 0
  {
    if |s| == 0 || IsSpace(s[0]) then [] else [s[0]] + TakeWord(s[1..])
  }

  /** `str.split()`: the maximal runs of non-whitespace characters, in order. */
  function Words(s: string): (ws: seq<string>)
    ensures forall k :: 0 <= k < |ws| ==> IsWord(ws[k])
    decreases |s|
  {
    var t := DropSpace(s);
    if |t| == 0 then []
    else
      var w := TakeWord(t);
      [w] + Words(t[|w|..])
  }

  /** The words joined by single spaces. */
  function Unwords(ws: seq<string>): string
  {
    if |ws| == 0 then "" else if |ws| == 1 then ws[0] else ws[0] + " " + Unwords(ws[1..])
  }

  // ---------------------------------------------------------------------
  // int()

  predicate IsDigit(c: char)
  {
    '0' <= c <= '9'
  }

  function DigitValue(c: char): nat
    requires IsDigit(c)
  {
    c as int - '0' as int
  }

  /** The body `int` accepts after an optional sign: ASCII digits, where a
      single underscore may stand between two digits. Read from the right:
      a digit, or a numeral followed by a digit or by `_` and a digit. */
  predicate IsNumeral(s: string)
  {
    && |s| > 0
    && IsDigit(s[|s| - 1])
    && (|| |s| == 1
        || IsNumeral(s[..|s| - 1])
        || (|s| >= 3 && s[|s| - 2] == '_' && IsNumeral(s[..|s| - 2])))
  }

  /** The decimal value of a numeral, underscores skipped. */
  function NumeralValue(s: string): nat
    requires IsNumeral(s)
  {
    var d := DigitValue(s[|s| - 1]);
    if |s| == 1 then d
    else if s[|s| - 2] == '_' then
      assert s[..|s| - 1][|s| - 2] == '_';
      assert !IsNumeral(s[..|s| - 1]);
      NumeralValue(s[..|s| - 2]) * 10 + d
    else NumeralValue(s[..|s| - 1]) * 10 + d
  }

  /** `int(token)` in base 10: an optional `+` or `-`, then a numeral. */
  function ParseInt(token: string): (r: Option<int>)
    ensures r.Some? <==>
      if |token| > 0 && (token[0] == '+' || token[0] == '-') then IsNumeral(token[1..]) else IsNumeral(token)
  {
    var negative := |token| > 0 && token[0] == '-';
    var body := if |token| > 0 && (token[0] == '+' || token[0] == '-') then token[1..] else token;
    if IsNumeral(body) then
      var magnitude: int := NumeralValue(body);
      Some(if negative then -magnitude else magnitude)
    else None
  }

  /** Every word converted, in order; `None` as soon as one is refused. */
  function ParseAll(ws: seq<string>): (r: Option<seq<int>>)
    ensures r.Some? <==> forall k :: 0 <= k < |ws| ==> ParseInt(ws[k]).Some?
    ensures r.Some? ==> |r.value| == |ws| && forall k :: 0 <= k < |ws| ==> Some(r.value[k]) == ParseInt(ws[k])
  {
    if |ws| == 0 then Some([])
    else
      var init := ParseAll(ws[..|ws| - 1]);
      var last := ParseInt(ws[|ws| - 1]);
      if init.Some? && last.Some? then Some(init.value + [last.value]) else None
  }

  /** `ParseAll`'s contract for the words of a stripped line. */
  lemma ParseWordsOfLine(line: string)
    ensures var ws := Words(Strip(line));
      && (ParseAll(ws).Some? <==> forall k :: 0 <= k < |ws| ==> ParseInt(ws[k]).Some?)
      && (ParseAll(ws).Some? ==>
            |ParseAll(ws).value| == |ws| && forall k :: 0 <= k < |ws| ==> Some(ParseAll(ws).value[k]) == ParseInt(ws[k]))
  {
  }

  /** One line of the file: `[int(x) for x in line.strip().split()]`, a list
      exactly when every word converts, holding the words' values in order. */
  function ParseLine(line: string): (r: Option<seq<int>>)
    ensures var ws := Words(Strip(line));
      && (r.Some? <==> forall k :: 0 <= k < |ws| ==> ParseInt(ws[k]).Some?)
      && (r.Some? ==> |r.value| == |ws| && forall k :: 0 <= k < |ws| ==> Some(r.value[k]) == ParseInt(ws[k]))
  {
    ParseWordsOfLine(line);
    ParseAll(Words(Strip(line)))
  }

  /** The whole file: one list per line, each converted by `parse`, or the
      index of the first line `parse` refuses. */
  function Collect(parse: string -> Option<seq<int>>, lines: seq<string>): (r: Result<seq<seq<int>>, nat>)
    ensures r.Ok? <==> forall k :: 0 <= k < |lines| ==> parse(lines[k]).Some?
    ensures r.Ok? ==> |r.value| == |lines| && forall k :: 0 <= k < |lines| ==> Some(r.value[k]) == parse(lines[k])
    ensures r.Err? ==> r.error < |lines| && parse(lines[r.error]).None?
                       && forall k :: 0 <= k < r.error ==> parse(lines[k]).Some?
  {
    if |lines| == 0 then Ok([])
    else
      var prefix := lines[..|lines| - 1];
      assert forall k :: 0 <= k < |prefix| ==> prefix[k] == lines[k];
      var init := Collect(parse, prefix);
      if init.Err? then Err(init.error)
      else
        var last := parse(lines[|lines| - 1]);
        if last.None? then Err(|lines| - 1)
        else
          var rows := init.value + [last.value];
          assert forall k :: 0 <= k < |prefix| ==> rows[k] == init.value[k];
          Ok(rows)
  }

  /** The first refused line ends the read: lines after it do not matter. */
  lemma CollectStops(parse: string -> Option<seq<int>>, lines: seq<string>, k: nat)
    requires k < |lines| && Collect(parse, lines[..k]).Ok? && parse(lines[k]).None?
    ensures Collect(parse, lines) == Err(k)
  {
    assert forall j :: 0 <= j < k ==> lines[..k][j] == lines[j];
  }

  /** `read_data` without the `open`: the loop appending one list per line. */
  method ReadLines(lines: seq<string>) returns (r: Result<seq<seq<int>>, nat>)
    ensures r == Collect(ParseLine, lines)
  {
    var rows: seq<seq<int>> := [];
    for k := 0 to |lines|
      invariant Collect(ParseLine, lines[..k]) == Ok(rows)
    {
      assert lines[..k + 1][..k] == lines[..k];
      var row := ParseLine(lines[k]);
      if row.None? {
        CollectStops(ParseLine, lines, k);
        return Err(k);
      }
      rows := rows + [row.value];
    }
    assert lines[..|lines|] == lines;
    return Ok(rows);
  }
}
