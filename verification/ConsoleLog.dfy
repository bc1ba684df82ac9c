/** The bounded console log and why it shows the tail of the unbounded one. */
module ConsoleLog {
  import opened Numbers

  const MAX_CONSOLE_LINES := 100

  /** The part of a string that c_str() hands on. */
  function CStr(s: string): string {
    if s == "" || s[0] == '\0' then "" else [s[0]] + CStr(s[1..])
  }

  function Newlines(s: string): nat {
    if s == "" then 0 else (if s[0] == '\n' then 1 else 0) + Newlines(s[1..])
  }

  /** What is left after the k-th newline. */
  function DropLines(s: string, k: nat): string
    requires k <= Newlines(s)
    decreases s
  {
    if k == 0 then s else DropLines(s[1..], if s[0] == '\n' then k - 1 else k)
  }

  /** Just enough leading lines dropped to leave at most the maximum. */
  function Trim(s: string): string {
    DropLines(s, if Newlines(s) > MAX_CONSOLE_LINES then Newlines(s) - MAX_CONSOLE_LINES else 0)
  }

  lemma {:induction false} NewlinesOfSum(a: string, b: string)
    ensures Newlines(a + b) == Newlines(a) + Newlines(b)
  {
    if a == "" {
      assert a + b == b;
    } else {
      assert (a + b)[1..] == a[1..] + b;
      NewlinesOfSum(a[1..], b);
    }
  }

  lemma {:induction false} NewlinesAfterDrop(s: string, k: nat)
    requires k <= Newlines(s)
    ensures Newlines(DropLines(s, k)) == Newlines(s) - k
    decreases s
  {
    if k > 0 {
      NewlinesAfterDrop(s[1..], if s[0] == '\n' then k - 1 else k);
    }
  }

  /** Dropping lines of the first part leaves the second part alone. */
  lemma {:induction false} DropFromSum(a: string, b: string, k: nat)
    requires k <= Newlines(a)
    ensures k <= Newlines(a + b) && DropLines(a + b, k) == DropLines(a, k) + b
    decreases a
  {
    NewlinesOfSum(a, b);
    if k > 0 {
      assert (a + b)[1..] == a[1..] + b;
      DropFromSum(a[1..], b, if a[0] == '\n' then k - 1 else k);
    }
  }

  lemma {:induction false} DropTwice(s: string, i: nat, j: nat)
    requires i + j <= Newlines(s)
    ensures j <= Newlines(DropLines(s, i)) && DropLines(DropLines(s, i), j) == DropLines(s, i + j)
    decreases s
  {
    NewlinesAfterDrop(s, i);
    if i > 0 {
      DropTwice(s[1..], if s[0] == '\n' then i - 1 else i, j);
    }
  }

  lemma TrimBounds(s: string)
    ensures Newlines(Trim(s)) == Min(Newlines(s), MAX_CONSOLE_LINES)
  {
    NewlinesAfterDrop(s, if Newlines(s) > MAX_CONSOLE_LINES then Newlines(s) - MAX_CONSOLE_LINES else 0);
  }

  /** Trimming early makes no difference to what a later trim leaves. */
  lemma TrimAbsorbs(s: string, t: string)
    ensures Trim(Trim(s) + t) == Trim(s + t)
  {
    NewlinesOfSum(s, t);
    NewlinesOfSum(Trim(s), t);
    TrimBounds(s);
    if Newlines(s) > MAX_CONSOLE_LINES {
      var k := Newlines(s) - MAX_CONSOLE_LINES;
      DropFromSum(s, t, k);
      DropTwice(s + t, k, Newlines(t));
    }
  }

  // ---- an independent description of the trimmed text ----

  predicate LineStart(s: string, i: int) {
    0 <= i <= |s| && (i == 0 || s[i - 1] == '\n')
  }

  /** t is the suffix of s from i, the earliest line start that leaves at most the maximum. */
  predicate LongestTail(s: string, t: string, i: int) {
    && LineStart(s, i) && t == s[i..] && Newlines(t) <= 100
    && forall j :: 0 <= j < i && LineStart(s, j) ==> Newlines(s[j..]) > 100
  }

  lemma {:induction false} DropIsSuffix(s: string, k: nat) returns (i: nat)
    requires k <= Newlines(s)
    ensures i <= |s| && DropLines(s, k) == s[i..]
    ensures k == 0 ==> i == 0
    ensures k > 0 ==> i > 0 && s[i - 1] == '\n'
    decreases s
  {
    if k == 0 {
      i := 0;
    } else {
      var m := if s[0] == '\n' then k - 1 else k;
      var j := DropIsSuffix(s[1..], m);
      i := j + 1;
      assert s[1..][j..] == s[i..];
      assert j > 0 ==> s[1..][j - 1] == s[i - 1];
    }
  }

  /** An earlier line start keeps at least one newline more. */
  lemma EarlierLineStart(s: string, j: int, i: int)
    requires 0 <= j < i <= |s| && s[i - 1] == '\n'
    ensures Newlines(s[j..]) > Newlines(s[i..])
  {
    assert s[j..] == s[j..i - 1] + (['\n'] + s[i..]);
    NewlinesOfSum(s[j..i - 1], ['\n'] + s[i..]);
    assert (['\n'] + s[i..])[1..] == s[i..];
  }

  /** The log shows whole lines, as many as fit. */
  lemma TrimIsLongestTail(s: string) returns (i: nat)
    ensures LongestTail(s, Trim(s), i)
  {
    var k := if Newlines(s) > MAX_CONSOLE_LINES then Newlines(s) - MAX_CONSOLE_LINES else 0;
    i := DropIsSuffix(s, k);
    TrimBounds(s);
    forall j | 0 <= j < i && LineStart(s, j) ensures Newlines(s[j..]) > MAX_CONSOLE_LINES {
      EarlierLineStart(s, j, i);
    }
  }

  // ---- runs ----

  /** Everything ever appended, after an initial text. */
  function FullLog(text: string, lines: seq<string>): string {
    if lines == [] then text
    else FullLog(text, lines[..|lines| - 1]) + CStr(lines[|lines| - 1]) + "\n"
  }

  /** The bounded log after the same lines. */
  function BoundedLog(text: string, lines: seq<string>): string {
    if lines == [] then text
    else Trim(BoundedLog(text, lines[..|lines| - 1]) + CStr(lines[|lines| - 1]) + "\n")
  }

  /** The bounded log is the trimmed full log after every run of appends. */
  lemma {:induction false} BoundedRefinesFull(text: string, lines: seq<string>)
    requires Newlines(text) <= MAX_CONSOLE_LINES
    ensures BoundedLog(text, lines) == Trim(FullLog(text, lines))
  {
    if lines != [] {
      var n := |lines| - 1;
      BoundedRefinesFull(text, lines[..n]);
      var t := CStr(lines[n]) + "\n";
      var full, bounded := FullLog(text, lines[..n]), BoundedLog(text, lines[..n]);
      TrimAbsorbs(full, t);
      assert bounded + CStr(lines[n]) + "\n" == bounded + t && full + CStr(lines[n]) + "\n" == full + t;
    }
  }

  // ---- the filter in front of the log ----

  predicate Digit(c: char) {
    '0' <= c <= '9'
  }

  /** Klipper's periodic temperature report. */
  predicate IsTempReport(line: string) {
    |line| > 5 && line[..5] == "ok T:" && (Digit(line[5]) || line[5] == '-')
  }

  function WithoutReports(lines: seq<string>): seq<string> {
    if lines == [] then []
    else
      var rest := WithoutReports(lines[..|lines| - 1]);
      if IsTempReport(lines[|lines| - 1]) then rest else rest + [lines[|lines| - 1]]
  }

  lemma {:induction false} BoundedLogOfSum(text: string, a: seq<string>, b: seq<string>)
    ensures BoundedLog(BoundedLog(text, a), b) == BoundedLog(text, a + b)
  {
    if b == [] {
      assert a + b == a;
    } else {
      assert (a + b)[..|a + b| - 1] == a + b[..|b| - 1];
      BoundedLogOfSum(text, a, b[..|b| - 1]);
    }
  }

  // ---- what is logged of a line, and which lines are ----

  /** Everything before the first NUL. */
  lemma {:induction false} CStrIsPrefix(s: string)
    ensures CStr(s) <= s && '\0' !in CStr(s)
    ensures |CStr(s)| < |s| ==> s[|CStr(s)|] == '\0'
  {
    if s != "" && s[0] != '\0' {
      CStrIsPrefix(s[1..]);
      assert s == [s[0]] + s[1..];
    }
  }

  /** Temperature reports start with "ok T:" and a digit or a minus sign. */
  lemma ReportForm(line: string)
    ensures IsTempReport(line) <==>
            && |line| >= 6 && line[0] == 'o' && line[1] == 'k' && line[2] == ' ' && line[3] == 'T' && line[4] == ':'
            && line[5] in "-0123456789"
  {
    if |line| >= 6 && line[0] == 'o' && line[1] == 'k' && line[2] == ' ' && line[3] == 'T' && line[4] == ':' {
      assert line[..5] == "ok T:";
    }
    if |line| > 5 && line[..5] == "ok T:" {
      assert line[0] == line[..5][0] && line[1] == line[..5][1] && line[2] == line[..5][2];
      assert line[3] == line[..5][3] && line[4] == line[..5][4];
    }
    DigitsAsString(if |line| > 5 then line[5] else '-');
  }

  lemma DigitsAsString(c: char)
    ensures c in "-0123456789" <==> c == '-' || Digit(c)
  {
    assert "-0123456789" == ['-', '0', '1', '2', '3', '4', '5', '6', '7', '8', '9'];
    if Digit(c) {
      assert c == '0' || c == '1' || c == '2' || c == '3' || c == '4' || c == '5' || c == '6' || c == '7' || c == '8'
             || c == '9';
    }
  }

  /** Line by line: a report is dropped, any other line stays, in order. */
  lemma {:induction false} ReportsAreDropped(a: seq<string>, b: seq<string>, line: string)
    ensures WithoutReports(a + b) == WithoutReports(a) + WithoutReports(b)
    ensures WithoutReports([line]) == if IsTempReport(line) then [] else [line]
  {
    hide IsTempReport;
    assert [line][..0] == [];
    if b == [] {
      assert a + b == a;
    } else {
      assert (a + b)[..|a + b| - 1] == a + b[..|b| - 1];
      ReportsAreDropped(a, b[..|b| - 1], line);
    }
  }

  /** The output text area. */
  class OutputLog {
    var output: string

    constructor ()
      ensures output == ""
    {
      output := "";
    }

    method AppendOutput(line: string)
      modifies this
      ensures output == Trim(old(output) + CStr(line) + "\n")
    {
      output := output + CStr(line);
      output := output + "\n";
      TrimOutputLines();
    }

    /** Counts the newlines and cuts after the surplus ones; the search never runs off the end. */
    method TrimOutputLines()
      modifies this
      ensures output == Trim(old(output))
    {
      hide DropLines, Newlines;
      var newlines := CountNewlines();
      DropNothing(output);
      if newlines <= MAX_CONSOLE_LINES {
        return;
      }
      var text := output;
      var toSkip := newlines - MAX_CONSOLE_LINES;
      var pos := 0;
      var i := 0;
      while i < toSkip
        invariant 0 <= i <= toSkip && 0 <= pos <= |text| && text == output == old(output)
        invariant text[pos..] == DropLines(text, i)
      {
        ghost var lineStart := pos;
        pos := FindNewline(text, pos);
        SkipLine(text, i, lineStart, pos);
        assert pos < |text|;  // so the source's npos exit is not taken
        pos := pos + 1;
        i := i + 1;
      }
      output := text[pos..];
    }

    method CountNewlines() returns (n: nat)
      ensures n == Newlines(output)
    {
      n := 0;
      var p := 0;
      while p < |output|
        invariant 0 <= p <= |output| && n + Newlines(output[p..]) == Newlines(output)
      {
        assert output[p..][1..] == output[p + 1..];
        if output[p] == '\n' {
          n := n + 1;
        }
        p := p + 1;
      }
    }

    /** handle_macro_response: temperature reports are not shown. */
    method ShowResponses(lines: seq<string>)
      modifies this
      ensures output == BoundedLog(old(output), WithoutReports(lines))
    {
      for i := 0 to |lines|
        invariant output == BoundedLog(old(output), WithoutReports(lines[..i]))
      {
        assert lines[..i + 1][..i] == lines[..i];
        if !IsTempReport(lines[i]) {
          var shown := WithoutReports(lines[..i]);
          assert (shown + [lines[i]])[..|shown|] == shown;
          AppendOutput(lines[i]);
        }
      }
      assert lines[..|lines|] == lines;
    }
  }

  /** The first newline at or after pos, or the length of the text. */
  method FindNewline(text: string, pos: nat) returns (i: nat)
    requires pos <= |text|
    ensures pos <= i <= |text| && (i < |text| ==> text[i] == '\n')
    ensures forall j :: pos <= j < i ==> text[j] != '\n'
  {
    i := pos;
    while i < |text| && text[i] != '\n'
      invariant pos <= i <= |text|
      invariant forall j :: pos <= j < i ==> text[j] != '\n'
    {
      i := i + 1;
    }
  }

  /** With a newline left, the search finds it, and the next line starts right after it. */
  lemma {:induction false} NextLine(text: string, pos: nat, found: nat)
    requires pos <= found <= |text| && (found < |text| ==> text[found] == '\n')
    requires forall j :: pos <= j < found ==> text[j] != '\n'
    requires Newlines(text[pos..]) > 0
    ensures found < |text| && DropLines(text[pos..], 1) == text[found + 1..]
    decreases found - pos
  {
    assert text[pos..][1..] == text[pos + 1..];
    if pos < found {
      NextLine(text, pos + 1, found);
    }
  }

  lemma DropNothing(s: string)
    ensures DropLines(s, 0) == s
  {
  }

  /** Past the newline found, one line more is dropped. */
  lemma SkipLine(text: string, i: nat, pos: nat, found: nat)
    requires i < Newlines(text) && pos <= |text| && text[pos..] == DropLines(text, i)
    requires pos <= found <= |text| && (found < |text| ==> text[found] == '\n')
    requires forall j :: pos <= j < found ==> text[j] != '\n'
    ensures found < |text| && text[found + 1..] == DropLines(text, i + 1)
  {
    hide DropLines, Newlines;
    NewlinesAfterDrop(text, i);
    NextLine(text, pos, found);
    DropTwice(text, i, 1);
  }
}
