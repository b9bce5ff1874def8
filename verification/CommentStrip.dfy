/** The comment stripper for kernel CSV files (hsa/codegen.py): block comments are cut by a rescan loop,
    then every line loses its trailing comment, and comment lines disappear. */
module CommentStrip {

  import opened Results

  /** What str.strip removes. */
  predicate IsSpace(c: char) {
    || '\t' <= c <= '\r' || '\U{1c}' <= c <= ' ' || c == '\U{85}' || c == '\U{a0}' || c == '\U{1680}'
    || '\U{2000}' <= c <= '\U{200a}'
    || c == '\U{2028}' || c == '\U{2029}' || c == '\U{202f}' || c == '\U{205f}' || c == '\U{3000}'
  }

  /** Where str.splitlines breaks. */
  predicate IsBreak(c: char) {
    || '\n' <= c <= '\r' || '\U{1c}' <= c <= '\U{1e}' || c == '\U{85}' || c == '\U{2028}' || c == '\U{2029}'
  }

  /** The ten line breaks are blanks; the other blanks are a tab, a unit separator and seventeen spaces. */
  lemma {:induction false} BreaksAreBlanks(c: char)
    ensures IsBreak(c) <==> c as int in {10, 11, 12, 13, 28, 29, 30, 133, 8232, 8233}
    ensures IsSpace(c) && !IsBreak(c)
            <==> c as int in {9, 31, 32, 160, 5760, 8239, 8287, 12288} || 8192 <= c as int <= 8202
  {
  }

  // ---------------------------------------------------------------------------
  // Block comments
  // ---------------------------------------------------------------------------

  predicate PairAt(s: string, a: char, b: char, i: int) {
    0 <= i && i + 1 < |s| && s[i] == a && s[i + 1] == b
  }

  /** The first place at or after from where a is followed by b, or -1. */
  function Find(s: string, a: char, b: char, from: nat): (r: int)
    ensures r == -1 || (from <= r && PairAt(s, a, b, r))
    ensures r == -1 ==> forall i :: from <= i ==> !PairAt(s, a, b, i)
    ensures r != -1 ==> forall i :: from <= i < r ==> !PairAt(s, a, b, i)
    decreases |s| - from
  {
    if from + 1 >= |s| then -1
    else if PairAt(s, a, b, from) then from
    else Find(s, a, b, from + 1)
  }

  function StripBlocks(s: string): string
    decreases |s|
  {
    var start := Find(s, '/', '*', 0);
    if start == -1 then s
    else
      var end := Find(s, '*', '/', start + 2);
      if end == -1 then s[..start] else StripBlocks(s[..start] + s[end + 2..])
  }

  ghost predicate NoOpener(s: string) {
    forall i :: !PairAt(s, '/', '*', i)
  }

  /** No opener survives, not even one that a deletion puts together. */
  lemma {:induction false} BlocksLeaveNoOpener(s: string)
    ensures NoOpener(StripBlocks(s))
    decreases |s|
  {
    var start := Find(s, '/', '*', 0);
    if start != -1 {
      var end := Find(s, '*', '/', start + 2);
      if end != -1 {
        BlocksLeaveNoOpener(s[..start] + s[end + 2..]);
      } else {
        forall i | PairAt(s[..start], '/', '*', i)
          ensures false
        {
          assert PairAt(s, '/', '*', i);
        }
      }
    }
  }

  lemma {:induction false} NoOpenerUnchanged(s: string)
    requires NoOpener(s)
    ensures StripBlocks(s) == s
  {
  }

  // ---------------------------------------------------------------------------
  // Trailing comments
  // ---------------------------------------------------------------------------

  /** The scan from position i, inside quotes or not: where the comment starts, if there is one. */
  function Scan(line: string, i: nat, inQuotes: bool): Option<nat>
    decreases |line| - i
  {
    if i >= |line| then None
    else if line[i] == '"' then
      if inQuotes && i + 1 < |line| && line[i + 1] == '"' then Scan(line, i + 2, inQuotes)
      else Scan(line, i + 1, !inQuotes)
    else if !inQuotes && line[i] == '/' && i + 1 < |line| && line[i + 1] == '/' then
      if i > 0 && line[i - 1] == ':' then Scan(line, i + 2, inQuotes) else Some(i)
    else if !inQuotes && line[i] == '#' then Some(i)
    else if !inQuotes && line[i] == ';' && i > 0 && (line[i - 1] == ' ' || line[i - 1] == '\t') then Some(i)
    else Scan(line, i + 1, inQuotes)
  }

  function RStrip(s: string): (r: string)
    ensures |r| <= |s|
  {
    if s != [] && IsSpace(s[|s| - 1]) then RStrip(s[..|s| - 1]) else s
  }

  /** rstrip cuts exactly the blanks at the end. */
  lemma {:induction false} RStripCutsBlanks(s: string)
    ensures RStrip(s) == s[..|RStrip(s)|]
    ensures forall i :: |RStrip(s)| <= i < |s| ==> IsSpace(s[i])
    ensures RStrip(s) != [] ==> !IsSpace(RStrip(s)[|RStrip(s)| - 1])
  {
    if s != [] && IsSpace(s[|s| - 1]) {
      RStripCutsBlanks(s[..|s| - 1]);
    }
  }

  function StripLine(line: string): string {
    match Scan(line, 0, false)
    case None => line
    case Some(i) => if i <= |line| then RStrip(line[..i]) else line
  }

  predicate IsMark(c: char) {
    c == '/' || c == '#' || c == ';'
  }

  lemma {:induction false} ScanFinds(line: string, i: nat, inQuotes: bool)
    requires Scan(line, i, inQuotes).Some?
    ensures i <= Scan(line, i, inQuotes).value < |line|
    ensures IsMark(line[Scan(line, i, inQuotes).value])
    decreases |line| - i
  {
    if line[i] == '"' {
      if inQuotes && i + 1 < |line| && line[i + 1] == '"' {
        ScanFinds(line, i + 2, inQuotes);
      } else {
        ScanFinds(line, i + 1, !inQuotes);
      }
    } else if !inQuotes && line[i] == '/' && i + 1 < |line| && line[i + 1] == '/' {
      if i > 0 && line[i - 1] == ':' {
        ScanFinds(line, i + 2, inQuotes);
      }
    } else if !inQuotes && line[i] == '#' {
    } else if !inQuotes && line[i] == ';' && i > 0 && (line[i - 1] == ' ' || line[i - 1] == '\t') {
    } else {
      ScanFinds(line, i + 1, inQuotes);
    }
  }

  /** Cutting the line at its comment, or anywhere in the blanks before it, leaves no comment. */
  lemma {:induction false} NothingLeftToCut(line: string, m: nat, k: nat, inQuotes: bool)
    requires Scan(line, k, inQuotes).Some? && m <= Scan(line, k, inQuotes).value < |line|
    requires forall j :: m <= j < Scan(line, k, inQuotes).value ==> IsSpace(line[j])
    ensures Scan(line[..m], k, inQuotes).None?
    decreases |line| - k
  {
    ScanFinds(line, k, inQuotes);
    if k < m {
      assert line[m] != '"';
      if line[k] == '"' {
        if inQuotes && k + 1 < |line| && line[k + 1] == '"' {
          NothingLeftToCut(line, m, k + 2, inQuotes);
        } else {
          NothingLeftToCut(line, m, k + 1, !inQuotes);
        }
      } else if !inQuotes && line[k] == '/' && k + 1 < |line| && line[k + 1] == '/' {
        if k > 0 && line[k - 1] == ':' {
          ScanFinds(line, k + 2, inQuotes);
          NothingLeftToCut(line, m, k + 2, inQuotes);
        }
      } else {
        NothingLeftToCut(line, m, k + 1, inQuotes);
      }
    }
  }

  /** Stripping a line twice is stripping it once. */
  lemma {:induction false} StripLineTwice(line: string)
    ensures StripLine(line) <= line
    ensures StripLine(StripLine(line)) == StripLine(line)
  {
    if Scan(line, 0, false).Some? {
      ScanFinds(line, 0, false);
      var i := Scan(line, 0, false).value;
      var cut := RStrip(line[..i]);
      RStripCutsBlanks(line[..i]);
      assert cut == line[..|cut|];
      NothingLeftToCut(line, |cut|, 0, false);
    }
  }

  /** The loop over the line. */
  method StripLineEndComments(line: string) returns (r: string)
    ensures r == StripLine(line)
  {
    var i, n := 0, |line|;
    var inQuotes := false;
    while i < n
      invariant Scan(line, 0, false) == Scan(line, i, inQuotes)
      decreases n - i
    {
      var c := line[i];
      if c == '"' {
        if inQuotes && i + 1 < n && line[i + 1] == '"' {
          i := i + 2;
          continue;
        }
        inQuotes := !inQuotes;
        i := i + 1;
        continue;
      }
      if !inQuotes {
        if c == '/' && i + 1 < n && line[i + 1] == '/' {
          if i > 0 && line[i - 1] == ':' {
            i := i + 2;
            continue;
          }
          return RStrip(line[..i]);
        }
        if c == '#' {
          return RStrip(line[..i]);
        }
        if c == ';' && i > 0 && (line[i - 1] == ' ' || line[i - 1] == '\t') {
          return RStrip(line[..i]);
        }
      }
      i := i + 1;
    }
    return line;
  }

  // ---------------------------------------------------------------------------
  // Lines
  // ---------------------------------------------------------------------------

  function LStrip(s: string): (r: string)
    ensures |r| <= |s|
  {
    if s != [] && IsSpace(s[0]) then LStrip(s[1..]) else s
  }

  /** lstrip cuts exactly the blanks at the front. */
  lemma {:induction false} LStripCutsBlanks(s: string)
    ensures LStrip(s) == s[|s| - |LStrip(s)|..]
    ensures LStrip(s) != [] ==> !IsSpace(LStrip(s)[0])
    ensures forall i :: 0 <= i < |s| - |LStrip(s)| ==> IsSpace(s[i])
  {
    if s != [] && IsSpace(s[0]) {
      LStripCutsBlanks(s[1..]);
    }
  }

  predicate IsCommentLine(body: string) {
    var t := LStrip(body);
    t != [] && (t[0] == '#' || t[0] == ';' || (t[0] == '/' && |t| > 1 && t[1] == '/'))
  }

  /** Shortening a line at its end cannot turn it into a comment line. */
  lemma {:induction false} PrefixStaysData(body: string, front: string)
    requires front <= body && !IsCommentLine(body)
    ensures !IsCommentLine(front)
  {
    var t, u := LStrip(front), LStrip(body);
    LStripCutsBlanks(front);
    LStripCutsBlanks(body);
    if t != [] {
      var k := |front| - |t|;
      assert front[k] == t[0] == body[k];
      assert |body| - |u| == k;
      assert t <= u;
    }
  }

  /** One past the end of the first line, its line break included. */
  function LineEnd(s: string): (k: nat)
    requires s != []
    ensures 1 <= k <= |s|
  {
    if s[0] == '\r' && |s| > 1 && s[1] == '\n' then 2
    else if IsBreak(s[0]) || |s| == 1 then 1
    else 1 + LineEnd(s[1..])
  }

  function Body(line: string): (r: string)
    ensures |r| <= |line|
  {
    if |line| >= 2 && line[|line| - 2] == '\r' && line[|line| - 1] == '\n' then line[..|line| - 2]
    else if |line| >= 1 && line[|line| - 1] == '\n' then line[..|line| - 1]
    else line
  }

  /** What a line becomes: nothing, or its stripped body with its own ending. */
  function Process(line: string): string {
    if IsCommentLine(Body(line)) then [] else StripLine(Body(line)) + line[|Body(line)|..]
  }

  function LinePass(s: string): string {
    if s == [] then [] else Process(s[..LineEnd(s)]) + LinePass(s[LineEnd(s)..])
  }

  function StripCsv(content: string): string {
    LinePass(StripBlocks(content))
  }

  /** The rescan loop. */
  method StripBlockComments(content: string) returns (out: string)
    ensures out == StripBlocks(content)
  {
    out := content;
    while true
      invariant StripBlocks(out) == StripBlocks(content)
      decreases |out|
    {
      var start := Find(out, '/', '*', 0);
      if start == -1 {
        return;
      }
      var end := Find(out, '*', '/', start + 2);
      if end == -1 {
        out := out[..start];
        return;
      }
      out := out[..start] + out[end + 2..];
    }
  }

  /** The loop over the lines, and the final join. */
  method StripLines(out: string) returns (r: string)
    ensures r == LinePass(out)
  {
    var lines: seq<string>, rest := [], out;
    while rest != []
      invariant Join(lines) + LinePass(rest) == LinePass(out)
      decreases |rest|
    {
      var k := LineEnd(rest);
      var line := rest[..k];
      LinePassStep(rest);
      var body := Body(line);
      if IsCommentLine(body) {
        KeepNothing(lines, LinePass(rest[k..]));
      } else {
        var stripped := StripLineEndComments(body);
        KeepPiece(lines, stripped + line[|body|..], LinePass(rest[k..]));
        lines := lines + [stripped + line[|body|..]];
      }
      rest := rest[k..];
    }
    assert Join(lines) + [] == Join(lines);
    r := Join(lines);
  }

  method StripCsvComments(content: string) returns (r: string)
    ensures r == StripCsv(content)
  {
    var out := StripBlockComments(content);
    r := StripLines(out);
  }

  lemma {:induction false} LinePassStep(s: string)
    requires s != []
    ensures LinePass(s) == Process(s[..LineEnd(s)]) + LinePass(s[LineEnd(s)..])
  {
  }

  lemma {:induction false} KeepNothing(lines: seq<string>, tail: string)
    ensures Join(lines) + ([] + tail) == Join(lines) + tail
  {
    assert [] + tail == tail;
  }

  lemma {:induction false} KeepPiece(lines: seq<string>, piece: string, tail: string)
    ensures Join(lines) + (piece + tail) == Join(lines + [piece]) + tail
  {
    JoinSnoc(lines, piece);
    assert Join(lines) + (piece + tail) == (Join(lines) + piece) + tail;
  }

  function Join(lines: seq<string>): string {
    if lines == [] then [] else lines[0] + Join(lines[1..])
  }

  lemma {:induction false} JoinSnoc(lines: seq<string>, line: string)
    ensures Join(lines + [line]) == Join(lines) + line
  {
    if lines != [] {
      JoinSnoc(lines[1..], line);
      assert (lines + [line])[1..] == lines[1..] + [line];
    }
  }

  // ---------------------------------------------------------------------------
  // Idempotence
  // ---------------------------------------------------------------------------

  /** A text of one line. */
  ghost predicate IsLine(line: string) {
    line != [] && LineEnd(line) == |line|
  }

  predicate EndsInNewline(line: string) {
    line != [] && line[|line| - 1] == '\n'
  }

  /** The first line is one line, and ends in a break unless it is the last. */
  lemma {:induction false} FirstLine(s: string)
    requires s != []
    ensures IsLine(s[..LineEnd(s)])
    ensures LineEnd(s) < |s| ==> IsBreak(s[LineEnd(s) - 1])
  {
    var k := LineEnd(s);
    if !IsBreak(s[0]) && |s| > 1 {
      FirstLine(s[1..]);
      assert s[..k][1..] == s[1..][..k - 1];
    }
  }

  /** A line breaks only at its end. */
  lemma {:induction false} BreaksAtTheEnd(line: string, i: nat)
    requires IsLine(line) && i + 1 < |line| && IsBreak(line[i])
    ensures i + 2 == |line| && line[i] == '\r' && line[i + 1] == '\n'
  {
    if i > 0 {
      BreaksAtTheEnd(line[1..], i - 1);
    }
  }

  /** A text starting with a whole line has that line first, unless the two halves of a carriage return and
      newline meet. */
  lemma {:induction false} LineThenRest(line: string, rest: string)
    requires IsLine(line) && (IsBreak(line[|line| - 1]) || rest == [])
    requires line[|line| - 1] == '\r' && rest != [] ==> rest[0] != '\n'
    ensures LineEnd(line + rest) == |line|
  {
    if |line| > 1 && !IsBreak(line[0]) {
      LineThenRest(line[1..], rest);
      assert (line + rest)[1..] == line[1..] + rest;
    }
  }

  /** A carriage return and a newline that meet are one break. */
  lemma {:induction false} HalvesMeet(line: string)
    requires IsLine(line) && line[|line| - 1] == '\r'
    ensures IsLine(line + ['\n'])
  {
    if |line| > 1 {
      HalvesMeet(line[1..]);
      assert (line + ['\n'])[1..] == line[1..] + ['\n'];
    }
  }

  lemma {:induction false} UnbrokenIsLine(t: string)
    requires t != [] && Unbroken(t)
    ensures IsLine(t) && Body(t) == t
  {
    if |t| > 1 {
      UnbrokenIsLine(t[1..]);
    }
  }

  ghost predicate Unbroken(t: string) {
    forall i :: 0 <= i < |t| ==> !IsBreak(t[i])
  }

  /** A line's body has no break if the line ends in a newline. */
  lemma {:induction false} BodyIsUnbroken(line: string)
    requires IsLine(line) && EndsInNewline(line)
    ensures Unbroken(Body(line)) && line == Body(line) + line[|Body(line)|..]
    ensures line[|Body(line)|..] == ['\n'] || line[|Body(line)|..] == ['\r', '\n']
  {
    forall i | 0 <= i < |Body(line)|
      ensures !IsBreak(line[i])
    {
      if IsBreak(line[i]) {
        BreaksAtTheEnd(line, i);
      }
    }
  }

  lemma {:induction false} UnbrokenThenNewline(t: string, end: string)
    requires Unbroken(t) && (end == ['\n'] || end == ['\r', '\n'])
    ensures IsLine(t + end) && Body(t + end) == t
  {
    assert (t + end)[|t|..] == end && (t + end)[..|t|] == t;
    LineOfBody(t, end);
  }

  lemma {:induction false} LineOfBody(t: string, end: string)
    requires Unbroken(t) && (end == ['\n'] || end == ['\r', '\n'])
    ensures IsLine(t + end)
  {
    if t == [] {
      assert t + end == end;
    } else {
      LineOfBody(t[1..], end);
      assert (t + end)[1..] == t[1..] + end;
    }
  }

  /** A line keeps its newline when its comment is cut, and the second pass leaves it alone. */
  lemma {:induction false} CutKeepsNewline(line: string)
    requires IsLine(line) && EndsInNewline(line) && Process(line) != []
    ensures IsLine(Process(line)) && EndsInNewline(Process(line)) && Process(Process(line)) == Process(line)
  {
    var body := Body(line);
    BodyIsUnbroken(line);
    StripLineTwice(body);
    var kept, end := StripLine(body), line[|body|..];
    PrefixStaysData(body, kept);
    UnbrokenThenNewline(kept, end);
    assert (kept + end)[|kept|..] == end;
  }

  /** A comment cut from a line without newline leaves no break, and the second pass nothing to do. */
  lemma {:induction false} CutLastLine(line: string)
    requires IsLine(line) && !EndsInNewline(line) && Process(line) != [] && Process(line) != line
    ensures IsLine(Process(line)) && Process(Process(line)) == Process(line)
  {
    var kept := StripLine(line);
    StripLineTwice(line);
    PrefixStaysData(line, kept);
    assert line[|line|..] == [] && Process(line) == kept;
    forall i | 0 <= i < |kept|
      ensures !IsBreak(kept[i])
    {
      if IsBreak(line[i]) && i + 1 < |line| {
        BreaksAtTheEnd(line, i);
      }
    }
    UnbrokenIsLine(kept);
    assert kept[|kept|..] == [];
  }

  // ---------------------------------------------------------------------------
  // Texts on which stripping twice is stripping once
  // ---------------------------------------------------------------------------

  /** No comment is cut together with a line break that something still follows: every line stays, disappears,
      ends in a newline, or is the last that leaves anything. */
  ghost predicate KeepsBreaks(s: string)
    decreases |s|
  {
    s == []
    || (&& (Process(s[..LineEnd(s)]) == s[..LineEnd(s)] || Process(s[..LineEnd(s)]) == []
            || EndsInNewline(s[..LineEnd(s)]) || LinePass(s[LineEnd(s)..]) == [])
        && KeepsBreaks(s[LineEnd(s)..]))
  }

  lemma {:induction false} ScanOfPrefix(line: string, m: nat, k: nat, inQuotes: bool)
    requires Scan(line, k, inQuotes).None? && m <= |line|
    ensures Scan(line[..m], k, inQuotes).None?
    decreases |line| - k
  {
    if k < m {
      if line[k] == '"' {
        if inQuotes && k + 1 < |line| && line[k + 1] == '"' {
          ScanOfPrefix(line, m, k + 2, inQuotes);
        } else {
          ScanOfPrefix(line, m, k + 1, !inQuotes);
        }
      } else if !inQuotes && line[k] == '/' && k + 1 < |line| && line[k + 1] == '/' {
        ScanOfPrefix(line, m, k + 2, inQuotes);
      } else {
        ScanOfPrefix(line, m, k + 1, inQuotes);
      }
    }
  }

  /** A line that stays has no comment. */
  lemma {:induction false} StaysMeansNoComment(body: string)
    requires StripLine(body) == body
    ensures Scan(body, 0, false).None?
  {
    if Scan(body, 0, false).Some? {
      ScanFinds(body, 0, false);
    }
  }

  /** A line ended by a carriage return stays a line that stays when a newline joins it. */
  lemma {:induction false} JoinedLineStays(line: string)
    requires IsLine(line) && line[|line| - 1] == '\r' && Process(line) == line
    ensures Process(line + ['\n']) == line + ['\n']
  {
    var front := line[..|line| - 1];
    assert Body(line) == line && line[|line|..] == [];
    assert StripLine(line) + [] == StripLine(line);
    StaysMeansNoComment(line);
    ScanOfPrefix(line, |line| - 1, 0, false);
    PrefixStaysData(line, front);
    assert Body(line + ['\n']) == front;
    assert (line + ['\n'])[|front|..] == ['\r', '\n'];
  }

  /** A text that starts with a newline and stays also stays without it. */
  lemma {:induction false} WithoutFirstNewline(s: string)
    requires s != [] && s[0] == '\n' && LinePass(s) == s
    ensures LinePass(s[1..]) == s[1..]
  {
    assert s[..1] == ['\n'];
    assert Process(['\n']) == ['\n'];
    LinePassStep(s);
  }

  lemma {:induction false} OneLine(line: string)
    requires IsLine(line)
    ensures LinePass(line) == Process(line)
  {
    assert line[..|line|] == line && line[|line|..] == [];
  }

  lemma {:induction false} FirstStays(line: string, rest: string)
    requires line != [] && LineEnd(line + rest) == |line| && Process(line) == line && LinePass(rest) == rest
    ensures LinePass(line + rest) == line + rest
  {
    var s := line + rest;
    assert s[..|line|] == line && s[|line|..] == rest;
    LinePassStep(s);
  }

  lemma {:induction false} JoinedStays(line: string, joined: string, tail: string)
    requires IsLine(line) && line[|line| - 1] == '\r' && Process(line) == line && joined == line + ['\n']
    requires LinePass(tail) == tail
    ensures LinePass(joined + tail) == joined + tail
  {
    HalvesMeet(line);
    JoinedLineStays(line);
    LineThenRest(joined, tail);
    FirstStays(joined, tail);
  }

  lemma {:induction false} HalvesStay(line: string, rest: string)
    requires IsLine(line) && line[|line| - 1] == '\r' && Process(line) == line
    requires rest != [] && rest[0] == '\n' && LinePass(rest) == rest
    ensures LinePass(line + rest) == line + rest
  {
    WithoutFirstNewline(rest);
    JoinedStays(line, line + ['\n'], rest[1..]);
    NewlineMoves(line, rest);
  }

  lemma {:induction false} NewlineMoves(line: string, rest: string)
    requires rest != [] && rest[0] == '\n'
    ensures line + rest == (line + ['\n']) + rest[1..]
  {
    assert rest == ['\n'] + rest[1..];
  }

  /** A line that stays, before a text that stays. */
  lemma {:induction false} StaysTogether(line: string, rest: string)
    requires IsLine(line) && Process(line) == line && LinePass(rest) == rest
    requires IsBreak(line[|line| - 1]) || rest == []
    ensures LinePass(line + rest) == line + rest
  {
    if line[|line| - 1] == '\r' && rest != [] && rest[0] == '\n' {
      HalvesStay(line, rest);
    } else {
      LineThenRest(line, rest);
      FirstStays(line, rest);
    }
  }

  /** What a line leaves is a line that stays, and it keeps its break if something follows. */
  lemma {:induction false} PieceStays(line: string, last: bool)
    requires IsLine(line) && (IsBreak(line[|line| - 1]) || last) && Process(line) != []
    requires Process(line) == line || EndsInNewline(line) || last
    ensures var p := Process(line); IsLine(p) && Process(p) == p && (IsBreak(p[|p| - 1]) || last)
  {
    if EndsInNewline(line) {
      CutKeepsNewline(line);
    } else if Process(line) != line {
      CutLastLine(line);
    }
  }

  /** The line pass is idempotent on a text whose cut lines keep their breaks. */
  lemma {:induction false} LinePassTwice(s: string)
    requires KeepsBreaks(s)
    ensures LinePass(LinePass(s)) == LinePass(s)
    decreases |s|
  {
    if s != [] {
      var k := LineEnd(s);
      var line, rest := s[..k], s[k..];
      FirstLine(s);
      LinePassTwice(rest);
      LinePassStep(s);
      var p, more := Process(line), LinePass(rest);
      if p == [] {
        assert LinePass(s) == more;
      } else {
        PieceStays(line, more == []);
        StaysTogether(p, more);
      }
    }
  }

  lemma {:induction false} ProcessNoOpener(line: string)
    requires NoOpener(line)
    ensures NoOpener(Process(line))
  {
    var body := Body(line);
    StripLineTwice(body);
    var kept, p := StripLine(body), Process(line);
    if !IsCommentLine(body) {
      var end := line[|body|..];
      assert p == kept + end && (end == [] || end[0] == '\n' || end[0] == '\r');
      assert forall i :: 0 <= i < |kept| ==> kept[i] == body[i] == line[i];
      forall i
        ensures !PairAt(p, '/', '*', i)
      {
        assert !PairAt(line, '/', '*', i) && !PairAt(line, '/', '*', i - |kept| + |body|);
      }
    }
  }

  lemma {:induction false} NoOpenerInParts(s: string, k: nat)
    requires NoOpener(s) && k <= |s|
    ensures NoOpener(s[..k]) && NoOpener(s[k..])
  {
    forall i
      ensures !PairAt(s[..k], '/', '*', i) && !PairAt(s[k..], '/', '*', i)
    {
      assert !PairAt(s, '/', '*', i) && !PairAt(s, '/', '*', i + k);
    }
  }

  lemma {:induction false} NoOpenerAcross(p: string, q: string)
    requires NoOpener(p) && NoOpener(q) && (p == [] || q == [] || IsBreak(p[|p| - 1]))
    ensures NoOpener(p + q)
  {
    forall i
      ensures !PairAt(p + q, '/', '*', i)
    {
      assert !PairAt(p, '/', '*', i) && !PairAt(q, '/', '*', i - |p|);
    }
  }

  /** The line pass creates no block comment opener where cut lines keep their breaks. */
  lemma {:induction false} LinePassNoOpener(s: string)
    requires NoOpener(s) && KeepsBreaks(s)
    ensures NoOpener(LinePass(s))
    decreases |s|
  {
    if s != [] {
      var k := LineEnd(s);
      var p, more := Process(s[..k]), LinePass(s[k..]);
      FirstLine(s);
      NoOpenerInParts(s, k);
      LinePassNoOpener(s[k..]);
      ProcessNoOpener(s[..k]);
      if p != [] {
        PieceStays(s[..k], more == []);
      }
      NoOpenerAcross(p, more);
      LinePassStep(s);
    }
  }

  /** Stripping twice is stripping once if, after the block comments are gone, no trailing comment is cut
      together with a break that something follows. */
  lemma {:induction false} StripTwice(s: string)
    requires KeepsBreaks(StripBlocks(s))
    ensures Idempotent(s)
  {
    var blocks := StripBlocks(s);
    BlocksLeaveNoOpener(s);
    LinePassNoOpener(blocks);
    NoOpenerUnchanged(LinePass(blocks));
    LinePassTwice(blocks);
  }

  // ---------------------------------------------------------------------------
  // Line breaks for which stripping is always idempotent
  // ---------------------------------------------------------------------------

  /** Every line break in the text is a newline. */
  ghost predicate OnlyNewlines(s: string) {
    forall i :: 0 <= i < |s| && IsBreak(s[i]) ==> s[i] == '\n'
  }

  lemma {:induction false} NewlinesAreKept(s: string)
    requires OnlyNewlines(s)
    ensures KeepsBreaks(s)
    decreases |s|
  {
    if s != [] {
      FirstLine(s);
      NewlinesAreKept(s[LineEnd(s)..]);
    }
  }

  lemma {:induction false} BlocksKeepAlphabet(s: string, i: nat)
    requires i < |StripBlocks(s)|
    ensures StripBlocks(s)[i] in s
    decreases |s|
  {
    var start := Find(s, '/', '*', 0);
    if start != -1 {
      var end := Find(s, '*', '/', start + 2);
      if end != -1 {
        BlocksKeepAlphabet(s[..start] + s[end + 2..], i);
      }
    }
  }

  /** Stripping is idempotent on every file whose only line break is the newline. */
  lemma {:induction false} NewlineFilesTwice(s: string)
    requires OnlyNewlines(s)
    ensures Idempotent(s)
  {
    var blocks := StripBlocks(s);
    forall i | 0 <= i < |blocks| && IsBreak(blocks[i])
      ensures blocks[i] == '\n'
    {
      BlocksKeepAlphabet(s, i);
    }
    NewlinesAreKept(blocks);
    StripTwice(s);
  }

  /** Two lines, the first ended by c: a slash and a comment; then a slash and a letter. */
  ghost predicate TwoLines(s: string, c: char) {
    |s| == 5 && s[0] == '/' && s[1] == '#' && s[2] == c && s[3] == '/' && s[4] == 'b'
  }

  /** The line that loses its comment and its break. */
  lemma {:induction false} CutTakesTheBreak(c: char, s: string)
    requires IsBreak(c) && c != '\n' && TwoLines(s, c)
    ensures LineEnd(s) == 3
    ensures |Process(s[..3])| == 1 && Process(s[..3])[0] == '/'
  {
    var line := s[..3];
    assert LineEnd(s[1..][1..]) == 1;
    assert LineEnd(s[1..]) == 2;
    assert Body(line) == line && LStrip(line) == line;
    assert Scan(line, 1, false) == Some(1);
    assert Scan(line, 0, false) == Some(1);
    assert RStrip(line[..1]) == line[..1];
    assert line[3..] == [];
  }

  lemma {:induction false} NothingToStrip(t: string)
    requires t != [] && !IsSpace(t[0])
    ensures LStrip(t) == t
  {
  }

  /** A line without breaks or leading blanks that is no comment and has nothing to cut stays. */
  lemma {:induction false} NothingChanges(t: string)
    requires t != [] && Unbroken(t) && !IsCommentLine(t) && Scan(t, 0, false) == None
    ensures LinePass(t) == t
  {
    UnbrokenIsLine(t);
    OneLine(t);
    assert t[|t|..] == [];
  }

  lemma {:induction false} DataLine(t: string)
    requires |t| == 2 && t[0] == '/' && t[1] == 'b'
    ensures LinePass(t) == t
  {
    NothingToStrip(t);
    assert Scan(t, 2, false) == None;
    assert Scan(t, 1, false) == None;
    NothingChanges(t);
  }

  /** A line without breaks that opens with a slash and a slash disappears. */
  lemma {:induction false} CommentLineGoes(t: string)
    requires t != [] && Unbroken(t) && IsCommentLine(t)
    ensures LinePass(t) == []
  {
    UnbrokenIsLine(t);
    OneLine(t);
  }

  lemma {:induction false} SlashSlashLine(t: string)
    requires |t| == 3 && t[0] == '/' && t[1] == '/' && t[2] == 'b'
    ensures StripCsv(t) == []
  {
    forall i
      ensures !PairAt(t, '/', '*', i)
    {
    }
    NoOpenerUnchanged(t);
    NothingToStrip(t);
    CommentLineGoes(t);
  }

  lemma {:induction false} MergedLines(c: char, s: string)
    requires IsBreak(c) && c != '\n' && TwoLines(s, c)
    ensures var t := LinePass(s); |t| == 3 && t[0] == '/' && t[1] == '/' && t[2] == 'b'
  {
    CutTakesTheBreak(c, s);
    DataLine(s[3..]);
    LinePassStep(s);
  }

  /** A comment cut from a line that ends in any other break takes the break along: the next line moves
      up, and a slash on each side becomes a comment on the second run. */
  lemma {:induction false} OtherBreaksBreakIt(c: char, s: string)
    requires IsBreak(c) && c != '\n' && TwoLines(s, c)
    ensures |StripCsv(s)| == 3 && StripCsv(StripCsv(s)) == []
  {
    forall i
      ensures !PairAt(s, '/', '*', i)
    {
    }
    NoOpenerUnchanged(s);
    MergedLines(c, s);
    SlashSlashLine(LinePass(s));
  }

  ghost predicate Idempotent(s: string) {
    StripCsv(StripCsv(s)) == StripCsv(s)
  }

  ghost predicate BreaksWithin(s: string, breaks: set<char>) {
    forall i :: 0 <= i < |s| && IsBreak(s[i]) ==> s[i] in breaks
  }

  lemma {:induction false} SecondRunDiffers(breaks: set<char>, c: char) returns (s: string)
    requires c in breaks && IsBreak(c) && c != '\n'
    ensures BreaksWithin(s, breaks) && !Idempotent(s)
  {
    s := ['/', '#', c, '/', 'b'];
    OtherBreaksBreakIt(c, s);
  }

  /** The exact alphabets: stripping is idempotent on all texts that use the given line breaks if and
      only if the newline is the only one of them. */
  lemma {:induction false} IdempotentExactlyForNewlines(breaks: set<char>)
    ensures (forall s: string | BreaksWithin(s, breaks) :: Idempotent(s))
            <==> (forall c | c in breaks :: IsBreak(c) ==> c == '\n')
  {
    if forall c | c in breaks :: IsBreak(c) ==> c == '\n' {
      forall s: string | BreaksWithin(s, breaks)
        ensures Idempotent(s)
      {
        NewlineFilesTwice(s);
      }
    } else {
      var c :| c in breaks && IsBreak(c) && c != '\n';
      var s := SecondRunDiffers(breaks, c);
    }
  }

  // ---------------------------------------------------------------------------
  // What the stripper leaves, part by part
  // ---------------------------------------------------------------------------

  lemma {:induction false} FindIs(s: string, a: char, b: char, from: nat, p: nat)
    requires from <= p && PairAt(s, a, b, p) && forall i :: from <= i < p ==> !PairAt(s, a, b, i)
    ensures Find(s, a, b, from) == p
  {
  }

  /** A text up to its first opener, a comment up to its first closer, and the rest: the comment goes, and
      the text and the rest are stripped as one. */
  lemma {:induction false} BlockIsCut(a: string, c: string, b: string)
    requires forall i :: 0 <= i && i + 1 < |a| && a[i] == '/' ==> a[i + 1] != '*'
    requires forall i :: 0 <= i && i + 1 < |c| && c[i] == '*' ==> c[i + 1] != '/'
    ensures StripBlocks(a + "/*" + c + "*/" + b) == StripBlocks(a + b)
  {
    var s := a + "/*" + c + "*/" + b;
    var start, end := |a|, |a| + 2 + |c|;
    assert s[..start] == a && s[end + 2..] == b;
    assert forall i :: 0 <= i < |c| ==> s[start + 2 + i] == c[i];
    forall i | 0 <= i < start
      ensures !PairAt(s, '/', '*', i)
    {
      assert s[i] == a[i];
    }
    FindIs(s, '/', '*', 0, start);
    forall i | start + 2 <= i < end
      ensures !PairAt(s, '*', '/', i)
    {
      assert s[i] == c[i - start - 2];
    }
    FindIs(s, '*', '/', start + 2, end);
  }

  /** A comment that is never closed takes everything with it. */
  lemma {:induction false} OpenBlockIsCut(a: string, c: string)
    requires forall i :: 0 <= i && i + 1 < |a| && a[i] == '/' ==> a[i + 1] != '*'
    requires forall i :: 0 <= i && i + 1 < |c| && c[i] == '*' ==> c[i + 1] != '/'
    ensures StripBlocks(a + "/*" + c) == a
  {
    var s := a + "/*" + c;
    assert s[..|a|] == a;
    forall i | 0 <= i < |a|
      ensures !PairAt(s, '/', '*', i)
    {
      assert s[i] == a[i];
    }
    FindIs(s, '/', '*', 0, |a|);
    forall i | |a| + 2 <= i
      ensures !PairAt(s, '*', '/', i)
    {
      assert i < |s| ==> s[i] == c[i - |a| - 2];
    }
  }

  lemma {:induction false} NoBlockNoCut(a: string)
    requires forall i :: 0 <= i && i + 1 < |a| && a[i] == '/' ==> a[i + 1] != '*'
    ensures StripBlocks(a) == a
  {
  }

  /** A comment starts at i: an even number of quote characters before it, and a mark. */
  ghost predicate CommentAt(line: string, i: nat) {
    i < |line| && multiset(line[..i])['"'] % 2 == 0 && MarkAt(line, i)
  }

  /** A hash, a semicolon behind a blank, or two slashes, the first of which is none of the two of a scheme. */
  ghost predicate MarkAt(line: string, i: nat)
    requires i < |line|
  {
    || line[i] == '#'
    || (line[i] == ';' && 0 < i && (line[i - 1] == ' ' || line[i - 1] == '\t'))
    || (line[i] == '/' && i + 1 < |line| && line[i + 1] == '/'
        && !(0 < i && line[i - 1] == ':') && !(1 < i && line[i - 1] == '/' && line[i - 2] == ':'))
  }

  lemma {:induction false} OneMore(line: string, i: nat)
    requires i < |line|
    ensures multiset(line[..i + 1])['"'] == multiset(line[..i])['"'] + if line[i] == '"' then 1 else 0
  {
    assert line[..i + 1] == line[..i] + [line[i]];
  }

  /** The first unquoted mark at or after k. */
  ghost predicate FirstFrom(line: string, quoted: nat -> bool, k: nat, r: Option<nat>) {
    && (r.Some? ==> k <= r.value < |line| && !quoted(r.value) && MarkAt(line, r.value))
    && forall j: nat :: k <= j < (if r.Some? then r.value else |line|) ==> quoted(j) || !MarkAt(line, j)
  }

  /** How far one turn of the scan moves on from a position without a comment. */
  function Turn(line: string, k: nat, inQuotes: bool): nat
    requires k < |line|
  {
    if inQuotes && k + 1 < |line| && line[k] == '"' && line[k + 1] == '"' then 2
    else if !inQuotes && k + 1 < |line| && line[k] == '/' && line[k + 1] == '/' then 2
    else 1
  }

  lemma {:induction false} TurnOverNone(line: string, quoted: nat -> bool, k: nat)
    requires k < |line| && (quoted(k) || !MarkAt(line, k))
    requires forall i: nat :: i < |line| ==> quoted(i + 1) == (quoted(i) != (line[i] == '"'))
    requires !quoted(k) && 1 < k && line[k] == '/' && line[k - 1] == '/' ==> line[k - 2] != ':'
    ensures var n := k + Turn(line, k, quoted(k));
            && n <= |line| && (n == k + 2 ==> quoted(k + 1) || !MarkAt(line, k + 1))
            && Scan(line, k, quoted(k)) == Scan(line, n, quoted(n))
            && (!quoted(n) && n < |line| && line[n] == '/' && line[n - 1] == '/' ==> n == 1 || line[n - 2] != ':')
  {
    assert line[k] == '"' || quoted(k + 1) == quoted(k);
  }

  lemma {:induction false} ScanFindsTheFirst(line: string, quoted: nat -> bool, k: nat)
    requires forall i: nat :: i < |line| ==> quoted(i + 1) == (quoted(i) != (line[i] == '"'))
    requires k <= |line|
    requires !quoted(k) && 1 < k < |line| && line[k] == '/' && line[k - 1] == '/' ==> line[k - 2] != ':'
    ensures FirstFrom(line, quoted, k, Scan(line, k, quoted(k)))
    decreases |line| - k
  {
    if k < |line| {
      if quoted(k) || !MarkAt(line, k) {
        TurnOverNone(line, quoted, k);
        ScanFindsTheFirst(line, quoted, k + Turn(line, k, quoted(k)));
      } else {
        assert Scan(line, k, quoted(k)) == Some(k);
      }
    }
  }

  ghost predicate Quoted(line: string, i: nat) {
    i <= |line| && multiset(line[..i])['"'] % 2 == 1
  }

  lemma {:induction false} QuoteTurns(line: string, i: nat)
    requires i < |line|
    ensures Quoted(line, i + 1) == (Quoted(line, i) != (line[i] == '"'))
  {
    OneMore(line, i);
  }

  lemma {:induction false} FirstComment(line: string) returns (quoted: nat -> bool)
    ensures FirstFrom(line, quoted, 0, Scan(line, 0, false))
    ensures forall i: nat :: i < |line| ==> CommentAt(line, i) == (!quoted(i) && MarkAt(line, i))
  {
    quoted := (i: nat) => Quoted(line, i);
    assert !Quoted(line, 0) by {
      assert line[..0] == [];
    }
    forall i: nat | i < |line|
      ensures quoted(i + 1) == (quoted(i) != (line[i] == '"'))
    {
      QuoteTurns(line, i);
    }
    ScanFindsTheFirst(line, quoted, 0);
    forall i: nat | i < |line|
      ensures CommentAt(line, i) == (!quoted(i) && MarkAt(line, i))
    {
    }
  }

  /** The scan finds the first comment of the line, if there is one. */
  lemma {:induction false} ScanIsTheFirstComment(line: string, p: nat)
    ensures Scan(line, 0, false) == Some(p) <==> CommentAt(line, p) && forall j: nat :: j < p ==> !CommentAt(line, j)
    ensures Scan(line, 0, false) == None <==> forall j: nat :: !CommentAt(line, j)
  {
    var quoted := FirstComment(line);
    var r := Scan(line, 0, false);
    if r.Some? {
      assert CommentAt(line, r.value);
    }
  }

  /** A line with a comment becomes the part before the first one without the blanks at its end. */
  lemma {:induction false} CommentIsCut(line: string, p: nat, n: nat)
    requires CommentAt(line, p) && forall j: nat :: j < p ==> !CommentAt(line, j)
    requires n <= p && (forall i :: n <= i < p ==> IsSpace(line[i])) && (0 < n ==> !IsSpace(line[n - 1]))
    ensures StripLine(line) == line[..n]
  {
    ScanIsTheFirstComment(line, p);
    RStripCutsBlanks(line[..p]);
    assert line[..p][..n] == line[..n];
  }

  lemma {:induction false} NoCommentNoCut(line: string)
    requires forall j: nat :: !CommentAt(line, j)
    ensures StripLine(line) == line
  {
    ScanIsTheFirstComment(line, 0);
  }

  /** A comment line: its first character that is no blank begins a comment mark, whatever stands before. */
  lemma {:induction false} IsCommentLineExactlyWhen(body: string, k: nat)
    requires k <= |body| && (forall i :: 0 <= i < k ==> IsSpace(body[i])) && (k < |body| ==> !IsSpace(body[k]))
    ensures IsCommentLine(body)
            <==> k < |body| && (body[k] == '#' || body[k] == ';' || "//" <= body[k..])
  {
    LStripCutsBlanks(body);
    assert LStrip(body) == body[k..];
  }

  /** A line and its newline: gone if it is a comment line, else stripped with the newline kept; then the rest. */
  lemma {:induction false} LineByLine(t: string, sep: string, rest: string)
    requires Unbroken(t) && (sep == "\n" || sep == "\r\n")
    ensures LinePass(t + sep + rest) == (if IsCommentLine(t) then "" else StripLine(t) + sep) + LinePass(rest)
  {
    var line := t + sep;
    UnbrokenThenNewline(t, sep);
    LineThenRest(line, rest);
    LinePassStep(line + rest);
    assert (line + rest)[..|line|] == line && (line + rest)[|line|..] == rest;
    assert line[|t|..] == sep;
  }

  /** Any other break is stripped as a part of the line. */
  lemma {:induction false} OtherLineByLine(t: string, c: char, rest: string)
    requires Unbroken(t) && IsBreak(c) && c != '\n' && (c == '\r' && rest != [] ==> rest[0] != '\n')
    ensures var line := t + [c];
            LinePass(line + rest) == (if IsCommentLine(line) then "" else StripLine(line)) + LinePass(rest)
  {
    var line := t + [c];
    OtherLine(t, c);
    LineThenRest(line, rest);
    LinePassStep(line + rest);
    assert (line + rest)[..|line|] == line && (line + rest)[|line|..] == rest;
    assert Body(line) == line && StripLine(line) + line[|line|..] == StripLine(line);
  }

  lemma {:induction false} OtherLine(t: string, c: char)
    requires Unbroken(t) && IsBreak(c) && c != '\n'
    ensures IsLine(t + [c])
  {
    if t == [] {
      assert t + [c] == [c];
    } else {
      OtherLine(t[1..], c);
      assert (t + [c])[1..] == t[1..] + [c];
    }
  }

  /** The last line, without a break. */
  lemma {:induction false} LastLine(t: string)
    requires Unbroken(t)
    ensures LinePass(t) == if IsCommentLine(t) then "" else StripLine(t)
  {
    if t != [] {
      UnbrokenIsLine(t);
      OneLine(t);
      assert StripLine(t) + t[|t|..] == StripLine(t);
    }
  }

  /** The stripper on a block comment: as if it were not there, whatever line marks it holds or splits. */
  lemma {:induction false} CsvWithBlock(a: string, c: string, b: string)
    requires forall i :: 0 <= i && i + 1 < |a| && a[i] == '/' ==> a[i + 1] != '*'
    requires forall i :: 0 <= i && i + 1 < |c| && c[i] == '*' ==> c[i + 1] != '/'
    ensures StripCsv(a + "/*" + c + "*/" + b) == StripCsv(a + b)
  {
    BlockIsCut(a, c, b);
  }

  /** The stripper on a text without block comments, line by line. */
  lemma {:induction false} CsvLineByLine(t: string, sep: string, rest: string)
    requires Unbroken(t) && (sep == "\n" || sep == "\r\n") && NoOpener(t + sep + rest)
    ensures StripCsv(t + sep + rest) == (if IsCommentLine(t) then "" else StripLine(t) + sep) + StripCsv(rest)
  {
    var s, k := t + sep + rest, |t + sep|;
    assert s[k..] == rest;
    NoOpenerInParts(s, k);
    NoOpenerUnchanged(s);
    NoOpenerUnchanged(rest);
    LineByLine(t, sep, rest);
  }
}
