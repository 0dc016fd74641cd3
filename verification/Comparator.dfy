/** The output comparison of the judge: what two outputs may differ in and still match. */
module Comparator {
  predicate IsTrailing(c: char) {
    c == ' ' || c == '\t' || c == '\r' || c == '\U{0B}' || c == '\U{0C}'
  }

  /** Nothing, or nothing more on this line. */
  predicate AtLineEnd(text: string) {
    text == "" || text[0] == '\n'
  }

  // ------------------------------------------------------------- the normal form

  /** Every line without its trailing white space. */
  function StripLines(text: string): string {
    if text == "" then ""
    else
      var rest := StripLines(text[1..]);
      if IsTrailing(text[0]) && AtLineEnd(rest) then rest else [text[0]] + rest
  }

  function DropFinalNewlines(text: string): string {
    if text != "" && text[|text| - 1] == '\n' then DropFinalNewlines(text[..|text| - 1]) else text
  }

  function Normal(text: string): string {
    DropFinalNewlines(StripLines(text))
  }

  // ------------------------------------------------ the relation it has to decide

  /** One white space character inserted at a line end, or one newline at the end of text. */
  ghost predicate Inserts(shorter: string, longer: string) {
    || (exists i: nat, c :: InsertsAt(shorter, longer, i, c))
    || longer == shorter + "\n"
  }

  /** A space, tab, carriage return, vertical tab or form feed before a newline or at the end. */
  ghost predicate InsertsAt(shorter: string, longer: string, i: nat, c: char) {
    && i <= |shorter| && (i == |shorter| || shorter[i] == '\n')
    && (c == ' ' || c == '\t' || c == '\r' || c == '\U{0B}' || c == '\U{0C}')
    && longer == shorter[..i] + [c] + shorter[i..]
  }

  ghost predicate IsEdit(a: string, b: string) {
    Inserts(a, b) || Inserts(b, a)
  }

  ghost predicate IsChain(chain: seq<string>) {
    && chain != []
    && forall k :: 0 <= k < |chain| - 1 ==> IsEdit(chain[k], chain[k + 1])
  }

  /** `b` can be reached from `a` by such insertions and deletions. */
  ghost predicate Interchangeable(a: string, b: string) {
    exists chain :: IsChain(chain) && chain[0] == a && chain[|chain| - 1] == b
  }

  // ------------------------------------------------------------------- properties

  lemma {:induction false} StripSplit(a: string, b: string)
    requires AtLineEnd(StripLines(b))
    ensures StripLines(a + b) == StripLines(a) + StripLines(b)
  {
    if a == "" {
      assert a + b == b;
    } else {
      assert (a + b)[1..] == a[1..] + b;
      StripSplit(a[1..], b);
    }
  }

  lemma {:induction false} StripAtLineEnd(text: string)
    ensures AtLineEnd(text) ==> AtLineEnd(StripLines(text))
  {
  }

  lemma {:induction false} DropNewline(text: string)
    ensures DropFinalNewlines(text + "\n") == DropFinalNewlines(text)
  {
    assert (text + "\n")[..|text|] == text;
  }

  /** An edit does not change the normal form. */
  lemma InsertionKeepsNormal(shorter: string, longer: string)
    requires Inserts(shorter, longer)
    ensures Normal(shorter) == Normal(longer)
  {
    if longer == shorter + "\n" {
      StripSplit(shorter, "\n");
      assert StripLines("\n") == "\n";
      DropNewline(StripLines(shorter));
    } else {
      var i: nat, c :| InsertsAt(shorter, longer, i, c);
      var a, b := shorter[..i], shorter[i..];
      StripAtLineEnd(b);
      assert ([c] + b)[1..] == b;
      assert StripLines([c] + b) == StripLines(b);
      StripSplit(a, b);
      StripSplit(a, [c] + b);
      assert shorter == a + b && longer == a + ([c] + b);
    }
  }

  lemma ChainKeepsNormal(chain: seq<string>, k: nat)
    requires IsChain(chain) && k < |chain|
    ensures Normal(chain[k]) == Normal(chain[0])
  {
    if k > 0 {
      ChainKeepsNormal(chain, k - 1);
      if Inserts(chain[k - 1], chain[k]) {
        InsertionKeepsNormal(chain[k - 1], chain[k]);
      } else {
        assert IsEdit(chain[k - 1], chain[k - 1 + 1]);
        InsertionKeepsNormal(chain[k], chain[k - 1]);
      }
    }
  }

  // ------------------------------------------------------- chains of edits

  lemma Linked(a: string, b: string)
    requires a == b || IsEdit(a, b)
    ensures Interchangeable(a, b)
  {
    var chain := if a == b then [a] else [a, b];
    assert IsChain(chain);
  }

  lemma Symmetric(a: string, b: string)
    requires Interchangeable(a, b)
    ensures Interchangeable(b, a)
  {
    var chain :| IsChain(chain) && chain[0] == a && chain[|chain| - 1] == b;
    var n := |chain|;
    var back := seq(n, k requires 0 <= k < n => chain[n - 1 - k]);
    forall k | 0 <= k < n - 1
      ensures IsEdit(back[k], back[k + 1])
    {
      assert IsEdit(chain[n - 2 - k], chain[n - 2 - k + 1]);
    }
    assert IsChain(back) && back[0] == b && back[n - 1] == a;
  }

  lemma Transitive(a: string, b: string, c: string)
    requires Interchangeable(a, b) && Interchangeable(b, c)
    ensures Interchangeable(a, c)
  {
    var first :| IsChain(first) && first[0] == a && first[|first| - 1] == b;
    var second :| IsChain(second) && second[0] == b && second[|second| - 1] == c;
    var both := first + second[1..];
    forall k | 0 <= k < |both| - 1
      ensures IsEdit(both[k], both[k + 1])
    {
      if k < |first| - 1 {
        assert IsEdit(first[k], first[k + 1]);
      } else {
        var j := k - (|first| - 1);
        assert both[k] == second[j] && both[k + 1] == second[j + 1];
      }
    }
    assert IsChain(both) && both[0] == a && both[|both| - 1] == c;
  }

  lemma InsertsUnderPrefix(h: char, a: string, b: string)
    requires Inserts(a, b)
    ensures Inserts([h] + a, [h] + b)
  {
    if b == a + "\n" {
      assert [h] + b == [h] + a + "\n";
    } else {
      var i: nat, c :| InsertsAt(a, b, i, c);
      var ha := [h] + a;
      assert ha[i + 1..] == a[i..] && ha[..i + 1] == [h] + a[..i];
      assert [h] + b == ha[..i + 1] + [c] + ha[i + 1..];
      assert InsertsAt(ha, [h] + b, i + 1, c);
    }
  }

  lemma UnderPrefix(h: char, a: string, b: string)
    requires Interchangeable(a, b)
    ensures Interchangeable([h] + a, [h] + b)
  {
    var chain :| IsChain(chain) && chain[0] == a && chain[|chain| - 1] == b;
    var prefixed := seq(|chain|, k requires 0 <= k < |chain| => [h] + chain[k]);
    forall k | 0 <= k < |prefixed| - 1
      ensures IsEdit(prefixed[k], prefixed[k + 1])
    {
      assert IsEdit(chain[k], chain[k + 1]);
      if Inserts(chain[k], chain[k + 1]) {
        InsertsUnderPrefix(h, chain[k], chain[k + 1]);
      } else {
        InsertsUnderPrefix(h, chain[k + 1], chain[k]);
      }
    }
    assert IsChain(prefixed) && prefixed[0] == [h] + a && prefixed[|prefixed| - 1] == [h] + b;
  }

  lemma {:induction false} StripReachable(text: string)
    ensures Interchangeable(text, StripLines(text))
  {
    if text == "" {
      Linked(text, text);
    } else {
      var h, rest := text[0], StripLines(text[1..]);
      StripReachable(text[1..]);
      UnderPrefix(h, text[1..], rest);
      assert text == [h] + text[1..];
      if IsTrailing(h) && AtLineEnd(rest) {
        assert rest[0..] == rest;
        assert [h] + rest == rest[..0] + [h] + rest[0..];
        assert InsertsAt(rest, [h] + rest, 0, h);
        assert Inserts(rest, [h] + rest);
        Linked([h] + rest, rest);
        Transitive(text, [h] + rest, rest);
      }
    }
  }

  lemma {:induction false} DropReachable(text: string)
    ensures Interchangeable(text, DropFinalNewlines(text))
    decreases |text|
  {
    if text != "" && text[|text| - 1] == '\n' {
      var front := text[..|text| - 1];
      assert text == front + "\n";
      assert Inserts(front, text);
      Linked(text, front);
      DropReachable(front);
      Transitive(text, front, DropFinalNewlines(front));
    } else {
      Linked(text, text);
    }
  }

  lemma NormalReachable(text: string)
    ensures Interchangeable(text, Normal(text))
  {
    StripReachable(text);
    DropReachable(StripLines(text));
    Transitive(text, StripLines(text), Normal(text));
  }

  /** Two outputs have the same normal form iff white space at line ends and newlines at the
      end of text turn one into the other. */
  lemma SameNormalIffInterchangeable(a: string, b: string)
    ensures Normal(a) == Normal(b) <==> Interchangeable(a, b)
  {
    if Interchangeable(a, b) {
      var chain :| IsChain(chain) && chain[0] == a && chain[|chain| - 1] == b;
      ChainKeepsNormal(chain, |chain| - 1);
    }
    if Normal(a) == Normal(b) {
      NormalReachable(a);
      NormalReachable(b);
      Symmetric(b, Normal(b));
      Transitive(a, Normal(a), b);
    }
  }

  /** The text with CRLF line ends. */
  function Crlf(text: string): string {
    if text == "" then ""
    else if text[0] == '\n' then ['\r', '\n'] + Crlf(text[1..])
    else [text[0]] + Crlf(text[1..])
  }

  lemma {:induction false} CrlfStrips(text: string)
    ensures StripLines(Crlf(text)) == StripLines(text)
  {
    if text != "" {
      CrlfStrips(text[1..]);
      var rest := Crlf(text[1..]);
      if text[0] == '\n' {
        assert (['\r', '\n'] + rest)[1..] == ['\n'] + rest && (['\n'] + rest)[1..] == rest;
        assert StripLines(['\n'] + rest) == ['\n'] + StripLines(rest);
      } else {
        assert ([text[0]] + rest)[1..] == rest;
      }
    }
  }

  /** Line ends may be CRLF or LF. */
  lemma CrlfMatches(text: string)
    ensures Interchangeable(Crlf(text), text)
  {
    CrlfStrips(text);
    SameNormalIffInterchangeable(Crlf(text), text);
  }

  lemma NormalIdempotent(text: string)
    ensures Normal(Normal(text)) == Normal(text)
  {
    NormalReachable(text);
    SameNormalIffInterchangeable(text, Normal(text));
  }

  // ------------------------------------------------------- the line-based algorithm

  function RStrip(line: string): string {
    if line != "" && IsTrailing(line[|line| - 1]) then RStrip(line[..|line| - 1]) else line
  }

  /** Position of the first newline, or the length of the text. */
  function FirstNewline(text: string): (i: nat)
    ensures i <= |text|
  {
    if text == "" || text[0] == '\n' then 0 else 1 + FirstNewline(text[1..])
  }

  lemma {:induction false} FirstNewlineFound(text: string)
    ensures '\n' !in text[..FirstNewline(text)]
    ensures FirstNewline(text) < |text| ==> text[FirstNewline(text)] == '\n'
  {
    if text != "" && text[0] != '\n' {
      var i := FirstNewline(text[1..]);
      FirstNewlineFound(text[1..]);
      assert text[..i + 1] == [text[0]] + text[1..][..i];
    }
  }

  function StrippedLines(text: string): seq<string>
    decreases |text|
  {
    var i := FirstNewline(text);
    if i == |text| then [RStrip(text)] else [RStrip(text[..i])] + StrippedLines(text[i + 1..])
  }

  function Join(lines: seq<string>): string {
    if lines == [] then ""
    else if |lines| == 1 then lines[0]
    else Join(lines[..|lines| - 1]) + "\n" + lines[|lines| - 1]
  }

  function DropEmpty(lines: seq<string>): seq<string> {
    if lines != [] && lines[|lines| - 1] == "" then DropEmpty(lines[..|lines| - 1]) else lines
  }

  lemma {:induction false} UnstrippedLine(line: string)
    requires '\n' !in line && line != "" && !IsTrailing(line[|line| - 1])
    ensures StripLines(line) == line
  {
    if |line| > 1 {
      UnstrippedLine(line[1..]);
      assert line[1] in line;
    }
  }

  lemma {:induction false} StripOneLine(line: string)
    requires '\n' !in line
    ensures StripLines(line) == RStrip(line)
    decreases |line|
  {
    if line != "" {
      var last := |line| - 1;
      if IsTrailing(line[last]) {
        assert line == line[..last] + [line[last]];
        StripSplit(line[..last], [line[last]]);
        StripOneLine(line[..last]);
      } else {
        UnstrippedLine(line);
      }
    }
  }

  lemma {:induction false} JoinCons(x: string, xs: seq<string>)
    requires xs != []
    ensures Join([x] + xs) == x + ("\n" + Join(xs))
    decreases |xs|
  {
    var all, last := [x] + xs, |xs| - 1;
    if last == 0 {
      assert all[..1] == [x];
    } else {
      assert all[..|all| - 1] == [x] + xs[..last];
      JoinCons(x, xs[..last]);
    }
  }

  lemma StripFirstLine(line: string, rest: string)
    requires '\n' !in line
    ensures StripLines(line + ("\n" + rest)) == RStrip(line) + ("\n" + StripLines(rest))
  {
    var tail := "\n" + rest;
    assert tail[1..] == rest;
    assert StripLines(tail) == "\n" + StripLines(rest);
    StripSplit(line, tail);
    StripOneLine(line);
  }

  lemma {:induction false} JoinStripped(text: string)
    ensures Join(StrippedLines(text)) == StripLines(text)
    decreases |text|
  {
    var i := FirstNewline(text);
    var line := text[..i];
    FirstNewlineFound(text);
    if i == |text| {
      assert line == text;
      StripOneLine(text);
    } else {
      var rest := text[i + 1..];
      StripFirstLine(line, rest);
      assert text == line + ("\n" + rest);
      JoinStripped(rest);
      JoinCons(RStrip(line), StrippedLines(rest));
    }
  }

  ghost predicate NoNewlines(lines: seq<string>) {
    forall k :: 0 <= k < |lines| ==> '\n' !in lines[k]
  }

  lemma {:induction false} RStripIsPrefix(line: string)
    ensures |RStrip(line)| <= |line| && RStrip(line) == line[..|RStrip(line)|]
    decreases |line|
  {
    if line != "" && IsTrailing(line[|line| - 1]) {
      RStripIsPrefix(line[..|line| - 1]);
    }
  }

  lemma {:induction false} StrippedLinesHaveNoNewlines(text: string)
    ensures NoNewlines(StrippedLines(text))
    decreases |text|
  {
    var i := FirstNewline(text);
    RStripIsPrefix(text[..i]);
    FirstNewlineFound(text);
    assert i == |text| ==> text[..i] == text;
    if i < |text| {
      StrippedLinesHaveNoNewlines(text[i + 1..]);
    }
  }

  lemma {:induction false} DropCommutes(lines: seq<string>)
    requires NoNewlines(lines)
    ensures Join(DropEmpty(lines)) == DropFinalNewlines(Join(lines))
    decreases |lines|
  {
    if lines != [] {
      var last := |lines| - 1;
      if lines[last] == "" {
        DropCommutes(lines[..last]);
        if last > 0 {
          assert Join(lines) == Join(lines[..last]) + "\n";
          DropNewline(Join(lines[..last]));
        }
      } else {
        var joined := Join(lines);
        assert joined[|joined| - 1] == lines[last][|lines[last]| - 1];
        assert joined[|joined| - 1] in lines[last];
      }
    }
  }

  method FindNewline(text: string, pos: nat) returns (i: nat)
    requires pos <= |text|
    ensures i == pos + FirstNewline(text[pos..])
  {
    i := pos;
    while i < |text| && text[i] != '\n'
      invariant pos <= i <= |text|
      invariant pos + FirstNewline(text[pos..]) == i + FirstNewline(text[i..])
    {
      assert text[i..][1..] == text[i + 1..];
      i := i + 1;
    }
  }

  method StripLine(line: string) returns (stripped: string)
    ensures stripped == RStrip(line)
  {
    stripped := line;
    while stripped != "" && IsTrailing(stripped[|stripped| - 1])
      invariant RStrip(stripped) == RStrip(line)
      decreases |stripped|
    {
      stripped := stripped[..|stripped| - 1];
    }
  }

  method SplitLines(text: string) returns (lines: seq<string>)
    ensures lines == StrippedLines(text)
  {
    lines := [];
    var pos, more := 0, true;
    assert text[0..] == text;
    while more
      invariant 0 <= pos <= |text|
      invariant StrippedLines(text) == if more then lines + StrippedLines(text[pos..]) else lines
      decreases more, |text| - pos
    {
      var end := FindNewline(text, pos);
      var line := StripLine(text[pos..end]);
      LineOf(text, pos, end, lines);
      lines := lines + [line];
      if end == |text| {
        more := false;
      } else {
        pos := end + 1;
      }
    }
  }

  lemma LineOf(text: string, pos: nat, end: nat, before: seq<string>)
    requires pos <= |text| && end == pos + FirstNewline(text[pos..])
    ensures before + StrippedLines(text[pos..]) ==
              if end == |text| then before + [RStrip(text[pos..end])]
              else before + [RStrip(text[pos..end])] + StrippedLines(text[end + 1..])
  {
    FirstLine(text, pos, end);
  }

  lemma FirstLine(text: string, pos: nat, end: nat)
    requires pos <= |text| && end == pos + FirstNewline(text[pos..])
    ensures StrippedLines(text[pos..]) ==
              [RStrip(text[pos..end])] + if end == |text| then [] else StrippedLines(text[end + 1..])
  {
    var rest := text[pos..];
    assert rest[..end - pos] == text[pos..end];
    if end == |text| {
      assert text[pos..end] == rest;
    } else {
      assert rest[end - pos + 1..] == text[end + 1..];
    }
  }

  method JoinLines(lines: seq<string>) returns (result: string)
    ensures result == Join(lines)
  {
    result := "";
    for i := 0 to |lines|
      invariant result == Join(lines[..i])
    {
      if i != 0 {
        result := result + "\n";
      }
      assert lines[..i + 1][..i] == lines[..i];
      result := result + lines[i];
    }
    assert lines[..|lines|] == lines;
  }

  method NormalizeOutput(text: string) returns (result: string)
    ensures result == Normal(text)
  {
    var lines := SplitLines(text);
    while lines != [] && lines[|lines| - 1] == ""
      invariant DropEmpty(lines) == DropEmpty(StrippedLines(text))
      decreases |lines|
    {
      lines := lines[..|lines| - 1];
    }
    result := JoinLines(lines);
    StrippedLinesHaveNoNewlines(text);
    DropCommutes(StrippedLines(text));
    JoinStripped(text);
  }

  /** The comparison: true exactly for interchangeable outputs. */
  method OutputsMatch(expected: string, actual: string) returns (match': bool)
    ensures match' <==> Interchangeable(expected, actual)
    ensures match' <==> Normal(expected) == Normal(actual)
  {
    var a := NormalizeOutput(expected);
    var b := NormalizeOutput(actual);
    SameNormalIffInterchangeable(expected, actual);
    return a == b;
  }
}
