/** Tags are stored as one comma-separated text and filtered with `instr`; titles are filtered
    with an escaped LIKE pattern. */
module ProblemFilter {
  import opened Options
  import opened Ascii

  // -------------------------------------------------------------------------- texts

  predicate IsSpace(c: char) {
    c == ' ' || c == '\t' || c == '\n' || c == '\r' || c == '\U{0B}' || c == '\U{0C}'
  }

  function TrimLeft(text: string): string {
    if text != "" && IsSpace(text[0]) then TrimLeft(text[1..]) else text
  }

  function TrimRight(text: string): string {
    if text != "" && IsSpace(text[|text| - 1]) then TrimRight(text[..|text| - 1]) else text
  }

  function Trim(text: string): string {
    TrimRight(TrimLeft(text))
  }

  /** The white space of the C locale. */
  predicate AllBlank(text: string) {
    forall i :: 0 <= i < |text| ==>
      || text[i] == ' ' || text[i] == '\t' || text[i] == '\n'
      || text[i] == '\r' || text[i] == '\U{0B}' || text[i] == '\U{0C}'
  }

  lemma {:induction false} TrimLeftMeaning(text: string) returns (before: string)
    ensures AllBlank(before) && text == before + TrimLeft(text)
    ensures TrimLeft(text) != "" ==> !AllBlank([TrimLeft(text)[0]])
  {
    if text != "" && IsSpace(text[0]) {
      before := TrimLeftMeaning(text[1..]);
      before := [text[0]] + before;
      assert text == [text[0]] + text[1..];
    } else {
      before := "";
      assert text != "" ==> [TrimLeft(text)[0]][0] == text[0];
    }
  }

  lemma {:induction false} TrimRightMeaning(text: string) returns (behind: string)
    ensures AllBlank(behind) && text == TrimRight(text) + behind
    ensures TrimRight(text) != "" ==> !AllBlank([TrimRight(text)[|TrimRight(text)| - 1]])
    decreases |text|
  {
    if text != "" && IsSpace(text[|text| - 1]) {
      var last := text[|text| - 1];
      behind := TrimRightMeaning(text[..|text| - 1]);
      behind := behind + [last];
      assert text == text[..|text| - 1] + [last];
    } else {
      behind := "";
      assert text != "" ==> [text[|text| - 1]][0] == text[|text| - 1];
    }
  }

  /** Trimming removes blanks before and behind and nothing else, and leaves none at either end. */
  lemma TrimMeaning(text: string) returns (before: string, behind: string)
    ensures AllBlank(before) && AllBlank(behind) && text == before + Trim(text) + behind
    ensures Trim(text) != "" ==>
              !AllBlank([Trim(text)[0]]) && !AllBlank([Trim(text)[|Trim(text)| - 1]])
  {
    before := TrimLeftMeaning(text);
    behind := TrimRightMeaning(TrimLeft(text));
    assert Trim(text) != "" ==> Trim(text)[0] == TrimLeft(text)[0];
    assert text == before + (Trim(text) + behind);
  }

  predicate NoComma(text: string) {
    ',' !in text
  }

  /** The texts between the commas. */
  function Pieces(text: string): seq<string> {
    if text == "" then [""]
    else
      var rest := Pieces(text[1..]);
      if text[0] == ',' then [""] + rest else [[text[0]] + rest[0]] + rest[1..]
  }

  function Joined(tags: seq<string>): string {
    if tags == [] then ""
    else if |tags| == 1 then tags[0]
    else tags[0] + "," + Joined(tags[1..])
  }

  /** Trimmed pieces, without the empty ones. */
  function Cleaned(pieces: seq<string>): seq<string> {
    if pieces == [] then []
    else (if Trim(pieces[0]) == "" then [] else [Trim(pieces[0])]) + Cleaned(pieces[1..])
  }

  /** What validation guarantees of a stored tag. */
  predicate IsTag(tag: string) {
    tag != "" && NoComma(tag) && Trim(tag) == tag
  }

  /** A stored tag is not empty, holds no comma, and neither begins nor ends with a blank. */
  lemma TagMeaning(tag: string)
    ensures IsTag(tag) ==>
              tag != "" && ',' !in tag && !AllBlank([tag[0]]) && !AllBlank([tag[|tag| - 1]])
  {
    var before, behind := TrimMeaning(tag);
  }

  lemma {:induction false} PiecesNonEmpty(text: string)
    ensures |Pieces(text)| >= 1
    ensures forall k :: 0 <= k < |Pieces(text)| ==> NoComma(Pieces(text)[k])
  {
    if text != "" {
      PiecesNonEmpty(text[1..]);
    }
  }

  lemma {:induction false} PiecesOfTag(tag: string)
    requires NoComma(tag)
    ensures Pieces(tag) == [tag]
  {
    if tag != "" {
      PiecesOfTag(tag[1..]);
      assert tag[0] in tag && [tag[0]] + tag[1..] == tag;
    }
  }

  lemma {:induction false} PiecesSplit(a: string, b: string)
    requires NoComma(a)
    ensures Pieces(a + "," + b) == [a] + Pieces(b)
  {
    var text := a + "," + b;
    if a == "" {
      assert text[1..] == b;
    } else {
      assert text[1..] == a[1..] + "," + b;
      PiecesSplit(a[1..], b);
      assert a[0] in a && [a[0]] + a[1..] == a;
    }
  }

  lemma {:induction false} PiecesOfJoined(tags: seq<string>)
    requires tags != [] && forall k :: 0 <= k < |tags| ==> NoComma(tags[k])
    ensures Pieces(Joined(tags)) == tags
  {
    if |tags| == 1 {
      PiecesOfTag(tags[0]);
    } else {
      PiecesSplit(tags[0], Joined(tags[1..]));
      PiecesOfJoined(tags[1..]);
    }
  }

  lemma {:induction false} CleanedTags(tags: seq<string>)
    requires forall k :: 0 <= k < |tags| ==> IsTag(tags[k])
    ensures Cleaned(tags) == tags
  {
    if tags != [] {
      CleanedTags(tags[1..]);
    }
  }

  /** Validated tags survive the round trip through their stored text. */
  lemma SplitUndoesJoin(tags: seq<string>)
    requires forall k :: 0 <= k < |tags| ==> IsTag(tags[k])
    ensures Cleaned(Pieces(Joined(tags))) == tags
  {
    if tags != [] {
      PiecesOfJoined(tags);
      CleanedTags(tags);
    }
  }

  // -------------------------------------------------------------------- the tag filter

  /** SQLite's `instr(hay, needle) > 0`. */
  ghost predicate OccursAt(hay: string, needle: string, i: nat) {
    i + |needle| <= |hay| && hay[i..i + |needle|] == needle
  }

  ghost predicate Occurs(hay: string, needle: string) {
    exists i: nat :: OccursAt(hay, needle, i)
  }

  function TagNeedle(tag: string): string {
    "," + tag + ","
  }

  /** `instr(',' || p.tags || ',', ?) > 0`. */
  ghost predicate TagFilter(stored: string, tag: string) {
    Occurs("," + stored + ",", TagNeedle(tag))
  }

  /** Pieces with a comma before and after each. */
  function Wrapped(pieces: seq<string>): string {
    if pieces == [] then "," else "," + pieces[0] + Wrapped(pieces[1..])
  }

  lemma WrappedStarts(pieces: seq<string>)
    ensures Wrapped(pieces) != "" && Wrapped(pieces)[0] == ','
  {
  }

  lemma {:induction false} WrappedPieces(text: string)
    ensures "," + text + "," == Wrapped(Pieces(text))
    decreases |text|
  {
    if text == "" {
      assert Pieces(text)[1..] == [];
    } else {
      WrappedPieces(text[1..]);
      var rest := Pieces(text[1..]);
      PiecesNonEmpty(text[1..]);
      assert Wrapped(rest) == "," + rest[0] + Wrapped(rest[1..]);
      if text[0] == ',' {
        assert Pieces(text)[1..] == rest;
        PrependComma(text);
      } else {
        assert Pieces(text)[0] == [text[0]] + rest[0] && Pieces(text)[1..] == rest[1..];
        WrapOneMore(",", text[0], text[1..], ",", rest[0], Wrapped(rest[1..]));
        assert text == [text[0]] + text[1..];
      }
    }
  }

  lemma PrependComma(text: string)
    requires text != "" && text[0] == ','
    ensures "," + text + "," == "," + "" + ("," + text[1..] + ",")
  {
    assert text == "," + text[1..];
  }

  lemma WrapOneMore(p: string, c: char, text: string, q: string, first: string, rest: string)
    requires p + text + q == p + first + rest
    ensures p + ([c] + text) + q == p + ([c] + first) + rest
  {
    assert (p + text + q)[|p|..] == text + q && (p + first + rest)[|p|..] == first + rest;
    assert p + ([c] + text) + q == p + [c] + (text + q);
    assert p + ([c] + first) + rest == p + [c] + (first + rest);
  }

  ghost predicate CommaFree(pieces: seq<string>) {
    forall k :: 0 <= k < |pieces| ==> NoComma(pieces[k])
  }

  /** Two comma-free texts followed by a comma agree only if they are equal. */
  lemma {:induction false} FirstCommaFixes(a: string, b: string, u: string, v: string)
    requires NoComma(a) && NoComma(b)
    requires u != "" && u[0] == ',' && v != "" && v[0] == ','
    requires a + u <= b + v
    ensures a == b && u <= v
  {
    assert (a + u)[0] == (b + v)[0];
    assert a != "" ==> (a + u)[0] == a[0] && a[0] in a;
    assert b != "" ==> (b + v)[0] == b[0] && b[0] in b;
    if a != "" && b != "" {
      assert (a + u)[1..] == a[1..] + u && (b + v)[1..] == b[1..] + v;
      FirstCommaFixes(a[1..], b[1..], u, v);
      assert a == [a[0]] + a[1..] && b == [b[0]] + b[1..];
    } else if a == "" && b == "" {
      assert a + u == u && b + v == v;
    }
  }

  lemma {:induction false} PrefixOfWrapped(b: seq<string>, a: seq<string>)
    requires CommaFree(a) && CommaFree(b)
    ensures Wrapped(b) <= Wrapped(a) <==> b <= a
    decreases |b|
  {
    if b == [] {
      assert Wrapped(a)[0] == ',';
    } else if a == [] {
      assert |Wrapped(b)| > 1;
    } else {
      var u, v := Wrapped(b[1..]), Wrapped(a[1..]);
      PrefixOfWrapped(b[1..], a[1..]);
      WrappedStarts(b[1..]);
      WrappedStarts(a[1..]);
      assert Wrapped(b) == "," + b[0] + u && Wrapped(a) == "," + a[0] + v;
      PrefixPiecewise(b[0], a[0], u, v);
      assert b == [b[0]] + b[1..] && a == [a[0]] + a[1..];
    }
  }

  lemma PrefixPiecewise(b: string, a: string, u: string, v: string)
    requires NoComma(b) && NoComma(a) && u != "" && u[0] == ',' && v != "" && v[0] == ','
    ensures "," + b + u <= "," + a + v <==> b == a && u <= v
  {
    assert ("," + b + u)[1..] == b + u && ("," + a + v)[1..] == a + v;
    if "," + b + u <= "," + a + v {
      FirstCommaFixes(b, a, u, v);
    }
  }

  ghost predicate IsRunAt(pieces: seq<string>, run: seq<string>, k: nat) {
    k + |run| <= |pieces| && pieces[k..k + |run|] == run
  }

  ghost predicate HasRun(pieces: seq<string>, run: seq<string>) {
    exists k: nat :: IsRunAt(pieces, run, k)
  }

  /** An occurrence in a wrapped list starts at a comma, so it is a run of its pieces. */
  lemma {:induction false} OccurrenceIsRun(a: seq<string>, b: seq<string>, i: nat) returns (k: nat)
    requires CommaFree(a) && CommaFree(b) && b != []
    requires OccursAt(Wrapped(a), Wrapped(b), i)
    ensures IsRunAt(a, b, k)
    decreases |a|
  {
    var hay, needle := Wrapped(a), Wrapped(b);
    if i == 0 {
      assert needle <= hay;
      PrefixOfWrapped(b, a);
      k := 0;
      assert a[0..|b|] == b;
    } else {
      WrappedStarts(b);
      assert needle[0] == hay[i..i + |needle|][0] == hay[i];
      assert a != [];
      var tail := Wrapped(a[1..]);
      assert hay == "," + a[0] + tail;
      assert forall x :: 0 <= x < |a[0]| ==> hay[x + 1] == a[0][x];
      assert i >= 1 + |a[0]|;
      var j := i - 1 - |a[0]|;
      assert tail[j..j + |needle|] == hay[i..i + |needle|];
      k := OccurrenceIsRun(a[1..], b, j);
      assert a[k + 1..k + 1 + |b|] == a[1..][k..k + |b|];
      k := k + 1;
    }
  }

  lemma {:induction false} RunOccurs(a: seq<string>, b: seq<string>, k: nat) returns (i: nat)
    requires CommaFree(a) && CommaFree(b) && IsRunAt(a, b, k)
    ensures OccursAt(Wrapped(a), Wrapped(b), i)
    decreases k
  {
    if k == 0 {
      assert b <= a;
      PrefixOfWrapped(b, a);
      i := 0;
      assert Wrapped(a)[0..|Wrapped(b)|] == Wrapped(b);
    } else {
      assert a[1..][k - 1..k - 1 + |b|] == a[k..k + |b|];
      var j := RunOccurs(a[1..], b, k - 1);
      i := 1 + |a[0]| + j;
      var hay, tail := Wrapped(a), Wrapped(a[1..]);
      assert hay == "," + a[0] + tail;
      assert hay[i..i + |Wrapped(b)|] == tail[j..j + |Wrapped(b)|];
    }
  }

  /** The filter, for every stored text and every query: it holds exactly when the pieces of
      the query are consecutive pieces of the stored text. */
  lemma TagFilterMeaning(stored: string, tag: string)
    ensures TagFilter(stored, tag) <==> HasRun(Pieces(stored), Pieces(tag))
  {
    WrappedPieces(stored);
    WrappedPieces(tag);
    PiecesNonEmpty(stored);
    PiecesNonEmpty(tag);
    if TagFilter(stored, tag) {
      var i: nat :| OccursAt("," + stored + ",", TagNeedle(tag), i);
      var k := OccurrenceIsRun(Pieces(stored), Pieces(tag), i);
    }
    if k: nat :| IsRunAt(Pieces(stored), Pieces(tag), k) {
      var i := RunOccurs(Pieces(stored), Pieces(tag), k);
      assert OccursAt("," + stored + ",", TagNeedle(tag), i);
    }
  }

  /** For validated tags and a non-empty comma-free query the filter is membership. */
  lemma TagFilterIsMembership(tags: seq<string>, tag: string)
    requires forall k :: 0 <= k < |tags| ==> IsTag(tags[k])
    requires tag != "" && NoComma(tag)
    ensures TagFilter(Joined(tags), tag) <==> tag in tags
  {
    TagFilterMeaning(Joined(tags), tag);
    PiecesOfTag(tag);
    RunOfOne(Pieces(Joined(tags)), tag);
    if tags == [] {
      assert Pieces(Joined(tags)) == [""];
    } else {
      PiecesOfJoined(tags);
    }
  }

  lemma RunOfOne(pieces: seq<string>, tag: string)
    ensures HasRun(pieces, [tag]) <==> tag in pieces
  {
    if k: nat :| IsRunAt(pieces, [tag], k) {
      assert pieces[k..k + 1][0] == pieces[k];
    }
    if tag in pieces {
      var k: nat :| k < |pieces| && pieces[k] == tag;
      assert IsRunAt(pieces, [tag], k);
    }
  }

  // ------------------------------------------------------------------- the title filter

  predicate EqualFold(a: string, b: string) {
    |a| == |b| && forall i :: 0 <= i < |a| ==> Lower(a[i]) == Lower(b[i])
  }

  /** SQLite's `text LIKE pattern ESCAPE '\\'`: `%` matches any text, `_` any character, the
      escape makes the next character literal, and ASCII letters match in either case. */
  ghost predicate Like(pattern: string, text: string)
    decreases |pattern|
  {
    if pattern == "" then text == ""
    else if pattern[0] == '%' then exists k: nat :: k <= |text| && Like(pattern[1..], text[k..])
    else if pattern[0] == '_' then text != "" && Like(pattern[1..], text[1..])
    else if pattern[0] == '\\' then
      |pattern| > 1 && text != "" && Lower(text[0]) == Lower(pattern[1]) && Like(pattern[2..], text[1..])
    else text != "" && Lower(text[0]) == Lower(pattern[0]) && Like(pattern[1..], text[1..])
  }

  predicate IsSpecial(c: char) {
    c == '\\' || c == '%' || c == '_'
  }

  function Escaped(text: string): string {
    if text == "" then "" else (if IsSpecial(text[0]) then ['\\', text[0]] else [text[0]]) + Escaped(text[1..])
  }

  function TitlePattern(keyword: string): string {
    "%" + Escaped(keyword) + "%"
  }

  lemma LiteralStep(c: char, tail: string, text: string)
    ensures Like(Escaped([c]) + tail, text) <==> text != "" && Lower(text[0]) == Lower(c) && Like(tail, text[1..])
  {
    var whole := Escaped([c]) + tail;
    assert [c][1..] == "";
    assert Escaped([c]) == if IsSpecial(c) then ['\\', c] else [c];
    if IsSpecial(c) {
      assert whole[0] == '\\' && whole[1] == c && whole[2..] == tail;
    } else {
      assert whole[0] == c && whole[1..] == tail;
    }
  }

  lemma {:induction false} EscapedIsLiteral(keyword: string, pattern: string, text: string)
    ensures Like(Escaped(keyword) + pattern, text) <==>
              |keyword| <= |text| && EqualFold(text[..|keyword|], keyword) && Like(pattern, text[|keyword|..])
  {
    if keyword == "" {
      assert Escaped(keyword) + pattern == pattern && text[0..] == text;
    } else {
      EscapedCons(keyword, pattern);
      LiteralStep(keyword[0], Escaped(keyword[1..]) + pattern, text);
      if text != "" {
        EscapedIsLiteral(keyword[1..], pattern, text[1..]);
        FoldStep(keyword, text);
        assert |keyword| <= |text| ==> text[1..][|keyword| - 1..] == text[|keyword|..];
      }
    }
  }

  lemma EscapedCons(keyword: string, pattern: string)
    requires keyword != ""
    ensures Escaped(keyword) + pattern == Escaped([keyword[0]]) + (Escaped(keyword[1..]) + pattern)
  {
    assert [keyword[0]][1..] == "";
    assert Escaped([keyword[0]]) + Escaped(keyword[1..]) == Escaped(keyword);
  }

  lemma FoldStep(keyword: string, text: string)
    requires keyword != "" && text != ""
    ensures (|keyword| <= |text| && EqualFold(text[..|keyword|], keyword)) <==>
              (Lower(text[0]) == Lower(keyword[0]) && |keyword| - 1 <= |text| - 1
               && EqualFold(text[1..][..|keyword| - 1], keyword[1..]))
  {
    if |keyword| <= |text| {
      var a, b := text[..|keyword|], text[1..][..|keyword| - 1];
      assert forall i :: 0 <= i < |b| ==> b[i] == a[i + 1] && keyword[1..][i] == keyword[i + 1];
      assert a[0] == text[0];
      assert forall i :: 1 <= i < |a| ==> a[i] == b[i - 1] && keyword[i] == keyword[1..][i - 1];
    }
  }

  /** The keyword stands at position k of the title, letter case aside. */
  predicate FoundAt(title: string, keyword: string, k: nat) {
    k + |keyword| <= |title| && EqualFold(title[k..k + |keyword|], keyword)
  }

  ghost predicate Found(title: string, keyword: string) {
    exists k: nat :: FoundAt(title, keyword, k)
  }

  lemma TailMatches(keyword: string, title: string, k: nat)
    requires k <= |title|
    ensures Like(Escaped(keyword) + "%", title[k..]) <==> FoundAt(title, keyword, k)
  {
    EscapedIsLiteral(keyword, "%", title[k..]);
    if k + |keyword| <= |title| {
      assert title[k..][..|keyword|] == title[k..k + |keyword|];
      MatchAll(title[k..][|keyword|..]);
    }
  }

  /** The escaped pattern matches a title exactly when the keyword occurs in it, letter case
      aside, for every keyword including `%`, `_` and backslash. */
  lemma TitlePatternMeaning(keyword: string, title: string)
    ensures Like(TitlePattern(keyword), title) <==> Found(title, keyword)
  {
    var pattern, rest := TitlePattern(keyword), Escaped(keyword) + "%";
    assert pattern[0] == '%' && pattern[1..] == rest;
    if Like(pattern, title) {
      var k: nat :| k <= |title| && Like(pattern[1..], title[k..]);
      TailMatches(keyword, title, k);
    }
    if k: nat :| FoundAt(title, keyword, k) {
      TailMatches(keyword, title, k);
      assert Like(pattern[1..], title[k..]);
    }
  }

  lemma MatchAll(text: string)
    ensures Like("%", text)
  {
    assert "%"[1..] == "" && text[|text|..] == "";
    assert Like("%"[1..], text[|text|..]);
  }

  // ------------------------------------------------------------------- the algorithms

  lemma {:induction false} JoinedSnoc(tags: seq<string>, tag: string)
    requires tags != []
    ensures Joined(tags + [tag]) == Joined(tags) + "," + tag
  {
    assert (tags + [tag])[1..] == tags[1..] + [tag];
    if |tags| > 1 {
      JoinedSnoc(tags[1..], tag);
    }
  }

  method JoinTags(tags: seq<string>) returns (joined: string)
    ensures joined == Joined(tags)
  {
    joined := "";
    for i := 0 to |tags|
      invariant joined == Joined(tags[..i])
    {
      assert tags[..i + 1] == tags[..i] + [tags[i]];
      if i > 0 {
        JoinedSnoc(tags[..i], tags[i]);
        joined := joined + ",";
      }
      joined := joined + tags[i];
    }
    assert tags[..|tags|] == tags;
  }

  method SkipSpace(text: string) returns (begin: nat)
    ensures begin <= |text| && text[begin..] == TrimLeft(text)
  {
    begin := 0;
    assert text[0..] == text;
    while begin < |text| && IsSpace(text[begin])
      invariant begin <= |text|
      invariant TrimLeft(text[begin..]) == TrimLeft(text)
    {
      assert text[begin..][1..] == text[begin + 1..];
      begin := begin + 1;
    }
  }

  method SkipSpaceBack(text: string) returns (end: nat)
    ensures end <= |text| && text[..end] == TrimRight(text)
  {
    end := |text|;
    assert text[..end] == text;
    while end > 0 && IsSpace(text[end - 1])
      invariant end <= |text|
      invariant TrimRight(text[..end]) == TrimRight(text)
    {
      assert text[..end][..end - 1] == text[..end - 1];
      end := end - 1;
    }
  }

  method TrimText(text: string) returns (trimmed: string)
    ensures trimmed == Trim(text)
  {
    var begin := SkipSpace(text);
    var end := SkipSpaceBack(text[begin..]);
    return text[begin..][..end];
  }

  method FindComma(text: string, pos: nat) returns (end: nat)
    requires pos <= |text|
    ensures pos <= end <= |text| && NoComma(text[pos..end])
    ensures end < |text| ==> text[end] == ','
  {
    end := pos;
    while end < |text| && text[end] != ','
      invariant pos <= end <= |text| && NoComma(text[pos..end])
    {
      end := end + 1;
    }
  }

  /** The tags in the text from `pos` on. */
  ghost function TagsFrom(text: string, pos: nat): seq<string>
    requires pos <= |text|
  {
    Cleaned(Pieces(text[pos..]))
  }

  function Kept(tag: string): seq<string> {
    if tag == "" then [] else [tag]
  }

  method SplitTags(text: string) returns (tags: seq<string>)
    ensures tags == Cleaned(Pieces(text))
  {
    tags := [];
    var pos, more := 0, true;
    assert text[0..] == text;
    while more
      invariant 0 <= pos <= |text|
      invariant Cleaned(Pieces(text)) == if more then tags + TagsFrom(text, pos) else tags
      decreases more, |text| - pos
    {
      tags, pos, more := SplitOne(text, pos, tags);
    }
  }

  /** One piece: its tag, if any, is kept. */
  method SplitOne(text: string, pos: nat, tags: seq<string>) returns (tags': seq<string>, pos': nat, more: bool)
    requires pos <= |text|
    ensures pos <= pos' <= |text| && (more ==> pos < pos')
    ensures tags + TagsFrom(text, pos) == if more then tags' + TagsFrom(text, pos') else tags'
  {
    var end, tag := NextTag(text, pos);
    KeepNext(tags, tag, TagsAfter(text, end));
    tags' := if tag != "" then tags + [tag] else tags;
    more := end < |text|;
    pos' := if more then end + 1 else pos;
  }

  /** The tags in the text behind the piece that ends at `end`. */
  ghost function TagsAfter(text: string, end: nat): seq<string>
    requires end <= |text|
  {
    if end == |text| then [] else TagsFrom(text, end + 1)
  }

  /** The piece from `pos` on, trimmed, and where it ends. */
  method NextTag(text: string, pos: nat) returns (end: nat, tag: string)
    requires pos <= |text|
    ensures pos <= end <= |text| && TagsFrom(text, pos) == Kept(tag) + TagsAfter(text, end)
  {
    end := FindComma(text, pos);
    tag := TrimText(text[pos..end]);
    NextPiece(text, pos, end);
  }

  lemma KeepNext(tags: seq<string>, tag: string, left: seq<string>)
    ensures tags + (Kept(tag) + left) == (if tag != "" then tags + [tag] else tags) + left
  {
  }

  lemma NextPiece(text: string, pos: nat, end: nat)
    requires pos <= end <= |text| && NoComma(text[pos..end]) && (end < |text| ==> text[end] == ',')
    ensures TagsFrom(text, pos) == Kept(Trim(text[pos..end])) + TagsAfter(text, end)
  {
    var piece := text[pos..end];
    if end == |text| {
      PiecesOfTag(piece);
      assert text[pos..] == piece && [piece][1..] == [];
      assert Cleaned([piece]) == Kept(Trim(piece)) + Cleaned([piece][1..]);
    } else {
      var rest := text[end + 1..];
      assert text[pos..] == piece + "," + rest;
      PiecesSplit(piece, rest);
      assert Pieces(text[pos..])[1..] == Pieces(rest);
    }
  }

  const MAX_TAGS := 20
  const MAX_TAG_BYTES := 30

  /** What a tag list of a request must satisfy. */
  predicate Acceptable(values: seq<string>) {
    && |values| <= 20
    && (forall k :: 0 <= k < |values| ==>
          Trim(values[k]) != "" && |Trim(values[k])| <= 30 && NoComma(Trim(values[k])))
    && (forall j, k :: 0 <= j < k < |values| ==> Trim(values[j]) != Trim(values[k]))
  }

  /** Validation: exactly the acceptable lists pass, each tag trimmed, and every tag that
      passes is one that storing and splitting preserves. */
  method ParseTags(values: seq<string>) returns (tags: Option<seq<string>>)
    ensures tags.Some? <==> Acceptable(values)
    ensures tags.Some? ==> tags.value == seq(|values|, k requires 0 <= k < |values| => Trim(values[k]))
    ensures tags.Some? ==> forall k :: 0 <= k < |tags.value| ==> IsTag(tags.value[k])
  {
    if |values| > MAX_TAGS {
      return None;
    }
    var out: seq<string> := [];
    for i := 0 to |values|
      invariant |out| == i && forall k :: 0 <= k < i ==> out[k] == Trim(values[k]) && IsTag(out[k])
      invariant Acceptable(values[..i])
    {
      var tag := TrimText(values[i]);
      assert values[..i + 1] == values[..i] + [values[i]];
      if tag == "" || |tag| > MAX_TAG_BYTES || ',' in tag || tag in out {
        assert !Acceptable(values);
        return None;
      }
      TrimIdempotent(values[i]);
      out := out + [tag];
    }
    assert values[..|values|] == values;
    return Some(out);
  }

  lemma {:induction false} TrimRightKeepsStart(text: string)
    ensures |TrimRight(text)| <= |text| && TrimRight(text) == text[..|TrimRight(text)|]
    ensures TrimRight(text) != "" ==> !IsSpace(TrimRight(text)[|TrimRight(text)| - 1])
    decreases |text|
  {
    if text != "" && IsSpace(text[|text| - 1]) {
      TrimRightKeepsStart(text[..|text| - 1]);
    }
  }

  lemma {:induction false} TrimLeftStops(text: string)
    ensures TrimLeft(text) != "" ==> !IsSpace(TrimLeft(text)[0])
  {
    if text != "" && IsSpace(text[0]) {
      TrimLeftStops(text[1..]);
    }
  }

  lemma TrimIdempotent(text: string)
    ensures Trim(Trim(text)) == Trim(text)
  {
    TrimLeftStops(text);
    TrimRightKeepsStart(TrimLeft(text));
  }

  method EscapeLike(text: string) returns (escaped: string)
    ensures escaped == Escaped(text)
  {
    escaped := "";
    assert text[0..] == text;
    for i := 0 to |text|
      invariant escaped + Escaped(text[i..]) == Escaped(text)
    {
      assert text[i..][1..] == text[i + 1..];
      if IsSpecial(text[i]) {
        escaped := escaped + "\\";
      }
      escaped := escaped + [text[i]];
    }
  }

  // ------------------------------------------------------------------- the whole filter

  datatype Visibility = VisibleOnly | All | HiddenOnly

  datatype Query = Query(visibility: Visibility, keyword: string, difficulty: string, tag: string)

  datatype Row = Row(title: string, difficulty: string, tags: string, visible: bool)

  datatype Condition =
    | VisibleIs(flag: bool)
    | TitleLike(pattern: string)
    | DifficultyIs(value: string)
    | TagsContain(needle: string)

  ghost predicate Satisfies(row: Row, condition: Condition) {
    match condition
    case VisibleIs(flag) => row.visible == flag
    case TitleLike(pattern) => Like(pattern, row.title)
    case DifficultyIs(value) => row.difficulty == value
    case TagsContain(needle) => Occurs("," + row.tags + ",", needle)
  }

  /** What the user asked for. */
  ghost predicate Wanted(query: Query, row: Row) {
    && (query.visibility.VisibleOnly? ==> row.visible)
    && (query.visibility.HiddenOnly? ==> !row.visible)
    && (query.keyword != "" ==> Found(row.title, query.keyword))
    && (query.difficulty != "" ==> row.difficulty == query.difficulty)
    && (query.tag != "" ==> HasRun(Pieces(row.tags), Pieces(query.tag)))
  }

  ghost predicate SatisfiesAll(row: Row, conditions: seq<Condition>) {
    forall c :: c in conditions ==> Satisfies(row, c)
  }

  method BuildWhere(query: Query) returns (conditions: seq<Condition>)
    ensures forall row :: SatisfiesAll(row, conditions) <==> Wanted(query, row)
  {
    conditions := [];
    if query.visibility.VisibleOnly? {
      conditions := conditions + [VisibleIs(true)];
    } else if query.visibility.HiddenOnly? {
      conditions := conditions + [VisibleIs(false)];
    }
    if query.keyword != "" {
      var escaped := EscapeLike(query.keyword);
      conditions := conditions + [TitleLike("%" + escaped + "%")];
    }
    if query.difficulty != "" {
      conditions := conditions + [DifficultyIs(query.difficulty)];
    }
    if query.tag != "" {
      conditions := conditions + [TagsContain(TagNeedle(query.tag))];
    }
    forall row
      ensures SatisfiesAll(row, conditions) <==> Wanted(query, row)
    {
      ConditionsMeaning(query, row, conditions);
    }
  }

  lemma ConditionsMeaning(query: Query, row: Row, conditions: seq<Condition>)
    requires forall c :: c in conditions <==>
      || (query.visibility.VisibleOnly? && c == VisibleIs(true))
      || (query.visibility.HiddenOnly? && c == VisibleIs(false))
      || (query.keyword != "" && c == TitleLike(TitlePattern(query.keyword)))
      || (query.difficulty != "" && c == DifficultyIs(query.difficulty))
      || (query.tag != "" && c == TagsContain(TagNeedle(query.tag)))
    ensures SatisfiesAll(row, conditions) <==> Wanted(query, row)
  {
    TitlePatternMeaning(query.keyword, row.title);
    TagFilterMeaning(row.tags, query.tag);
    var title, tags := TitleLike(TitlePattern(query.keyword)), TagsContain(TagNeedle(query.tag));
    assert Satisfies(row, title) == Like(TitlePattern(query.keyword), row.title);
    assert Satisfies(row, tags) == TagFilter(row.tags, query.tag);
    if SatisfiesAll(row, conditions) {
      assert query.keyword != "" ==> title in conditions;
      assert query.tag != "" ==> tags in conditions;
      assert query.visibility.VisibleOnly? ==> Satisfies(row, VisibleIs(true));
      assert query.visibility.HiddenOnly? ==> Satisfies(row, VisibleIs(false));
      assert query.difficulty != "" ==> Satisfies(row, DifficultyIs(query.difficulty));
    }
    if Wanted(query, row) {
      forall c | c in conditions
        ensures Satisfies(row, c)
      {
        assert c.TitleLike? ==> query.keyword != "" && c == title;
        assert c.TagsContain? ==> query.tag != "" && c == tags && TagFilter(row.tags, query.tag);
      }
    }
  }
}
