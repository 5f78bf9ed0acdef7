/** The editor's toolbar formatting (`applyFormatting` in the editor
    component): bold and italic wrap the selection in markers, list prefixes
    every non-blank selected line with `- `, and a heading level puts `#`
    markers in front of every line the selection touches, replacing any
    markers already there. The result is the new article body. */
module Formatting {
  import opened Text

  datatype Format = Bold | Italic | List | H1 | H2 | H3 {
    predicate IsHeading() {
      H1? || H2? || H3?
    }

    /** The heading level is the digit after the `h` of the format's name. */
    function Level(): (n: nat)
      requires IsHeading()
      ensures 1 <= n <= 3
      ensures H1? ==> n == 1
      ensures H2? ==> n == 2
      ensures H3? ==> n == 3
    {
      if H1? then 1 else if H2? then 2 else 3
    }
  }

  /** `n` copies of `c`. */
  function Repeat(c: char, n: nat): (r: string)
    ensures |r| == n
    ensures forall i :: 0 <= i < n ==> r[i] == c
  {
    if n == 0 then [] else [c] + Repeat(c, n - 1)
  }

  /** The marker of a heading of the given level: that many `#`, then a space. */
  function HeadingPrefix(level: nat): (r: string)
    ensures |r| == level + 1 && r[level] == ' '
    ensures forall i :: 0 <= i < level ==> r[i] == '#'
    ensures '\n' !in r
  {
    Repeat('#', level) + " "
  }

  /** `s` without its leading run of `#`. */
  function DropHashes(s: string): (r: string)
    ensures |r| <= |s| && r == s[|s| - |r|..]
    ensures r == [] || r[0] != '#'
    ensures forall i :: 0 <= i < |s| - |r| ==> s[i] == '#'
    decreases |s|
  {
    if |s| > 0 && s[0] == '#' then DropHashes(s[1..]) else s
  }

  /** The heading marker removed by a regular-expression replace: a leading
      marker made of optional whitespace, one or more `#` and optional
      whitespace is removed; a line
      whose first non-whitespace character is not `#` is left as it is. As
      `\s` cannot match `#`, the greedy match is unique. */
  function StripHeadingMarker(line: string): (r: string)
    ensures IsSuffix(r, line)
    ensures (line == [] || !IsSpace(line[0])) ==> (r == [] || !IsSpace(r[0]))
    ensures !Marked(line) ==> r == line
    ensures Marked(line) ==> r == [] || !IsSpace(r[0])
    ensures Marked(line) ==> |r| < |line| && forall i :: 0 <= i < |line| - |r| ==> IsSpace(line[i]) || line[i] == '#'
  {
    var rest := TrimStart(line);
    if |rest| > 0 && rest[0] == '#' then
      var afterHashes := DropHashes(rest);
      var stripped := TrimStart(afterHashes);
      DropHashesShortens(rest);
      RunsRemoved(line, rest, afterHashes, stripped);
      stripped
    else line
  }

  /** The line's first non-whitespace character is `#`: it carries a heading marker. */
  predicate Marked(line: string) {
    var rest := TrimStart(line);
    |rest| > 0 && rest[0] == '#'
  }

  /** A string that starts with `#` loses at least one character to `DropHashes`. */
  lemma DropHashesShortens(s: string)
    requires |s| > 0 && s[0] == '#'
    ensures |DropHashes(s)| < |s|
  {
  }

  /** Removing a run of whitespace, then of `#` (at least one), then of
      whitespace from the front of a line leaves a shorter suffix of it,
      and removes only whitespace and `#`. */
  lemma RunsRemoved(line: string, rest: string, afterHashes: string, stripped: string)
    requires IsSuffix(rest, line) && forall i :: 0 <= i < |line| - |rest| ==> IsSpace(line[i])
    requires IsSuffix(afterHashes, rest) && |afterHashes| < |rest|
    requires forall i :: 0 <= i < |rest| - |afterHashes| ==> rest[i] == '#'
    requires IsSuffix(stripped, afterHashes) && forall i :: 0 <= i < |afterHashes| - |stripped| ==> IsSpace(afterHashes[i])
    ensures IsSuffix(stripped, line) && |stripped| < |line|
    ensures forall i :: 0 <= i < |line| - |stripped| ==> IsSpace(line[i]) || line[i] == '#'
  {
    SuffixTrans(stripped, afterHashes, rest);
    SuffixTrans(stripped, rest, line);
    var a, b := |line| - |rest|, |line| - |afterHashes|;
    forall i | 0 <= i < |line| - |stripped| ensures IsSpace(line[i]) || line[i] == '#' {
      if i >= a {
        assert line[i] == rest[i - a];
        if i >= b {
          assert rest[i - a] == afterHashes[i - b];
        }
      }
    }
  }

  predicate IsSuffix(r: string, s: string) {
    |r| <= |s| && r == s[|s| - |r|..]
  }

  lemma SuffixTrans(a: string, b: string, c: string)
    requires IsSuffix(a, b) && IsSuffix(b, c)
    ensures IsSuffix(a, c)
  {
    assert c[|c| - |b|..][|b| - |a|..] == c[|c| - |a|..];
  }

  /** A character missing from a string is missing from its suffixes. */
  lemma SuffixLacks(r: string, s: string, c: char)
    requires IsSuffix(r, s) && c !in s
    ensures c !in r
  {
    forall j | 0 <= j < |r| ensures r[j] != c {
      assert r[j] == s[|s| - |r| + j];
    }
  }

  /** One line of a heading edit: the level's prefix, then the line without its old marker. */
  function HeadingLine(level: nat, line: string): (r: string)
    ensures HeadingPrefix(level) <= r
    ensures r[|HeadingPrefix(level)|..] == StripHeadingMarker(line)
  {
    HeadingPrefix(level) + StripHeadingMarker(line)
  }

  /** One line of a list edit: a blank line becomes empty, any other line gets a `- ` bullet. */
  function ListLine(line: string): (r: string)
    ensures IsBlank(line) ==> r == []
    ensures !IsBlank(line) ==> |r| == |line| + 2 && r[..2] == "- " && r[2..] == line
  {
    if IsBlank(line) then [] else "- " + line
  }

  /** Each line mapped by `ListLine`. */
  function ListLines(lines: seq<string>): (r: seq<string>)
    ensures |r| == |lines|
    ensures forall i :: 0 <= i < |lines| ==> r[i] == ListLine(lines[i])
  {
    seq(|lines|, i requires 0 <= i < |lines| => ListLine(lines[i]))
  }

  /** The selection split on newlines, each line mapped by `ListLine`,
      joined again: the block has as many line breaks as the selection. */
  function ListBlock(text: string): (r: string)
    ensures multiset(r)['\n'] == multiset(text)['\n']
  {
    var lines := Split(text, '\n');
    ListLinesLackNewline(lines);
    JoinCount(ListLines(lines), '\n');
    SplitCount(text, '\n');
    Join(ListLines(lines), "\n")
  }

  lemma ListLinesLackNewline(lines: seq<string>)
    requires forall i :: 0 <= i < |lines| ==> '\n' !in lines[i]
    ensures forall i :: 0 <= i < |lines| ==> '\n' !in ListLines(lines)[i]
  {
    forall i | 0 <= i < |lines| ensures '\n' !in ListLines(lines)[i] {
      if !IsBlank(lines[i]) {
        assert ListLines(lines)[i] == "- " + lines[i];
      }
    }
  }

  /** Each line mapped by `HeadingLine`. */
  function HeadingLines(lines: seq<string>, level: nat): (r: seq<string>)
    ensures |r| == |lines|
    ensures forall i :: 0 <= i < |lines| ==> r[i] == HeadingLine(level, lines[i])
  {
    seq(|lines|, i requires 0 <= i < |lines| => HeadingLine(level, lines[i]))
  }

  /** The touched lines split on newlines, each mapped by `HeadingLine`,
      joined again: the block has as many line breaks as the text and
      starts with the heading prefix. */
  function HeadingBlock(text: string, level: nat): (r: string)
    ensures multiset(r)['\n'] == multiset(text)['\n']
    ensures HeadingPrefix(level) <= r
  {
    var lines := Split(text, '\n');
    HeadingLinesLackNewline(lines, level);
    JoinCount(HeadingLines(lines, level), '\n');
    SplitCount(text, '\n');
    Join(HeadingLines(lines, level), "\n")
  }

  lemma HeadingLinesLackNewline(lines: seq<string>, level: nat)
    requires forall i :: 0 <= i < |lines| ==> '\n' !in lines[i]
    ensures forall i :: 0 <= i < |lines| ==> '\n' !in HeadingLines(lines, level)[i] && HeadingPrefix(level) <= HeadingLines(lines, level)[i]
  {
    forall i | 0 <= i < |lines| ensures '\n' !in HeadingLines(lines, level)[i] && HeadingPrefix(level) <= HeadingLines(lines, level)[i] {
      SuffixLacks(StripHeadingMarker(lines[i]), lines[i], '\n');
      assert HeadingLines(lines, level)[i] == HeadingPrefix(level) + StripHeadingMarker(lines[i]);
    }
  }

  /** The selection wrapped in `marker` on both sides. */
  function Wrap(content: string, start: nat, end: nat, marker: string): (r: string)
    requires start <= end <= |content|
    ensures |r| == |content| + 2 * |marker|
    ensures r[..start] == content[..start]
    ensures r[start..start + |marker|] == marker
    ensures r[start + |marker|..end + |marker|] == content[start..end]
    ensures r[end + |marker|..end + 2 * |marker|] == marker
    ensures r[end + 2 * |marker|..] == content[end..]
    ensures KeepsOutside(content, r, start, end)
  {
    var r := content[..start] + marker + content[start..end] + marker + content[end..];
    assert |r| - (|content| - end) == end + 2 * |marker|;
    r
  }

  /** The text between `lineStart` and `lineEnd` is replaced by its heading
      block, with the editor's `substring` calls: when the bounds are
      reversed, the block is built from the text between them, while the
      text before `lineStart` and the text from `lineEnd` on are both kept,
      so the text between the two bounds appears three times. */
  function HeadingEdit(content: string, lineStart: int, lineEnd: int, level: nat): (r: string)
    ensures 0 <= lineStart <= lineEnd <= |content| ==>
      r == content[..lineStart] + HeadingBlock(content[lineStart..lineEnd], level) + content[lineEnd..]
    ensures 0 <= lineEnd < lineStart <= |content| ==>
      r == content[..lineStart] + HeadingBlock(content[lineEnd..lineStart], level) + content[lineEnd..]
  {
    SubstringPieces(content, lineStart, lineEnd);
    Substring(content, 0, lineStart)
    + HeadingBlock(Substring(content, lineStart, lineEnd), level)
    + Substring(content, lineEnd, |content|)
  }

  /** The editor's three `substring` calls of a heading edit, as slices. */
  lemma SubstringPieces(content: string, a: int, b: int)
    ensures 0 <= a <= |content| ==> Substring(content, 0, a) == content[..a]
    ensures 0 <= b <= |content| ==> Substring(content, b, |content|) == content[b..]
    ensures 0 <= a <= b <= |content| ==> Substring(content, a, b) == content[a..b]
    ensures 0 <= b < a <= |content| ==> Substring(content, a, b) == content[b..a]
  {
    if 0 <= a <= |content| {
      assert Clamp(0, |content|) == 0 && Clamp(a, |content|) == a;
    }
    if 0 <= b <= |content| {
      assert Clamp(|content|, |content|) == |content| && Clamp(b, |content|) == b;
    }
  }

  /** The lines a heading edit touches, exactly as the editor computes them:
      the line start is one past the last newline found searching back from
      the position before `start` (a search whose start is clamped), the selection
      end stepped back over a final newline, and the next newline from there. */
  function HeadingRangeAsWritten(content: string, start: nat, end: nat): (r: (int, int))
    requires start <= end <= |content|
    ensures 0 <= r.0 <= |content| && 0 <= r.1 <= |content|
    ensures r.0 == 0 || content[r.0 - 1] == '\n'
    ensures r.1 == |content| || content[r.1] == '\n'
    ensures 0 < start ==> r.0 <= start
  {
    var lineStart := LastIndexOfChar(content, '\n', start - 1) + 1;
    var selectionEnd := if end >= 1 && content[end - 1] == '\n' then end - 1 else end;
    var lineEnd := IndexOfFrom(content, "\n", selectionEnd);
    MatchedChar(content, '\n', lineEnd);
    (lineStart, if lineEnd == -1 then |content| else lineEnd)
  }

  /** The heading edit as the editor performs it, with the range above:
      the text before the line start and the text from the line end on are
      kept, and the touched lines between them are headed; when the range
      runs backwards, the lines between its bounds are headed instead. */
  function ApplyHeadingAsWritten(content: string, start: nat, end: nat, level: nat): (r: string)
    requires start <= end <= |content|
    ensures var (lo, hi) := HeadingRangeAsWritten(content, start, end);
      && (lo <= hi ==> r == content[..lo] + HeadingBlock(content[lo..hi], level) + content[hi..])
      && (hi < lo ==> r == content[..lo] + HeadingBlock(content[hi..lo], level) + content[hi..])
    ensures var (lo, hi) := HeadingRangeAsWritten(content, start, end);
      KeepsOutside(content, r, lo, hi)
  {
    var (lo, hi) := HeadingRangeAsWritten(content, start, end);
    if lo <= hi then
      PiecesKeepOutside(content, lo, hi, HeadingBlock(content[lo..hi], level));
      HeadingEdit(content, lo, hi, level)
    else
      PiecesKeepOutside(content, lo, hi, HeadingBlock(content[hi..lo], level));
      HeadingEdit(content, lo, hi, level)
  }

  /** The lines a heading edit is meant to touch: from the start of the line
      holding `start` (searching strictly before `start`) to the end of the
      line holding the selection's end, where a non-empty selection that
      ends right after a newline does not reach into the following line. */
  function HeadingRange(content: string, start: nat, end: nat): (r: (nat, nat))
    requires start <= end <= |content|
    ensures r.0 <= start <= r.1 <= |content|
    ensures start < end && content[end - 1] == '\n' ==> r.1 == end - 1
    ensures !(start < end && content[end - 1] == '\n') ==> end <= r.1
  {
    CharMatches(content, '\n');
    var lineStart := if start == 0 then 0 else LastIndexOfChar(content, '\n', start - 1) + 1;
    var selectionEnd := if start < end && content[end - 1] == '\n' then end - 1 else end;
    var lineEnd := IndexOfFrom(content, "\n", selectionEnd);
    (lineStart, if lineEnd == -1 then |content| else lineEnd)
  }

  /** The editor's formatting action on the body `content` with the
      textarea's selection `[start, end)` (the browser keeps
      `start <= end <= |content|`). Bold, italic and list change only the
      selection; a heading changes only the lines its range touches, the
      range being computed as the editor does. */
  function ApplyFormatting(content: string, start: nat, end: nat, format: Format): (r: string)
    requires start <= end <= |content|
    ensures !format.IsHeading() ==> KeepsOutside(content, r, start, end)
    ensures format.IsHeading() ==> var (lo, hi) := HeadingRangeAsWritten(content, start, end);
      KeepsOutside(content, r, lo, hi)
  {
    if format.IsHeading() then ApplyHeadingAsWritten(content, start, end, format.Level())
    else InlineEdit(content, start, end, format)
  }

  /** Bold, italic and list: the selection is wrapped in its markers or
      replaced by its list block. */
  function InlineEdit(content: string, start: nat, end: nat, format: Format): (r: string)
    requires start <= end <= |content| && !format.IsHeading()
    ensures KeepsOutside(content, r, start, end)
  {
    if format.Bold? then Wrap(content, start, end, "**")
    else if format.Italic? then Wrap(content, start, end, "*")
    else ListEdit(content, start, end)
  }

  /** The list edit: the selection is replaced by its list block. */
  function ListEdit(content: string, start: nat, end: nat): (r: string)
    requires start <= end <= |content|
    ensures KeepsOutside(content, r, start, end)
    ensures var block := ListBlock(content[start..end]);
      |r| == start + |block| + (|content| - end) && r[start..start + |block|] == block
  {
    var block := ListBlock(content[start..end]);
    PiecesKeepOutside(content, start, end, block);
    ThreePieces(content[..start], block, content[end..]);
    content[..start] + block + content[end..]
  }

  /** Text put between the part before `lo` and the part from `hi` on leaves both in place. */
  lemma PiecesKeepOutside(content: string, lo: int, hi: int, mid: string)
    requires 0 <= lo <= |content| && 0 <= hi <= |content|
    ensures KeepsOutside(content, content[..lo] + mid + content[hi..], lo, hi)
  {
    ThreePieces(content[..lo], mid, content[hi..]);
  }

  /** `r` begins with the text of `content` before `before` and ends with
      the text of `content` from `from` on. */
  predicate KeepsOutside(content: string, r: string, before: int, from: int) {
    && 0 <= before <= |content| && 0 <= from <= |content|
    && before <= |r| && r[..before] == content[..before]
    && |content| - from <= |r| && r[|r| - (|content| - from)..] == content[from..]
  }

  /** The formatting action with the corrected heading range: the touched
      lines are replaced by their heading block and nothing else changes.
      The other formats are as in `ApplyFormatting`. */
  function ApplyFormattingCorrected(content: string, start: nat, end: nat, format: Format): (r: string)
    requires start <= end <= |content|
    ensures !format.IsHeading() ==> r == ApplyFormatting(content, start, end, format)
    ensures format.IsHeading() ==> var (lo, hi) := HeadingRange(content, start, end);
      r == content[..lo] + HeadingBlock(content[lo..hi], format.Level()) + content[hi..]
  {
    if format.IsHeading() then
      var (lo, hi) := HeadingRange(content, start, end);
      HeadingEdit(content, lo, hi, format.Level())
    else ApplyFormatting(content, start, end, format)
  }

  // ---------------------------------------------------------------------
  // Bold and italic

  /** Bold adds exactly four characters: `**` on each side of the selection,
      and removing them gives back the original body. */
  lemma BoldWrapsSelection(content: string, start: nat, end: nat)
    requires start <= end <= |content|
    ensures var r := ApplyFormatting(content, start, end, Bold);
      && |r| == |content| + 4
      && r[..start] == content[..start]
      && r[start..start + 2] == "**" && r[end + 2..end + 4] == "**"
      && r[start + 2..end + 2] == content[start..end]
      && r[end + 4..] == content[end..]
      && r[..start] + r[start + 2..end + 2] + r[end + 4..] == content
  {
    var r := ApplyFormatting(content, start, end, Bold);
    assert content == content[..start] + content[start..end] + content[end..];
  }

  /** Italic adds exactly two characters: `*` on each side of the selection,
      and removing them gives back the original body. */
  lemma ItalicWrapsSelection(content: string, start: nat, end: nat)
    requires start <= end <= |content|
    ensures var r := ApplyFormatting(content, start, end, Italic);
      && |r| == |content| + 2
      && r[..start] == content[..start]
      && r[start] == '*' && r[end + 1] == '*'
      && r[start + 1..end + 1] == content[start..end]
      && r[end + 2..] == content[end..]
      && r[..start] + r[start + 1..end + 1] + r[end + 2..] == content
  {
    var r := ApplyFormatting(content, start, end, Italic);
    assert r[start..start + 1] == "*";
    assert r[end + 1..end + 2] == "*";
    assert content == content[..start] + content[start..end] + content[end..];
  }

  // ---------------------------------------------------------------------
  // Lists

  /** Mapping the lines of a split line by line and joining them again:
      splitting the result gives back exactly the mapped lines. */
  lemma MappedLines(lines: seq<string>, mapped: seq<string>)
    requires |lines| >= 1 && |mapped| == |lines|
    requires forall i :: 0 <= i < |mapped| ==> '\n' !in mapped[i]
    ensures Split(Join(mapped, "\n"), '\n') == mapped
    ensures multiset(Join(mapped, "\n"))['\n'] == |lines| - 1
  {
    SplitJoin(mapped, '\n');
    JoinCount(mapped, '\n');
  }

  /** The list block keeps the selection's line structure: the same number of
      newlines, and line `i` of the result is `- ` followed by line `i` of the
      selection when that line is not blank, and empty when it is. */
  lemma ListBlockLines(text: string)
    ensures var lines, out := Split(text, '\n'), Split(ListBlock(text), '\n');
      && |out| == |lines|
      && (forall i :: 0 <= i < |lines| && !IsBlank(lines[i]) ==> out[i] == "- " + lines[i])
      && (forall i :: 0 <= i < |lines| && IsBlank(lines[i]) ==> out[i] == [])
    ensures multiset(ListBlock(text))['\n'] == multiset(text)['\n']
  {
    var lines := Split(text, '\n');
    ListLinesLackNewline(lines);
    MappedLines(lines, ListLines(lines));
    SplitCount(text, '\n');
  }

  /** A list edit changes only the selection: the text before `start` and
      from `end` on is kept, and the selection becomes its list block. */
  lemma ListKeepsOutside(content: string, start: nat, end: nat)
    requires start <= end <= |content|
    ensures var r, block := ApplyFormatting(content, start, end, List), ListBlock(content[start..end]);
      && |r| == start + |block| + (|content| - end)
      && r[..start] == content[..start]
      && r[start..start + |block|] == block
      && r[start + |block|..] == content[end..]
  {
    assert ApplyFormatting(content, start, end, List) == ListEdit(content, start, end);
  }

  // ---------------------------------------------------------------------
  // Headings

  /** A run of `#` in front of a word that does not begin with `#` is dropped exactly. */
  lemma {:induction false} DropHashesAfterRun(h: string, t: string)
    requires forall i :: 0 <= i < |h| ==> h[i] == '#'
    requires t == [] || t[0] != '#'
    ensures DropHashes(h + t) == t
    decreases |h|
  {
    if h != [] {
      assert (h + t)[1..] == h[1..] + t;
      DropHashesAfterRun(h[1..], t);
    } else {
      assert h + t == t;
    }
  }

  /** The marker regex removes a heading prefix written in front of text that
      does not begin with whitespace, and nothing more. */
  lemma StripHeadingPrefix(level: nat, t: string)
    requires level >= 1
    requires t == [] || !IsSpace(t[0])
    ensures StripHeadingMarker(HeadingPrefix(level) + t) == t
  {
    var hashes := Repeat('#', level);
    var line := HeadingPrefix(level) + t;
    assert line == hashes + (" " + t);
    assert TrimStart(line) == line by {
      assert line[0] == '#';
      TrimStartAfter([], line);
      assert [] + line == line;
    }
    assert DropHashes(line) == " " + t by {
      DropHashesAfterRun(hashes, " " + t);
    }
    assert TrimStart(" " + t) == t by {
      TrimStartAfter(" ", t);
    }
  }

  /** The marker regex removes the whole marker of any marked line: leading
      whitespace, a run of one or more `#` and the whitespace after it, so
      that only the text `t` behind the marker is left. When no whitespace
      follows the hashes, the run ends where `t` begins, so `t` does not
      start with `#`. */
  lemma StripHandTypedMarker(lead: string, n: nat, mid: string, t: string)
    requires n >= 1
    requires forall i :: 0 <= i < |lead| ==> IsSpace(lead[i])
    requires forall i :: 0 <= i < |mid| ==> IsSpace(mid[i])
    requires t == [] || !IsSpace(t[0])
    requires mid == [] ==> t == [] || t[0] != '#'
    ensures StripHeadingMarker(lead + Repeat('#', n) + mid + t) == t
  {
    var hashes := Repeat('#', n);
    var rest := mid + t;
    var marked := hashes + rest;
    var line := lead + marked;
    assert lead + hashes + mid + t == line by {
      assert lead + hashes + mid + t == lead + (hashes + (mid + t));
    }
    assert marked[0] == '#' && !IsSpace('#');
    TrimStartAfter(lead, marked);
    assert rest == [] || rest[0] != '#' by {
      if mid != [] {
        assert rest[0] == mid[0] && IsSpace(mid[0]);
      } else {
        assert rest == t;
      }
    }
    DropHashesAfterRun(hashes, rest);
    TrimStartAfter(mid, t);
    MarkerRemoved(line, marked, rest, t);
  }

  /** Unfolds the marker regex on a line whose trimmed start, after its
      hashes and after the whitespace behind them, is known. */
  lemma MarkerRemoved(line: string, marked: string, rest: string, t: string)
    requires TrimStart(line) == marked && |marked| > 0 && marked[0] == '#'
    requires DropHashes(marked) == rest && TrimStart(rest) == t
    ensures StripHeadingMarker(line) == t
  {
  }

  /** Headings are replaced, not stacked: a line that is already a heading of
      level `previous` becomes a heading of level `level` with the same text. */
  lemma HeadingReplacesLevel(level: nat, previous: nat, t: string)
    requires previous >= 1
    requires t == [] || !IsSpace(t[0])
    ensures HeadingLine(level, HeadingPrefix(previous) + t) == HeadingPrefix(level) + t
  {
    StripHeadingPrefix(previous, t);
  }

  /** Applying a heading to an already headed line is the same as applying
      it to the original line (for lines that do not begin with whitespace). */
  lemma HeadingReapplied(level: nat, previous: nat, line: string)
    requires previous >= 1
    requires line == [] || !IsSpace(line[0])
    ensures HeadingLine(level, HeadingLine(previous, line)) == HeadingLine(level, line)
  {
    StripHeadingPrefix(previous, StripHeadingMarker(line));
  }

  /** Every line of a heading block begins with the level's prefix, line `i`
      of the block is the heading of line `i` of the text, and the number of
      lines is unchanged. */
  lemma HeadingBlockLines(text: string, level: nat)
    ensures var lines, out := Split(text, '\n'), Split(HeadingBlock(text, level), '\n');
      && |out| == |lines|
      && (forall i :: 0 <= i < |lines| ==> out[i] == HeadingLine(level, lines[i]))
      && (forall i :: 0 <= i < |out| ==> HeadingPrefix(level) <= out[i])
    ensures multiset(HeadingBlock(text, level))['\n'] == multiset(text)['\n']
  {
    var lines := Split(text, '\n');
    HeadingLinesLackNewline(lines, level);
    MappedLines(lines, HeadingLines(lines, level));
    SplitCount(text, '\n');
  }

  /** The corrected range covers whole lines: it starts at the beginning of
      the line holding `start` and ends at the newline (or the end of the
      body) closing the line holding the selection's end; a non-empty
      selection that ends right after a newline stops at that newline, so the
      following line is not touched. */
  lemma HeadingRangeLines(content: string, start: nat, end: nat)
    requires start <= end <= |content|
    ensures var (lo, hi) := HeadingRange(content, start, end);
      && (lo == 0 || content[lo - 1] == '\n')
      && (forall j :: lo <= j < start ==> content[j] != '\n')
      && (hi == |content| || content[hi] == '\n')
      && (start < end && content[end - 1] == '\n' ==> hi == end - 1)
      && (!(start < end && content[end - 1] == '\n') ==>
            end <= hi && forall j :: end <= j < hi ==> content[j] != '\n')
  {
    var selectionEnd := if start < end && content[end - 1] == '\n' then end - 1 else end;
    CharMatches(content, '\n');
    var lineEnd := IndexOfFrom(content, "\n", selectionEnd);
    assert lineEnd != -1 ==> content[lineEnd] == '\n';
  }

  /** The corrected heading edit keeps the text before the touched lines and
      the text after them, and puts the heading block of the touched lines
      between. */
  lemma HeadingKeepsOutside(content: string, start: nat, end: nat, format: Format)
    requires start <= end <= |content| && format.IsHeading()
    ensures var (lo, hi) := HeadingRange(content, start, end);
      var r, block := ApplyFormattingCorrected(content, start, end, format), HeadingBlock(content[lo..hi], format.Level());
      && |r| == lo + |block| + (|content| - hi)
      && r[..lo] == content[..lo]
      && r[lo..lo + |block|] == block
      && r[lo + |block|..] == content[hi..]
  {
    var (lo, hi) := HeadingRange(content, start, end);
    ThreePieces(content[..lo], HeadingBlock(content[lo..hi], format.Level()), content[hi..]);
  }

  // ---------------------------------------------------------------------
  // The heading edit as written

  /** With an empty selection right after a newline (the caret at the start
      of any line but the first), the editor's range runs backwards:
      `lineStart` is the caret while the stepped-back end is the newline before
      it. `substring` then swaps the bounds, so that newline is headed twice
      and also kept on both sides. */
  lemma HeadingAsWrittenDuplicatesNewline(content: string, caret: nat, level: nat)
    requires 0 < caret <= |content| && content[caret - 1] == '\n'
    ensures ApplyHeadingAsWritten(content, caret, caret, level)
         == content[..caret] + HeadingPrefix(level) + "\n" + HeadingPrefix(level) + content[caret - 1..]
  {
    BackwardsRange(content, caret);
    var p := HeadingPrefix(level);
    assert content[caret - 1..caret] == "\n";
    calc {
      ApplyHeadingAsWritten(content, caret, caret, level);
      content[..caret] + HeadingBlock(content[caret - 1..caret], level) + content[caret - 1..];
      content[..caret] + HeadingBlock("\n", level) + content[caret - 1..];
      { HeadingBlockOfNewline(level); }
      content[..caret] + (p + "\n" + p) + content[caret - 1..];
      content[..caret] + p + "\n" + p + content[caret - 1..];
    }
  }

  /** The editor's range for a caret right after a newline is `(caret, caret - 1)`. */
  lemma BackwardsRange(content: string, caret: nat)
    requires 0 < caret <= |content| && content[caret - 1] == '\n'
    ensures HeadingRangeAsWritten(content, caret, caret) == (caret, caret - 1)
  {
    CharMatches(content, '\n');
    assert LastIndexOfChar(content, '\n', caret - 1) == caret - 1;
    assert MatchAt(content, "\n", caret - 1);
    assert IndexOfFrom(content, "\n", caret - 1) == caret - 1;
  }

  /** A lone newline is two empty lines, each headed by the prefix alone. */
  lemma HeadingBlockOfNewline(level: nat)
    ensures HeadingBlock("\n", level) == HeadingPrefix(level) + "\n" + HeadingPrefix(level)
  {
    var empty: string := [];
    assert empty + "\n" + empty == "\n";
    TwoLineBlock(empty, empty, level);
    EmptyHeadingLine(level);
  }

  /** An empty line is headed by the prefix alone. */
  lemma EmptyHeadingLine(level: nat)
    ensures HeadingLine(level, []) == HeadingPrefix(level)
  {
    assert StripHeadingMarker([]) == [];
  }

  /** Two lines joined by a newline: each is headed on its own. */
  lemma TwoLineBlock(a: string, b: string, level: nat)
    requires '\n' !in a && '\n' !in b
    ensures HeadingBlock(a + "\n" + b, level) == HeadingLine(level, a) + "\n" + HeadingLine(level, b)
  {
    SplitTwo(a, b);
    HeadedTwo(a, b, level);
  }

  lemma HeadedTwo(a: string, b: string, level: nat)
    ensures Join(HeadingLines([a, b], level), "\n") == HeadingLine(level, a) + "\n" + HeadingLine(level, b)
  {
    var mapped := HeadingLines([a, b], level);
    JoinPair(mapped);
    assert mapped[0] == HeadingLine(level, a);
    assert mapped[1] == HeadingLine(level, b);
  }

  /** Two newline-free lines joined by a newline split back into the two. */
  lemma SplitTwo(a: string, b: string)
    requires '\n' !in a && '\n' !in b
    ensures Split(a + "\n" + b, '\n') == [a, b]
  {
    JoinTwo(a, b);
    SplitJoin([a, b], '\n');
  }

  lemma JoinTwo(a: string, b: string)
    ensures Join([a, b], "\n") == a + "\n" + b
  {
    assert [a, b][1..] == [b];
  }

  lemma JoinPair(lines: seq<string>)
    requires |lines| == 2
    ensures Join(lines, "\n") == lines[0] + "\n" + lines[1]
  {
    assert |lines[1..]| == 1;
  }

  /** The caret at the start of a last line `x` (after any text `a`): the
      editor as written heads two empty lines and keeps both copies of the
      newline, so for "a\nb" and H1 it yields "a\n# \n# \nb"; the
      corrected edit heads the line itself, yielding "a\n# b". */
  lemma CaretAtLineStart(a: string, x: string, format: Format)
    requires '\n' !in x && format.IsHeading()
    ensures var content, p := a + "\n" + x, HeadingPrefix(format.Level());
      && ApplyFormatting(content, |a| + 1, |a| + 1, format) == a + "\n" + p + "\n" + p + "\n" + x
      && ApplyFormattingCorrected(content, |a| + 1, |a| + 1, format) == a + "\n" + HeadingLine(format.Level(), x)
  {
    var content, k := a + "\n" + x, |a| + 1;
    assert ApplyFormatting(content, k, k, format) == ApplyHeadingAsWritten(content, k, k, format.Level());
    CaretAsWritten(a, x, format.Level());
    CaretCorrected(a, x, format);
  }

  lemma CaretAsWritten(a: string, x: string, level: nat)
    ensures var content, p := a + "\n" + x, HeadingPrefix(level);
      ApplyHeadingAsWritten(content, |a| + 1, |a| + 1, level) == a + "\n" + p + "\n" + p + "\n" + x
  {
    var content, k, p := a + "\n" + x, |a| + 1, HeadingPrefix(level);
    assert content[k - 1] == '\n';
    HeadingAsWrittenDuplicatesNewline(content, k, level);
    Halves(a, x);
    Regroup(a, x, p);
  }

  lemma Halves(a: string, x: string)
    ensures (a + "\n" + x)[..|a| + 1] == a + "\n"
    ensures (a + "\n" + x)[|a|..] == "\n" + x
    ensures (a + "\n" + x)[|a| + 1..] == x
  {
  }

  lemma Regroup(a: string, x: string, p: string)
    ensures (a + "\n") + p + "\n" + p + ("\n" + x) == a + "\n" + p + "\n" + p + "\n" + x
  {
  }

  lemma CaretRange(a: string, x: string)
    requires '\n' !in x
    ensures HeadingRange(a + "\n" + x, |a| + 1, |a| + 1) == (|a| + 1, |a| + 1 + |x|)
  {
    var content, k := a + "\n" + x, |a| + 1;
    CharMatches(content, '\n');
    assert content[k - 1] == '\n';
    forall j | k <= j ensures !MatchAt(content, "\n", j) {
      if j < |content| {
        assert content[j] == x[j - k];
      }
    }
  }

  lemma CaretCorrected(a: string, x: string, format: Format)
    requires '\n' !in x && format.IsHeading()
    ensures ApplyFormattingCorrected(a + "\n" + x, |a| + 1, |a| + 1, format) == a + "\n" + HeadingLine(format.Level(), x)
  {
    var content, k, level := a + "\n" + x, |a| + 1, format.Level();
    CaretRange(a, x);
    Halves(a, x);
    assert content[k..|content|] == x;
    var block := HeadingBlock(x, level);
    calc {
      ApplyFormattingCorrected(content, k, k, format);
      content[..k] + HeadingBlock(content[k..|content|], level) + content[|content|..];
      content[..k] + block + content[|content|..];
      { LastLine(a, x, block); }
      a + "\n" + block;
      { SingleLineBlock(x, level); }
      a + "\n" + HeadingLine(level, x);
    }
  }

  /** A selection over the whole of a body that opens with an empty line:
      as written, the empty first line is skipped, because `lastIndexOf`
      clamps the position -1 to 0 and finds the newline there; corrected,
      both lines are headed. */
  lemma LeadingNewlineSkipped(x: string, format: Format)
    requires |x| > 0 && '\n' !in x && format.IsHeading()
    ensures var content, level := "\n" + x, format.Level();
      && ApplyFormatting(content, 0, |content|, format) == "\n" + HeadingLine(level, x)
      && ApplyFormattingCorrected(content, 0, |content|, format) == HeadingPrefix(level) + "\n" + HeadingLine(level, x)
  {
    var content := "\n" + x;
    assert ApplyFormatting(content, 0, |content|, format) == ApplyHeadingAsWritten(content, 0, |content|, format.Level());
    LeadingNewlineAsWritten(x, format.Level());
    LeadingNewlineCorrected(x, format);
  }

  lemma LeadingNewlineAsWritten(x: string, level: nat)
    requires |x| > 0 && '\n' !in x
    ensures var content := "\n" + x;
      ApplyHeadingAsWritten(content, 0, |content|, level) == "\n" + HeadingLine(level, x)
  {
    LeadingNewlineBlock(x, level);
    SingleLineBlock(x, level);
  }

  /** As written, a whole body "\n" + x keeps its newline and heads only `x`. */
  lemma LeadingNewlineBlock(x: string, level: nat)
    requires |x| > 0 && '\n' !in x
    ensures var content := "\n" + x;
      ApplyHeadingAsWritten(content, 0, |content|, level) == "\n" + HeadingBlock(x, level)
  {
    var content := "\n" + x;
    LeadingNewlineRanges(x);
    AsWrittenForward(content, 0, |content|, level, 1, |content|);
    AfterLeadingNewline(x, HeadingBlock(x, level));
  }

  /** The as-written edit over a forward range is the block of that range between the kept pieces. */
  lemma AsWrittenForward(content: string, start: nat, end: nat, level: nat, lo: nat, hi: nat)
    requires start <= end <= |content| && lo <= hi <= |content|
    requires HeadingRangeAsWritten(content, start, end) == (lo, hi)
    ensures ApplyHeadingAsWritten(content, start, end, level)
         == content[..lo] + HeadingBlock(content[lo..hi], level) + content[hi..]
  {
  }

  /** A body "\n" + x, cut after its newline and at its end. */
  lemma AfterLeadingNewline(x: string, block: string)
    ensures var content := "\n" + x;
      && content[1..|content|] == x
      && content[..1] + block + content[|content|..] == "\n" + block
  {
    var content := "\n" + x;
    assert content[..1] == "\n" && content[|content|..] == [];
  }

  lemma LeadingNewlineCorrected(x: string, format: Format)
    requires |x| > 0 && '\n' !in x && format.IsHeading()
    ensures var content, level := "\n" + x, format.Level();
      ApplyFormattingCorrected(content, 0, |content|, format) == HeadingPrefix(level) + "\n" + HeadingLine(level, x)
  {
    LeadingNewlineRanges(x);
    WholeBodyCorrected("\n" + x, format);
    BlockAfterNewline(x, format.Level());
  }

  /** When the corrected range covers the whole body, the edit is the body's heading block. */
  lemma WholeBodyCorrected(content: string, format: Format)
    requires format.IsHeading() && HeadingRange(content, 0, |content|) == (0, |content|)
    ensures ApplyFormattingCorrected(content, 0, |content|, format) == HeadingBlock(content, format.Level())
  {
    var block := HeadingBlock(content[0..|content|], format.Level());
    assert ApplyFormattingCorrected(content, 0, |content|, format) == content[..0] + block + content[|content|..];
    Unframed(content, block);
  }

  /** The whole of a body, framed by its empty ends. */
  lemma Unframed(content: string, block: string)
    ensures content[0..|content|] == content
    ensures content[..0] + block + content[|content|..] == block
  {
  }

  /** For a whole body "\n" + x, the editor's range starts after the
      leading newline; the corrected one starts at 0. Both end at the end. */
  lemma LeadingNewlineRanges(x: string)
    requires |x| > 0 && '\n' !in x
    ensures var content := "\n" + x;
      && HeadingRangeAsWritten(content, 0, |content|) == (1, |content|)
      && HeadingRange(content, 0, |content|) == (0, |content|)
  {
    var content := "\n" + x;
    assert content[|content| - 1] == x[|x| - 1];
    assert LastIndexOfChar(content, '\n', -1) == 0;
    assert IndexOfFrom(content, "\n", |content|) == -1;
  }

  /** A line break then one line: an empty heading, then the headed line. */
  lemma BlockAfterNewline(x: string, level: nat)
    requires '\n' !in x
    ensures HeadingBlock("\n" + x, level) == HeadingPrefix(level) + "\n" + HeadingLine(level, x)
  {
    var empty: string := [];
    assert empty + "\n" + x == "\n" + x;
    TwoLineBlock(empty, x, level);
    EmptyHeadingLine(level);
  }

  lemma LastLine(a: string, x: string, block: string)
    ensures var content := a + "\n" + x;
      content[..|a| + 1] + block + content[|content|..] == a + "\n" + block
  {
    var content := a + "\n" + x;
    assert content[|content|..] == [];
  }

  /** Text without a newline is one line: its heading block is its heading line. */
  lemma SingleLineBlock(x: string, level: nat)
    requires '\n' !in x
    ensures HeadingBlock(x, level) == HeadingLine(level, x)
  {
    assert ScanFor(x, '\n', 0) == |x|;
    assert Split(x, '\n') == [x];
  }

  /** Away from the two inputs where the editor's range runs backwards or
      skips the first line (a caret right after a newline, and a selection
      from 0 in a body that begins with a newline), the editor's heading edit
      and the corrected one agree. */
  lemma HeadingAsWrittenAgrees(content: string, start: nat, end: nat, format: Format)
    requires start <= end <= |content| && format.IsHeading()
    requires !(start == end && end > 0 && content[end - 1] == '\n')
    requires !(start == 0 && |content| > 0 && content[0] == '\n')
    ensures ApplyFormatting(content, start, end, format) == ApplyFormattingCorrected(content, start, end, format)
  {
    var lineStart := LastIndexOfChar(content, '\n', start - 1) + 1;
    assert start == 0 ==> lineStart == 0 by {
      if start == 0 && |content| > 0 {
        assert Clamp(-1, |content|) == 0;
      }
    }
    var asWrittenEnd := if end >= 1 && content[end - 1] == '\n' then end - 1 else end;
    var intendedEnd := if start < end && content[end - 1] == '\n' then end - 1 else end;
    assert asWrittenEnd == intendedEnd;
    var (lo, hi) := HeadingRange(content, start, end);
    assert HeadingRangeAsWritten(content, start, end) == (lo, hi);
    assert ApplyFormatting(content, start, end, format) == HeadingEdit(content, lo, hi, format.Level());
  }
}
