/** The JavaScript string operations the workspace relies on, with the
    edge cases of the language standard written out: `trim`, `indexOf`,
    `lastIndexOf` (with its clamped start position), `substring` (which swaps
    reversed bounds), `split`/`join` on a one-character separator, and
    `replace` with a string pattern (first occurrence only, with `$`
    patterns in the replacement). Indices count Unicode scalar values. */
module Text {

  /** The characters JavaScript's `trim` removes and its regular-expression
      class `\s` matches: WhiteSpace and LineTerminator code points. */
  predicate IsSpace(c: char) {
    var n := c as int;
    (9 <= n <= 13) || n == 0x20 || n == 0xA0 || n == 0x1680 || (0x2000 <= n <= 0x200A)
    || n == 0x2028 || n == 0x2029 || n == 0x202F || n == 0x205F || n == 0x3000 || n == 0xFEFF
  }

  /** `s.trimStart()`: `s` without its leading whitespace. */
  function TrimStart(s: string): (r: string)
    ensures |r| <= |s| && r == s[|s| - |r|..]
    ensures r == [] || !IsSpace(r[0])
    ensures forall i :: 0 <= i < |s| - |r| ==> IsSpace(s[i])
    decreases |s|
  {
    if |s| > 0 && IsSpace(s[0]) then TrimStart(s[1..]) else s
  }

  /** `s.trimEnd()`: `s` without its trailing whitespace. */
  function TrimEnd(s: string): (r: string)
    ensures |r| <= |s| && r == s[..|r|]
    ensures r == [] || !IsSpace(r[|r| - 1])
    ensures forall i :: |r| <= i < |s| ==> IsSpace(s[i])
    decreases |s|
  {
    if |s| > 0 && IsSpace(s[|s| - 1]) then TrimEnd(s[..|s| - 1]) else s
  }

  /** `s.trim()`. */
  function Trim(s: string): (r: string)
    ensures |r| <= |s|
    ensures r == [] || (!IsSpace(r[0]) && !IsSpace(r[|r| - 1]))
  {
    TrimEnd(TrimStart(s))
  }

  /** JavaScript's `!s.trim()`: the string is empty or whitespace only. */
  predicate IsBlank(s: string) {
    Trim(s) == []
  }

  /** A string is blank exactly when every one of its characters is whitespace. */
  lemma BlankIffAllSpace(s: string)
    ensures IsBlank(s) <==> forall i :: 0 <= i < |s| ==> IsSpace(s[i])
  {
  }

  /** Trimming never changes the non-blank content of a string that has no
      whitespace at either end. */
  lemma TrimUnpadded(s: string)
    requires s == [] || (!IsSpace(s[0]) && !IsSpace(s[|s| - 1]))
    ensures Trim(s) == s
  {
  }

  /** The clamping every index argument of `substring`, `indexOf` and
      `lastIndexOf` goes through. */
  function Clamp(n: int, len: nat): (r: nat)
    ensures r <= len
    ensures 0 <= n <= len ==> r == n
  {
    if n < 0 then 0 else if n > len then len else n
  }

  /** `s.substring(a, b)`: both bounds clamped, and swapped when reversed. */
  function Substring(s: string, a: int, b: int): (r: string)
    ensures Clamp(a, |s|) <= Clamp(b, |s|) ==> r == s[Clamp(a, |s|)..Clamp(b, |s|)]
    ensures Clamp(b, |s|) < Clamp(a, |s|) ==> r == s[Clamp(b, |s|)..Clamp(a, |s|)]
  {
    var x, y := Clamp(a, |s|), Clamp(b, |s|);
    if x <= y then s[x..y] else s[y..x]
  }

  /** `pat` occurs in `s` at index `k`. */
  predicate MatchAt(s: string, pat: string, k: int) {
    0 <= k && k + |pat| <= |s| && s[k..k + |pat|] == pat
  }

  predicate Occurs(s: string, pat: string) {
    exists k :: 0 <= k <= |s| && MatchAt(s, pat, k)
  }

  /** A one-character pattern matches exactly where that character stands. */
  lemma CharMatches(s: string, c: char)
    ensures forall k :: MatchAt(s, [c], k) <==> 0 <= k < |s| && s[k] == c
  {
    forall k | 0 <= k < |s|
      ensures MatchAt(s, [c], k) <==> s[k] == c
    {
      assert s[k..k + 1][0] == s[k];
    }
  }

  /** A search result for a one-character pattern: -1, or that character. */
  lemma MatchedChar(s: string, c: char, k: int)
    requires k == -1 || MatchAt(s, [c], k)
    ensures k != -1 ==> 0 <= k < |s| && s[k] == c
  {
    if k != -1 {
      assert s[k..k + 1][0] == s[k];
    }
  }

  /** The first occurrence of `pat` at or after `k`, or -1. */
  function Search(s: string, pat: string, k: nat): (r: int)
    requires k <= |s|
    ensures r == -1 || (k <= r <= |s| && MatchAt(s, pat, r))
    ensures r == -1 ==> forall j :: k <= j ==> !MatchAt(s, pat, j)
    ensures r != -1 ==> forall j :: k <= j < r ==> !MatchAt(s, pat, j)
    decreases |s| - k
  {
    if MatchAt(s, pat, k) then k
    else if k == |s| then -1
    else Search(s, pat, k + 1)
  }

  /** `s.indexOf(pat, from)`. */
  function IndexOfFrom(s: string, pat: string, from: int): (r: int)
    ensures r == -1 || (Clamp(from, |s|) <= r && MatchAt(s, pat, r))
    ensures r == -1 ==> forall j :: Clamp(from, |s|) <= j ==> !MatchAt(s, pat, j)
    ensures r != -1 ==> forall j :: Clamp(from, |s|) <= j < r ==> !MatchAt(s, pat, j)
  {
    Search(s, pat, Clamp(from, |s|))
  }

  /** `s.indexOf(pat)`: the first occurrence, -1 exactly when there is none. */
  function IndexOf(s: string, pat: string): (r: int)
    ensures r == -1 <==> !Occurs(s, pat)
    ensures r != -1 ==> MatchAt(s, pat, r) && forall j :: 0 <= j < r ==> !MatchAt(s, pat, j)
  {
    IndexOfFrom(s, pat, 0)
  }

  /** The first match is the only match with no match before it. */
  lemma IndexOfIsFirstMatch(s: string, pat: string, p: nat)
    requires MatchAt(s, pat, p)
    requires forall j :: 0 <= j < p ==> !MatchAt(s, pat, j)
    ensures IndexOf(s, pat) == p
  {
  }

  /** The last `c` at or before `k`, or -1. */
  function SearchBack(s: string, c: char, k: int): (r: int)
    requires -1 <= k < |s|
    ensures -1 <= r <= k
    ensures r >= 0 ==> s[r] == c
    ensures forall j :: r < j <= k ==> s[j] != c
    decreases k + 1
  {
    if k < 0 then -1
    else if s[k] == c then k
    else SearchBack(s, c, k - 1)
  }

  /** `s.lastIndexOf(c, from)` for a one-character `c`: `from` is clamped to
      [0, |s|] first, so a negative `from` still inspects index 0. */
  function LastIndexOfChar(s: string, c: char, from: int): (r: int)
    ensures -1 <= r < |s| && r <= Clamp(from, |s|)
    ensures r >= 0 ==> s[r] == c
    ensures forall j :: r < j <= Clamp(from, |s|) && j < |s| ==> s[j] != c
  {
    var start := Clamp(from, |s|);
    SearchBack(s, c, if start < |s| then start else |s| - 1)
  }

  /** The first `c` at or after `k`, or `|s|` when there is none. */
  function ScanFor(s: string, c: char, k: nat): (r: nat)
    requires k <= |s|
    ensures k <= r <= |s|
    ensures r < |s| ==> s[r] == c
    ensures forall j :: k <= j < r ==> s[j] != c
    decreases |s| - k
  {
    if k == |s| || s[k] == c then k else ScanFor(s, c, k + 1)
  }

  /** The scan stops at the first `c`. */
  lemma ScanStops(s: string, c: char, p: nat)
    requires p < |s| && s[p] == c
    requires forall j :: 0 <= j < p ==> s[j] != c
    ensures ScanFor(s, c, 0) == p
  {
  }

  /** `s.split(sep)` for a one-character separator: the pieces between the
      separators, from the first to the last. */
  function Split(s: string, sep: char): (parts: seq<string>)
    ensures |parts| >= 1
    ensures forall i :: 0 <= i < |parts| ==> sep !in parts[i]
    decreases |s|
  {
    var i := ScanFor(s, sep, 0);
    if i == |s| then
      assert forall j :: 0 <= j < |s| ==> s[j] != sep;
      [s]
    else
      assert forall j :: 0 <= j < i ==> s[..i][j] != sep;
      [s[..i]] + Split(s[i + 1..], sep)
  }

  /** `parts.join(sep)`. */
  function Join(parts: seq<string>, sep: string): (r: string)
    ensures |parts| >= 1 ==> parts[0] <= r
    ensures |parts| >= 2 ==> parts[0] + sep <= r
    decreases |parts|
  {
    if |parts| == 0 then []
    else if |parts| == 1 then parts[0]
    else parts[0] + sep + Join(parts[1..], sep)
  }

  /** Joining the pieces of a split with the same separator gives back the string. */
  lemma {:induction false} JoinSplit(s: string, sep: char)
    ensures Join(Split(s, sep), [sep]) == s
    decreases |s|
  {
    var i := ScanFor(s, sep, 0);
    if i < |s| {
      var rest := Split(s[i + 1..], sep);
      JoinSplit(s[i + 1..], sep);
      assert Split(s, sep) == [s[..i]] + rest;
      JoinCons(s[..i], rest, [sep]);
      assert s == s[..i] + [sep] + s[i + 1..];
    }
  }

  /** Splitting a join of separator-free pieces gives back the pieces. */
  lemma {:induction false} SplitJoin(parts: seq<string>, sep: char)
    requires |parts| >= 1
    requires forall i :: 0 <= i < |parts| ==> sep !in parts[i]
    ensures Split(Join(parts, [sep]), sep) == parts
    decreases |parts|
  {
    var s := Join(parts, [sep]);
    if |parts| == 1 {
      assert s == parts[0];
      assert ScanFor(s, sep, 0) == |s|;
    } else {
      var p0, tail := parts[0], Join(parts[1..], [sep]);
      assert s == p0 + [sep] + tail;
      assert forall j :: 0 <= j < |p0| ==> s[j] == p0[j];
      ScanStops(s, sep, |p0|);
      assert s[..|p0|] == p0;
      assert s[|p0| + 1..] == tail;
      SplitJoin(parts[1..], sep);
      assert parts == [p0] + parts[1..];
    }
  }

  /** A string with `n` separators splits into `n + 1` pieces. */
  lemma {:induction false} SplitCount(s: string, sep: char)
    ensures |Split(s, sep)| == multiset(s)[sep] + 1
    decreases |s|
  {
    var i := ScanFor(s, sep, 0);
    if i == |s| {
      assert sep !in s;
    } else {
      SplitCount(s[i + 1..], sep);
      assert sep !in s[..i];
      assert s == s[..i] + [sep] + s[i + 1..];
      assert multiset(s) == multiset(s[..i]) + multiset([sep]) + multiset(s[i + 1..]);
    }
  }

  /** Joining `n` separator-free pieces puts exactly `n - 1` separators in. */
  lemma JoinCount(parts: seq<string>, sep: char)
    requires |parts| >= 1
    requires forall i :: 0 <= i < |parts| ==> sep !in parts[i]
    ensures multiset(Join(parts, [sep]))[sep] == |parts| - 1
  {
    SplitJoin(parts, sep);
    SplitCount(Join(parts, [sep]), sep);
  }

  /** Rejoining the first `k` pieces of a split gives a prefix of the string. */
  lemma JoinSplitPrefix(s: string, sep: char, k: nat)
    requires 1 <= k <= |Split(s, sep)|
    ensures Join(Split(s, sep)[..k], [sep]) <= s
  {
    JoinPrefix(Split(s, sep), k, [sep]);
    JoinSplit(s, sep);
  }

  /** Joining the first `k` pieces gives a prefix of joining them all. */
  lemma {:induction false} JoinPrefix(parts: seq<string>, k: nat, sep: string)
    requires 1 <= k <= |parts|
    ensures Join(parts[..k], sep) <= Join(parts, sep)
    decreases |parts|
  {
    if k == |parts| {
      assert parts[..k] == parts;
    } else {
      var p0, rest := parts[0], parts[1..];
      assert parts == [p0] + rest;
      JoinCons(p0, rest, sep);
      if k == 1 {
        assert parts[..k] == [p0];
      } else {
        assert parts[..k] == [p0] + rest[..k - 1];
        JoinCons(p0, rest[..k - 1], sep);
        JoinPrefix(rest, k - 1, sep);
        PrefixCons(p0 + sep, Join(rest[..k - 1], sep), Join(rest, sep));
      }
    }
  }

  /** A join cut between two pieces: the join of the pieces before the cut,
      the separator, and the join of the pieces after it. */
  lemma {:induction false} JoinSplitAt(parts: seq<string>, k: nat, sep: string)
    requires 1 <= k < |parts|
    ensures Join(parts, sep) == Join(parts[..k], sep) + sep + Join(parts[k..], sep)
    decreases k
  {
    var p0, rest := parts[0], parts[1..];
    assert parts == [p0] + rest;
    JoinCons(p0, rest, sep);
    if k == 1 {
      assert parts[..k] == [p0];
      assert parts[k..] == rest;
    } else {
      JoinSplitAt(rest, k - 1, sep);
      assert rest[k - 1..] == parts[k..];
      assert parts[..k] == [p0] + rest[..k - 1];
      JoinCons(p0, rest[..k - 1], sep);
    }
  }

  /** Joining a leading piece in front of at least one more piece. */
  lemma JoinCons(head: string, rest: seq<string>, sep: string)
    requires |rest| >= 1
    ensures Join([head] + rest, sep) == head + sep + Join(rest, sep)
  {
    assert ([head] + rest)[1..] == rest;
  }

  /** A prefix stays a prefix behind a common head. */
  lemma PrefixCons(head: string, x: string, y: string)
    requires x <= y
    ensures head + x <= head + y
  {
    assert (head + y)[..|head + x|] == head + y[..|x|];
  }

  /** `GetSubstitution` of the language standard for a string pattern (so
      there are no capture groups): in the replacement `$$` stands for `$`,
      `$&` for the matched text, `` $` `` for the text before the match and
      `$'` for the text after it; every other `$` is literal. */
  function Substitution(rep: string, matched: string, before: string, after: string): (r: string)
    ensures '$' !in rep ==> r == rep
    decreases |rep|
  {
    if |rep| == 0 then []
    else if |rep| >= 2 && rep[0] == '$' && rep[1] == '$' then "$" + Substitution(rep[2..], matched, before, after)
    else if |rep| >= 2 && rep[0] == '$' && rep[1] == '&' then matched + Substitution(rep[2..], matched, before, after)
    else if |rep| >= 2 && rep[0] == '$' && rep[1] == '`' then before + Substitution(rep[2..], matched, before, after)
    else if |rep| >= 2 && rep[0] == '$' && rep[1] == '\'' then after + Substitution(rep[2..], matched, before, after)
    else
      assert rep == [rep[0]] + rep[1..];
      assert forall i :: 0 <= i < |rep| - 1 ==> rep[1..][i] == rep[i + 1];
      [rep[0]] + Substitution(rep[1..], matched, before, after)
  }

  /** `s.replace(pat, rep)` with a string pattern: only the first occurrence
      of `pat` is replaced; without an occurrence `s` is returned. */
  function ReplaceFirst(s: string, pat: string, rep: string): (r: string)
    ensures !Occurs(s, pat) ==> r == s
  {
    var p := IndexOf(s, pat);
    if p < 0 then s
    else s[..p] + Substitution(rep, pat, s[..p], s[p + |pat|..]) + s[p + |pat|..]
  }

  /** Replacing with a `$`-free string puts it exactly where the first
      occurrence stood and leaves everything around it unchanged. */
  lemma ReplaceFirstAt(s: string, pat: string, rep: string, p: nat)
    requires MatchAt(s, pat, p)
    requires forall j :: 0 <= j < p ==> !MatchAt(s, pat, j)
    requires '$' !in rep
    ensures ReplaceFirst(s, pat, rep) == s[..p] + rep + s[p + |pat|..]
  {
    IndexOfIsFirstMatch(s, pat, p);
  }

  /** An empty pattern matches at index 0: the replacement is put in front. */
  lemma ReplaceEmptyPattern(s: string, rep: string)
    requires '$' !in rep
    ensures ReplaceFirst(s, [], rep) == rep + s
  {
    assert MatchAt(s, [], 0);
    ReplaceFirstAt(s, [], rep, 0);
  }

  /** The replacement `$&` re-inserts the matched text, so the string is unchanged. */
  lemma ReplaceWithMatchIsIdentity(s: string, pat: string)
    ensures ReplaceFirst(s, pat, "$&") == s
  {
    var p := IndexOf(s, pat);
    if p >= 0 {
      var rep: string := "$&";
      assert rep[2..] == [];
      assert Substitution(rep, pat, s[..p], s[p + |pat|..]) == pat;
      assert s == s[..p] + s[p..p + |pat|] + s[p + |pat|..];
    }
  }

  // ---------------------------------------------------------------------
  // Facts about pieces of strings

  /** The three pieces of a concatenation can be sliced back out of it. */
  lemma ThreePieces(a: string, b: string, c: string)
    ensures var r := a + b + c;
      && |r| == |a| + |b| + |c|
      && r[..|a|] == a && r[|a|..|a| + |b|] == b && r[|a| + |b|..] == c
  {
  }

  /** Leading whitespace in front of text that does not begin with whitespace is trimmed exactly. */
  lemma {:induction false} TrimStartAfter(lead: string, t: string)
    requires forall i :: 0 <= i < |lead| ==> IsSpace(lead[i])
    requires t == [] || !IsSpace(t[0])
    ensures TrimStart(lead + t) == t
    decreases |lead|
  {
    if lead == [] {
      assert lead + t == t;
    } else {
      assert (lead + t)[1..] == lead[1..] + t;
      TrimStartAfter(lead[1..], t);
    }
  }

  /** Trailing whitespace behind text that does not end with whitespace is trimmed exactly. */
  lemma {:induction false} TrimEndBefore(t: string, trail: string)
    requires forall i :: 0 <= i < |trail| ==> IsSpace(trail[i])
    requires t == [] || !IsSpace(t[|t| - 1])
    ensures TrimEnd(t + trail) == t
    decreases |trail|
  {
    if trail == [] {
      assert t + trail == t;
    } else {
      var s := t + trail;
      assert s[..|s| - 1] == t + trail[..|trail| - 1];
      TrimEndBefore(t, trail[..|trail| - 1]);
    }
  }

  /** Whitespace around a word that neither begins nor ends with whitespace is trimmed exactly. */
  lemma TrimAround(lead: string, word: string, trail: string)
    requires forall i :: 0 <= i < |lead| ==> IsSpace(lead[i])
    requires forall i :: 0 <= i < |trail| ==> IsSpace(trail[i])
    requires |word| > 0 && !IsSpace(word[0]) && !IsSpace(word[|word| - 1])
    ensures Trim(lead + word + trail) == word
  {
    TrimStartAfter(lead, word + trail);
    assert lead + word + trail == lead + (word + trail);
    TrimEndBefore(word, trail);
  }
}
