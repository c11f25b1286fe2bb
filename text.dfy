/** Java string operations the core relies on, over `seq<char>`.
    Case mapping covers ASCII letters only. */
module Text {

  /** Java's regex class `\w` (without UNICODE_CHARACTER_CLASS). */
  predicate IsWordChar(c: char) {
    ('a' <= c <= 'z') || ('A' <= c <= 'Z') || ('0' <= c <= '9') || c == '_'
  }

  /** Java's regex class `\s`. */
  predicate IsSpace(c: char) {
    c == ' ' || c == '\t' || c == '\n' || c == '\U{000B}' || c == '\U{000C}' || c == '\r'
  }

  /** The characters `String.trim()` removes: every code point up to U+0020. */
  predicate IsTrimmable(c: char) {
    c <= ' '
  }

  predicate IsUpperAscii(c: char) { 'A' <= c <= 'Z' }
  predicate IsLowerAscii(c: char) { 'a' <= c <= 'z' }

  function UpperChar(c: char): char {
    if IsLowerAscii(c) then (c as int - 32) as char else c
  }

  function LowerChar(c: char): char {
    if IsUpperAscii(c) then (c as int + 32) as char else c
  }

  function ToUpper(s: string): (r: string)
    ensures |r| == |s|
    ensures forall i :: 0 <= i < |s| ==> r[i] == UpperChar(s[i])
  {
    if s == [] then [] else [UpperChar(s[0])] + ToUpper(s[1..])
  }

  function ToLower(s: string): (r: string)
    ensures |r| == |s|
    ensures forall i :: 0 <= i < |s| ==> r[i] == LowerChar(s[i])
  {
    if s == [] then [] else [LowerChar(s[0])] + ToLower(s[1..])
  }

  /** `p` occurs in `s` starting at index `i`. */
  predicate StartsAt(s: string, i: int, p: string) {
    0 <= i && i + |p| <= |s| && s[i..i + |p|] == p
  }

  /** Text that starts with `a + b` at `i` starts with `a` there and with `b` right after. */
  lemma StartsAtSplit(s: string, i: int, a: string, b: string)
    requires StartsAt(s, i, a + b)
    ensures StartsAt(s, i, a) && StartsAt(s, i + |a|, b)
  {
    assert s[i..i + |a|] == s[i..i + |a + b|][..|a|];
    assert s[i + |a|..i + |a| + |b|] == s[i..i + |a + b|][|a|..];
  }

  /** The characters of text that starts with `p` at `i`. */
  lemma StartsAtChar(s: string, i: int, p: string, k: nat)
    requires StartsAt(s, i, p) && k < |p|
    ensures s[i + k] == p[k]
  {
    assert s[i + k] == s[i..i + |p|][k];
  }

  /** Text whose character at `i` is not the first of `p` does not start with `p` there. */
  lemma DiffersAt(s: string, i: int, p: string)
    requires 0 <= i < |s| && p != [] && s[i] != p[0]
    ensures !StartsAt(s, i, p)
  {
    if i + |p| <= |s| {
      assert s[i..i + |p|][0] == s[i];
    }
  }

  predicate StartsWith(s: string, p: string) {
    StartsAt(s, 0, p)
  }

  /** `endsWith` of a one-character string. */
  predicate EndsWithChar(s: string, c: char) { |s| > 0 && s[|s| - 1] == c }

  /** `startsWith` of a one-character string. */
  predicate StartsWithChar(s: string, c: char) { |s| > 0 && s[0] == c }

  predicate EndsWith(s: string, p: string) {
    |p| <= |s| && s[|s| - |p|..] == p
  }

  /** `String.contains`. */
  predicate Contains(s: string, p: string) {
    exists i | 0 <= i <= |s| :: StartsAt(s, i, p)
  }

  /** `String.indexOf(p, from)`: the first occurrence at or after `from`, or -1. */
  function IndexOfFrom(s: string, p: string, from: nat): (r: int)
    ensures r == -1 || (from <= r && StartsAt(s, r, p))
    ensures r == -1 ==> forall i | from <= i <= |s| :: !StartsAt(s, i, p)
    ensures r != -1 ==> forall i | from <= i < r :: !StartsAt(s, i, p)
    decreases |s| + 1 - from
  {
    if from > |s| then -1
    else if StartsAt(s, from, p) then from
    else IndexOfFrom(s, p, from + 1)
  }

  function IndexOf(s: string, p: string): (r: int)
    ensures r == -1 <==> !Contains(s, p)
    ensures r != -1 ==> StartsAt(s, r, p) && forall i | 0 <= i < r :: !StartsAt(s, i, p)
  {
    IndexOfFrom(s, p, 0)
  }

  /** `String.indexOf(char, from)`. */
  function IndexOfChar(s: string, c: char, from: nat): (r: int)
    ensures r == -1 || (from <= r < |s| && s[r] == c)
    ensures r == -1 ==> forall i | from <= i < |s| :: s[i] != c
    ensures r != -1 ==> forall i | from <= i < r :: s[i] != c
    decreases |s| - from
  {
    if from >= |s| then -1
    else if s[from] == c then from
    else IndexOfChar(s, c, from + 1)
  }

  function TrimStart(s: string): (r: string)
    ensures |r| <= |s| && r == s[|s| - |r|..]
    ensures r == [] || !IsTrimmable(r[0])
    ensures forall i | 0 <= i < |s| - |r| :: IsTrimmable(s[i])
  {
    if s != [] && IsTrimmable(s[0]) then TrimStart(s[1..]) else s
  }

  function TrimEnd(s: string): (r: string)
    ensures |r| <= |s| && r == s[..|r|]
    ensures r == [] || !IsTrimmable(r[|r| - 1])
    ensures forall i | |r| <= i < |s| :: IsTrimmable(s[i])
  {
    if s != [] && IsTrimmable(s[|s| - 1]) then TrimEnd(s[..|s| - 1]) else s
  }

  /** `String.trim()`. */
  function Trim(s: string): (r: string)
    ensures r == [] || (!IsTrimmable(r[0]) && !IsTrimmable(r[|r| - 1]))
    ensures |r| <= |s|
  {
    TrimEnd(TrimStart(s))
  }

  /** `trim` gives the slice of `s` between its leading and trailing runs of
      trimmable characters. */
  lemma TrimIsSlice(s: string)
    ensures exists a, b | 0 <= a <= b <= |s| ::
      Trim(s) == s[a..b] && (forall i | 0 <= i < a :: IsTrimmable(s[i])) && (forall i | b <= i < |s| :: IsTrimmable(s[i]))
  {
    var t := TrimStart(s);
    var a := |s| - |t|;
    var r := TrimEnd(t);
    assert r == s[a..a + |r|];
    forall i | a + |r| <= i < |s| ensures IsTrimmable(s[i]) {
      assert s[i] == t[i - a];
    }
  }

  /** A string whose first and last characters are not trimmable is left as it is. */
  lemma TrimKeeps(s: string)
    requires s != [] ==> !IsTrimmable(s[0]) && !IsTrimmable(s[|s| - 1])
    ensures Trim(s) == s
  {
  }

  /** A string that is only trimmable characters trims to empty. */
  lemma TrimBlank(s: string)
    requires forall i | 0 <= i < |s| :: IsTrimmable(s[i])
    ensures Trim(s) == []
  {
    if s != [] {
      TrimBlank(s[1..]);
    }
  }

  function DigitChar(d: nat): char
    requires d < 10
  {
    ('0' as int + d) as char
  }

  /** Decimal text of a natural number, as `Integer.toString` prints it. */
  function NatToString(n: nat): (r: string)
    ensures |r| >= 1
    ensures (n < 10) <==> |r| == 1
    decreases n
  {
    if n < 10 then [DigitChar(n)] else NatToString(n / 10) + [DigitChar(n % 10)]
  }

  lemma {:induction false} NatToStringInjective(a: nat, b: nat)
    requires NatToString(a) == NatToString(b)
    ensures a == b
    decreases a
  {
    if a >= 10 && b >= 10 {
      var sa, sb := NatToString(a), NatToString(b);
      assert sa[..|sa| - 1] == NatToString(a / 10);
      assert sb[..|sb| - 1] == NatToString(b / 10);
      NatToStringInjective(a / 10, b / 10);
      assert DigitChar(a % 10) == sa[|sa| - 1] == sb[|sb| - 1] == DigitChar(b % 10);
    }
  }

  /** `s.repeat(n)`. */
  function Repeat(s: string, n: nat): (r: string)
    ensures |r| == |s| * n
  {
    if n == 0 then [] else s + Repeat(s, n - 1)
  }

  /** A non-empty run of `\w` characters: what the capture `([\w]+)` takes. */
  predicate IsWord(s: string) {
    |s| > 0 && forall i | 0 <= i < |s| :: IsWordChar(s[i])
  }

  /** `String.join(sep, parts)`; the StringBuilder loops that put `sep`
      before every part but the first build the same text. */
  function Join(parts: seq<string>, sep: string): string
    decreases |parts|
  {
    if |parts| == 0 then []
    else if |parts| == 1 then parts[0]
    else Join(parts[..|parts| - 1], sep) + sep + parts[|parts| - 1]
  }

  /** Number of occurrences of `c` in `s`. */
  function CountChar(s: string, c: char): nat {
    if s == [] then 0 else (if s[0] == c then 1 else 0) + CountChar(s[1..], c)
  }

  lemma {:induction false} CountCharAppend(a: string, b: string, c: char)
    ensures CountChar(a + b, c) == CountChar(a, c) + CountChar(b, c)
  {
    if a != [] {
      assert (a + b)[1..] == a[1..] + b;
      CountCharAppend(a[1..], b, c);
    } else {
      assert a + b == b;
    }
  }

  /** No element occurs twice. */
  predicate NoDup(s: seq<string>) {
    forall i, j | 0 <= i < j < |s| :: s[i] != s[j]
  }

  /** The elements of the blocks, block after block. */
  function Concat<T>(bs: seq<seq<T>>): seq<T>
    decreases |bs|
  {
    if bs == [] then [] else bs[0] + Concat(bs[1..])
  }

  lemma {:induction false} ConcatAppend<T>(a: seq<seq<T>>, b: seq<seq<T>>)
    ensures Concat(a + b) == Concat(a) + Concat(b)
    decreases |a|
  {
    if a == [] {
      assert a + b == b;
    } else {
      assert (a + b)[1..] == a[1..] + b;
      ConcatAppend(a[1..], b);
    }
  }

  /** The first index at or after `from` holding a character of `\s`, or |s|. */
  function NextSpace(s: string, from: nat): (r: nat)
    requires from <= |s|
    ensures from <= r <= |s| && (r < |s| ==> IsSpace(s[r]))
    ensures forall i | from <= i < r :: !IsSpace(s[i])
    decreases |s| - from
  {
    if from == |s| || IsSpace(s[from]) then from else NextSpace(s, from + 1)
  }

  /** The first index at or after `from` not holding a character of `\s`, or |s|. */
  function SkipSpaces(s: string, from: nat): (r: nat)
    requires from <= |s|
    ensures from <= r <= |s| && (r < |s| ==> !IsSpace(s[r]))
    ensures forall i | from <= i < r :: IsSpace(s[i])
    decreases |s| - from
  {
    if from == |s| || !IsSpace(s[from]) then from else SkipSpaces(s, from + 1)
  }

  /** The characters of `s` outside `\s`, in order. */
  function NonSpaces(s: string): string
    decreases |s|
  {
    if s == [] then [] else (if IsSpace(s[0]) then [] else [s[0]]) + NonSpaces(s[1..])
  }

  lemma {:induction false} NonSpacesAppend(a: string, b: string)
    ensures NonSpaces(a + b) == NonSpaces(a) + NonSpaces(b)
    decreases |a|
  {
    if a == [] {
      assert a + b == b;
    } else {
      assert (a + b)[1..] == a[1..] + b;
      NonSpacesAppend(a[1..], b);
    }
  }

  /** Text free of `\s` keeps every character; a `\s` run keeps none. */
  lemma {:induction false} NonSpacesOfRun(s: string, spaces: bool)
    requires forall i | 0 <= i < |s| :: IsSpace(s[i]) == spaces
    ensures NonSpaces(s) == if spaces then [] else s
    decreases |s|
  {
    if s != [] {
      NonSpacesOfRun(s[1..], spaces);
    }
  }

  /** The pieces between maximal runs of `\s`, empty ones included. */
  function SpacePieces(s: string): (r: seq<string>)
    ensures |r| >= 1
    ensures forall k | 0 <= k < |r| :: forall i | 0 <= i < |r[k]| :: !IsSpace(r[k][i])
    decreases |s|
  {
    var k := NextSpace(s, 0);
    if k == |s| then [s]
    else
      var j := SkipSpaces(s, k);
      [s[..k]] + SpacePieces(s[j..])
  }

  lemma NonSpacesSplit(s: string, lo: nat, mid: nat, hi: nat)
    requires lo <= mid <= hi <= |s|
    ensures NonSpaces(s[lo..hi]) == NonSpaces(s[lo..mid]) + NonSpaces(s[mid..hi])
  {
    assert s[lo..hi] == s[lo..mid] + s[mid..hi];
    NonSpacesAppend(s[lo..mid], s[mid..hi]);
  }

  lemma NonSpacesOfRange(s: string, lo: nat, hi: nat, spaces: bool)
    requires lo <= hi <= |s|
    requires forall i | lo <= i < hi :: IsSpace(s[i]) == spaces
    ensures NonSpaces(s[lo..hi]) == if spaces then [] else s[lo..hi]
  {
    var piece := s[lo..hi];
    assert forall i | 0 <= i < |piece| :: piece[i] == s[lo + i];
    NonSpacesOfRun(piece, spaces);
  }

  /** Cutting `s` at its first `\s` run keeps the text before the run and drops the run. */
  lemma NonSpacesAtFirstRun(s: string, k: nat, j: nat)
    requires k == NextSpace(s, 0) < |s| && j == SkipSpaces(s, k)
    ensures NonSpaces(s) == s[..k] + NonSpaces(s[j..])
  {
    NonSpacesSplit(s, 0, k, |s|);
    NonSpacesSplit(s, k, j, |s|);
    NonSpacesOfRange(s, 0, k, false);
    NonSpacesOfRange(s, k, j, true);
    assert s[0..|s|] == s && s[0..k] == s[..k] && s[j..|s|] == s[j..];
  }

  /** The pieces hold every character outside `\s`, in order. */
  lemma {:induction false} SpacePiecesKeepText(s: string)
    ensures Concat(SpacePieces(s)) == NonSpaces(s)
    decreases |s|
  {
    var k := NextSpace(s, 0);
    if k == |s| {
      NonSpacesOfRun(s, false);
      assert Concat([s]) == s + Concat([]);
    } else {
      var j := SkipSpaces(s, k);
      var rest := SpacePieces(s[j..]);
      SpacePiecesKeepText(s[j..]);
      var r := SpacePieces(s);
      assert r == [s[..k]] + rest;
      assert r[1..] == rest;
      NonSpacesAtFirstRun(s, k, j);
    }
  }

  /** Only the first and the last piece can be empty, and the first is not
      when `s` starts outside `\s`. */
  lemma {:induction false} SpacePiecesNonEmpty(s: string)
    ensures forall k | 0 < k < |SpacePieces(s)| - 1 :: SpacePieces(s)[k] != []
    ensures s != [] && !IsSpace(s[0]) ==> SpacePieces(s)[0] != []
    decreases |s|
  {
    var k := NextSpace(s, 0);
    if k < |s| {
      var j := SkipSpaces(s, k);
      var rest := SpacePieces(s[j..]);
      SpacePiecesNonEmpty(s[j..]);
      var r := SpacePieces(s);
      assert r == [s[..k]] + rest;
      assert j == |s| ==> s[j..] == [] && |rest| == 1;
      forall m | 0 < m < |r| - 1
        ensures r[m] != []
      {
        assert r[m] == rest[m - 1];
        if m == 1 {
          assert s[j..][0] == s[j];
        }
      }
    }
  }

  /** Dropping empty pieces from the end removes no character. */
  function DropTrailingEmpty(parts: seq<string>): (r: seq<string>)
    ensures |r| <= |parts| && r == parts[..|r|]
    ensures r == [] || r[|r| - 1] != []
    ensures forall k | |r| <= k < |parts| :: parts[k] == []
    ensures Concat(r) == Concat(parts)
  {
    if parts == [] || parts[|parts| - 1] != [] then parts
    else
      var front := parts[..|parts| - 1];
      ConcatAppend(front, [parts[|parts| - 1]]);
      assert front + [parts[|parts| - 1]] == parts;
      assert Concat([parts[|parts| - 1]]) == [] + Concat([]);
      DropTrailingEmpty(front)
  }

  /** `s.split("\\s+")`: no whitespace gives `[s]`; otherwise the pieces
      between whitespace runs, trailing empty pieces removed. The pieces hold
      every character outside `\s`, in order, and none after the first is empty. */
  function SplitOnSpaces(s: string): (r: seq<string>)
    ensures forall k | 0 <= k < |r| :: forall i | 0 <= i < |r[k]| :: !IsSpace(r[k][i])
    ensures Concat(r) == NonSpaces(s)
    ensures forall k | 0 < k < |r| :: r[k] != []
  {
    if NextSpace(s, 0) == |s| then
      NonSpacesOfRun(s, false);
      assert Concat([s]) == s + Concat([]);
      [s]
    else
      var pieces := SpacePieces(s);
      SpacePiecesKeepText(s);
      SpacePiecesNonEmpty(s);
      var r := DropTrailingEmpty(pieces);
      forall m | 0 < m < |r|
        ensures r[m] != []
      {
        assert r[m] == pieces[m];
        if m < |r| - 1 {
          assert m < |pieces| - 1;
        }
      }
      r
  }

  /** A whitespace-free path is one segment. */
  lemma SplitOnSpacesOfWord(s: string)
    requires forall i | 0 <= i < |s| :: !IsSpace(s[i])
    ensures SplitOnSpaces(s) == [s]
  {
  }

  /** Brace counting, for the query text the tool generates. */
  predicate NoBrace(s: string) {
    forall i | 0 <= i < |s| :: s[i] != '{' && s[i] != '}'
  }

  predicate Balanced(s: string) {
    CountChar(s, '{') == CountChar(s, '}')
  }

  lemma NoBraceBalanced(s: string)
    requires NoBrace(s)
    ensures Balanced(s) && CountChar(s, '{') == 0
  {
    if s != [] {
      NoBraceBalanced(s[1..]);
    }
  }

  lemma NoBraceAppend(a: string, b: string)
    requires NoBrace(a) && NoBrace(b)
    ensures NoBrace(a + b)
  {
    assert forall i | 0 <= i < |a + b| :: (a + b)[i] == if i < |a| then a[i] else b[i - |a|];
  }

  lemma BalancedAppend(a: string, b: string)
    requires Balanced(a) && Balanced(b)
    ensures Balanced(a + b)
  {
    CountCharAppend(a, b, '{');
    CountCharAppend(a, b, '}');
  }

  /** An opening line, balanced text and a closing line stay balanced. */
  lemma BalancedBlock(open: string, body: string, close: string)
    requires CountChar(open, '{') == CountChar(open, '}') + 1
    requires CountChar(close, '}') == CountChar(close, '{') + 1
    requires Balanced(body)
    ensures Balanced(open + body + close)
  {
    CountCharAppend(open, body, '{');
    CountCharAppend(open, body, '}');
    CountCharAppend(open + body, close, '{');
    CountCharAppend(open + body, close, '}');
  }

  lemma IndentNoBrace(depth: nat)
    ensures NoBrace(Repeat("  ", depth))
  {
    if depth > 0 {
      IndentNoBrace(depth - 1);
      NoBraceAppend("  ", Repeat("  ", depth - 1));
    }
  }

  /** A line of indentation and a brace-free name followed by `suffix`. */
  lemma LineCounts(indent: string, name: string, suffix: string)
    requires NoBrace(indent) && NoBrace(name)
    ensures CountChar(indent + name + suffix, '{') == CountChar(suffix, '{')
    ensures CountChar(indent + name + suffix, '}') == CountChar(suffix, '}')
  {
    NoBraceAppend(indent, name);
    NoBraceBalanced(indent + name);
    assert CountChar(indent + name, '}') == 0 by {
      CountCharAppend(indent, name, '}');
      NoBraceBalanced(indent);
      NoBraceBalanced(name);
    }
    CountCharAppend(indent + name, suffix, '{');
    CountCharAppend(indent + name, suffix, '}');
  }

  /** Line counting. */
  predicate NoNewline(s: string) {
    forall i | 0 <= i < |s| :: s[i] != '\n'
  }

  lemma NoNewlineCount(s: string)
    requires NoNewline(s)
    ensures CountChar(s, '\n') == 0
  {
    if s != [] {
      NoNewlineCount(s[1..]);
    }
  }

  lemma RepeatNoNewline(s: string, n: nat)
    requires NoNewline(s)
    ensures NoNewline(Repeat(s, n))
  {
    if n > 0 {
      RepeatNoNewline(s, n - 1);
    }
  }

  lemma NoNewlineAppend(a: string, b: string)
    requires NoNewline(a) && NoNewline(b)
    ensures NoNewline(a + b)
  {
    assert forall i | 0 <= i < |a + b| :: (a + b)[i] == if i < |a| then a[i] else b[i - |a|];
  }

  /** A text with no line break, then one: exactly one line. */
  lemma OneLine(s: string)
    requires NoNewline(s)
    ensures CountChar(s + "\n", '\n') == 1
  {
    NoNewlineCount(s);
    CountCharAppend(s, "\n", '\n');
  }
}
