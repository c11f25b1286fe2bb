/** The request editor tab (`GripRequestEditor`): how it pulls the first
    field out of the captured query, and the probe payloads it builds from
    that field and its counters. Swing widgets, preferences, JSON
    pretty-printing and the Burp request objects are not part of this model. */
module RequestEditor {
  import opened Wrappers
  import opened Text

  /** `Integer.toString` / `StringBuilder.append(int)`. */
  function IntToString(n: int): (r: string)
    ensures |r| >= 1
    ensures NoBrace(r) && NoNewline(r)
  {
    NatDigits(if n < 0 then -n else n);
    if n < 0 then "-" + NatToString(-n) else NatToString(n)
  }

  /** Decimal text is made of digits only. */
  lemma {:induction false} NatDigits(n: nat)
    ensures forall i | 0 <= i < |NatToString(n)| :: '0' <= NatToString(n)[i] <= '9'
    decreases n
  {
    if n >= 10 {
      NatDigits(n / 10);
    }
  }

  /** The number of times the source's `for (int i = 0; i < n; i++)` runs. */
  function Times(n: int): nat {
    if n < 0 then 0 else n
  }

  // ---------------------------------------------------------------------
  // extractFullFieldCall: the text inside the first brace pair
  // ---------------------------------------------------------------------

  /** Opening minus closing braces. */
  function Depth(s: string): int {
    CountChar(s, '{') - CountChar(s, '}')
  }

  /** The scan after the first `{`: with `depth` braces open at index `i`,
      the index of the brace that brings the depth back to zero. */
  function CloseFrom(q: string, i: nat, depth: nat): (r: Option<nat>)
    requires depth >= 1 && i <= |q|
    ensures r.Some? ==> i <= r.value < |q| && q[r.value] == '}'
    decreases |q| - i
  {
    if i == |q| then None
    else if q[i] == '{' then CloseFrom(q, i + 1, depth + 1)
    else if q[i] == '}' then (if depth == 1 then Some(i) else CloseFrom(q, i + 1, depth - 1))
    else CloseFrom(q, i + 1, depth)
  }

  /** What `extractFullFieldCall` returns for a non-null query. */
  function FieldCallOf(q: string): Option<string> {
    var first := IndexOfChar(q, '{', 0);
    if first == -1 then None
    else match CloseFrom(q, first + 1, 1)
      case None => None
      case Some(e) => if e > first + 1 then Some(Trim(q[first + 1..e])) else None
  }

  /** `first` is the first `{` of `q`. */
  predicate FirstBrace(q: string, first: nat) {
    first < |q| && q[first] == '{' && forall i | 0 <= i < first :: q[i] != '{'
  }

  /** `e` closes the brace at `first`: every longer prefix of the text from
      `first` keeps a brace open until the one ending at `e`. */
  predicate Closes(q: string, first: nat, e: nat) {
    first < e < |q| && Depth(q[first..e + 1]) == 0 &&
    forall j | first < j <= e :: Depth(q[first..j]) >= 1
  }

  /** The brace at `first` is never closed. */
  predicate Unclosed(q: string, first: nat) {
    first < |q| && forall j | first < j <= |q| :: Depth(q[first..j]) >= 1
  }

  lemma DepthStep(q: string, first: nat, i: nat)
    requires first <= i < |q|
    ensures Depth(q[first..i + 1]) ==
      Depth(q[first..i]) + (if q[i] == '{' then 1 else if q[i] == '}' then -1 else 0)
  {
    assert q[first..i + 1] == q[first..i] + [q[i]];
    CountCharAppend(q[first..i], [q[i]], '{');
    CountCharAppend(q[first..i], [q[i]], '}');
  }

  /** The scan finds exactly the closing brace, or reports that there is none. */
  lemma {:induction false} CloseFromCorrect(q: string, first: nat, i: nat, depth: nat)
    requires first < i <= |q| && depth >= 1
    requires depth == Depth(q[first..i])
    requires forall j | first < j <= i :: Depth(q[first..j]) >= 1
    ensures CloseFrom(q, i, depth).Some? ==> Closes(q, first, CloseFrom(q, i, depth).value)
    ensures CloseFrom(q, i, depth).None? ==> Unclosed(q, first)
    decreases |q| - i
  {
    if i < |q| {
      DepthStep(q, first, i);
      if q[i] == '}' && depth == 1 {
      } else {
        var d := if q[i] == '{' then depth + 1 else if q[i] == '}' then depth - 1 else depth;
        assert d == Depth(q[first..i + 1]);
        CloseFromCorrect(q, first, i + 1, d);
      }
    }
  }

  /** A closing brace, when there is one, is unique. */
  lemma ClosesUnique(q: string, first: nat, e: nat, e': nat)
    requires Closes(q, first, e) && Closes(q, first, e')
    ensures e == e'
  {
  }

  lemma ScanStart(q: string, first: nat)
    requires FirstBrace(q, first)
    ensures IndexOfChar(q, '{', 0) == first
    ensures Depth(q[first..first + 1]) == 1
  {
    DepthStep(q, first, first);
    assert q[first..first] == [];
  }

  /** The extracted call is the trimmed text strictly inside the first brace
      and the brace that closes it. */
  lemma FieldCallSound(q: string)
    requires FieldCallOf(q).Some?
    ensures exists first: nat, e: nat | first + 1 < e ::
      FirstBrace(q, first) && Closes(q, first, e) && FieldCallOf(q).value == Trim(q[first + 1..e])
  {
    var first := IndexOfChar(q, '{', 0);
    assert FirstBrace(q, first);
    ScanStart(q, first);
    CloseFromCorrect(q, first, first + 1, 1);
  }

  /** Conversely, a closed first brace with text inside gives that text. */
  lemma FieldCallComplete(q: string, first: nat, e: nat)
    requires FirstBrace(q, first) && Closes(q, first, e) && first + 1 < e
    ensures FieldCallOf(q) == Some(Trim(q[first + 1..e]))
  {
    ScanStart(q, first);
    CloseFromCorrect(q, first, first + 1, 1);
    var r := CloseFrom(q, first + 1, 1);
    if r.Some? {
      ClosesUnique(q, first, r.value, e);
    }
  }

  /** No call is extracted from a query whose first brace is never closed. */
  lemma FieldCallUnclosed(q: string, first: nat)
    requires FirstBrace(q, first) && Unclosed(q, first)
    ensures FieldCallOf(q).None?
  {
    ScanStart(q, first);
    CloseFromCorrect(q, first, first + 1, 1);
  }

  /** A text of trimmable characters only holds no brace. */
  lemma TrimmableNoBrace(s: string)
    requires forall i | 0 <= i < |s| :: IsTrimmable(s[i])
    ensures NoBrace(s)
  {
  }

  predicate AllTrimmable(a: string) {
    forall i | 0 <= i < |a| :: IsTrimmable(a[i])
  }

  /** Trimmable characters around a text add no brace to it. */
  lemma TrimmableAround(a: string, b: string, c: string)
    requires AllTrimmable(a) && AllTrimmable(c)
    ensures CountChar(a + (b + c), '{') == CountChar(b, '{') && CountChar(a + (b + c), '}') == CountChar(b, '}')
  {
    TrimmableNoBrace(a);
    TrimmableNoBrace(c);
    NoBraceBalanced(a);
    NoBraceBalanced(c);
    CountCharAppend(b, c, '{');
    CountCharAppend(b, c, '}');
    CountCharAppend(a, b + c, '{');
    CountCharAppend(a, b + c, '}');
  }

  /** Cutting `s` at `k`, where everything before `k` is trimmable. */
  lemma TrimmableCut(s: string, k: nat, t: string)
    requires k <= |s| && t == s[k..]
    requires forall i | 0 <= i < k :: IsTrimmable(s[i])
    ensures AllTrimmable(s[..k]) && s == s[..k] + t
  {
    assert forall i | 0 <= i < k :: s[..k][i] == s[i];
  }

  /** What `trim()` drops at the front. */
  lemma TrimStartPart(s: string) returns (a: string)
    ensures AllTrimmable(a) && s == a + TrimStart(s)
  {
    var t := TrimStart(s);
    TrimmableCut(s, |s| - |t|, t);
    a := s[..|s| - |t|];
  }

  /** What `trim()` drops at the back. */
  lemma {:induction false} TrimEndPart(t: string) returns (c: string)
    ensures AllTrimmable(c) && t == TrimEnd(t) + c
  {
    if t != [] && IsTrimmable(t[|t| - 1]) {
      var rest := TrimEndPart(t[..|t| - 1]);
      c := rest + [t[|t| - 1]];
      assert t == t[..|t| - 1] + [t[|t| - 1]];
    } else {
      c := [];
    }
  }

  /** `trim()` removes no brace. */
  lemma TrimBraces(s: string)
    ensures CountChar(Trim(s), '{') == CountChar(s, '{')
    ensures CountChar(Trim(s), '}') == CountChar(s, '}')
  {
    var a := TrimStartPart(s);
    var c := TrimEndPart(TrimStart(s));
    TrimmableAround(a, Trim(s), c);
  }

  /** The text strictly inside a brace and the brace closing it is balanced. */
  lemma InsideBalanced(q: string, first: nat, e: nat)
    requires Closes(q, first, e) && q[first] == '{' && q[e] == '}'
    ensures Balanced(q[first + 1..e])
  {
    var inner := q[first + 1..e];
    var open := q[first..first + 1];
    var close := q[e..e + 1];
    assert open == "{" && close == "}";
    assert q[first..e + 1] == (open + inner) + close;
    CountCharAppend(open + inner, close, '{');
    CountCharAppend(open + inner, close, '}');
    CountCharAppend(open, inner, '{');
    CountCharAppend(open, inner, '}');
  }

  /** The extracted call has as many closing braces as opening ones. */
  lemma FieldCallBalanced(q: string)
    requires FieldCallOf(q).Some?
    ensures Balanced(FieldCallOf(q).value)
  {
    var first := IndexOfChar(q, '{', 0);
    var e := CloseFrom(q, first + 1, 1).value;
    assert FirstBrace(q, first);
    ScanStart(q, first);
    CloseFromCorrect(q, first, first + 1, 1);
    InsideBalanced(q, first, e);
    TrimBraces(q[first + 1..e]);
  }

  // ---------------------------------------------------------------------
  // The `query=` fallback of extractQueryFromRequest
  // ---------------------------------------------------------------------

  /** The text after the first `query=`, up to the next `&` or the end,
      before URL decoding. */
  function QueryParameter(text: string): (r: Option<string>)
    ensures r.None? <==> !Contains(text, "query=")
  {
    if !Contains(text, "query=") then None
    else
      var start := IndexOf(text, "query=") + 6;
      var end := IndexOfFrom(text, "&", start);
      Some(text[start..if end == -1 then |text| else end])
  }

  /** The value sits right after the first `query=`, holds no `&`, and runs
      to the next `&` or to the end. */
  lemma QueryParameterPlace(text: string)
    requires QueryParameter(text).Some?
    ensures var v := QueryParameter(text).value;
      var start := IndexOf(text, "query=") + 6;
      start + |v| <= |text| && text[start - 6..start] == "query=" && text[start..start + |v|] == v &&
      (forall k | 0 <= k < |v| :: v[k] != '&') &&
      (start + |v| == |text| || text[start + |v|] == '&')
  {
    var start := IndexOf(text, "query=") + 6;
    var end := IndexOfFrom(text, "&", start);
    var v := QueryParameter(text).value;
    forall k | 0 <= k < |v| ensures v[k] != '&' {
      assert !StartsAt(text, start + k, "&");
    }
    if end != -1 {
      assert StartsAt(text, end, "&");
    }
  }

  // ---------------------------------------------------------------------
  // extractFieldFromQuery: the patterns it searches with
  // ---------------------------------------------------------------------

  /** `p` (lower-case) at `i` of `s`, ignoring ASCII case as Java's
      CASE_INSENSITIVE flag does. */
  predicate StartsAtIgnoreCase(s: string, i: nat, p: string) {
    i + |p| <= |s| && forall k | 0 <= k < |p| :: LowerChar(s[i + k]) == p[k]
  }

  /** The alternation `(query|mutation|subscription)` at `i`: where it ends. */
  function KeywordEnd(q: string, i: nat): (r: Option<nat>)
    ensures r.Some? ==> i < r.value <= |q|
  {
    if StartsAtIgnoreCase(q, i, "query") then Some(i + 5)
    else if StartsAtIgnoreCase(q, i, "mutation") then Some(i + 8)
    else if StartsAtIgnoreCase(q, i, "subscription") then Some(i + 12)
    else None
  }

  /** The end of the run of `\w` characters starting at `from`. */
  function WordEnd(s: string, from: nat): (r: nat)
    requires from <= |s|
    ensures from <= r <= |s| && (r < |s| ==> !IsWordChar(s[r]))
    ensures forall i | from <= i < r :: IsWordChar(s[i])
    decreases |s| - from
  {
    if from == |s| || !IsWordChar(s[from]) then from else WordEnd(s, from + 1)
  }

  /** The operation type: `^\s*(query|mutation|subscription)` lower-cased,
      or "query" when the query does not start with one. */
  function OperationTypeOf(q: string): string {
    var k := SkipSpaces(q, 0);
    match KeywordEnd(q, k)
    case None => "query"
    case Some(e) => ToLower(q[k..e])
  }

  lemma LowerKeyword(q: string, k: nat, p: string)
    requires StartsAtIgnoreCase(q, k, p)
    ensures ToLower(q[k..k + |p|]) == p
  {
  }

  /** The operation type is always one of the three GraphQL operations, and
      it is the one the query starts with whatever its letter case. */
  lemma OperationTypeKnown(q: string)
    ensures OperationTypeOf(q) in {"query", "mutation", "subscription"}
    ensures var k := SkipSpaces(q, 0);
      (StartsAtIgnoreCase(q, k, "mutation") ==> OperationTypeOf(q) == "mutation") &&
      (StartsAtIgnoreCase(q, k, "subscription") ==> OperationTypeOf(q) == "subscription")
  {
    var k := SkipSpaces(q, 0);
    if StartsAtIgnoreCase(q, k, "query") {
      LowerKeyword(q, k, "query");
      assert LowerChar(q[k]) == "query"[0] == 'q';
      assert !StartsAtIgnoreCase(q, k, "mutation") by { assert "mutation"[0] == 'm'; }
      assert !StartsAtIgnoreCase(q, k, "subscription") by { assert "subscription"[0] == 's'; }
    } else if StartsAtIgnoreCase(q, k, "mutation") {
      LowerKeyword(q, k, "mutation");
      assert LowerChar(q[k]) == "mutation"[0] == 'm';
      assert !StartsAtIgnoreCase(q, k, "subscription") by { assert "subscription"[0] == 's'; }
    } else if StartsAtIgnoreCase(q, k, "subscription") {
      LowerKeyword(q, k, "subscription");
    }
  }

  /** `\{\s*(\w+)` at `b`: the word after the brace. */
  function BraceWordAt(q: string, b: nat): (r: Option<string>)
    ensures r.Some? ==> IsWord(r.value)
  {
    if b < |q| && q[b] == '{' then
      var k := SkipSpaces(q, b + 1);
      var e := WordEnd(q, k);
      if e > k then Some(q[k..e]) else None
    else None
  }

  /** Where `(?:\([^)]*\))?\s*` leaves off from `b`. */
  function SkipArguments(q: string, b: nat): (r: nat)
    requires b <= |q|
    ensures b <= r <= |q|
  {
    if b < |q| && q[b] == '(' then
      var close := IndexOfChar(q, ')', b + 1);
      if close == -1 then b else SkipSpaces(q, close + 1)
    else b
  }

  /** `(?:query|mutation|subscription)\s*(?:\w+)?\s*(?:\([^)]*\))?\s*\{\s*(\w+)`
      tried at `i`: the captured field name. Every quantifier stops where
      the next element cannot start, so no backtracking changes the result. */
  function FieldPatternAt(q: string, i: nat): Option<string> {
    match KeywordEnd(q, i)
    case None => None
    case Some(k) =>
      var b := SkipSpaces(q, WordEnd(q, SkipSpaces(q, k)));
      BraceWordAt(q, SkipArguments(q, b))
  }

  /** The two patterns `extractFieldFromQuery` searches with. */
  datatype Pattern = FieldPattern | SimplePattern

  function MatchAt(p: Pattern, q: string, i: nat): Option<string> {
    match p
    case FieldPattern => FieldPatternAt(q, i)
    case SimplePattern => BraceWordAt(q, i)
  }

  /** What the pattern captures when tried at each start `0 .. |q|`. */
  function Attempts(p: Pattern, q: string): (r: seq<Option<string>>)
    ensures |r| == |q| + 1
  {
    seq(|q| + 1, i requires 0 <= i <= |q| => MatchAt(p, q, i))
  }

  /** The first capture at or after `from`. */
  function FirstSome(ms: seq<Option<string>>, from: nat): Option<string>
    requires from <= |ms|
    decreases |ms| - from
  {
    if from == |ms| then None
    else if ms[from].Some? then ms[from]
    else FirstSome(ms, from + 1)
  }

  /** `Matcher.find()` then `group(1)`: the capture at the leftmost start
      where the pattern matches. */
  function Find(p: Pattern, q: string): Option<string> {
    FirstSome(Attempts(p, q), 0)
  }

  /** A found capture comes from the leftmost attempt that matched. */
  lemma {:induction false} FirstSomeLeftmost(ms: seq<Option<string>>, from: nat) returns (i: nat)
    requires from <= |ms| && FirstSome(ms, from).Some?
    ensures from <= i < |ms| && ms[i] == FirstSome(ms, from)
    ensures forall j | from <= j < i :: ms[j].None?
    decreases |ms| - from
  {
    if ms[from].Some? {
      i := from;
    } else {
      i := FirstSomeLeftmost(ms, from + 1);
    }
  }

  /** Nothing is found exactly when no attempt matched. */
  lemma {:induction false} FirstSomeNone(ms: seq<Option<string>>, from: nat)
    requires from <= |ms|
    ensures FirstSome(ms, from).None? <==> forall i | from <= i < |ms| :: ms[i].None?
    decreases |ms| - from
  {
    if from < |ms| && ms[from].None? {
      FirstSomeNone(ms, from + 1);
    }
  }

  /** `find()` reports the leftmost match of the pattern in the query. */
  lemma FindLeftmost(p: Pattern, q: string) returns (i: nat)
    requires Find(p, q).Some?
    ensures i <= |q| && MatchAt(p, q, i) == Find(p, q)
    ensures forall j | 0 <= j < i :: MatchAt(p, q, j).None?
  {
    var ms := Attempts(p, q);
    i := FirstSomeLeftmost(ms, 0);
    forall j | 0 <= j < i ensures MatchAt(p, q, j).None? {
      assert ms[j] == MatchAt(p, q, j);
    }
  }

  /** `find()` fails exactly when the pattern matches nowhere. */
  lemma FindNone(p: Pattern, q: string)
    ensures Find(p, q).None? <==> forall i | 0 <= i <= |q| :: MatchAt(p, q, i).None?
  {
    var ms := Attempts(p, q);
    FirstSomeNone(ms, 0);
    if Find(p, q).None? {
      forall i | 0 <= i <= |q| ensures MatchAt(p, q, i).None? {
        assert ms[i] == MatchAt(p, q, i);
      }
    } else {
      var i := FindLeftmost(p, q);
    }
  }

  /** Every name the field pattern captures is one the simple pattern
      captures too: the word after a `{`. */
  lemma FieldPatternIsBraceWord(q: string, i: nat)
    requires FieldPatternAt(q, i).Some?
    ensures exists b | i < b < |q| :: BraceWordAt(q, b) == FieldPatternAt(q, i)
  {
    var k := KeywordEnd(q, i).value;
    var b := SkipSpaces(q, WordEnd(q, SkipSpaces(q, k)));
    var c := SkipArguments(q, b);
    assert BraceWordAt(q, c) == FieldPatternAt(q, i);
  }

  /** The field name `extractFieldFromQuery` settles on, if a pattern matches. */
  function FieldNameOf(q: string): Option<string> {
    var full := Find(FieldPattern, q);
    if full.Some? then full else Find(SimplePattern, q)
  }

  /** A found field name is a `\w+` word that follows a `{` and blanks;
      a query without `{` yields none. */
  lemma FieldNameIsBraceWord(q: string)
    ensures FieldNameOf(q).Some? ==>
      IsWord(FieldNameOf(q).value) && exists b | 0 <= b < |q| :: q[b] == '{' && BraceWordAt(q, b) == FieldNameOf(q)
    ensures (forall b | 0 <= b < |q| :: q[b] != '{') ==> FieldNameOf(q).None?
  {
    if Find(FieldPattern, q).Some? {
      var i := FindLeftmost(FieldPattern, q);
      FieldPatternIsBraceWord(q, i);
    } else if Find(SimplePattern, q).Some? {
      var i := FindLeftmost(SimplePattern, q);
    }
    if forall b | 0 <= b < |q| :: q[b] != '{' {
      forall i | 0 <= i <= |q| ensures MatchAt(FieldPattern, q, i).None? && MatchAt(SimplePattern, q, i).None? {
        if FieldPatternAt(q, i).Some? {
          FieldPatternIsBraceWord(q, i);
        }
      }
      FindNone(FieldPattern, q);
      FindNone(SimplePattern, q);
    }
  }

  // ---------------------------------------------------------------------
  // Payload text: each function is the builder's text after a loop, so
  // the loops' steps are the functions' steps
  // ---------------------------------------------------------------------

  /** One alias line, `String.format("  a%d: %s\n", i, field)`. */
  function AliasLine(i: nat, field: string): string {
    "  a" + NatToString(i) + ": " + field + "\n"
  }

  /** `sb` after the alias loop has appended the lines for `i = 0 .. n - 1`. */
  function AppendAliasLines(sb: string, field: string, n: nat): string {
    if n == 0 then sb else AppendAliasLines(sb, field, n - 1) + AliasLine(n - 1, field)
  }

  /** The body `applyAliasOverloading` builds. */
  function AliasOverloadText(op: string, field: string, count: int): string {
    AppendAliasLines(op + " GripAliasOverload {\n", field, Times(count)) + "}"
  }

  /** `sb` after the width loop has appended `  a<i>: __typename` for `i = 0 .. n - 1`. */
  function AppendWidthLines(sb: string, n: nat): string {
    if n == 0 then sb else AppendWidthLines(sb, n - 1) + "  a" + NatToString(n - 1) + ": __typename\n"
  }

  /** The width probe's header line. */
  function WidthHead(width: int): string {
    "query GripWidthProbe" + IntToString(width) + " {\n"
  }

  /** The body `applyWidthProbe` builds. */
  function WidthProbeText(width: int): string {
    AppendWidthLines(WidthHead(width), Times(width)) + "}"
  }

  /** Every alias label `a<i>` is different from every other. */
  lemma AliasLabelsDistinct(i: nat, j: nat)
    requires i != j
    ensures "a" + NatToString(i) != "a" + NatToString(j)
  {
    if "a" + NatToString(i) == "a" + NatToString(j) {
      assert NatToString(i) == ("a" + NatToString(i))[1..] == ("a" + NatToString(j))[1..] == NatToString(j);
      NatToStringInjective(i, j);
    }
  }

  /** The width probe's lines are the alias lines of `__typename`. */
  lemma {:induction false} WidthLinesAreAliasLines(sb: string, n: nat)
    ensures AppendWidthLines(sb, n) == AppendAliasLines(sb, "__typename", n)
  {
    if n > 0 {
      WidthLinesAreAliasLines(sb, n - 1);
      var x := AppendAliasLines(sb, "__typename", n - 1);
      var d := NatToString(n - 1);
      assert ": __typename\n" == ": " + "__typename" + "\n";
      calc {
        x + "  a" + d + ": __typename\n";
        x + ("  a" + d + ": " + "__typename" + "\n");
        x + AliasLine(n - 1, "__typename");
      }
    }
  }

  lemma SuffixCounts()
    ensures CountChar(" {\n", '{') == 1 && CountChar(" {\n", '}') == 0
    ensures CountChar("}\n", '{') == 0 && CountChar("}\n", '}') == 1
  {
  }

  lemma EndCounts()
    ensures CountChar("\n", '{') == 0 && CountChar("\n", '}') == 0 && CountChar("\n", '\n') == 1
    ensures CountChar("}", '{') == 0 && CountChar("}", '}') == 1 && CountChar("}", '\n') == 0
  {
  }

  /** The label part `  a<i>: ` of an alias line. */
  function AliasLabel(i: nat): (r: string)
    ensures NoBrace(r) && NoNewline(r)
  {
    NatDigits(i);
    "  a" + NatToString(i) + ": "
  }

  lemma AliasLineBraces(i: nat, field: string)
    ensures CountChar(AliasLine(i, field), '{') == CountChar(field, '{')
    ensures CountChar(AliasLine(i, field), '}') == CountChar(field, '}')
  {
    var tag := AliasLabel(i);
    assert AliasLine(i, field) == tag + field + "\n";
    EndCounts();
    NoBraceBalanced(tag);
    CountCharAppend(tag, field, '{');
    CountCharAppend(tag, field, '}');
    CountCharAppend(tag + field, "\n", '{');
    CountCharAppend(tag + field, "\n", '}');
  }

  lemma AliasLineBreaks(i: nat, field: string)
    requires NoNewline(field)
    ensures CountChar(AliasLine(i, field), '\n') == 1
  {
    assert AliasLine(i, field) == AliasLabel(i) + field + "\n";
    NoNewlineAppend(AliasLabel(i), field);
    OneLine(AliasLabel(i) + field);
  }

  /** `n` alias lines add `n` copies of the field's braces. */
  lemma {:induction false} AliasLinesBraces(sb: string, field: string, n: nat)
    ensures CountChar(AppendAliasLines(sb, field, n), '{') == CountChar(sb, '{') + n * CountChar(field, '{')
    ensures CountChar(AppendAliasLines(sb, field, n), '}') == CountChar(sb, '}') + n * CountChar(field, '}')
  {
    if n > 0 {
      var init := AppendAliasLines(sb, field, n - 1);
      AliasLinesBraces(sb, field, n - 1);
      AliasLineBraces(n - 1, field);
      CountCharAppend(init, AliasLine(n - 1, field), '{');
      CountCharAppend(init, AliasLine(n - 1, field), '}');
      assert n * CountChar(field, '{') == (n - 1) * CountChar(field, '{') + CountChar(field, '{');
      assert n * CountChar(field, '}') == (n - 1) * CountChar(field, '}') + CountChar(field, '}');
    }
  }

  /** `n` alias lines add `n` lines when the field is on one line. */
  lemma {:induction false} AliasLinesBreaks(sb: string, field: string, n: nat)
    requires NoNewline(field)
    ensures CountChar(AppendAliasLines(sb, field, n), '\n') == CountChar(sb, '\n') + n
  {
    if n > 0 {
      var init := AppendAliasLines(sb, field, n - 1);
      AliasLinesBreaks(sb, field, n - 1);
      AliasLineBreaks(n - 1, field);
      CountCharAppend(init, AliasLine(n - 1, field), '\n');
    }
  }

  /** The line for alias `m` follows the lines before it, whatever the count. */
  lemma {:induction false} AliasLinesPrefix(sb: string, field: string, m: nat, n: nat)
    requires m < n
    ensures AppendAliasLines(sb, field, m) + AliasLine(m, field) <= AppendAliasLines(sb, field, n)
  {
    if m < n - 1 {
      AliasLinesPrefix(sb, field, m, n - 1);
      var p := AppendAliasLines(sb, field, m) + AliasLine(m, field);
      var a := AppendAliasLines(sb, field, n - 1);
      assert p == a[..|p|];
      assert (a + AliasLine(n - 1, field))[..|p|] == a[..|p|];
    }
  }

  /** The alias payload keeps its braces balanced when the field call does,
      which every extracted field call does. */
  lemma AliasOverloadBalanced(op: string, field: string, count: int)
    requires NoBrace(op) && Balanced(field)
    ensures Balanced(AliasOverloadText(op, field, count))
  {
    var head := op + " GripAliasOverload {\n";
    var body := AppendAliasLines(head, field, Times(count));
    SuffixCounts();
    EndCounts();
    assert NoBrace(" GripAliasOverload");
    LineCounts(op, " GripAliasOverload", " {\n");
    assert head == op + " GripAliasOverload" + " {\n";
    AliasLinesBraces(head, field, Times(count));
    CountCharAppend(body, "}", '{');
    CountCharAppend(body, "}", '}');
  }

  lemma WidthHeadShape(width: int)
    ensures CountChar(WidthHead(width), '{') == 1 && CountChar(WidthHead(width), '}') == 0
    ensures CountChar(WidthHead(width), '\n') == 1
  {
    SuffixCounts();
    LineCounts("query GripWidthProbe", IntToString(width), " {\n");
    var t := "query GripWidthProbe" + IntToString(width) + " {";
    NoNewlineAppend("query GripWidthProbe", IntToString(width));
    NoNewlineAppend("query GripWidthProbe" + IntToString(width), " {");
    assert WidthHead(width) == t + "\n";
    OneLine(t);
  }

  /** Alias lines of a brace-free one-line field after a one-line header
      with one `{`, closed by `}`: balanced, one line per alias. */
  lemma AliasBlockShape(head: string, field: string, n: nat)
    requires CountChar(head, '{') == 1 && CountChar(head, '}') == 0 && CountChar(head, '\n') == 1
    requires NoBrace(field) && NoNewline(field)
    ensures Balanced(AppendAliasLines(head, field, n) + "}")
    ensures CountChar(AppendAliasLines(head, field, n) + "}", '\n') == n + 1
  {
    var body := AppendAliasLines(head, field, n);
    EndCounts();
    NoBraceBalanced(field);
    AliasLinesBraces(head, field, n);
    AliasLinesBreaks(head, field, n);
    CountCharAppend(body, "}", '{');
    CountCharAppend(body, "}", '}');
    CountCharAppend(body, "}", '\n');
  }

  /** The width probe has one line per alias plus its header, and balanced braces. */
  lemma WidthProbeShape(width: int)
    ensures Balanced(WidthProbeText(width))
    ensures CountChar(WidthProbeText(width), '\n') == Times(width) + 1
  {
    WidthLinesAreAliasLines(WidthHead(width), Times(width));
    WidthHeadShape(width);
    assert NoBrace("__typename") && NoNewline("__typename");
    AliasBlockShape(WidthHead(width), "__typename", Times(width));
  }

  /** `indent += "  "`. */
  lemma {:induction false} IndentGrow(l: nat)
    ensures Repeat("  ", l) + "  " == Repeat("  ", l + 1)
  {
    if l > 0 {
      IndentGrow(l - 1);
    }
  }

  /** `indent = indent.substring(2)`: one step less. */
  lemma IndentShrink(l: nat)
    ensures |Repeat("  ", l + 1)| >= 2 && Repeat("  ", l + 1)[2..] == Repeat("  ", l)
  {
  }

  /** `sb.append(indent).append(text)` with an indentation of `l` steps. */
  function AppendLineAt(sb: string, l: nat, text: string): string {
    sb + Repeat("  ", l) + text
  }

  /** `sb` after one round of the opening loop of `applyDepthProbe`, at
      level `i`: `types`, `name`, `fields`, `name`, `type`. */
  function AppendOpenStep(sb: string, i: nat): string {
    var l := 2 + 3 * i;
    var types := AppendLineAt(sb, l, "types {\n");
    var fields := AppendLineAt(AppendLineAt(types, l + 1, "name\n"), l + 1, "fields {\n");
    AppendLineAt(AppendLineAt(fields, l + 2, "name\n"), l + 2, "type {\n")
  }

  /** `sb` after one round of the closing loop: the three braces opened at level `i`. */
  function AppendCloseStep(sb: string, i: nat): string {
    var l := 2 + 3 * i;
    AppendLineAt(AppendLineAt(AppendLineAt(sb, l + 2, "}\n"), l + 1, "}\n"), l, "}\n")
  }

  /** `sb` after the opening rounds for levels `0 .. n - 1`. */
  function OpeningsFrom(sb: string, n: nat): string {
    if n == 0 then sb else AppendOpenStep(OpeningsFrom(sb, n - 1), n - 1)
  }

  /** `sb` after the closing rounds for levels `hi - 1` down to `lo`, innermost first. */
  function ClosingsFrom(sb: string, hi: nat, lo: nat): string
    requires lo <= hi
    decreases hi - lo
  {
    if lo == hi then sb else AppendCloseStep(ClosingsFrom(sb, hi, lo + 1), lo)
  }

  /** The header of the depth probe. */
  function DepthHead(depth: int): string {
    AppendLineAt("query GripDepthProbe" + IntToString(depth) + " {\n", 1, "__schema {\n")
  }

  /** The text up to the innermost `name` line after `n` levels. */
  function DepthMiddle(depth: int): string {
    var n := Times(depth);
    AppendLineAt(OpeningsFrom(DepthHead(depth), n), 2 + 3 * n, "name\n")
  }

  /** The body `applyDepthProbe` builds. */
  function DepthProbeText(depth: int): string {
    var n := Times(depth);
    AppendLineAt(ClosingsFrom(DepthMiddle(depth), n, 0), 1, "}\n") + "}"
  }

  /** Brace counts of a line `text` that is a brace-free word and a suffix. */
  lemma WordLine(text: string, word: string, suffix: string)
    requires text == word + suffix && NoBrace(word) && suffix in {" {\n", "}\n", "\n"}
    ensures CountChar(text, '{') == (if suffix == " {\n" then 1 else 0)
    ensures CountChar(text, '}') == (if suffix == "}\n" then 1 else 0)
  {
    SuffixCounts();
    EndCounts();
    NoBraceBalanced(word);
    CountCharAppend(word, suffix, '{');
    CountCharAppend(word, suffix, '}');
  }

  /** The lines of the depth probe, one literal at a time. */
  lemma TypesLine()
    ensures CountChar("types {\n", '{') == 1 && CountChar("types {\n", '}') == 0
  {
    WordLine("types {\n", "types", " {\n");
  }

  lemma FieldsLine()
    ensures CountChar("fields {\n", '{') == 1 && CountChar("fields {\n", '}') == 0
  {
    WordLine("fields {\n", "fields", " {\n");
  }

  lemma TypeLine()
    ensures CountChar("type {\n", '{') == 1 && CountChar("type {\n", '}') == 0
  {
    WordLine("type {\n", "type", " {\n");
  }

  lemma NameLine()
    ensures CountChar("name\n", '{') == 0 && CountChar("name\n", '}') == 0
  {
    WordLine("name\n", "name", "\n");
  }

  lemma SchemaLine()
    ensures CountChar("__schema {\n", '{') == 1 && CountChar("__schema {\n", '}') == 0
  {
    WordLine("__schema {\n", "__schema", " {\n");
  }

  /** Appending an indentation leaves the brace counts alone. */
  lemma AppendIndent(sb: string, l: nat)
    ensures CountChar(sb + Repeat("  ", l), '{') == CountChar(sb, '{')
    ensures CountChar(sb + Repeat("  ", l), '}') == CountChar(sb, '}')
  {
    IndentNoBrace(l);
    NoBraceBalanced(Repeat("  ", l));
    CountCharAppend(sb, Repeat("  ", l), '{');
    CountCharAppend(sb, Repeat("  ", l), '}');
  }

  /** Appending an indented line adds the line's braces. */
  lemma AppendLine(sb: string, l: nat, text: string, o: nat, c: nat)
    requires CountChar(text, '{') == o && CountChar(text, '}') == c
    ensures CountChar(AppendLineAt(sb, l, text), '{') == CountChar(sb, '{') + o
    ensures CountChar(AppendLineAt(sb, l, text), '}') == CountChar(sb, '}') + c
  {
    AppendIndent(sb, l);
    CountCharAppend(sb + Repeat("  ", l), text, '{');
    CountCharAppend(sb + Repeat("  ", l), text, '}');
  }

  /** Brace counts `o` and `c` added to those of `sb`. */
  predicate Adds(s: string, sb: string, o: nat, c: nat) {
    CountChar(s, '{') == CountChar(sb, '{') + o && CountChar(s, '}') == CountChar(sb, '}') + c
  }

  /** Five indented lines, at levels `l`, `l+1`, `l+1`, `l+2`, `l+2`, add their braces. */
  lemma FiveLines(sb: string, l: nat, t1: string, t2: string, t3: string, t4: string, t5: string)
    requires Adds(t1, "", 1, 0) && Adds(t2, "", 0, 0) && Adds(t3, "", 1, 0)
    requires Adds(t4, "", 0, 0) && Adds(t5, "", 1, 0)
    ensures Adds(AppendLineAt(AppendLineAt(AppendLineAt(AppendLineAt(AppendLineAt(
      sb, l, t1), l + 1, t2), l + 1, t3), l + 2, t4), l + 2, t5), sb, 3, 0)
  {
    var a := AppendLineAt(sb, l, t1);
    AppendLine(sb, l, t1, 1, 0);
    var b := AppendLineAt(a, l + 1, t2);
    AppendLine(a, l + 1, t2, 0, 0);
    var c := AppendLineAt(b, l + 1, t3);
    AppendLine(b, l + 1, t3, 1, 0);
    var d := AppendLineAt(c, l + 2, t4);
    AppendLine(c, l + 2, t4, 0, 0);
    AppendLine(d, l + 2, t5, 1, 0);
  }

  /** Three indented closing lines, at levels `l+2`, `l+1`, `l`. */
  lemma ThreeCloses(sb: string, l: nat, t: string)
    requires Adds(t, "", 0, 1)
    ensures Adds(AppendLineAt(AppendLineAt(AppendLineAt(sb, l + 2, t), l + 1, t), l, t), sb, 0, 3)
  {
    var a := AppendLineAt(sb, l + 2, t);
    AppendLine(sb, l + 2, t, 0, 1);
    var b := AppendLineAt(a, l + 1, t);
    AppendLine(a, l + 1, t, 0, 1);
    AppendLine(b, l, t, 0, 1);
  }

  lemma OpenStepCounts(sb: string, i: nat)
    ensures Adds(AppendOpenStep(sb, i), sb, 3, 0)
  {
    TypesLine(); NameLine(); FieldsLine(); TypeLine();
    FiveLines(sb, 2 + 3 * i, "types {\n", "name\n", "fields {\n", "name\n", "type {\n");
  }

  lemma CloseStepCounts(sb: string, i: nat)
    ensures Adds(AppendCloseStep(sb, i), sb, 0, 3)
  {
    SuffixCounts();
    ThreeCloses(sb, 2 + 3 * i, "}\n");
  }

  lemma {:induction false} OpeningsCounts(sb: string, n: nat)
    ensures Adds(OpeningsFrom(sb, n), sb, 3 * n, 0)
  {
    if n > 0 {
      var prev := OpeningsFrom(sb, n - 1);
      assert Adds(prev, sb, 3 * (n - 1), 0) by {
        OpeningsCounts(sb, n - 1);
      }
      assert Adds(AppendOpenStep(prev, n - 1), prev, 3, 0) by {
        OpenStepCounts(prev, n - 1);
      }
      assert OpeningsFrom(sb, n) == AppendOpenStep(prev, n - 1);
    }
  }

  lemma {:induction false} ClosingsCounts(sb: string, hi: nat, lo: nat)
    requires lo <= hi
    ensures Adds(ClosingsFrom(sb, hi, lo), sb, 0, 3 * (hi - lo))
    decreases hi - lo
  {
    if lo < hi {
      var prev := ClosingsFrom(sb, hi, lo + 1);
      assert Adds(prev, sb, 0, 3 * (hi - lo - 1)) by {
        ClosingsCounts(sb, hi, lo + 1);
      }
      assert Adds(AppendCloseStep(prev, lo), prev, 0, 3) by {
        CloseStepCounts(prev, lo);
      }
      assert ClosingsFrom(sb, hi, lo) == AppendCloseStep(prev, lo);
    }
  }

  /** A header line `word + n + " {\n"` opens one brace. */
  lemma HeadLineCounts(word: string, n: string)
    requires NoBrace(word) && NoBrace(n)
    ensures Adds(word + n + " {\n", "", 1, 0)
  {
    SuffixCounts();
    LineCounts(word, n, " {\n");
  }

  lemma DepthWord()
    ensures NoBrace("query GripDepthProbe")
  {
  }

  lemma DepthHeadCounts(depth: int)
    ensures Adds(DepthHead(depth), "", 2, 0)
  {
    var t := "query GripDepthProbe" + IntToString(depth) + " {\n";
    DepthWord();
    HeadLineCounts("query GripDepthProbe", IntToString(depth));
    SchemaLine();
    AppendLine(t, 1, "__schema {\n", 1, 0);
  }

  /** The depth probe opens `3 * depth + 2` braces (the query, `__schema`,
      then `types`, `fields` and `type` per level) and closes every one. */
  lemma DepthProbeShape(depth: int)
    ensures CountChar(DepthProbeText(depth), '{') == 3 * Times(depth) + 2
    ensures Balanced(DepthProbeText(depth))
  {
    var n := Times(depth);
    var h := DepthHead(depth);
    var o := OpeningsFrom(h, n);
    var m := DepthMiddle(depth);
    var c := ClosingsFrom(m, n, 0);
    var t := AppendLineAt(c, 1, "}\n");
    DepthHeadCounts(depth);
    assert Adds(o, h, 3 * n, 0) by {
      OpeningsCounts(h, n);
    }
    assert Adds(m, o, 0, 0) by {
      NameLine();
      AppendLine(o, 2 + 3 * n, "name\n", 0, 0);
    }
    assert Adds(c, m, 0, 3 * n) by {
      ClosingsCounts(m, n, 0);
    }
    assert Adds(t, c, 0, 1) by {
      SuffixCounts();
      AppendLine(c, 1, "}\n", 0, 1);
    }
    assert Adds(t + "}", t, 0, 1) by {
      EndCounts();
      CountCharAppend(t, "}", '{');
      CountCharAppend(t, "}", '}');
    }
    assert DepthProbeText(depth) == t + "}";
  }

  /** `applyAliasOverloading`'s loop. */
  method AliasOverload(op: string, field: string, count: int) returns (sb: string)
    ensures sb == AliasOverloadText(op, field, count)
  {
    sb := op + " GripAliasOverload {\n";
    ghost var head := sb;
    var i := 0;
    while i < count
      invariant 0 <= i && (count >= 0 ==> i <= count) && (count < 0 ==> i == 0)
      invariant sb == AppendAliasLines(head, field, i)
    {
      sb := sb + AliasLine(i, field);
      i := i + 1;
    }
    assert i == Times(count);
    sb := sb + "}";
  }

  /** `applyWidthProbe`'s loop. */
  method WidthProbe(width: int) returns (sb: string)
    ensures sb == WidthProbeText(width)
  {
    sb := "query GripWidthProbe" + IntToString(width) + " {\n";
    ghost var head := sb;
    var i := 0;
    while i < width
      invariant 0 <= i && (width >= 0 ==> i <= width) && (width < 0 ==> i == 0)
      invariant sb == AppendWidthLines(head, i)
    {
      sb := sb + "  a" + NatToString(i) + ": __typename\n";
      i := i + 1;
    }
    assert i == Times(width);
    sb := sb + "}";
  }

  /** The header of `applyDepthProbe`: the query line and `__schema`. */
  method DepthStart(depth: int) returns (sb: string, indent: string)
    ensures sb == DepthHead(depth) && indent == Repeat("  ", 2)
  {
    sb := "query GripDepthProbe" + IntToString(depth) + " {\n";
    indent := "  ";
    assert indent == Repeat("  ", 1);
    sb := sb + indent + "__schema {\n";
    IndentGrow(1);
    indent := indent + "  ";
  }

  /** The first half of `applyDepthProbe`: the header, the opening loop and
      the innermost `name`. */
  method DepthOpening(depth: int) returns (sb: string)
    ensures sb == DepthMiddle(depth)
  {
    var head, indent := DepthStart(depth);
    sb, indent := OpeningLoop(head, indent, Times(depth));
    sb := sb + indent + "name\n";
  }

  /** The opening loop of `applyDepthProbe`, `n` rounds (none when the depth is negative). */
  method OpeningLoop(head: string, indent0: string, n: nat) returns (sb: string, indent: string)
    requires indent0 == Repeat("  ", 2)
    ensures sb == OpeningsFrom(head, n) && indent == Repeat("  ", 2 + 3 * n)
  {
    sb, indent := head, indent0;
    var i := 0;
    while i < n
      invariant i <= n
      invariant sb == OpeningsFrom(head, i)
      invariant indent == Repeat("  ", 2 + 3 * i)
    {
      sb, indent := OpenRound(head, sb, indent, i);
      i := i + 1;
    }
  }

  /** The body of the opening loop, with `indent` grown in place. */
  method OpenRound(ghost head: string, sb0: string, indent0: string, i: nat) returns (sb: string, indent: string)
    requires sb0 == OpeningsFrom(head, i) && indent0 == Repeat("  ", 2 + 3 * i)
    ensures sb == OpeningsFrom(head, i + 1)
    ensures indent == Repeat("  ", 2 + 3 * (i + 1))
  {
    var l := 2 + 3 * i;
    indent := indent0;
    sb := sb0 + indent + "types {\n";
    ghost var a := sb;
    assert a == AppendLineAt(sb0, l, "types {\n");
    IndentGrow(l);
    indent := indent + "  ";
    sb := sb + indent + "name\n";
    ghost var b := sb;
    assert b == AppendLineAt(a, l + 1, "name\n");
    sb := sb + indent + "fields {\n";
    ghost var c := sb;
    assert c == AppendLineAt(b, l + 1, "fields {\n");
    IndentGrow(l + 1);
    indent := indent + "  ";
    sb := sb + indent + "name\n";
    ghost var d := sb;
    assert d == AppendLineAt(c, l + 2, "name\n");
    sb := sb + indent + "type {\n";
    assert sb == AppendLineAt(d, l + 2, "type {\n");
    assert sb == AppendOpenStep(sb0, i);
    IndentGrow(l + 2);
    indent := indent + "  ";
  }

  /** The second half of `applyDepthProbe`: the closing loop and the last
      two braces; each `substring(2)` is taken of an indentation of at
      least two blanks. */
  method DepthClosing(sb0: string, n: nat) returns (sb: string)
    ensures sb == ClosingsFrom(sb0, n, 0) + Repeat("  ", 1) + "}\n" + "}"
  {
    sb := sb0;
    var indent := Repeat("  ", 2 + 3 * n);
    var i := 0;
    while i < n
      invariant i <= n
      invariant sb == ClosingsFrom(sb0, n, n - i)
      invariant indent == Repeat("  ", 2 + 3 * (n - i))
    {
      sb, indent := CloseRound(sb0, sb, indent, n, n - i - 1);
      i := i + 1;
    }
    IndentShrink(1);
    indent := indent[2..];
    sb := sb + indent + "}\n";
    sb := sb + "}";
  }

  /** The body of the closing loop for level `lo`, with `indent` shrunk in place. */
  method CloseRound(ghost sb0: string, sb1: string, indent0: string, n: nat, lo: nat)
    returns (sb: string, indent: string)
    requires lo < n && sb1 == ClosingsFrom(sb0, n, lo + 1) && indent0 == Repeat("  ", 2 + 3 * (lo + 1))
    ensures sb == ClosingsFrom(sb0, n, lo) && indent == Repeat("  ", 2 + 3 * lo)
  {
    var l := 2 + 3 * lo;
    IndentShrink(l + 2);
    indent := indent0[2..];
    sb := sb1 + indent + "}\n";
    ghost var a := sb;
    assert a == AppendLineAt(sb1, l + 2, "}\n");
    IndentShrink(l + 1);
    indent := indent[2..];
    sb := sb + indent + "}\n";
    ghost var b := sb;
    assert b == AppendLineAt(a, l + 1, "}\n");
    IndentShrink(l);
    indent := indent[2..];
    sb := sb + indent + "}\n";
    assert sb == AppendLineAt(b, l, "}\n");
    assert sb == AppendCloseStep(sb1, lo);
  }

  /** The editor's state: the field taken from the captured query, the
      attack counters, and the payload shown in the query area. */
  class GripRequestEditor {
    var currentAttackMode: string
    var extractedFieldName: string
    var extractedFieldCall: Option<string>
    var extractedOperationType: string
    var extractedMutationName: Option<string>
    var aliasCount: int
    var batchCount: int
    var fieldDupCount: int
    var directiveCount: int
    var depthCount: int
    var fragmentCount: int
    /** The `query` member of the body in the query area. */
    var payload: string
    var status: string

    /** The field initialisers; loading saved preferences is not modelled. */
    constructor ()
      ensures currentAttackMode == "query" && extractedFieldName == "__typename"
      ensures extractedFieldCall.None? && extractedOperationType == "query" && extractedMutationName.None?
      ensures aliasCount == 100 && batchCount == 10 && fieldDupCount == 500
      ensures directiveCount == 50 && depthCount == 10 && fragmentCount == 50
      ensures payload == "" && status == ""
    {
      currentAttackMode := "query";
      extractedFieldName := "__typename";
      extractedFieldCall := None;
      extractedOperationType := "query";
      extractedMutationName := None;
      aliasCount := 100;
      batchCount := 10;
      fieldDupCount := 500;
      directiveCount := 50;
      depthCount := 10;
      fragmentCount := 50;
      payload := "";
      status := "";
    }

    /** `resetConfigToDefaults`: the six counters back to their defaults. */
    method ResetConfigToDefaults()
      modifies this
      ensures aliasCount == 100 && batchCount == 10 && fieldDupCount == 500
      ensures directiveCount == 50 && depthCount == 10 && fragmentCount == 50
      ensures status == "Config reset to defaults"
      ensures currentAttackMode == old(currentAttackMode) && payload == old(payload)
      ensures extractedFieldName == old(extractedFieldName) && extractedFieldCall == old(extractedFieldCall)
      ensures extractedOperationType == old(extractedOperationType) && extractedMutationName == old(extractedMutationName)
    {
      aliasCount := 100;
      batchCount := 10;
      fieldDupCount := 500;
      directiveCount := 50;
      depthCount := 10;
      fragmentCount := 50;
      status := "Config reset to defaults";
    }

    /** `extractFullFieldCall`: scan from the first `{` for the brace that
        closes it and return the trimmed text between them. */
    method ExtractFullFieldCall(query: Option<string>) returns (r: Option<string>)
      ensures query.None? ==> r.None?
      ensures query.Some? ==> r == FieldCallOf(query.value)
    {
      if query.None? {
        return None;
      }
      var q := query.value;
      var firstBrace := IndexOfChar(q, '{', 0);
      if firstBrace == -1 {
        return None;
      }
      var depth := 0;
      var start := -1;
      var end := -1;
      var i := firstBrace;
      while i < |q|
        invariant firstBrace <= i <= |q| && end == -1
        invariant i == firstBrace ==> depth == 0 && start == -1
        invariant i > firstBrace ==>
          (depth >= 1 && start == firstBrace + 1 && CloseFrom(q, i, depth) == CloseFrom(q, firstBrace + 1, 1))
        decreases |q| - i
      {
        var c := q[i];
        if c == '{' {
          depth := depth + 1;
          if depth == 1 {
            start := i + 1;
          }
        } else if c == '}' {
          depth := depth - 1;
          if depth == 0 {
            end := i;
            break;
          }
        }
        i := i + 1;
      }
      if start != -1 && end != -1 && end > start {
        r := Some(Trim(q[start..end]));
      } else {
        r := None;
      }
    }

    /** `extractFieldFromQuery`: an empty query resets the field to
        `__typename`; otherwise the operation type, the field name (kept when
        neither pattern matches), the mutation name (set only for a mutation
        the full pattern matches) and the full field call are refreshed. */
    method ExtractFieldFromQuery(query: Option<string>)
      modifies this
      ensures query.None? || query.value == [] ==>
        extractedFieldName == "__typename" && extractedFieldCall.None? && extractedMutationName.None? &&
        extractedOperationType == old(extractedOperationType)
      ensures query.Some? && query.value != [] ==>
        var q := query.value;
        extractedOperationType == OperationTypeOf(q) &&
        extractedFieldName == (if FieldNameOf(q).Some? then FieldNameOf(q).value else old(extractedFieldName)) &&
        extractedMutationName ==
          (if Find(FieldPattern, q).Some? && OperationTypeOf(q) == "mutation" then Find(FieldPattern, q)
           else old(extractedMutationName)) &&
        extractedFieldCall == FieldCallOf(q)
      ensures currentAttackMode == old(currentAttackMode) && payload == old(payload) && status == old(status)
      ensures aliasCount == old(aliasCount) && batchCount == old(batchCount) && fieldDupCount == old(fieldDupCount)
      ensures directiveCount == old(directiveCount) && depthCount == old(depthCount) && fragmentCount == old(fragmentCount)
    {
      if query.None? || query.value == [] {
        extractedFieldName := "__typename";
        extractedFieldCall := None;
        extractedMutationName := None;
        return;
      }
      var q := query.value;
      extractedOperationType := OperationTypeOf(q);
      var full := Find(FieldPattern, q);
      if full.Some? {
        extractedFieldName := full.value;
        if extractedOperationType == "mutation" {
          extractedMutationName := Some(extractedFieldName);
        }
      } else {
        var simple := Find(SimplePattern, q);
        if simple.Some? {
          extractedFieldName := simple.value;
        }
      }
      extractedFieldCall := ExtractFullFieldCall(query);
    }

    /** `applyAliasOverloading`: the extracted call (or, without one, the
        field name) under `aliasCount` aliases. */
    method ApplyAliasOverloading()
      modifies this
      ensures payload == AliasOverloadText(old(extractedOperationType),
        if old(extractedFieldCall).Some? then old(extractedFieldCall).value else old(extractedFieldName),
        old(aliasCount))
      ensures status == "Alias Overloading: " + IntToString(old(aliasCount)) + " aliases"
      ensures currentAttackMode == "query"
      ensures extractedFieldName == old(extractedFieldName) && extractedFieldCall == old(extractedFieldCall)
      ensures extractedOperationType == old(extractedOperationType) && extractedMutationName == old(extractedMutationName)
      ensures aliasCount == old(aliasCount) && batchCount == old(batchCount) && fieldDupCount == old(fieldDupCount)
      ensures directiveCount == old(directiveCount) && depthCount == old(depthCount) && fragmentCount == old(fragmentCount)
    {
      currentAttackMode := "query";
      var fieldToUse := if extractedFieldCall.Some? then extractedFieldCall.value else extractedFieldName;
      payload := AliasOverload(extractedOperationType, fieldToUse, aliasCount);
      status := "Alias Overloading: " + IntToString(aliasCount) + " aliases";
    }

    /** `applyWidthProbe`: `width` aliases of `__typename`. */
    method ApplyWidthProbe(width: int)
      modifies this
      ensures payload == WidthProbeText(width)
      ensures status == "Width Probe: " + IntToString(width) + " aliases - check if server rejects"
      ensures currentAttackMode == "query"
      ensures extractedFieldName == old(extractedFieldName) && extractedFieldCall == old(extractedFieldCall)
      ensures extractedOperationType == old(extractedOperationType) && extractedMutationName == old(extractedMutationName)
      ensures aliasCount == old(aliasCount) && batchCount == old(batchCount) && fieldDupCount == old(fieldDupCount)
      ensures directiveCount == old(directiveCount) && depthCount == old(depthCount) && fragmentCount == old(fragmentCount)
    {
      currentAttackMode := "query";
      payload := WidthProbe(width);
      status := "Width Probe: " + IntToString(width) + " aliases - check if server rejects";
    }

    /** `applyDepthProbe`: `types { fields { type { ... } } }` nested `depth`
        times under `__schema`; every `indent.substring(2)` cuts two blanks
        off an indentation at least that long. */
    method ApplyDepthProbe(depth: int)
      modifies this
      ensures payload == DepthProbeText(depth)
      ensures status == "Depth Probe: " + IntToString(depth) + " levels - check if server rejects"
      ensures currentAttackMode == "query"
      ensures extractedFieldName == old(extractedFieldName) && extractedFieldCall == old(extractedFieldCall)
      ensures extractedOperationType == old(extractedOperationType) && extractedMutationName == old(extractedMutationName)
      ensures aliasCount == old(aliasCount) && batchCount == old(batchCount) && fieldDupCount == old(fieldDupCount)
      ensures directiveCount == old(directiveCount) && depthCount == old(depthCount) && fragmentCount == old(fragmentCount)
    {
      currentAttackMode := "query";
      var sb := DepthOpening(depth);
      sb := DepthClosing(sb, Times(depth));
      payload := sb;
      status := "Depth Probe: " + IntToString(depth) + " levels - check if server rejects";
    }
  }
}
