/** The fragment of Java regular expressions the error-message classifier
    uses, as token sequences, with a backtracking matcher that tries
    alternatives in Java's order: leftmost start first, then, at each greedy
    quantifier, the longest run first. */
module Patterns {
  import opened Wrappers
  import opened Text

  predicate IsQuote(c: char) { c == '"' || c == '\'' }

  /** Java's `.` without DOTALL: anything but a line terminator. */
  predicate IsDotChar(c: char) {
    c != '\n' && c != '\r' && c != '\U{0085}' && c != '\U{2028}' && c != '\U{2029}'
  }

  /** The character classes that occur under a quantifier. */
  datatype Class =
    | WordClass   // [\w]
    | TypeClass   // [\w!\[\]]
    | SpaceClass  // \s
    | DotClass    // .

  predicate InClass(cl: Class, c: char) {
    match cl
    case WordClass => IsWordChar(c)
    case TypeClass => IsWordChar(c) || c == '!' || c == '[' || c == ']'
    case SpaceClass => IsSpace(c)
    case DotClass => IsDotChar(c)
  }

  datatype Tok =
    | Lit(text: string)          // literal text
    | AnyOf(alts: seq<string>)   // (?:a|b|...), tried in order
    | Quote                      // ["']
    | OptQuote                   // ["']?
    | OptChar(c: char)           // c?
    | Star(cl: Class)            // [cl]*, greedy, not captured
    | Cap(cl: Class)             // ([cl]+), greedy, captured

  /** The classes of the capture groups, in group order. */
  function CapClasses(p: seq<Tok>): (r: seq<Class>)
    ensures |r| <= |p|
  {
    if p == [] then []
    else (if p[0].Cap? then [p[0].cl] else []) + CapClasses(p[1..])
  }

  /** A captured text: a non-empty run of the class. */
  predicate IsRun(cl: Class, w: string) {
    |w| > 0 && forall k | 0 <= k < |w| :: InClass(cl, w[k])
  }

  /** `out` extends `caps` with one run per capture group of `p`. */
  predicate Fits(p: seq<Tok>, caps: seq<string>, out: seq<string>) {
    var cls := CapClasses(p);
    |out| == |caps| + |cls| && out[..|caps|] == caps &&
    forall k | 0 <= k < |cls| :: IsRun(cls[k], out[|caps| + k])
  }

  /** The length of the longest run of class characters starting at `i`. */
  function Run(cl: Class, s: string, i: nat): (n: nat)
    requires i <= |s|
    ensures i + n <= |s|
    ensures forall k | i <= k < i + n :: InClass(cl, s[k])
    ensures i + n == |s| || !InClass(cl, s[i + n])
    decreases |s| - i
  {
    if i < |s| && InClass(cl, s[i]) then 1 + Run(cl, s, i + 1) else 0
  }

  /** The captures of the first way `p` matches `s` from index `i` onwards
      (Java's backtracking order), appended to `caps`; None when there is none. */
  function Match(p: seq<Tok>, s: string, i: nat, caps: seq<string>): (r: Option<seq<string>>)
    requires i <= |s|
    ensures r.Some? ==> Fits(p, caps, r.value)
    decreases |p|, 1, 0
  {
    if p == [] then Some(caps)
    else
      var rest := p[1..];
      match p[0]
      case Lit(t) =>
        if StartsAt(s, i, t) then Match(rest, s, i + |t|, caps) else None
      case AnyOf(alts) =>
        TryAlts(rest, s, i, alts, caps)
      case Quote =>
        if i < |s| && IsQuote(s[i]) then Match(rest, s, i + 1, caps) else None
      case OptQuote =>
        if i < |s| && IsQuote(s[i]) then
          var taken := Match(rest, s, i + 1, caps);
          if taken.Some? then taken else Match(rest, s, i, caps)
        else Match(rest, s, i, caps)
      case OptChar(c) =>
        if i < |s| && s[i] == c then
          var taken := Match(rest, s, i + 1, caps);
          if taken.Some? then taken else Match(rest, s, i, caps)
        else Match(rest, s, i, caps)
      case Star(cl) =>
        TryEnds(rest, s, i, i + Run(cl, s, i), i, None, caps)
      case Cap(cl) =>
        var n := Run(cl, s, i);
        if n == 0 then None
        else
          var r := TryEnds(rest, s, i, i + n, i + 1, Some(cl), caps);
          assert r.Some? ==> Fits(p, caps, r.value) by {
            if r.Some? {
              var w := s[i..i + n];
              assert CapClasses(p) == [cl] + CapClasses(rest);
              var out := r.value;
              assert out[..|caps| + 1][..|caps|] == out[..|caps|];
            }
          }
          r
  }

  /** The literal alternatives of `(?:a|b|...)`, first success wins. */
  function TryAlts(rest: seq<Tok>, s: string, i: nat, alts: seq<string>, caps: seq<string>): (r: Option<seq<string>>)
    requires i <= |s|
    ensures r.Some? ==> Fits(rest, caps, r.value)
    decreases |rest| + 1, 0, |alts|
  {
    if alts == [] then None
    else
      var first := if StartsAt(s, i, alts[0]) then Match(rest, s, i + |alts[0]|, caps) else None;
      if first.Some? then first else TryAlts(rest, s, i, alts[1..], caps)
  }

  /** A greedy quantifier that may end anywhere from `hi` down to `lo`:
      tries the continuation after each end, longest first. With `cap` set,
      the consumed text `s[start..end]` is captured. */
  function TryEnds(rest: seq<Tok>, s: string, start: nat, hi: nat, lo: nat, cap: Option<Class>,
                   caps: seq<string>): (r: Option<seq<string>>)
    requires start <= lo <= hi <= |s|
    requires forall k | start <= k < hi :: cap.Some? ==> InClass(cap.value, s[k])
    requires cap.Some? ==> start < lo
    ensures r.Some? && cap.None? ==> Fits(rest, caps, r.value)
    ensures r.Some? && cap.Some? ==> exists w :: IsRun(cap.value, w) && Fits(rest, caps + [w], r.value)
    decreases |rest| + 1, 0, hi
  {
    var caps' := if cap.Some? then caps + [s[start..hi]] else caps;
    var r := Match(rest, s, hi, caps');
    if r.Some? then r
    else if hi == lo then None
    else TryEnds(rest, s, start, hi - 1, lo, cap, caps)
  }

  /** `p` matches somewhere starting at `j`. */
  predicate MatchesAt(p: seq<Tok>, s: string, j: int) {
    0 <= j <= |s| && Match(p, s, j, []).Some?
  }

  /** `Matcher.find()`: the captures of the match at the leftmost start. */
  function FindFrom(p: seq<Tok>, s: string, i: nat): (r: Option<seq<string>>)
    requires i <= |s|
    ensures r.Some? ==> Fits(p, [], r.value)
    ensures r.None? <==> forall j | i <= j :: !MatchesAt(p, s, j)
    decreases |s| - i
  {
    var m := Match(p, s, i, []);
    if m.Some? then
      assert MatchesAt(p, s, i);
      m
    else if i == |s| then None
    else FindFrom(p, s, i + 1)
  }

  function Find(p: seq<Tok>, s: string): (r: Option<seq<string>>)
    ensures r.Some? ==> Fits(p, [], r.value)
    ensures r.None? <==> forall j :: !MatchesAt(p, s, j)
  {
    FindFrom(p, s, 0)
  }

  /** A match at the start of the text is the one `find` reports. */
  lemma FindAtStart(p: seq<Tok>, s: string, caps: seq<string>)
    requires Match(p, s, 0, []) == Some(caps)
    ensures Find(p, s) == Some(caps)
  {
  }

  /** Whatever matches a pattern also matches every prefix of it, from the same start. */
  lemma {:induction false} MatchPrefix(p: seq<Tok>, q: seq<Tok>, s: string, i: nat, caps: seq<string>)
    requires i <= |s|
    requires Match(p + q, s, i, caps).Some?
    ensures Match(p, s, i, caps).Some?
    decreases |p|, 1, 0
  {
    if p != [] {
      var rest := p[1..];
      assert (p + q)[0] == p[0];
      assert (p + q)[1..] == rest + q;
      match p[0]
      case Lit(t) =>
        MatchPrefix(rest, q, s, i + |t|, caps);
      case AnyOf(alts) =>
        TryAltsPrefix(rest, q, s, i, alts, caps);
      case Quote =>
        MatchPrefix(rest, q, s, i + 1, caps);
      case OptQuote =>
        if i < |s| && IsQuote(s[i]) && Match(rest + q, s, i + 1, caps).Some? {
          MatchPrefix(rest, q, s, i + 1, caps);
        } else {
          MatchPrefix(rest, q, s, i, caps);
        }
      case OptChar(c) =>
        if i < |s| && s[i] == c && Match(rest + q, s, i + 1, caps).Some? {
          MatchPrefix(rest, q, s, i + 1, caps);
        } else {
          MatchPrefix(rest, q, s, i, caps);
        }
      case Star(cl) =>
        TryEndsPrefix(rest, q, s, i, i + Run(cl, s, i), i, None, caps);
      case Cap(cl) =>
        TryEndsPrefix(rest, q, s, i, i + Run(cl, s, i), i + 1, Some(cl), caps);
    }
  }

  lemma {:induction false} TryAltsPrefix(rest: seq<Tok>, q: seq<Tok>, s: string, i: nat, alts: seq<string>, caps: seq<string>)
    requires i <= |s|
    requires TryAlts(rest + q, s, i, alts, caps).Some?
    ensures TryAlts(rest, s, i, alts, caps).Some?
    decreases |rest| + 1, 0, |alts|
  {
    if StartsAt(s, i, alts[0]) && Match(rest + q, s, i + |alts[0]|, caps).Some? {
      MatchPrefix(rest, q, s, i + |alts[0]|, caps);
    } else {
      TryAltsPrefix(rest, q, s, i, alts[1..], caps);
    }
  }

  lemma {:induction false} TryEndsPrefix(rest: seq<Tok>, q: seq<Tok>, s: string, start: nat, hi: nat, lo: nat,
                                         cap: Option<Class>, caps: seq<string>)
    requires start <= lo <= hi <= |s|
    requires forall k | start <= k < hi :: cap.Some? ==> InClass(cap.value, s[k])
    requires cap.Some? ==> start < lo
    requires TryEnds(rest + q, s, start, hi, lo, cap, caps).Some?
    ensures TryEnds(rest, s, start, hi, lo, cap, caps).Some?
    decreases |rest| + 1, 0, hi
  {
    var caps' := if cap.Some? then caps + [s[start..hi]] else caps;
    if Match(rest + q, s, hi, caps').Some? {
      MatchPrefix(rest, q, s, hi, caps');
    } else {
      TryEndsPrefix(rest, q, s, start, hi - 1, lo, cap, caps);
    }
  }

  /** So a message some pattern finds is also found by every prefix of that pattern. */
  lemma FindPrefix(p: seq<Tok>, q: seq<Tok>, s: string)
    requires Find(p + q, s).Some?
    ensures Find(p, s).Some?
  {
    var j :| MatchesAt(p + q, s, j);
    MatchPrefix(p, q, s, j, []);
    assert MatchesAt(p, s, j);
  }

  /** A literal token of a pattern that matches occurs in the text, at or after the start. */
  lemma {:induction false} LiteralOccurs(p: seq<Tok>, n: nat, s: string, i: nat, caps: seq<string>) returns (e: nat)
    requires i <= |s| && n < |p| && p[n].Lit?
    requires Match(p, s, i, caps).Some?
    ensures i <= e && StartsAt(s, e, p[n].text)
    decreases |p|, 1, 0
  {
    var rest := p[1..];
    if n == 0 {
      e := i;
    } else {
      assert rest[n - 1] == p[n];
      match p[0]
      case Lit(t) =>
        e := LiteralOccurs(rest, n - 1, s, i + |t|, caps);
      case AnyOf(alts) =>
        e := LiteralOccursAlts(rest, n - 1, s, i, alts, caps);
      case Quote =>
        e := LiteralOccurs(rest, n - 1, s, i + 1, caps);
      case OptQuote =>
        if i < |s| && IsQuote(s[i]) && Match(rest, s, i + 1, caps).Some? {
          e := LiteralOccurs(rest, n - 1, s, i + 1, caps);
        } else {
          e := LiteralOccurs(rest, n - 1, s, i, caps);
        }
      case OptChar(c) =>
        if i < |s| && s[i] == c && Match(rest, s, i + 1, caps).Some? {
          e := LiteralOccurs(rest, n - 1, s, i + 1, caps);
        } else {
          e := LiteralOccurs(rest, n - 1, s, i, caps);
        }
      case Star(cl) =>
        e := LiteralOccursEnds(rest, n - 1, s, i, i + Run(cl, s, i), i, None, caps);
      case Cap(cl) =>
        e := LiteralOccursEnds(rest, n - 1, s, i, i + Run(cl, s, i), i + 1, Some(cl), caps);
    }
  }

  lemma {:induction false} LiteralOccursAlts(rest: seq<Tok>, n: nat, s: string, i: nat, alts: seq<string>,
                                             caps: seq<string>) returns (e: nat)
    requires i <= |s| && n < |rest| && rest[n].Lit?
    requires TryAlts(rest, s, i, alts, caps).Some?
    ensures i <= e && StartsAt(s, e, rest[n].text)
    decreases |rest| + 1, 0, |alts|
  {
    if StartsAt(s, i, alts[0]) && Match(rest, s, i + |alts[0]|, caps).Some? {
      e := LiteralOccurs(rest, n, s, i + |alts[0]|, caps);
    } else {
      e := LiteralOccursAlts(rest, n, s, i, alts[1..], caps);
    }
  }

  lemma {:induction false} LiteralOccursEnds(rest: seq<Tok>, n: nat, s: string, start: nat, hi: nat, lo: nat,
                                             cap: Option<Class>, caps: seq<string>) returns (e: nat)
    requires start <= lo <= hi <= |s| && n < |rest| && rest[n].Lit?
    requires forall k | start <= k < hi :: cap.Some? ==> InClass(cap.value, s[k])
    requires cap.Some? ==> start < lo
    requires TryEnds(rest, s, start, hi, lo, cap, caps).Some?
    ensures start <= e && StartsAt(s, e, rest[n].text)
    decreases |rest| + 1, 0, hi
  {
    var caps' := if cap.Some? then caps + [s[start..hi]] else caps;
    if Match(rest, s, hi, caps').Some? {
      e := LiteralOccurs(rest, n, s, hi, caps');
    } else {
      e := LiteralOccursEnds(rest, n, s, start, hi - 1, lo, cap, caps);
    }
  }

  // Single steps of a match, for following a concrete message token by token.

  /** A literal token at `k` that the text starts with at `i` is passed over. */
  lemma LitAt(p: seq<Tok>, k: nat, s: string, i: nat, caps: seq<string>, out: seq<string>)
    requires k < |p| && p[k].Lit? && i <= |s| && StartsAt(s, i, p[k].text)
    requires Match(p[k + 1..], s, i + |p[k].text|, caps) == Some(out)
    ensures Match(p[k..], s, i, caps) == Some(out)
  {
    assert p[k..][0] == p[k] && p[k..][1..] == p[k + 1..];
  }

  /** A quote token at `k` facing a quote character is passed over. */
  lemma QuoteAt(p: seq<Tok>, k: nat, s: string, i: nat, caps: seq<string>, out: seq<string>)
    requires k < |p| && p[k] == Quote && i < |s| && IsQuote(s[i])
    requires Match(p[k + 1..], s, i + 1, caps) == Some(out)
    ensures Match(p[k..], s, i, caps) == Some(out)
  {
    assert p[k..][0] == p[k] && p[k..][1..] == p[k + 1..];
  }

  /** A capture group at `k` whose class run from `i` is `n > 0` long takes
      all of it when the rest of the pattern matches after it. */
  lemma CapAt(p: seq<Tok>, k: nat, s: string, i: nat, n: nat, caps: seq<string>, out: seq<string>)
    requires k < |p| && p[k].Cap? && 0 < n && i + n <= |s| && Run(p[k].cl, s, i) == n
    requires Match(p[k + 1..], s, i + n, caps + [s[i..i + n]]) == Some(out)
    ensures Match(p[k..], s, i, caps) == Some(out)
  {
    assert p[k..][0] == p[k] && p[k..][1..] == p[k + 1..];
  }
}
