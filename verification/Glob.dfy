/**
 The `wildcard` operator: `evalWildcard` in `src/policy-engine.ts`.

 The code turns a glob into the text of a regular expression and lets the regular expression
 engine match it. Both halves are here: the text that `Compile` builds, and what the engine makes
 of such a text (the part of ECMAScript regular expressions that these texts stay within).
 `Splits` says independently what a glob means, and `WildcardMeansSplits` connects the two.
 */
module Glob {
  import opened Prelude

  // ---------------------------------------------------------------- building the text

  /** The characters that the code escapes. */
  predicate Special(c: char) {
    c in ".+?^${}()|[]\\"
  }

  function Escape(pattern: string): string {
    if pattern == [] then []
    else (if Special(pattern[0]) then ['\\', pattern[0]] else [pattern[0]]) + Escape(pattern[1..])
  }

  function ExpandStars(s: string): string {
    if s == [] then []
    else (if s[0] == '*' then ['.', '*'] else [s[0]]) + ExpandStars(s[1..])
  }

  function Compile(pattern: string): string {
    ['^'] + ExpandStars(Escape(pattern)) + ['$']
  }

  // ---------------------------------------------------------------- reading and matching the text

  datatype Atom = Literal(c: char) | AnyRun

  /** The characters that mean something in a regular expression, unless a backslash stands before them. */
  predicate Syntax(c: char) {
    || c == '^' || c == '$' || c == '\\' || c == '.' || c == '*' || c == '+' || c == '?'
    || c == '(' || c == ')' || c == '[' || c == ']' || c == '{' || c == '}' || c == '|'
  }

  /** The body of a regular expression made of literals, escaped literals and `.*`; None if it is anything else. */
  function ParseBody(s: string): Option<seq<Atom>>
    decreases |s|
  {
    if s == [] then Some([])
    else if s[0] == '\\' then
      if |s| >= 2 && Syntax(s[1]) then Before(Literal(s[1]), ParseBody(s[2..])) else None
    else if s[0] == '.' then
      if |s| >= 2 && s[1] == '*' then Before(AnyRun, ParseBody(s[2..])) else None
    else if Syntax(s[0]) then None
    else Before(Literal(s[0]), ParseBody(s[1..]))
  }

  function Before(a: Atom, rest: Option<seq<Atom>>): Option<seq<Atom>> {
    match rest
    case Some(atoms) => Some([a] + atoms)
    case None => None
  }

  function Parse(s: string): Option<seq<Atom>> {
    if |s| >= 2 && s[0] == '^' && s[|s| - 1] == '$' then ParseBody(s[1..|s| - 1]) else None
  }

  /** What `.` does not match. */
  predicate LineTerminator(c: char) {
    c == '\n' || c == '\r' || c == '\U{2028}' || c == '\U{2029}'
  }

  predicate OneLine(s: string) {
    forall c <- s :: !LineTerminator(c)
  }

  /** Anchored matching under the `i` flag; `fold` is the engine's case folding of one character. */
  predicate Matches(fold: char -> char, atoms: seq<Atom>, v: string)
    decreases |atoms|
  {
    if atoms == [] then v == []
    else match atoms[0]
      case Literal(c) => v != [] && fold(v[0]) == fold(c) && Matches(fold, atoms[1..], v[1..])
      case AnyRun => exists k :: 0 <= k <= |v| && OneLine(v[..k]) && Matches(fold, atoms[1..], v[k..])
  }

  /** `new RegExp(text, 'i').test(value)`, with the catch for a text that does not compile. */
  predicate EvalWildcard(fold: char -> char, value: string, pattern: string) {
    match Parse(Compile(pattern))
    case Some(atoms) => Matches(fold, atoms, value)
    case None => false
  }

  // ---------------------------------------------------------------- what a glob means

  /** The literal pieces of a pattern, cut at its stars. */
  function Pieces(pattern: string): (r: seq<string>)
    ensures |r| >= 1
  {
    if pattern == [] then [[]]
    else
      var rest := Pieces(pattern[1..]);
      if pattern[0] == '*' then [[]] + rest else [[pattern[0]] + rest[0]] + rest[1..]
  }

  /** parts[0] gaps[0] parts[1] gaps[1] ... parts[n] */
  function Interleave(parts: seq<string>, gaps: seq<string>): string
    requires |parts| == |gaps| + 1
    decreases |gaps|
  {
    if gaps == [] then parts[0] else parts[0] + gaps[0] + Interleave(parts[1..], gaps[1..])
  }

  predicate EqualFolded(fold: char -> char, s: string, t: string) {
    |s| == |t| && forall i :: 0 <= i < |s| ==> fold(s[i]) == fold(t[i])
  }

  /** `v` is cut into the pieces, up to case, with a gap between each two. */
  ghost predicate Cuts(fold: char -> char, pieces: seq<string>, v: string, parts: seq<string>, gaps: seq<string>) {
    && |parts| == |pieces| == |gaps| + 1
    && v == Interleave(parts, gaps)
    && (forall i :: 0 <= i < |pieces| ==> EqualFolded(fold, parts[i], pieces[i]))
  }

  ghost predicate Splits(fold: char -> char, pieces: seq<string>, v: string, parts: seq<string>, gaps: seq<string>) {
    Cuts(fold, pieces, v, parts, gaps) && forall g <- gaps :: OneLine(g)
  }

  // ---------------------------------------------------------------- the text says what the pattern says

  function Atoms(pattern: string): seq<Atom> {
    if pattern == [] then []
    else [if pattern[0] == '*' then AnyRun else Literal(pattern[0])] + Atoms(pattern[1..])
  }

  /** How one character of the pattern is written. */
  function Written(c: char): string {
    if Special(c) then ['\\', c] else if c == '*' then ['.', '*'] else [c]
  }

  lemma StarIsNotSpecial()
    ensures !Special('*')
  {
  }

  lemma ExpandFirst(c: char, rest: string)
    ensures ExpandStars([c] + rest) == (if c == '*' then ['.', '*'] else [c]) + ExpandStars(rest)
  {
    assert ([c] + rest)[1..] == rest;
  }

  lemma EscapeFirst(pattern: string)
    requires pattern != []
    ensures Escape(pattern) == (if Special(pattern[0]) then ['\\', pattern[0]] else [pattern[0]]) + Escape(pattern[1..])
  {
    hide Special;
  }

  lemma ExpandEscaped(c: char, rest: string)
    requires c != '*'
    ensures ExpandStars(['\\', c] + rest) == ['\\', c] + ExpandStars(rest)
  {
    assert ['\\', c] + rest == ['\\'] + ([c] + rest);
    hide ExpandStars;
    ExpandFirst(c, rest);
    ExpandFirst('\\', [c] + rest);
    assert ['\\'] + ([c] + ExpandStars(rest)) == ['\\', c] + ExpandStars(rest);
  }

  lemma WrittenFirst(pattern: string)
    requires pattern != []
    ensures ExpandStars(Escape(pattern)) == Written(pattern[0]) + ExpandStars(Escape(pattern[1..]))
  {
    hide Special, ExpandStars, Escape;
    var c, rest := pattern[0], Escape(pattern[1..]);
    EscapeFirst(pattern);
    StarIsNotSpecial();
    if Special(c) { ExpandEscaped(c, rest); } else { ExpandFirst(c, rest); }
  }

  lemma ReadFirst(c: char, tail: string)
    ensures ParseBody(Written(c) + tail) == Before(if c == '*' then AnyRun else Literal(c), ParseBody(tail))
  {
    var s := Written(c) + tail;
    assert if Special(c) || c == '*' then s[2..] == tail else s[1..] == tail;
  }

  /** Round trip: reading the compiled text gives back the pattern's own literals and stars. */
  lemma {:induction false} ParseCompiled(pattern: string)
    ensures ParseBody(ExpandStars(Escape(pattern))) == Some(Atoms(pattern))
  {
    if pattern != [] {
      hide ParseBody, ExpandStars, Escape, Special;
      ParseCompiled(pattern[1..]);
      WrittenFirst(pattern);
      ReadFirst(pattern[0], ExpandStars(Escape(pattern[1..])));
    }
  }

  lemma CompiledTextParses(pattern: string)
    ensures Parse(Compile(pattern)) == Some(Atoms(pattern))
  {
    var body := ExpandStars(Escape(pattern));
    assert Compile(pattern)[1..|Compile(pattern)| - 1] == body;
    ParseCompiled(pattern);
  }

  // ---------------------------------------------------------------- matching is splitting

  /** A gap in front of a cut value is a star in front of the pattern. */
  lemma SplitsAfterStar(fold: char -> char, pattern: string, v: string, k: nat, ps: seq<string>, gs: seq<string>)
    requires pattern != [] && pattern[0] == '*' && k <= |v| && OneLine(v[..k])
    requires Splits(fold, Pieces(pattern[1..]), v[k..], ps, gs)
    ensures Splits(fold, Pieces(pattern), v, [[]] + ps, [v[..k]] + gs)
  {
    assert EqualFolded(fold, [], []);
    hide EqualFolded, OneLine;
    var pieces, rest, parts, gaps := Pieces(pattern), Pieces(pattern[1..]), [[]] + ps, [v[..k]] + gs;
    assert pieces == [[]] + rest;
    hide Pieces;
    assert v == Interleave(parts, gaps) by {
      assert parts[1..] == ps && gaps[1..] == gs && v == v[..k] + v[k..];
    }
    hide Interleave;
    forall i | 0 <= i < |pieces| ensures EqualFolded(fold, parts[i], pieces[i]) {
      if i > 0 { assert parts[i] == ps[i - 1] && pieces[i] == rest[i - 1]; }
    }
  }

  lemma SplitsAfterLiteral(fold: char -> char, pattern: string, v: string, ps: seq<string>, gs: seq<string>)
    requires pattern != [] && pattern[0] != '*' && v != [] && fold(v[0]) == fold(pattern[0])
    requires Splits(fold, Pieces(pattern[1..]), v[1..], ps, gs)
    ensures Splits(fold, Pieces(pattern), v, [[v[0]] + ps[0]] + ps[1..], gs)
  {
    var parts := [[v[0]] + ps[0]] + ps[1..];
    assert parts[1..] == ps[1..];
    assert Interleave(parts, gs) == [v[0]] + Interleave(ps, gs);
    assert v == [v[0]] + v[1..];
  }

  lemma {:induction false} MatchSplits(fold: char -> char, pattern: string, v: string)
    returns (parts: seq<string>, gaps: seq<string>)
    requires Matches(fold, Atoms(pattern), v)
    ensures Splits(fold, Pieces(pattern), v, parts, gaps)
  {
    if pattern == [] {
      parts, gaps := [[]], [];
    } else {
      var atoms := Atoms(pattern);
      assert atoms[1..] == Atoms(pattern[1..]);
      if pattern[0] == '*' {
        var k :| 0 <= k <= |v| && OneLine(v[..k]) && Matches(fold, atoms[1..], v[k..]);
        hide Splits, Pieces, Matches;
        var ps, gs := MatchSplits(fold, pattern[1..], v[k..]);
        SplitsAfterStar(fold, pattern, v, k, ps, gs);
        parts, gaps := [[]] + ps, [v[..k]] + gs;
      } else {
        var ps, gs := MatchSplits(fold, pattern[1..], v[1..]);
        SplitsAfterLiteral(fold, pattern, v, ps, gs);
        parts, gaps := [[v[0]] + ps[0]] + ps[1..], gs;
      }
    }
  }

  lemma {:induction false} SplitMatches(fold: char -> char, pattern: string, v: string, parts: seq<string>,
                                        gaps: seq<string>)
    requires Splits(fold, Pieces(pattern), v, parts, gaps)
    ensures Matches(fold, Atoms(pattern), v)
  {
    if pattern != [] {
      var atoms := Atoms(pattern);
      var pieces := Pieces(pattern);
      assert atoms[1..] == Atoms(pattern[1..]);
      if pattern[0] == '*' {
        assert EqualFolded(fold, parts[0], pieces[0]);
        assert gaps[0] in gaps;
        var k := |gaps[0]|;
        assert v[..k] == gaps[0] && v[k..] == Interleave(parts[1..], gaps[1..]);
        forall i | 0 <= i < |pieces| - 1 ensures EqualFolded(fold, parts[1..][i], pieces[1..][i]) {
          assert EqualFolded(fold, parts[i + 1], pieces[i + 1]);
        }
        SplitMatches(fold, pattern[1..], v[k..], parts[1..], gaps[1..]);
      } else {
        var rest := Pieces(pattern[1..]);
        assert EqualFolded(fold, parts[0], [pattern[0]] + rest[0]);
        var ps := [parts[0][1..]] + parts[1..];
        assert ps[1..] == parts[1..];
        assert v[1..] == Interleave(ps, gaps);
        assert fold(parts[0][0]) == fold(pieces[0][0]);
        forall i | 0 <= i < |rest| ensures EqualFolded(fold, ps[i], rest[i]) {
          assert EqualFolded(fold, parts[i], pieces[i]);
          if i == 0 {
            forall j | 0 <= j < |rest[0]| ensures fold(ps[0][j]) == fold(rest[0][j]) {
              assert fold(parts[0][j + 1]) == fold(pieces[0][j + 1]);
            }
          }
        }
        SplitMatches(fold, pattern[1..], v[1..], ps, gaps);
      }
    }
  }

  /**
   Compiling a glob preserves its meaning: for every pattern and value, the regular expression
   matches if and only if the value is cut into the pattern's literal pieces, up to case, with one
   gap per star and no line terminator in a gap.
   */
  lemma WildcardMeansSplits(fold: char -> char, value: string, pattern: string)
    ensures EvalWildcard(fold, value, pattern)
            <==> exists parts, gaps :: Splits(fold, Pieces(pattern), value, parts, gaps)
  {
    CompiledTextParses(pattern);
    if EvalWildcard(fold, value, pattern) {
      var parts, gaps := MatchSplits(fold, pattern, value);
      assert Splits(fold, Pieces(pattern), value, parts, gaps);
    }
    forall parts, gaps | Splits(fold, Pieces(pattern), value, parts, gaps)
      ensures Matches(fold, Atoms(pattern), value)
    {
      SplitMatches(fold, pattern, value, parts, gaps);
    }
    assert EvalWildcard(fold, value, pattern) <==> Matches(fold, Atoms(pattern), value);
    if Matches(fold, Atoms(pattern), value) {
      assert exists parts, gaps :: Splits(fold, Pieces(pattern), value, parts, gaps);
    }
  }

  lemma {:induction false} GapsAreInside(parts: seq<string>, gaps: seq<string>, v: string)
    requires |parts| == |gaps| + 1 && v == Interleave(parts, gaps) && OneLine(v)
    ensures forall g <- gaps :: OneLine(g)
    decreases |gaps|
  {
    if gaps != [] {
      forall c | c in gaps[0] ensures c in v {}
      forall c | c in Interleave(parts[1..], gaps[1..]) ensures c in v {}
      GapsAreInside(parts[1..], gaps[1..], Interleave(parts[1..], gaps[1..]));
      forall g | g in gaps ensures OneLine(g) {
        assert g == gaps[0] || g in gaps[1..];
      }
    }
  }

  /** For a value without line terminators the gaps are arbitrary. */
  lemma WildcardOnOneLine(fold: char -> char, value: string, pattern: string)
    requires OneLine(value)
    ensures EvalWildcard(fold, value, pattern)
            <==> exists parts, gaps :: Cuts(fold, Pieces(pattern), value, parts, gaps)
  {
    WildcardMeansSplits(fold, value, pattern);
    forall parts, gaps | Cuts(fold, Pieces(pattern), value, parts, gaps)
      ensures Splits(fold, Pieces(pattern), value, parts, gaps)
    {
      GapsAreInside(parts, gaps, value);
    }
    assert forall parts, gaps :: Splits(fold, Pieces(pattern), value, parts, gaps) ==>
      Cuts(fold, Pieces(pattern), value, parts, gaps);
  }

  /** A star does not reach across a line terminator. */
  lemma StarStopsAtLineTerminators(fold: char -> char)
    ensures !EvalWildcard(fold, "\n", "*") && EvalWildcard(fold, "", "*")
  {
    CompiledTextParses("*");
    assert Atoms("*") == [AnyRun] && Atoms("*")[1..] == [];
    assert ""[..0] == "" && ""[0..] == "" && OneLine("");
    assert Matches(fold, [], "");
    assert "\n"[0] in "\n" && LineTerminator("\n"[0]) && !OneLine("\n");
    assert "\n"[..1] == "\n" && "\n"[0..] == "\n";
  }
}
