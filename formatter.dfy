/**
  The textual rendering of goals: `rel(a,b)` for a literal, ` & ` between
  the literals of a conjunct and ` | ` between conjuncts.
*/
module Formatter {
  import opened Outcomes
  import opened Parser
  import opened LiteralSets
  import opened Interpreter

  /** JavaScript's `Array.prototype.join`: the parts with `sep` between neighbours. */
  function Join(parts: seq<string>, sep: string): string
  {
    if parts == [] then ""
    else if |parts| == 1 then parts[0]
    else parts[0] + sep + Join(parts[1..], sep)
  }

  function TotalLength(parts: seq<string>): nat
  {
    if parts == [] then 0 else |parts[0]| + TotalLength(parts[1..])
  }

  /** A join holds every part once and one separator between each pair of neighbours. */
  lemma {:induction false} JoinLength(parts: seq<string>, sep: string)
    requires parts != []
    ensures |Join(parts, sep)| == TotalLength(parts) + (|parts| - 1) * |sep|
  {
    if |parts| > 1 {
      JoinLength(parts[1..], sep);
      assert TotalLength(parts[1..][1..]) == TotalLength(parts[2..]) by {
        assert parts[1..][1..] == parts[2..];
      }
    } else {
      assert parts[1..] == [];
    }
  }

  function LiteralToString(lit: Literal): string {
    (if lit.pol then "" else "-") + lit.rel + "(" + Join(lit.args, ",") + ")"
  }

  /** The rendering of each literal of a conjunct, in order (the inner `map`). */
  function LiteralStrings(c: Conjunct): (parts: seq<string>)
    ensures |parts| == |c| && forall i :: 0 <= i < |c| ==> parts[i] == LiteralToString(c[i])
  {
    seq(|c|, i requires 0 <= i < |c| => LiteralToString(c[i]))
  }

  function ConjunctToString(c: Conjunct): string {
    Join(LiteralStrings(c), " & ")
  }

  /** The rendering of each conjunct of a goal, in order (the outer `map`). */
  function ConjunctStrings(g: Goal): (parts: seq<string>)
    ensures |parts| == |g| && forall i :: 0 <= i < |g| ==> parts[i] == ConjunctToString(g[i])
  {
    seq(|g|, i requires 0 <= i < |g| => ConjunctToString(g[i]))
  }

  function InterpretationToString(res: Interpretation): string {
    Join(ConjunctStrings(res.intp), " | ")
  }

  /** The pieces of `s` between occurrences of `c`: `String.prototype.split` with a one-character separator. */
  function Split(s: string, c: char): (pieces: seq<string>)
    ensures |pieces| >= 1
    decreases |s|
  {
    if s == [] then [""]
    else if s[0] == c then [""] + Split(s[1..], c)
    else
      var rest := Split(s[1..], c);
      [[s[0]] + rest[0]] + rest[1..]
  }

  lemma {:induction false} SplitWithout(p: string, c: char)
    requires c !in p
    ensures Split(p, c) == [p]
    decreases |p|
  {
    if p != [] {
      SplitWithout(p[1..], c);
      assert [p[0]] + p[1..] == p;
    }
  }

  lemma {:induction false} SplitAfterPiece(p: string, c: char, t: string)
    requires c !in p
    ensures Split(p + [c] + t, c) == [p] + Split(t, c)
    decreases |p|
  {
    if p == [] {
      assert p + [c] + t == [c] + t;
      assert ([c] + t)[1..] == t;
    } else {
      var s := p + [c] + t;
      assert s[1..] == p[1..] + [c] + t;
      SplitAfterPiece(p[1..], c, t);
      assert [p[0]] + p[1..] == p;
    }
  }

  /** Joining pieces free of a one-character separator can be undone by splitting at it. */
  lemma {:induction false} SplitJoin(parts: seq<string>, c: char)
    requires parts != []
    requires forall i :: 0 <= i < |parts| ==> c !in parts[i]
    ensures Split(Join(parts, [c]), c) == parts
  {
    if |parts| == 1 {
      SplitWithout(parts[0], c);
    } else {
      SplitJoin(parts[1..], c);
      SplitAfterPiece(parts[0], c, Join(parts[1..], [c]));
      assert [parts[0]] + parts[1..] == parts;
    }
  }

  /**
    A literal the rendering keeps apart from every other: a relation name
    holding no '(' and not starting with '-', and non-empty arguments
    holding no ','.
  */
  predicate Renderable(lit: Literal) {
    && '(' !in lit.rel && (lit.rel != "" ==> lit.rel[0] != '-')
    && forall i :: 0 <= i < |lit.args| ==> lit.args[i] != "" && ',' !in lit.args[i]
  }

  /** The position of the first '(' in `s`, or `|s|` when there is none. */
  function OpenParen(s: string): (k: nat)
    ensures k <= |s| && '(' !in s[..k] && (k < |s| ==> s[k] == '(')
  {
    if s == [] then 0 else if s[0] == '(' then 0 else 1 + OpenParen(s[1..])
  }

  /** Reads a rendered literal back: sign, relation up to the first '(', arguments split at ','. */
  function ParseLiteral(s: string): Option<Literal> {
    if s != "" && s[0] == '-' then ParseBody(false, s[1..]) else ParseBody(true, s)
  }

  /** Reads `rel(args)` back, the sign already read. */
  function ParseBody(pol: bool, body: string): Option<Literal> {
    var k := OpenParen(body);
    if k == |body| || body[|body| - 1] != ')' || k == |body| - 1 then None
    else
      var inner := body[k + 1..|body| - 1];
      Some(Literal(pol, body[..k], if inner == "" then [] else Split(inner, ',')))
  }

  lemma {:induction false} OpenParenAfter(rel: string, t: string)
    requires '(' !in rel
    ensures OpenParen(rel + "(" + t) == |rel|
  {
    if rel != [] {
      assert (rel + "(" + t)[1..] == rel[1..] + "(" + t;
      OpenParenAfter(rel[1..], t);
    }
  }

  lemma JoinEmpty(parts: seq<string>, sep: string)
    requires forall i :: 0 <= i < |parts| ==> parts[i] != ""
    ensures Join(parts, sep) == "" <==> parts == []
  {
    if |parts| > 1 {
      assert |Join(parts, sep)| >= |parts[0]|;
    }
  }

  /** The rendering of a relation and its arguments reads back as them. */
  lemma ParseBodyRendered(pol: bool, rel: string, args: seq<string>)
    requires Renderable(Literal(pol, rel, args))
    ensures ParseBody(pol, rel + "(" + Join(args, ",") + ")") == Some(Literal(pol, rel, args))
  {
    var inner := Join(args, ",");
    var body := rel + "(" + inner + ")";
    assert body == rel + "(" + (inner + ")");
    OpenParenAfter(rel, inner + ")");
    assert body[..|rel|] == rel;
    assert body[|rel| + 1..|body| - 1] == inner;
    JoinEmpty(args, ",");
    if inner != "" {
      SplitJoin(args, ',');
    }
  }

  /** The rendering of a literal: its sign, then `rel(args)`, which never starts with '-' when renderable. */
  lemma RenderedSign(lit: Literal)
    requires Renderable(lit)
    ensures var body := lit.rel + "(" + Join(lit.args, ",") + ")";
            LiteralToString(lit) == (if lit.pol then body else "-" + body) && body != "" && body[0] != '-'
  {
    var body := lit.rel + "(" + Join(lit.args, ",") + ")";
    if lit.rel == "" {
      assert body[0] == '(';
    } else {
      assert body[0] == lit.rel[0];
    }
  }

  /** The rendering of a renderable literal reads back as that literal. */
  lemma ParseRendered(lit: Literal)
    requires Renderable(lit)
    ensures ParseLiteral(LiteralToString(lit)) == Some(lit)
  {
    var body := lit.rel + "(" + Join(lit.args, ",") + ")";
    ParseBodyRendered(lit.pol, lit.rel, lit.args);
    RenderedSign(lit);
    if !lit.pol {
      assert ("-" + body)[1..] == body;
    }
  }

  /** Different renderable literals never render alike. */
  lemma RenderingIsInjective(a: Literal, b: Literal)
    requires Renderable(a) && Renderable(b)
    requires LiteralToString(a) == LiteralToString(b)
    ensures a == b
  {
    ParseRendered(a);
    ParseRendered(b);
  }

  /** A negative literal renders with a leading '-'; `rel(a, b)` renders as `rel(a,b)`. */
  lemma LiteralRendering(rel: string, a: string, b: string)
    ensures LiteralToString(Literal(false, rel, [a, b]))[0] == '-'
    ensures LiteralToString(Literal(true, rel, [a, b])) == rel + "(" + a + "," + b + ")"
  {
    assert Join([a, b], ",") == a + "," + b by {
      assert [a, b][1..] == [b];
    }
  }

  /** The empty goal and the goal of one empty conjunct both render as the empty string. */
  lemma EmptyGoalsRenderAlike(input: string, prs: Command)
    ensures InterpretationToString(Interpretation(input, prs, [])) == ""
    ensures InterpretationToString(Interpretation(input, prs, [[]])) == ""
  {
    assert ConjunctToString([]) == "";
    assert ConjunctStrings([[]]) == [""];
  }

  /** Joining one more part appends the separator and that part. */
  lemma {:induction false} JoinSnoc(parts: seq<string>, p: string, sep: string)
    requires parts != []
    ensures Join(parts + [p], sep) == Join(parts, sep) + sep + p
  {
    if |parts| == 1 {
      assert (parts + [p])[1..] == [p];
    } else {
      JoinSnoc(parts[1..], p, sep);
      assert (parts + [p])[1..] == parts[1..] + [p];
    }
  }

  /** A conjunct of one literal renders as that literal; one more literal adds " & " and its rendering. */
  lemma ConjunctRendering(c: Conjunct, lit: Literal)
    ensures ConjunctToString([lit]) == LiteralToString(lit)
    ensures c != [] ==> ConjunctToString(c + [lit]) == ConjunctToString(c) + " & " + LiteralToString(lit)
  {
    assert LiteralStrings([lit]) == [LiteralToString(lit)];
    assert LiteralStrings(c + [lit]) == LiteralStrings(c) + [LiteralToString(lit)];
    if c != [] {
      JoinSnoc(LiteralStrings(c), LiteralToString(lit), " & ");
    }
  }

  /** A goal of one conjunct renders as that conjunct; one more conjunct adds " | " and its rendering. */
  lemma InterpretationRendering(input: string, prs: Command, g: Goal, c: Conjunct)
    ensures InterpretationToString(Interpretation(input, prs, [c])) == ConjunctToString(c)
    ensures g != [] ==>
              InterpretationToString(Interpretation(input, prs, g + [c]))
              == InterpretationToString(Interpretation(input, prs, g)) + " | " + ConjunctToString(c)
  {
    assert ConjunctStrings([c]) == [ConjunctToString(c)];
    assert ConjunctStrings(g + [c]) == ConjunctStrings(g) + [ConjunctToString(c)];
    if g != [] {
      JoinSnoc(ConjunctStrings(g), ConjunctToString(c), " | ");
    }
  }

  /** A goal of `n` conjuncts renders with `n - 1` separators " | " around the conjuncts' renderings. */
  lemma InterpretationLength(res: Interpretation)
    requires res.intp != []
    ensures |InterpretationToString(res)| == TotalLength(ConjunctStrings(res.intp)) + (|res.intp| - 1) * 3
  {
    JoinLength(ConjunctStrings(res.intp), " | ");
  }
}
