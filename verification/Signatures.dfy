/**
 * Parameter lists as source text: rendering one and reading it back by Python's grammar for
 * parameter lists (section 8.7 of the Python Language Reference). A part of the text is a token;
 * names are identifiers, so that joining parts with commas loses nothing.
 */
module Signatures {
  import opened Options

  type Name = string
  type Value = nat

  datatype Kind = PositionalOnly | Standard | VarPositional | KeywordOnly | VarKeyword

  datatype Param = Param(name: Name, kind: Kind, default: Option<Value>)

  /** A parameter without its default, which is never rendered. */
  datatype Shape = Shape(name: Name, kind: Kind)

  datatype Token = Ident(name: Name) | Slash | Star | StarIdent(name: Name) | StarStarIdent(name: Name)

  function Order(k: Kind): nat {
    match k
    case PositionalOnly => 0
    case Standard => 1
    case VarPositional => 2
    case KeywordOnly => 3
    case VarKeyword => 4
  }

  predicate InOrder(params: seq<Param>) {
    forall i, j :: 0 <= i < j < |params| ==> Order(params[i].kind) <= Order(params[j].kind)
  }

  /** How many parameters have a kind. */
  function Count(params: seq<Param>, kind: Kind): nat {
    if params == [] then 0
    else Count(params[..|params| - 1], kind) + if params[|params| - 1].kind == kind then 1 else 0
  }

  function Shapes(params: seq<Param>): seq<Shape> {
    seq(|params|, i requires 0 <= i < |params| => Shape(params[i].name, params[i].kind))
  }

  // ----- rendering -----

  /** The section of the list being rendered: its start, or that of a kind. */
  datatype Section = Start | Of(kind: Kind)

  /** The markers between two sections, or none if the second cannot follow the first. */
  function Transition(from: Section, to: Kind): Option<seq<Token>> {
    match from
    case Start => Some(if to == KeywordOnly then [Star] else [])
    case Of(PositionalOnly) =>
      (match to
       case PositionalOnly => None
       case KeywordOnly => Some([Slash, Star])
       case _ => Some([Slash]))
    case Of(Standard) =>
      (match to
       case VarPositional => Some([])
       case KeywordOnly => Some([Star])
       case VarKeyword => Some([])
       case _ => None)
    case Of(VarPositional) =>
      (match to
       case KeywordOnly => Some([])
       case VarKeyword => Some([])
       case _ => None)
    case Of(KeywordOnly) => if to == VarKeyword then Some([]) else None
    case Of(VarKeyword) => None
  }

  function Advance(section: Section, kind: Kind): Option<seq<Token>> {
    if section == Of(kind) then Some([]) else Transition(section, kind)
  }

  function Prefixed(p: Param): Token {
    match p.kind
    case VarPositional => StarIdent(p.name)
    case VarKeyword => StarStarIdent(p.name)
    case _ => Ident(p.name)
  }

  /** What is rendered of a list before its end, and the section it ends in. */
  datatype Rendering = Rendering(section: Section, parts: seq<Token>)

  function RenderOpen(params: seq<Param>): Option<Rendering> {
    if params == [] then Some(Rendering(Start, []))
    else
      var last := params[|params| - 1];
      var before := RenderOpen(params[..|params| - 1]);
      if before.None? then None
      else
        var markers := Advance(before.value.section, last.kind);
        if markers.None? then None
        else Some(Rendering(Of(last.kind), before.value.parts + markers.value + [Prefixed(last)]))
  }

  function Closing(section: Section): seq<Token> {
    if section == Of(PositionalOnly) then [Slash] else []
  }

  function Render(params: seq<Param>): Option<seq<Token>> {
    var r := RenderOpen(params);
    if r.None? then None else Some(r.value.parts + Closing(r.value.section))
  }

  /** Render a list, part by part; none if a kind cannot follow the ones before. */
  method RenderParameters(params: seq<Param>) returns (r: Option<seq<Token>>)
    ensures r == Render(params)
    ensures r.Some? <==> InOrder(params)
  {
    RendersExactlyInOrder(params);
    var parts: seq<Token> := [];
    var section := Start;
    for i := 0 to |params|
      invariant RenderOpen(params[..i]) == Some(Rendering(section, parts))
    {
      assert params[..i + 1][..i] == params[..i];
      var markers := Advance(section, params[i].kind);
      if markers.None? {
        NoneStaysNone(params, i + 1);
        return None;
      }
      section := Of(params[i].kind);
      parts := parts + markers.value + [Prefixed(params[i])];
    }
    assert params[..|params|] == params;
    return Some(parts + Closing(section));
  }

  lemma {:induction false} NoneStaysNone(params: seq<Param>, n: nat)
    requires n <= |params| && RenderOpen(params[..n]).None?
    ensures RenderOpen(params).None?
    decreases |params|
  {
    if n < |params| {
      assert params[..|params| - 1][..n] == params[..n];
      NoneStaysNone(params[..|params| - 1], n);
    } else {
      assert params[..n] == params;
    }
  }

  /** Exactly the lists whose kinds never go back are rendered. */
  lemma {:induction false} RendersExactlyInOrder(params: seq<Param>)
    ensures Render(params).Some? <==> InOrder(params)
    ensures InOrder(params) ==>
              RenderOpen(params).value.section == if params == [] then Start else Of(params[|params| - 1].kind)
  {
    if params != [] {
      var front := params[..|params| - 1];
      RendersExactlyInOrder(front);
      assert forall i :: 0 <= i < |front| ==> front[i] == params[i];
      if InOrder(front) && front != [] && Order(front[|front| - 1].kind) <= Order(params[|params| - 1].kind) {
        forall i | 0 <= i < |front| ensures Order(params[i].kind) <= Order(params[|params| - 1].kind) {
          assert i < |front| - 1 ==> Order(front[i].kind) <= Order(front[|front| - 1].kind);
        }
      }
    }
  }

  // ----- reading a list back -----

  /**
   * A parameter list being read: before `*`, where a `/` may still make the names so far
   * positional-only; just after a bare `*`, which needs a name; after `*`; or after `**`, its end.
   */
  datatype Phase = Positional(slashed: bool) | BareStar | Keywords | Ended

  datatype Reading = Reading(phase: Phase, shapes: seq<Shape>)

  function AllPositionalOnly(shapes: seq<Shape>): seq<Shape> {
    seq(|shapes|, i requires 0 <= i < |shapes| => Shape(shapes[i].name, PositionalOnly))
  }

  function ReadToken(r: Reading, t: Token): Option<Reading> {
    match t
    case Ident(name) =>
      (match r.phase
       case Positional(_) => Some(r.(shapes := r.shapes + [Shape(name, Standard)]))
       case BareStar => Some(Reading(Keywords, r.shapes + [Shape(name, KeywordOnly)]))
       case Keywords => Some(r.(shapes := r.shapes + [Shape(name, KeywordOnly)]))
       case Ended => None)
    case Slash =>
      if r.phase == Positional(false) && r.shapes != []
      then Some(Reading(Positional(true), AllPositionalOnly(r.shapes)))
      else None
    case Star => if r.phase.Positional? then Some(r.(phase := BareStar)) else None
    case StarIdent(name) =>
      if r.phase.Positional? then Some(Reading(Keywords, r.shapes + [Shape(name, VarPositional)])) else None
    case StarStarIdent(name) =>
      if r.phase.Positional? || r.phase.Keywords? then Some(Reading(Ended, r.shapes + [Shape(name, VarKeyword)]))
      else None
  }

  function Read(tokens: seq<Token>): Option<Reading> {
    if tokens == [] then Some(Reading(Positional(false), []))
    else
      var before := Read(tokens[..|tokens| - 1]);
      if before.None? then None else ReadToken(before.value, tokens[|tokens| - 1])
  }

  function Parse(tokens: seq<Token>): Option<seq<Shape>> {
    var r := Read(tokens);
    if r.None? || r.value.phase == BareStar then None else Some(r.value.shapes)
  }

  lemma {:induction false} ReadOne(tokens: seq<Token>, t: Token)
    ensures Read(tokens + [t]) == if Read(tokens).None? then None else ReadToken(Read(tokens).value, t)
  {
    assert (tokens + [t])[..|tokens|] == tokens;
  }

  function AsStandard(shapes: seq<Shape>): seq<Shape> {
    seq(|shapes|, i requires 0 <= i < |shapes| => Shape(shapes[i].name, Standard))
  }

  /** What the parts of a list read as, before it is closed. */
  predicate ReadsAs(section: Section, shapes: seq<Shape>, r: Option<Reading>) {
    r.Some? &&
    match section
    case Start => shapes == [] && r.value == Reading(Positional(false), [])
    case Of(PositionalOnly) =>
      shapes != [] && r.value == Reading(Positional(false), AsStandard(shapes)) && AllPositionalOnly(shapes) == shapes
    case Of(Standard) => r.value.phase.Positional? && r.value.shapes == shapes
    case Of(VarKeyword) => r.value == Reading(Ended, shapes)
    case _ => r.value == Reading(Keywords, shapes)
  }

  predicate AtMostOneOfEach(params: seq<Param>) {
    Count(params, VarPositional) <= 1 && Count(params, VarKeyword) <= 1
  }

  lemma {:induction false} StandardMore(shapes: seq<Shape>, name: Name)
    ensures AsStandard(shapes) + [Shape(name, Standard)] == AsStandard(shapes + [Shape(name, PositionalOnly)])
    ensures AllPositionalOnly(AsStandard(shapes)) == AllPositionalOnly(shapes)
    ensures AllPositionalOnly(shapes + [Shape(name, PositionalOnly)])
         == AllPositionalOnly(shapes) + [Shape(name, PositionalOnly)]
  {
  }

  lemma {:induction false} ReadsUnmarked(section: Section, parts: seq<Token>, shapes: seq<Shape>, p: Param)
    requires ReadsAs(section, shapes, Read(parts)) && Advance(section, p.kind) == Some([])
    requires section != Of(p.kind) || (p.kind != VarPositional && p.kind != VarKeyword)
    ensures ReadsAs(Of(p.kind), shapes + [Shape(p.name, p.kind)], Read(parts + [Prefixed(p)]))
  {
    ReadOne(parts, Prefixed(p));
    StandardMore(shapes, p.name);
  }

  lemma {:induction false} ReadsSlash(parts: seq<Token>, shapes: seq<Shape>)
    requires ReadsAs(Of(PositionalOnly), shapes, Read(parts))
    ensures Read(parts + [Slash]) == Some(Reading(Positional(true), shapes))
  {
    ReadOne(parts, Slash);
    assert AllPositionalOnly(AsStandard(shapes)) == AllPositionalOnly(shapes);
  }

  lemma {:induction false} ReadsMarked(section: Section, parts: seq<Token>, shapes: seq<Shape>, p: Param, marker: Token)
    requires ReadsAs(section, shapes, Read(parts)) && Advance(section, p.kind) == Some([marker])
    ensures ReadsAs(Of(p.kind), shapes + [Shape(p.name, p.kind)], Read(parts + [marker] + [Prefixed(p)]))
  {
    if marker == Slash {
      ReadsSlash(parts, shapes);
    } else {
      ReadOne(parts, marker);
    }
    ReadOne(parts + [marker], Prefixed(p));
  }

  lemma {:induction false} ReadsTwiceMarked(parts: seq<Token>, shapes: seq<Shape>, p: Param)
    requires ReadsAs(Of(PositionalOnly), shapes, Read(parts)) && p.kind == KeywordOnly
    ensures ReadsAs(Of(KeywordOnly), shapes + [Shape(p.name, p.kind)], Read(parts + [Slash] + [Star] + [Prefixed(p)]))
  {
    ReadsSlash(parts, shapes);
    ReadOne(parts + [Slash], Star);
    ReadOne(parts + [Slash] + [Star], Prefixed(p));
  }

  /** Reading one more part of a list gives one more parameter, unless it is a second `*` or `**` one. */
  lemma {:induction false} ReadsOneMore(section: Section, parts: seq<Token>, shapes: seq<Shape>, p: Param)
    requires ReadsAs(section, shapes, Read(parts)) && Advance(section, p.kind).Some?
    requires section != Of(p.kind) || (p.kind != VarPositional && p.kind != VarKeyword)
    ensures ReadsAs(Of(p.kind), shapes + [Shape(p.name, p.kind)],
                    Read(parts + Advance(section, p.kind).value + [Prefixed(p)]))
  {
    var markers := Advance(section, p.kind).value;
    if markers == [] {
      ReadsUnmarked(section, parts, shapes, p);
      assert parts + markers == parts;
    } else if |markers| == 1 {
      assert markers == [markers[0]];
      ReadsMarked(section, parts, shapes, p, markers[0]);
    } else {
      ReadsTwiceMarked(parts, shapes, p);
      assert parts + markers == parts + [Slash] + [Star];
    }
  }

  /** A second `*` or `**` parameter cannot be read. */
  lemma {:induction false} SecondIsNotRead(parts: seq<Token>, shapes: seq<Shape>, p: Param)
    requires p.kind == VarPositional || p.kind == VarKeyword
    requires ReadsAs(Of(p.kind), shapes, Read(parts))
    ensures Read(parts + Advance(Of(p.kind), p.kind).value + [Prefixed(p)]).None?
  {
    assert parts + Advance(Of(p.kind), p.kind).value == parts;
    ReadOne(parts, Prefixed(p));
  }

  lemma {:induction false} CountMeans(params: seq<Param>, kind: Kind)
    ensures Count(params, kind) > 0 <==> exists i :: 0 <= i < |params| && params[i].kind == kind
  {
    if params != [] {
      CountMeans(params[..|params| - 1], kind);
      assert params[|params| - 1].kind == kind ==> exists i :: 0 <= i < |params| && params[i].kind == kind;
    }
  }

  /** A kind has been met in an ordered list exactly when the list is in its section, or past it. */
  lemma {:induction false} MetInOrder(params: seq<Param>, p: Param)
    requires InOrder(params + [p])
    ensures Count(params, p.kind) > 0 <==> params != [] && params[|params| - 1].kind == p.kind
  {
    CountMeans(params, p.kind);
    var all := params + [p];
    if params != [] {
      assert Order(all[|params| - 1].kind) <= Order(all[|params|].kind);
      forall i | 0 <= i < |params| && params[i].kind == p.kind ensures params[|params| - 1].kind == p.kind {
        assert Order(all[i].kind) <= Order(all[|params| - 1].kind) || i == |params| - 1;
      }
    }
  }

  /** What a list's parts read as: its own parameters, exactly when no kind that may not be repeated is. */
  lemma {:induction false} PartsReadBack(params: seq<Param>)
    requires InOrder(params)
    ensures RenderOpen(params).Some?
    ensures var r := RenderOpen(params).value;
            if AtMostOneOfEach(params) then ReadsAs(r.section, Shapes(params), Read(r.parts)) else Read(r.parts).None?
  {
    RendersExactlyInOrder(params);
    if params != [] {
      var front, last := params[..|params| - 1], params[|params| - 1];
      assert params == front + [last];
      assert InOrder(front);
      PartsReadBack(front);
      RendersExactlyInOrder(front);
      MetInOrder(front, last);
      PartReadsBack(front, last, RenderOpen(front).value);
    }
  }

  /** One step of the above: the parts before read as they do, and the section is that of the last. */
  lemma {:induction false} PartReadsBack(front: seq<Param>, last: Param, r: Rendering)
    requires AtMostOneOfEach(front) ==> ReadsAs(r.section, Shapes(front), Read(r.parts))
    requires !AtMostOneOfEach(front) ==> Read(r.parts).None?
    requires r.section == if front == [] then Start else Of(front[|front| - 1].kind)
    requires Count(front, last.kind) > 0 <==> front != [] && front[|front| - 1].kind == last.kind
    requires Advance(r.section, last.kind).Some?
    ensures var all := front + [last];
            var read := Read(r.parts + Advance(r.section, last.kind).value + [Prefixed(last)]);
            if AtMostOneOfEach(all) then ReadsAs(Of(last.kind), Shapes(all), read) else read.None?
  {
    var all := front + [last];
    assert all[..|front|] == front;
    assert Shapes(all) == Shapes(front) + [Shape(last.name, last.kind)];
    var markers := Advance(r.section, last.kind).value;
    if !AtMostOneOfEach(front) {
      NoneIsNotRead(r.parts, markers + [Prefixed(last)]);
      assert r.parts + markers + [Prefixed(last)] == r.parts + (markers + [Prefixed(last)]);
    } else if r.section == Of(last.kind) && (last.kind == VarPositional || last.kind == VarKeyword) {
      SecondIsNotRead(r.parts, Shapes(front), last);
    } else {
      ReadsOneMore(r.section, r.parts, Shapes(front), last);
    }
  }

  lemma {:induction false} NoneIsNotRead(tokens: seq<Token>, more: seq<Token>)
    requires Read(tokens).None?
    ensures Read(tokens + more).None?
    decreases |more|
  {
    if more == [] {
      assert tokens + more == tokens;
    } else {
      var front := more[..|more| - 1];
      NoneIsNotRead(tokens, front);
      assert tokens + more == tokens + front + [more[|more| - 1]];
      ReadOne(tokens + front, more[|more| - 1]);
    }
  }

  /**
   * A rendered list reads back as the same names and kinds exactly when it has at most one `*args`
   * and one `**kwargs`; otherwise it is no parameter list at all.
   */
  lemma {:induction false} RenderReadsBack(params: seq<Param>)
    requires InOrder(params)
    ensures Render(params).Some?
    ensures Parse(Render(params).value) == if AtMostOneOfEach(params) then Some(Shapes(params)) else None
  {
    PartsReadBack(params);
    var r := RenderOpen(params).value;
    if r.section == Of(PositionalOnly) {
      ReadOne(r.parts, Slash);
      if AtMostOneOfEach(params) {
        assert AllPositionalOnly(AsStandard(Shapes(params))) == AllPositionalOnly(Shapes(params));
      }
    } else {
      assert r.parts + Closing(r.section) == r.parts;
    }
  }
}
