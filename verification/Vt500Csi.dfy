/** How a control sequence is read: parameters, intermediate characters and embedded control characters. */
module Vt500Csi {
  import opened Vt500Table
  import opened Vt500Parser
  import opened Vt500Runs
  import opened Memory

  const SEMICOLON: Byte := 0x3b
  const BRACKET: Byte := 0x5b

  predicate IsParamByte(b: Byte) {
    0x30 <= b <= 0x39 || b == SEMICOLON
  }

  predicate IsIntermediate(b: Byte) {
    0x20 <= b <= 0x2f
  }

  predicate IsMarker(b: Byte) {
    0x3c <= b <= 0x3f
  }

  predicate IsFinal(b: Byte) {
    0x40 <= b <= 0x7e
  }

  /** Bytes that may stand between the characters of a sequence without being part of it. */
  predicate IsEmbedded(b: Byte) {
    IsC0(b) || b == 0x7f
  }

  /** The characters of the sequence itself. */
  function Clean(q: seq<Byte>): seq<Byte> {
    if q == [] then []
    else Clean(q[..|q| - 1]) + (if IsEmbedded(q[|q| - 1]) then [] else [q[|q| - 1]])
  }

  /** The control characters that are executed on the way. */
  function Executed(q: seq<Byte>): seq<Call> {
    if q == [] then []
    else Executed(q[..|q| - 1]) + (if IsC0(q[|q| - 1]) then [Plain(Execute, q[|q| - 1])] else [])
  }

  // ---------------------------------------------------------------------------------------
  // Parameter strings

  /** Section 5.4.1 of ECMA-48: parameter sub-strings are separated by semicolons. */
  function Fields(p: seq<Byte>): (fs: seq<seq<Byte>>)
    ensures fs != []
  {
    if p == [] then [[]]
    else if p[0] == SEMICOLON then [[]] + Fields(p[1..])
    else [[p[0]] + Fields(p[1..])[0]] + Fields(p[1..])[1..]
  }

  /** The decimal number that the digits stand for; an empty sub-string stands for zero. */
  function Decimal(digits: seq<Byte>): int {
    if digits == [] then 0 else 10 * Decimal(digits[..|digits| - 1]) + (digits[|digits| - 1] as int - 0x30)
  }

  /** What the parser makes of the digits. */
  function Reading(digits: seq<Byte>): int {
    if digits == [] then 0 else Times10Plus(Reading(digits[..|digits| - 1]), digits[|digits| - 1])
  }

  function Readings(fs: seq<seq<Byte>>): (r: seq<int>)
    ensures |r| == |fs| && forall i :: 0 <= i < |fs| ==> r[i] == Reading(fs[i])
  {
    seq(|fs|, i requires 0 <= i < |fs| => Reading(fs[i]))
  }

  function Decimals(fs: seq<seq<Byte>>): (r: seq<int>)
    ensures |r| == |fs| && forall i :: 0 <= i < |fs| ==> r[i] == Decimal(fs[i])
  {
    seq(|fs|, i requires 0 <= i < |fs| => Decimal(fs[i]))
  }

  /** The parameters that a client is given: an empty first sub-string is dropped. */
  function Given(p: seq<Byte>): seq<int> {
    if p == [] then [] else if p[0] == SEMICOLON then Readings(Fields(p[1..])) else Readings(Fields(p))
  }

  /** The parameters that the string stands for. */
  function Meant(p: seq<Byte>): seq<int> {
    if p == [] then [] else Decimals(Fields(p))
  }

  ghost predicate Digits(s: seq<Byte>) {
    forall i :: 0 <= i < |s| ==> 0x30 <= s[i] <= 0x39
  }

  ghost predicate ParamString(p: seq<Byte>) {
    forall i :: 0 <= i < |p| ==> IsParamByte(p[i])
  }

  lemma {:induction false} DecimalGrows(d: seq<Byte>)
    requires Digits(d)
    ensures Decimal(d) >= 0
  {
    if d != [] { DecimalGrows(d[..|d| - 1]); }
  }

  lemma {:induction false} ReadingIsShort(d: seq<Byte>)
    ensures -0x8000 <= Reading(d) < 0x8000
  {
    if d != [] { ReadingIsShort(d[..|d| - 1]); }
  }

  /** Numbers are read correctly if and only if they are 16 bit values. */
  lemma {:induction false} ReadExactly(d: seq<Byte>)
    requires Digits(d)
    ensures Reading(d) == Decimal(d) <==> Decimal(d) < 0x8000
  {
    ReadingIsShort(d);
    if d != [] {
      var front := d[..|d| - 1];
      DecimalGrows(front);
      ReadExactly(front);
      assert Decimal(d) < 0x8000 ==> Decimal(front) < 9999;
    }
  }

  lemma {:induction false} FieldsAreDigits(p: seq<Byte>)
    requires ParamString(p)
    ensures forall i :: 0 <= i < |Fields(p)| ==> Digits(Fields(p)[i])
  {
    if p != [] {
      FieldsAreDigits(p[1..]);
      var rest := Fields(p[1..]);
      assert Digits(rest[0]);
    }
  }

  lemma ReadAllExactly(fs: seq<seq<Byte>>)
    requires forall i :: 0 <= i < |fs| ==> Digits(fs[i])
    ensures Readings(fs) == Decimals(fs) <==> forall i :: 0 <= i < |fs| ==> Decimal(fs[i]) < 0x8000
  {
    forall i | 0 <= i < |fs| ensures Readings(fs)[i] == Decimals(fs)[i] <==> Decimal(fs[i]) < 0x8000 {
      ReadExactly(fs[i]);
    }
  }

  lemma LeadingSemicolon(p: seq<Byte>)
    requires p != [] && p[0] == SEMICOLON
    ensures |Given(p)| + 1 == |Meant(p)|
  {
  }

  /** A client is given the meant parameters unless the string starts with a semicolon or a number is too large. */
  lemma GivenAsMeant(p: seq<Byte>)
    requires ParamString(p)
    ensures Given(p) == Meant(p)
            <==> p == [] || (p[0] != SEMICOLON && forall i :: 0 <= i < |Fields(p)| ==> Decimal(Fields(p)[i]) < 0x8000)
  {
    if p != [] {
      if p[0] == SEMICOLON {
        LeadingSemicolon(p);
        assert |Given(p)| != |Meant(p)|;
      } else {
        FieldsAreDigits(p);
        ReadAllExactly(Fields(p));
        assert Given(p) == Readings(Fields(p)) && Meant(p) == Decimals(Fields(p));
      }
    }
  }

  lemma LeadingSemicolonIsDropped()
    ensures Given([SEMICOLON, 0x37]) == [7] && Meant([SEMICOLON, 0x37]) == [0, 7]
  {
    var f, p: seq<Byte> := [0x37], [SEMICOLON, 0x37];
    assert f[1..] == [] && f[..0] == [] && p[1..] == f;
    assert Fields(f) == [f] by { assert Fields([]) == [[]] && [f[0]] + [] == f; }
    assert Fields(p) == [[], f];
    assert Reading(f) == 7 && Decimal(f) == 7;
  }

  // ---------------------------------------------------------------------------------------
  // Reading parameters

  function WithLast(fs: seq<seq<Byte>>, b: Byte): seq<seq<Byte>>
    requires fs != []
  {
    if b == SEMICOLON then fs + [[]] else fs[|fs| - 1 := fs[|fs| - 1] + [b]]
  }

  lemma {:induction false} FieldsAppend(p: seq<Byte>, b: Byte)
    ensures Fields(p + [b]) == WithLast(Fields(p), b)
  {
    var q := p + [b];
    if p == [] {
      assert q == [b] && p == [];
      FieldsOfOne(b);
    } else {
      FieldsAppend(p[1..], b);
      assert q[0] == p[0] && q[1..] == p[1..] + [b];
      var rest := Fields(p[1..]);
      if p[0] == SEMICOLON {
        assert [[]] + WithLast(rest, b) == WithLast([[]] + rest, b);
      } else {
        FieldsGrow(rest, p[0], b);
      }
    }
  }

  lemma FieldsOfOne(b: Byte)
    ensures Fields([b]) == WithLast(Fields([]), b)
  {
    var none: seq<Byte>, q := [], [b];
    assert q[1..] == none && Fields(none) == [none];
    assert [b] + none == none + [b] && Fields(none)[1..] == [];
  }

  lemma FieldsGrow(rest: seq<seq<Byte>>, first: Byte, b: Byte)
    requires rest != []
    ensures var more := WithLast(rest, b);
            [[first] + more[0]] + more[1..] == WithLast([[first] + rest[0]] + rest[1..], b)
  {
    var more, grown := WithLast(rest, b), [[first] + rest[0]] + rest[1..];
    if b != SEMICOLON && |rest| == 1 {
      assert [first] + (rest[0] + [b]) == [first] + rest[0] + [b];
    }
  }

  /** One more parameter character. */
  function More(params: seq<int>, b: Byte): seq<int> {
    if b == SEMICOLON then params + [0]
    else if params == [] then [Times10Plus(0, b)]
    else params[|params| - 1 := Times10Plus(params[|params| - 1], b)]
  }

  lemma ReadingsAppend(fs: seq<seq<Byte>>, b: Byte)
    requires fs != []
    ensures Readings(WithLast(fs, b)) == More(Readings(fs), b)
  {
    if b != SEMICOLON {
      var last := fs[|fs| - 1];
      assert (last + [b])[..|last|] == last;
    }
  }

  lemma GivenAppend(p: seq<Byte>, b: Byte)
    ensures Given(p + [b]) == More(Given(p), b)
  {
    var q := p + [b];
    if p == [] {
      assert q[1..] == [] && Fields([]) == [[]];
      FieldsAppend([], b);
      ReadingsAppend([[]], b);
    } else if p[0] == SEMICOLON {
      assert q[1..] == p[1..] + [b];
      FieldsAppend(p[1..], b);
      ReadingsAppend(Fields(p[1..]), b);
    } else {
      FieldsAppend(p, b);
      ReadingsAppend(Fields(p), b);
    }
  }

  predicate InParams(s: State) {
    s.CsiEntry? || s.CsiParam?
  }

  lemma StepParam(p: Parser, b: Byte)
    requires InParams(p.state) && IsParamByte(b)
    ensures |More(p.params, b)| <= MAX_PARAMS || |p.params| == |More(p.params, b)|
            ==> Step(p, b) == Next(p.(state := CsiParam, params := More(p.params, b)), [])
    ensures |More(p.params, b)| > MAX_PARAMS && |p.params| != |More(p.params, b)| ==> Step(p, b).Overrun?
  {
  }

  lemma StepEmbedded(p: Parser, b: Byte)
    requires (InParams(p.state) || p.state.CsiIntermediate?) && IsEmbedded(b)
    ensures Step(p, b) == Next(p, if IsC0(b) then [Plain(Execute, b)] else [])
  {
  }

  lemma RunEmbedded(o: Outcome, q: seq<Byte>, r: Parser, calls: seq<Call>)
    requires q != [] && IsEmbedded(q[|q| - 1]) && (InParams(r.state) || r.state.CsiIntermediate?)
    requires RunOn(o, q[..|q| - 1]) == Next(r, calls + Executed(q[..|q| - 1]))
    ensures Clean(q) == Clean(q[..|q| - 1]) && RunOn(o, q) == Next(r, calls + Executed(q))
  {
    var front, b := q[..|q| - 1], q[|q| - 1];
    StepEmbedded(r, b);
    assert calls + Executed(front) + (if IsC0(b) then [Plain(Execute, b)] else []) == calls + Executed(q);
  }

  lemma NotExecuted(q: seq<Byte>, calls: seq<Call>)
    requires q != [] && !IsEmbedded(q[|q| - 1])
    ensures calls + Executed(q[..|q| - 1]) + [] == calls + Executed(q)
    ensures Clean(q) == Clean(q[..|q| - 1]) + [q[|q| - 1]]
  {
  }

  ghost predicate ParamsOrEmbedded(q: seq<Byte>) {
    forall i :: 0 <= i < |q| ==> IsParamByte(q[i]) || IsEmbedded(q[i])
  }

  function ParamsRead(p: Parser, q: seq<Byte>): Parser {
    p.(state := if Clean(q) == [] then p.state else CsiParam, params := Given(Clean(q)))
  }

  lemma {:induction false} RunParams(p: Parser, calls: seq<Call>, q: seq<Byte>)
    requires InParams(p.state) && p.params == [] && ParamsOrEmbedded(q)
    ensures |Given(Clean(q))| <= MAX_PARAMS ==> RunOn(Next(p, calls), q) == Next(ParamsRead(p, q), calls + Executed(q))
    ensures |Given(Clean(q))| > MAX_PARAMS ==> RunOn(Next(p, calls), q).Overrun?
  {
    if q == [] {
      assert calls + [] == calls;
    } else {
      var front, b := q[..|q| - 1], q[|q| - 1];
      RunParams(p, calls, front);
      var r := ParamsRead(p, front);
      if IsEmbedded(b) {
        assert Clean(q) == Clean(front);
        if |Given(Clean(front))| <= MAX_PARAMS { RunEmbedded(Next(p, calls), q, r, calls); }
      } else {
        GivenAppend(Clean(front), b);
        StepParam(r, b);
        NotExecuted(q, calls);
      }
    }
  }

  // ---------------------------------------------------------------------------------------
  // Reading intermediate characters

  function Collected(p: Parser, chars: seq<Byte>): Parser {
    var all := p.intermediates + chars;
    if |all| <= MAX_INTERMEDIATE_CHARS then p.(intermediates := all)
    else p.(intermediates := all[..MAX_INTERMEDIATE_CHARS], ignoreFlagged := true)
  }

  predicate InSequence(s: State) {
    s.CsiEntry? || s.CsiParam? || s.CsiIntermediate?
  }

  lemma StepIntermediate(p: Parser, chars: seq<Byte>, b: Byte, s: State)
    requires InSequence(s) && IsIntermediate(b) && |p.intermediates| <= MAX_INTERMEDIATE_CHARS
    ensures Step(Collected(p, chars).(state := s), b) == Next(Collected(p, chars + [b]).(state := CsiIntermediate), [])
  {
    assert p.intermediates + (chars + [b]) == p.intermediates + chars + [b];
  }

  ghost predicate IntermediatesOrEmbedded(q: seq<Byte>) {
    forall i :: 0 <= i < |q| ==> IsIntermediate(q[i]) || IsEmbedded(q[i])
  }

  function IntermediatesRead(p: Parser, q: seq<Byte>): Parser {
    Collected(p, Clean(q)).(state := if Clean(q) == [] then p.state else CsiIntermediate)
  }

  lemma {:induction false} RunIntermediates(p: Parser, calls: seq<Call>, q: seq<Byte>)
    requires InSequence(p.state) && IntermediatesOrEmbedded(q) && |p.intermediates| <= MAX_INTERMEDIATE_CHARS
    ensures RunOn(Next(p, calls), q) == Next(IntermediatesRead(p, q), calls + Executed(q))
  {
    if q == [] {
      assert calls + [] == calls && p.intermediates + [] == p.intermediates;
    } else {
      var front, b := q[..|q| - 1], q[|q| - 1];
      RunIntermediates(p, calls, front);
      var r := IntermediatesRead(p, front);
      if IsEmbedded(b) {
        RunEmbedded(Next(p, calls), q, r, calls);
      } else {
        StepIntermediate(p, Clean(front), b, r.state);
        NotExecuted(q, calls);
      }
    }
  }

  // ---------------------------------------------------------------------------------------
  // Whole sequences

  function Prologue(marker: seq<Byte>): seq<Byte> {
    [ESC, BRACKET] + marker
  }

  lemma StepBracket(told: seq<Call>)
    ensures Continue(Next(Parser(Escape, [], [], false), told), BRACKET) == Next(Parser(CsiEntry, [], [], false), told)
  {
    Lands(Parser(Escape, [], [], false), NoAction, BRACKET, CsiEntry);
    assert told + [] == told;
  }

  lemma StepMarker(told: seq<Call>, b: Byte)
    requires IsMarker(b)
    ensures Continue(Next(Parser(CsiEntry, [], [], false), told), b) == Next(Parser(CsiParam, [b], [], false), told)
  {
    assert [] + [b] == [b] && told + [] == told;
  }

  lemma StepEscape(p: Parser)
    ensures Continue(Next(p, []), ESC) == Next(Parser(Escape, [], [], false), Told(ExitAction(p.state), 0))
  {
    Lands(p, NoAction, ESC, Escape);
    var told := Told(ExitAction(p.state), 0);
    assert [] + (told + [] + []) == told;
  }

  /** ESC [ starts afresh, whatever was being parsed. */
  lemma RunPrologue(p: Parser, marker: seq<Byte>)
    requires |marker| <= 1 && forall i :: 0 <= i < |marker| ==> IsMarker(marker[i])
    ensures Run(p, Prologue(marker))
         == Next(Parser(if marker == [] then CsiEntry else CsiParam, marker, [], false), Told(ExitAction(p.state), 0))
  {
    var told := Told(ExitAction(p.state), 0);
    StepEscape(p);
    StepBracket(told);
    RunOne(Next(p, []), ESC);
    RunOne(RunOn(Next(p, []), [ESC]), BRACKET);
    RunSplit(Next(p, []), [ESC], [BRACKET]);
    assert [ESC] + [BRACKET] == [ESC, BRACKET];
    if marker == [] {
      assert Prologue(marker) == [ESC, BRACKET];
    } else {
      assert marker == [marker[0]];
      RunSplit(Next(p, []), [ESC, BRACKET], marker);
      RunOne(RunOn(Next(p, []), [ESC, BRACKET]), marker[0]);
      StepMarker(told, marker[0]);
    }
  }

  lemma RunOne(o: Outcome, b: Byte)
    ensures RunOn(o, [b]) == Continue(o, b)
  {
    assert [b][..0] == [];
  }

  lemma StepFinal(p: Parser, b: Byte)
    requires InSequence(p.state) && IsFinal(b)
    ensures Step(p, b) == Next(p.(state := Ground),
                               [Dispatch(CsiDispatch, b, p.intermediates, p.params, p.ignoreFlagged)])
  {
  }

  /** The registers when the final character arrives. */
  function Registers(marker: seq<Byte>, q: seq<Byte>, t: seq<Byte>): Parser {
    Collected(Parser(Ground, marker, Given(Clean(q)), false), Clean(t))
  }

  /**
   ESC [, an optional private marker, parameters, intermediate characters and a final character, with
   control characters anywhere in between: the control characters are executed as they come and the
   sequence is dispatched once, with its parameters and its first two intermediate characters. The
   parameter array is overrun exactly if there are more than 16 parameters.
   */
  lemma ControlSequence(p: Parser, marker: seq<Byte>, q: seq<Byte>, t: seq<Byte>, final: Byte)
    requires |marker| <= 1 && forall i :: 0 <= i < |marker| ==> IsMarker(marker[i])
    requires ParamsOrEmbedded(q) && IntermediatesOrEmbedded(t) && IsFinal(final)
    ensures Run(p, Prologue(marker) + q + t + [final]).Overrun? <==> |Given(Clean(q))| > MAX_PARAMS
    ensures |Given(Clean(q))| <= MAX_PARAMS ==>
              var r := Registers(marker, q, t);
              Run(p, Prologue(marker) + q + t + [final])
              == Next(r, Told(ExitAction(p.state), 0) + Executed(q) + Executed(t)
                         + [Dispatch(CsiDispatch, final, r.intermediates, r.params, r.ignoreFlagged)])
  {
    var pro, o := Prologue(marker), Next(p, []);
    RunPrologue(p, marker);
    var a := Run(p, pro);
    RunSplit(o, pro, q);
    RunParams(a.parser, a.calls, q);
    RunSplit(o, pro + q, t);
    RunSplit(o, pro + q + t, [final]);
    RunOne(RunOn(o, pro + q + t), final);
    if |Given(Clean(q))| <= MAX_PARAMS {
      var b := ParamsRead(a.parser, q);
      RunIntermediates(b, a.calls + Executed(q), t);
      StepFinal(IntermediatesRead(b, t), final);
    } else {
      OverrunRuns(t);
    }
  }

  lemma {:induction false} OverrunRuns(q: seq<Byte>)
    ensures RunOn(Overrun, q).Overrun?
  {
    if q != [] { OverrunRuns(q[..|q| - 1]); }
  }
}
