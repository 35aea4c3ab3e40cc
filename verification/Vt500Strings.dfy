/** How plain text, escape sequences, device control strings and command strings are read. */
module Vt500Strings {
  import opened Vt500Table
  import opened Vt500Parser
  import opened Vt500Runs
  import opened Vt500Csi
  import opened Memory

  // ---------------------------------------------------------------------------------------
  // Bytes that leave the parser where it is

  /** What a client is told about each byte, one after the other. */
  function Each(f: Byte -> seq<Call>, bytes: seq<Byte>): seq<Call> {
    if bytes == [] then [] else Each(f, bytes[..|bytes| - 1]) + f(bytes[|bytes| - 1])
  }

  ghost predicate Steady(p: Parser, f: Byte -> seq<Call>, bytes: seq<Byte>) {
    forall i :: 0 <= i < |bytes| ==> Step(p, bytes[i]) == Next(p, f(bytes[i]))
  }

  lemma {:induction false} RunSteady(p: Parser, calls: seq<Call>, f: Byte -> seq<Call>, bytes: seq<Byte>)
    requires Steady(p, f, bytes)
    ensures RunOn(Next(p, calls), bytes) == Next(p, calls + Each(f, bytes))
  {
    if bytes == [] {
      assert calls + [] == calls;
    } else {
      var front, b := bytes[..|bytes| - 1], bytes[|bytes| - 1];
      SteadyFront(p, f, bytes);
      RunSteady(p, calls, f, front);
      ContinueSteady(p, calls, Each(f, front), f(b), b);
    }
  }

  lemma SteadyFront(p: Parser, f: Byte -> seq<Call>, bytes: seq<Byte>)
    requires Steady(p, f, bytes) && bytes != []
    ensures Steady(p, f, bytes[..|bytes| - 1]) && Step(p, bytes[|bytes| - 1]) == Next(p, f(bytes[|bytes| - 1]))
  {
  }

  lemma ContinueSteady(p: Parser, calls: seq<Call>, sofar: seq<Call>, told: seq<Call>, b: Byte)
    requires Step(p, b) == Next(p, told)
    ensures Continue(Next(p, calls + sofar), b) == Next(p, calls + (sofar + told))
  {
    assert calls + sofar + told == calls + (sofar + told);
  }

  lemma {:induction false} EachOne(f: Byte -> seq<Call>, bytes: seq<Byte>)
    requires forall i :: 0 <= i < |bytes| ==> |f(bytes[i])| == 1
    ensures |Each(f, bytes)| == |bytes| && forall i :: 0 <= i < |bytes| ==> Each(f, bytes)[i] == f(bytes[i])[0]
  {
    if bytes != [] { EachOne(f, bytes[..|bytes| - 1]); }
  }

  /** A byte of the upper half is never part of anything; a client is told of an error. */
  predicate IsHigh(b: Byte) {
    b >= 0xa0
  }

  const WRONG: seq<Call> := [Plain(Error, 0)]

  // ---------------------------------------------------------------------------------------
  // Plain text

  predicate IsText(b: Byte) {
    IsC0(b) || 0x20 <= b <= 0x7f || IsHigh(b)
  }

  ghost predicate Text(bytes: seq<Byte>) {
    forall i :: 0 <= i < |bytes| ==> IsText(bytes[i])
  }

  /** Characters are printed, control characters are executed. */
  function Shown(b: Byte): seq<Call> {
    if IsHigh(b) then WRONG else if b < 0x20 then [Plain(Execute, b)] else [Plain(Print, b)]
  }

  /** Text calls back once for each byte, in order, and changes nothing else. */
  lemma TextRun(p: Parser, calls: seq<Call>, bytes: seq<Byte>)
    requires p.state == Ground && Text(bytes)
    ensures RunOn(Next(p, calls), bytes) == Next(p, calls + Each(Shown, bytes))
    ensures |Each(Shown, bytes)| == |bytes|
    ensures forall i :: 0 <= i < |bytes| ==> [Each(Shown, bytes)[i]] == Shown(bytes[i])
  {
    RunSteady(p, calls, Shown, bytes);
    EachOne(Shown, bytes);
  }

  // ---------------------------------------------------------------------------------------
  // Control characters that end everything

  /** CAN, SUB and the C1 control characters that start nothing. */
  predicate Aborts(b: Byte) {
    b == CAN || b == SUB
    || (0x80 <= b <= 0x9a && b != 0x90 && b != 0x98)
  }

  /** What the client is told about the string that is left, if any. */
  function Left(s: State): seq<Call> {
    match s
    case DcsPassthrough => [Plain(Unhook, 0)]
    case OscString => [Plain(OscEnd, 0)]
    case _ => []
  }

  lemma ToldLeft(s: State)
    ensures Told(ExitAction(s), 0) == Left(s)
  {
  }

  /** They are executed, and parsing goes on with text. */
  lemma Aborting(p: Parser, b: Byte)
    requires Aborts(b)
    ensures Step(p, b) == Next(p.(state := Ground), Left(p.state) + [Plain(Execute, b)])
  {
    Lands(p, Execute, b, Ground);
    ToldLeft(p.state);
    assert Left(p.state) + [Plain(Execute, b)] + [] == Left(p.state) + [Plain(Execute, b)];
  }

  /** The string terminator ends whatever is open. */
  lemma Terminating(p: Parser)
    ensures Step(p, 0x9c) == Next(p.(state := Ground), Left(p.state))
  {
    Lands(p, NoAction, 0x9c, Ground);
    ToldLeft(p.state);
    assert Left(p.state) + [] + [] == Left(p.state);
  }

  const CLEARED := Parser(Escape, [], [], false)

  lemma Escaping(p: Parser)
    ensures Step(p, ESC) == Next(CLEARED, Left(p.state))
  {
    Lands(p, NoAction, ESC, Escape);
    ToldLeft(p.state);
    assert Left(p.state) + [] + [] == Left(p.state);
  }

  lemma RunEscape(p: Parser)
    ensures Run(p, [ESC]) == Next(CLEARED, Left(p.state))
  {
    Escaping(p);
    RunOne(Next(p, []), ESC);
    assert [] + Left(p.state) == Left(p.state);
  }

  // ---------------------------------------------------------------------------------------
  // Escape sequences

  /** The final characters that make an escape sequence without intermediate characters; the others start strings. */
  predicate IsEscFinal(b: Byte) {
    0x30 <= b <= 0x7e && b != 0x50 && b != 0x58 && b != 0x5b && b != 0x5d && b != 0x5e && b != 0x5f
  }

  lemma StepEscEmbedded(p: Parser, b: Byte)
    requires (p.state == Escape || p.state == EscapeIntermediate) && IsEmbedded(b)
    ensures Step(p, b) == Next(p, if IsC0(b) then [Plain(Execute, b)] else [])
  {
  }

  lemma StepEscIntermediate(p: Parser, chars: seq<Byte>, b: Byte, s: State)
    requires (s == Escape || s == EscapeIntermediate) && IsIntermediate(b)
    requires |p.intermediates| <= MAX_INTERMEDIATE_CHARS
    ensures Step(Collected(p, chars).(state := s), b)
         == Next(Collected(p, chars + [b]).(state := EscapeIntermediate), [])
  {
    assert p.intermediates + (chars + [b]) == p.intermediates + chars + [b];
  }

  function EscCollected(t: seq<Byte>): Parser {
    Collected(CLEARED, Clean(t)).(state := if Clean(t) == [] then Escape else EscapeIntermediate)
  }

  lemma {:induction false} RunEscIntermediates(calls: seq<Call>, t: seq<Byte>)
    requires IntermediatesOrEmbedded(t)
    ensures RunOn(Next(CLEARED, calls), t) == Next(EscCollected(t), calls + Executed(t))
  {
    if t == [] {
      var none: seq<Byte> := [];
      assert calls + [] == calls && none + none == none;
    } else {
      var front, b := t[..|t| - 1], t[|t| - 1];
      RunEscIntermediates(calls, front);
      var r := EscCollected(front);
      if IsEmbedded(b) {
        StepEscEmbedded(r, b);
        assert calls + Executed(front) + (if IsC0(b) then [Plain(Execute, b)] else []) == calls + Executed(t);
      } else {
        StepEscIntermediate(CLEARED, Clean(front), b, r.state);
        NotExecuted(t, calls);
      }
    }
  }

  lemma StepEscFinal(p: Parser, b: Byte)
    requires (p.state == Escape && IsEscFinal(b)) || (p.state == EscapeIntermediate && 0x30 <= b <= 0x7e)
    ensures Step(p, b) == Next(p.(state := Ground),
                               [Dispatch(EscDispatch, b, p.intermediates, p.params, p.ignoreFlagged)])
  {
  }

  /** What ESC, intermediate characters and a final character mean. */
  function EscMeaning(t: seq<Byte>, final: Byte): seq<Call> {
    var r := Collected(CLEARED, Clean(t));
    Executed(t) + [Dispatch(EscDispatch, final, r.intermediates, [], r.ignoreFlagged)]
  }

  /**
   An escape sequence is dispatched once, with its first two intermediate characters and no parameters, whatever
   was being parsed before it. Control characters in between are executed as they come.
   */
  lemma EscapeSequence(p: Parser, t: seq<Byte>, final: Byte)
    requires IntermediatesOrEmbedded(t) && 0x30 <= final <= 0x7e && (Clean(t) == [] ==> IsEscFinal(final))
    ensures Run(p, [ESC] + t + [final])
         == Next(Collected(CLEARED, Clean(t)).(state := Ground), Left(p.state) + EscMeaning(t, final))
  {
    var o := Next(p, []);
    RunEscape(p);
    RunSplit(o, [ESC], t);
    RunEscIntermediates(Left(p.state), t);
    RunSplit(o, [ESC] + t, [final]);
    RunOne(RunOn(o, [ESC] + t), final);
    StepEscFinal(EscCollected(t), final);
    var r := Collected(CLEARED, Clean(t));
    assert Left(p.state) + Executed(t) + [Dispatch(EscDispatch, final, r.intermediates, [], r.ignoreFlagged)]
        == Left(p.state) + EscMeaning(t, final);
  }

  // ---------------------------------------------------------------------------------------
  // What starts a sequence or a string

  /** The second byte after ESC, and the C1 control character that stands for both. */
  datatype Intro = Dcs | Csi | Osc | Sos | Pm | Apc

  function SevenBit(k: Intro): Byte {
    match k
    case Dcs => 0x50
    case Csi => BRACKET
    case Osc => 0x5d
    case Sos => 0x58
    case Pm => 0x5e
    case Apc => 0x5f
  }

  function EightBit(k: Intro): Byte {
    match k
    case Dcs => 0x90
    case Csi => 0x9b
    case Osc => 0x9d
    case Sos => 0x98
    case Pm => 0x9e
    case Apc => 0x9f
  }

  predicate IsIntro(k: Intro, bytes: seq<Byte>) {
    bytes == [ESC, SevenBit(k)] || bytes == [EightBit(k)]
  }

  function Entered(k: Intro): State {
    match k
    case Dcs => DcsEntry
    case Csi => CsiEntry
    case Osc => OscString
    case _ => SosPmApcString
  }

  function Begun(k: Intro): seq<Call> {
    if k == Osc then [Plain(OscStart, 0)] else []
  }

  lemma TableIntro(s: State, k: Intro)
    ensures StateTable(s, EightBit(k)) == Go(NoAction, Entered(k))
    ensures StateTable(Escape, SevenBit(k)) == Go(NoAction, Entered(k))
    ensures Told(EntryAction(Entered(k)), 0) == Begun(k)
  {
  }

  lemma StepEightBit(p: Parser, k: Intro)
    ensures Step(p, EightBit(k)) == Next(Landing(p, Entered(k)), Left(p.state) + Begun(k))
  {
    TableIntro(p.state, k);
    Lands(p, NoAction, EightBit(k), Entered(k));
    ToldLeft(p.state);
    assert Left(p.state) + [] + Begun(k) == Left(p.state) + Begun(k);
  }

  lemma StepSevenBit(k: Intro)
    ensures Step(CLEARED, SevenBit(k)) == Next(Landing(CLEARED, Entered(k)), Begun(k))
  {
    TableIntro(Escape, k);
    Lands(CLEARED, NoAction, SevenBit(k), Entered(k));
    assert [] + [] + Begun(k) == Begun(k);
  }

  /** Both spellings do the same. */
  lemma RunIntro(p: Parser, k: Intro, bytes: seq<Byte>)
    requires IsIntro(k, bytes)
    ensures Run(p, bytes).Next? && Run(p, bytes).calls == Left(p.state) + Begun(k)
    ensures Run(p, bytes).parser.state == Entered(k)
    ensures k == Csi || k == Dcs ==> Run(p, bytes).parser == Parser(Entered(k), [], [], false)
  {
    var o := Next(p, []);
    if bytes == [EightBit(k)] {
      StepEightBit(p, k);
      RunOne(o, EightBit(k));
      assert [] + (Left(p.state) + Begun(k)) == Left(p.state) + Begun(k);
    } else {
      RunEscape(p);
      RunSplit(o, [ESC], [SevenBit(k)]);
      RunOne(RunOn(o, [ESC]), SevenBit(k));
      StepSevenBit(k);
      assert bytes == [ESC] + [SevenBit(k)];
    }
  }

  /** A CSI sequence in either spelling. */
  lemma CsiSpelling(p: Parser, intro: seq<Byte>, rest: seq<Byte>)
    requires IsIntro(Csi, intro)
    ensures Run(p, intro + rest) == Run(p, [ESC, BRACKET] + rest)
  {
    RunIntro(p, Csi, intro);
    RunIntro(p, Csi, [ESC, BRACKET]);
    RunSplit(Next(p, []), intro, rest);
    RunSplit(Next(p, []), [ESC, BRACKET], rest);
  }

  // ---------------------------------------------------------------------------------------
  // Control sequences that are not well-formed

  /** A byte that does not belong where it stands: after the marker, parameters and intermediate characters so far. */
  predicate IsBad(marker: seq<Byte>, q: seq<Byte>, t: seq<Byte>, b: Byte) {
    if t != [] then 0x30 <= b <= 0x3f else b == 0x3a || (IsMarker(b) && (marker != [] || q != []))
  }

  /** What is skipped up to the final character. */
  predicate IsSkipped(b: Byte) {
    IsC0(b) || 0x20 <= b <= 0x3f || b == 0x7f || IsHigh(b)
  }

  function SkippedCalls(b: Byte): seq<Call> {
    if IsC0(b) then [Plain(Execute, b)] else if IsHigh(b) then WRONG else []
  }

  /** The state after a marker, parameters and intermediate characters. */
  function CsiState(marker: seq<Byte>, q: seq<Byte>, t: seq<Byte>): State {
    if Clean(t) != [] then CsiIntermediate else if marker != [] || Clean(q) != [] then CsiParam else CsiEntry
  }

  ghost predicate CsiParts(marker: seq<Byte>, q: seq<Byte>, t: seq<Byte>) {
    && |marker| <= 1 && (forall i :: 0 <= i < |marker| ==> IsMarker(marker[i]))
    && ParamsOrEmbedded(q) && IntermediatesOrEmbedded(t)
  }

  lemma RunCsi(p: Parser, marker: seq<Byte>, q: seq<Byte>, t: seq<Byte>)
    requires CsiParts(marker, q, t) && |Given(Clean(q))| <= MAX_PARAMS
    ensures Run(p, Prologue(marker) + q + t) == Next(Registers(marker, q, t).(state := CsiState(marker, q, t)),
                                                     Left(p.state) + Executed(q) + Executed(t))
  {
    var pro, o := Prologue(marker), Next(p, []);
    RunPrologue(p, marker);
    ToldLeft(p.state);
    var a := Run(p, pro);
    RunSplit(o, pro, q);
    RunParams(a.parser, a.calls, q);
    RunSplit(o, pro + q, t);
    RunIntermediates(ParamsRead(a.parser, q), a.calls + Executed(q), t);
  }

  lemma StepBad(p: Parser, marker: seq<Byte>, q: seq<Byte>, t: seq<Byte>, b: Byte)
    requires IsBad(marker, Clean(q), Clean(t), b) && p.state == CsiState(marker, q, t)
    ensures Step(p, b) == Next(p.(state := CsiIgnore), [])
  {
    Lands(p, NoAction, b, CsiIgnore);
  }

  lemma RunSkipped(p: Parser, calls: seq<Call>, rest: seq<Byte>)
    requires p.state == CsiIgnore && forall i :: 0 <= i < |rest| ==> IsSkipped(rest[i])
    ensures RunOn(Next(p, calls), rest) == Next(p, calls + Each(SkippedCalls, rest))
  {
    forall i | 0 <= i < |rest| ensures Step(p, rest[i]) == Next(p, SkippedCalls(rest[i])) { StepSkipped(p, rest[i]); }
    RunSteady(p, calls, SkippedCalls, rest);
  }

  lemma StepSkipped(p: Parser, b: Byte)
    requires p.state == CsiIgnore && IsSkipped(b)
    ensures Step(p, b) == Next(p, SkippedCalls(b))
  {
  }

  lemma StepIgnoreFinal(p: Parser, b: Byte)
    requires p.state == CsiIgnore && IsFinal(b)
    ensures Step(p, b) == Next(p.(state := Ground), [])
  {
    Lands(p, NoAction, b, Ground);
  }

  /** A sequence with a byte that does not belong is never dispatched. Its control characters are executed. */
  lemma IllFormed(p: Parser, marker: seq<Byte>, q: seq<Byte>, t: seq<Byte>, bad: Byte, rest: seq<Byte>, final: Byte)
    requires CsiParts(marker, q, t) && |Given(Clean(q))| <= MAX_PARAMS && IsBad(marker, Clean(q), Clean(t), bad)
    requires (forall i :: 0 <= i < |rest| ==> IsSkipped(rest[i])) && IsFinal(final)
    ensures Run(p, Prologue(marker) + q + t + [bad] + rest + [final])
         == Next(Registers(marker, q, t), Left(p.state) + Executed(q) + Executed(t) + Each(SkippedCalls, rest))
  {
    var o, head := Next(p, []), Prologue(marker) + q + t;
    RunCsi(p, marker, q, t);
    var r, calls := RunOn(o, head).parser, RunOn(o, head).calls;
    RunSplit(o, head, [bad]);
    RunOne(RunOn(o, head), bad);
    StepBad(r, marker, q, t, bad);
    var i := r.(state := CsiIgnore);
    assert calls + [] == calls;
    RunSplit(o, head + [bad], rest);
    RunSkipped(i, calls, rest);
    RunSplit(o, head + [bad] + rest, [final]);
    RunOne(RunOn(o, head + [bad] + rest), final);
    StepIgnoreFinal(i, final);
    assert calls + Each(SkippedCalls, rest) + [] == calls + Each(SkippedCalls, rest);
  }
}
