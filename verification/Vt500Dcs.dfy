/** How device control strings and the other strings are read. */
module Vt500Dcs {
  import opened Vt500Table
  import opened Vt500Parser
  import opened Vt500Runs
  import opened Vt500Csi
  import opened Vt500Strings
  import opened Memory

  // ---------------------------------------------------------------------------------------
  // How strings end

  /** A string terminator in either spelling, or CAN or SUB, which end everything. */
  predicate IsEnd(end: seq<Byte>) {
    end == [0x9c] || end == [ESC, 0x5c] || end == [CAN] || end == [SUB]
  }

  /** The terminator of seven bits is an escape sequence of its own; CAN and SUB are executed. */
  function EndMeaning(end: seq<Byte>): seq<Call> {
    if end == [0x9c] then []
    else if end == [ESC, 0x5c] then [Dispatch(EscDispatch, 0x5c, [], [], false)]
    else if end == [CAN] then [Plain(Execute, CAN)]
    else [Plain(Execute, SUB)]
  }

  lemma EndsWith(p: Parser, end: seq<Byte>)
    requires IsEnd(end)
    ensures Run(p, end).Next? && Run(p, end).parser.state == Ground
    ensures Run(p, end).calls == Left(p.state) + EndMeaning(end)
  {
    var o := Next(p, []);
    var none: seq<Byte> := [];
    if end == [ESC, 0x5c] {
      EscapeSequence(p, [], 0x5c);
      assert [ESC] + none + [0x5c] == end && none + none == none;
      assert Executed(none) + EndMeaning(end) == EndMeaning(end);
    } else {
      RunOne(o, end[0]);
      if end == [0x9c] { Terminating(p); } else { Aborting(p, end[0]); }
      assert [] + Left(p.state) == Left(p.state) == Left(p.state) + [];
      assert [] + (Left(p.state) + EndMeaning(end)) == Left(p.state) + EndMeaning(end);
    }
  }

  /** The end of a run that has got as far as `q`. */
  lemma EndsRun(p: Parser, bytes: seq<Byte>, q: Parser, calls: seq<Call>, end: seq<Byte>)
    requires Run(p, bytes) == Next(q, calls) && IsEnd(end)
    ensures Run(p, bytes + end).Next? && Run(p, bytes + end).parser.state == Ground
    ensures Run(p, bytes + end).calls == calls + Left(q.state) + EndMeaning(end)
  {
    RunSplit(Next(p, []), bytes, end);
    EndsWith(q, end);
    RunFrom(q, calls, end);
    assert calls + (Left(q.state) + EndMeaning(end)) == calls + Left(q.state) + EndMeaning(end);
  }

  /** What was called before does not matter. */
  lemma {:induction false} RunFrom(p: Parser, calls: seq<Call>, bytes: seq<Byte>)
    ensures RunOn(Next(p, calls), bytes).Next? <==> Run(p, bytes).Next?
    ensures Run(p, bytes).Next? ==> RunOn(Next(p, calls), bytes)
                                      == Next(Run(p, bytes).parser, calls + Run(p, bytes).calls)
  {
    if bytes == [] {
      assert calls + [] == calls;
    } else {
      var front, b := bytes[..|bytes| - 1], bytes[|bytes| - 1];
      RunFrom(p, calls, front);
      var o := Run(p, front);
      if o.Next? { ContinueFrom(o, calls, b); }
    }
  }

  lemma ContinueFrom(o: Outcome, calls: seq<Call>, b: Byte)
    requires o.Next?
    ensures Continue(Next(o.parser, calls + o.calls), b).Next? <==> Continue(o, b).Next?
    ensures Continue(o, b).Next? ==> Continue(Next(o.parser, calls + o.calls), b)
                                     == Next(Continue(o, b).parser, calls + Continue(o, b).calls)
  {
    var n := Step(o.parser, b);
    if n.Next? { assert calls + o.calls + n.calls == calls + (o.calls + n.calls); }
  }

  /** Everything but what has the same meaning in all states. */
  ghost predicate Data(bytes: seq<Byte>) {
    forall i :: 0 <= i < |bytes| ==> !Synchronises(bytes[i])
  }

  // ---------------------------------------------------------------------------------------
  // Operating system commands

  /** Control characters are not part of a command. */
  function OscCalls(b: Byte): seq<Call> {
    if b < 0x20 then [] else if IsHigh(b) then WRONG else [Plain(OscPut, b)]
  }

  lemma StepOsc(p: Parser, b: Byte)
    requires p.state == OscString && !Synchronises(b)
    ensures Step(p, b) == Next(p, OscCalls(b))
  {
  }

  /** An operating system command is started, put byte by byte, and ended. */
  lemma OscSequence(p: Parser, intro: seq<Byte>, data: seq<Byte>, end: seq<Byte>)
    requires IsIntro(Osc, intro) && Data(data) && IsEnd(end)
    ensures Run(p, intro + data + end).Next? && Run(p, intro + data + end).parser.state == Ground
    ensures Run(p, intro + data + end).calls
         == Left(p.state) + [Plain(OscStart, 0)] + Each(OscCalls, data) + [Plain(OscEnd, 0)] + EndMeaning(end)
  {
    RunIntro(p, Osc, intro);
    var q := Run(p, intro).parser;
    RunSplit(Next(p, []), intro, data);
    forall i | 0 <= i < |data| ensures Step(q, data[i]) == Next(q, OscCalls(data[i])) { StepOsc(q, data[i]); }
    RunSteady(q, Left(p.state) + [Plain(OscStart, 0)], OscCalls, data);
    EndsRun(p, intro + data, q, Left(p.state) + [Plain(OscStart, 0)] + Each(OscCalls, data), end);
  }

  // ---------------------------------------------------------------------------------------
  // Strings that nobody reads

  function SilentCalls(b: Byte): seq<Call> {
    if IsHigh(b) then WRONG else []
  }

  lemma StepSilent(p: Parser, b: Byte)
    requires (p.state == SosPmApcString || p.state == DcsIgnore) && !Synchronises(b)
    ensures Step(p, b) == Next(p, SilentCalls(b))
  {
  }

  /** Nobody is told what is in a start of string, a privacy message or an application program command. */
  lemma SilentString(p: Parser, k: Intro, intro: seq<Byte>, data: seq<Byte>, end: seq<Byte>)
    requires (k == Sos || k == Pm || k == Apc) && IsIntro(k, intro) && Data(data) && IsEnd(end)
    ensures Run(p, intro + data + end).Next? && Run(p, intro + data + end).parser.state == Ground
    ensures Run(p, intro + data + end).calls == Left(p.state) + Each(SilentCalls, data) + EndMeaning(end)
  {
    RunIntro(p, k, intro);
    var q := Run(p, intro).parser;
    assert Left(p.state) + [] == Left(p.state);
    RunSplit(Next(p, []), intro, data);
    forall i | 0 <= i < |data| ensures Step(q, data[i]) == Next(q, SilentCalls(data[i])) { StepSilent(q, data[i]); }
    RunSteady(q, Left(p.state), SilentCalls, data);
    EndsRun(p, intro + data, q, Left(p.state) + Each(SilentCalls, data), end);
    assert Left(p.state) + Each(SilentCalls, data) + [] == Left(p.state) + Each(SilentCalls, data);
  }

  // ---------------------------------------------------------------------------------------
  // Device control strings: what stands in front of the data

  predicate InDcs(s: State) {
    s.DcsEntry? || s.DcsParam? || s.DcsIntermediate?
  }

  lemma StepDcsEmbedded(p: Parser, b: Byte)
    requires InDcs(p.state) && IsEmbedded(b)
    ensures Step(p, b) == Next(p, [])
  {
  }

  lemma StepDcsMarker(b: Byte)
    requires IsMarker(b)
    ensures Step(Parser(DcsEntry, [], [], false), b) == Next(Parser(DcsParam, [b], [], false), [])
  {
    assert [] + [b] == [b];
  }

  lemma StepDcsParam(p: Parser, b: Byte)
    requires (p.state == DcsEntry || p.state == DcsParam) && IsParamByte(b)
    ensures |More(p.params, b)| <= MAX_PARAMS || |p.params| == |More(p.params, b)|
            ==> Step(p, b) == Next(p.(state := DcsParam, params := More(p.params, b)), [])
    ensures |More(p.params, b)| > MAX_PARAMS && |p.params| != |More(p.params, b)| ==> Step(p, b).Overrun?
  {
  }

  lemma StepDcsIntermediate(p: Parser, chars: seq<Byte>, b: Byte, s: State)
    requires InDcs(s) && IsIntermediate(b) && |p.intermediates| <= MAX_INTERMEDIATE_CHARS
    ensures Step(Collected(p, chars).(state := s), b) == Next(Collected(p, chars + [b]).(state := DcsIntermediate), [])
  {
    assert p.intermediates + (chars + [b]) == p.intermediates + chars + [b];
  }

  lemma RunDcsEmbedded(o: Outcome, q: seq<Byte>, r: Parser, calls: seq<Call>)
    requires q != [] && IsEmbedded(q[|q| - 1]) && InDcs(r.state) && RunOn(o, q[..|q| - 1]) == Next(r, calls)
    ensures Clean(q) == Clean(q[..|q| - 1]) && RunOn(o, q) == Next(r, calls)
  {
    StepDcsEmbedded(r, q[|q| - 1]);
    assert calls + [] == calls;
  }

  function DcsParamsRead(p: Parser, q: seq<Byte>): Parser {
    p.(state := if Clean(q) == [] then p.state else DcsParam, params := Given(Clean(q)))
  }

  lemma {:induction false} RunDcsParams(p: Parser, calls: seq<Call>, q: seq<Byte>)
    requires (p.state == DcsEntry || p.state == DcsParam) && p.params == [] && ParamsOrEmbedded(q)
    ensures |Given(Clean(q))| <= MAX_PARAMS ==> RunOn(Next(p, calls), q) == Next(DcsParamsRead(p, q), calls)
    ensures |Given(Clean(q))| > MAX_PARAMS ==> RunOn(Next(p, calls), q).Overrun?
  {
    if q != [] {
      var front, b := q[..|q| - 1], q[|q| - 1];
      RunDcsParams(p, calls, front);
      var r := DcsParamsRead(p, front);
      if IsEmbedded(b) {
        assert Clean(q) == Clean(front);
        if |Given(Clean(front))| <= MAX_PARAMS { RunDcsEmbedded(Next(p, calls), q, r, calls); }
      } else {
        GivenAppend(Clean(front), b);
        StepDcsParam(r, b);
        NotExecuted(q, []);
        assert calls + [] == calls;
      }
    }
  }

  function DcsIntermediatesRead(p: Parser, t: seq<Byte>): Parser {
    Collected(p, Clean(t)).(state := if Clean(t) == [] then p.state else DcsIntermediate)
  }

  lemma {:induction false} RunDcsIntermediates(p: Parser, calls: seq<Call>, t: seq<Byte>)
    requires InDcs(p.state) && IntermediatesOrEmbedded(t) && |p.intermediates| <= MAX_INTERMEDIATE_CHARS
    ensures RunOn(Next(p, calls), t) == Next(DcsIntermediatesRead(p, t), calls)
  {
    if t == [] {
      assert p.intermediates + [] == p.intermediates;
    } else {
      var front, b := t[..|t| - 1], t[|t| - 1];
      RunDcsIntermediates(p, calls, front);
      var r := DcsIntermediatesRead(p, front);
      if IsEmbedded(b) {
        RunDcsEmbedded(Next(p, calls), t, r, calls);
      } else {
        StepDcsIntermediate(p, Clean(front), b, r.state);
        NotExecuted(t, []);
        assert calls + [] == calls;
      }
    }
  }

  function DcsState(marker: seq<Byte>, q: seq<Byte>, t: seq<Byte>): State {
    if Clean(t) != [] then DcsIntermediate else if marker != [] || Clean(q) != [] then DcsParam else DcsEntry
  }

  lemma RunDcsMarker(p: Parser, intro: seq<Byte>, marker: seq<Byte>)
    requires IsIntro(Dcs, intro) && |marker| <= 1 && forall i :: 0 <= i < |marker| ==> IsMarker(marker[i])
    ensures Run(p, intro + marker) == Next(Parser(if marker == [] then DcsEntry else DcsParam, marker, [], false),
                                           Left(p.state))
  {
    RunIntro(p, Dcs, intro);
    assert Left(p.state) + [] == Left(p.state);
    if marker == [] {
      assert intro + marker == intro;
    } else {
      assert marker == [marker[0]];
      RunSplit(Next(p, []), intro, marker);
      RunOne(RunOn(Next(p, []), intro), marker[0]);
      StepDcsMarker(marker[0]);
    }
  }

  /** Up to the final character; more than 16 parameters overrun their array. */
  lemma RunDcs(p: Parser, intro: seq<Byte>, marker: seq<Byte>, q: seq<Byte>, t: seq<Byte>)
    requires IsIntro(Dcs, intro) && CsiParts(marker, q, t)
    ensures |Given(Clean(q))| <= MAX_PARAMS ==>
              Run(p, intro + marker + q + t)
                  == Next(Registers(marker, q, t).(state := DcsState(marker, q, t)), Left(p.state))
    ensures |Given(Clean(q))| > MAX_PARAMS ==> Run(p, intro + marker + q + t).Overrun?
  {
    var o, head := Next(p, []), intro + marker;
    RunDcsMarker(p, intro, marker);
    var a := Run(p, head);
    RunSplit(o, head, q);
    RunDcsParams(a.parser, a.calls, q);
    RunSplit(o, head + q, t);
    if |Given(Clean(q))| <= MAX_PARAMS {
      RunDcsIntermediates(DcsParamsRead(a.parser, q), a.calls, t);
    } else {
      OverrunRuns(t);
    }
  }

  // ---------------------------------------------------------------------------------------
  // Device control strings

  lemma StepDcsFinal(p: Parser, b: Byte)
    requires InDcs(p.state) && IsFinal(b)
    ensures Step(p, b) == Next(p.(state := DcsPassthrough),
                               [Dispatch(Hook, 0, p.intermediates, p.params, p.ignoreFlagged)])
  {
  }

  /** Everything but DEL is passed through. */
  function PutCalls(b: Byte): seq<Call> {
    if b == 0x7f then [] else if IsHigh(b) then WRONG else [Plain(Put, b)]
  }

  lemma StepPut(p: Parser, b: Byte)
    requires p.state == DcsPassthrough && !Synchronises(b)
    ensures Step(p, b) == Next(p, PutCalls(b))
  {
  }

  /** The client is hooked up with the registers, is put the data, and is unhooked. */
  function HookMeaning(r: Parser, data: seq<Byte>): seq<Call> {
    [Dispatch(Hook, 0, r.intermediates, r.params, r.ignoreFlagged)] + Each(PutCalls, data) + [Plain(Unhook, 0)]
  }

  lemma RunHook(p: Parser, head: seq<Byte>, r: Parser, calls: seq<Call>, final: Byte, data: seq<Byte>)
    requires Run(p, head) == Next(r, calls) && InDcs(r.state) && IsFinal(final) && Data(data)
    ensures Run(p, head + [final] + data)
         == Next(r.(state := DcsPassthrough),
                 calls + [Dispatch(Hook, 0, r.intermediates, r.params, r.ignoreFlagged)] + Each(PutCalls, data))
  {
    var o, h := Next(p, []), r.(state := DcsPassthrough);
    RunSplit(o, head, [final]);
    RunOne(RunOn(o, head), final);
    StepDcsFinal(r, final);
    RunSplit(o, head + [final], data);
    forall i | 0 <= i < |data| ensures Step(h, data[i]) == Next(h, PutCalls(data[i])) { StepPut(h, data[i]); }
    RunSteady(h, calls + [Dispatch(Hook, 0, r.intermediates, r.params, r.ignoreFlagged)], PutCalls, data);
  }

  lemma HookedString(p: Parser, head: seq<Byte>, r: Parser, calls: seq<Call>, final: Byte, data: seq<Byte>,
                     end: seq<Byte>)
    requires Run(p, head) == Next(r, calls) && InDcs(r.state) && IsFinal(final) && Data(data) && IsEnd(end)
    ensures var o := Run(p, head + [final] + data + end);
            o.Next? && o.parser.state == Ground && o.calls == calls + HookMeaning(r, data) + EndMeaning(end)
  {
    var hook := [Dispatch(Hook, 0, r.intermediates, r.params, r.ignoreFlagged)];
    RunHook(p, head, r, calls, final, data);
    EndsRun(p, head + [final] + data, r.(state := DcsPassthrough), calls + hook + Each(PutCalls, data), end);
    Together(calls, hook, Each(PutCalls, data), [Plain(Unhook, 0)]);
  }

  lemma Together(a: seq<Call>, b: seq<Call>, c: seq<Call>, d: seq<Call>)
    ensures a + b + c + d == a + (b + c + d)
  {
  }

  /**
   A device control string: the client is hooked once, with parameters and the first two intermediate characters,
   gets every byte of the data but DEL, and is unhooked at the end, whatever was being parsed before it.
   */
  lemma DeviceControl(p: Parser, intro: seq<Byte>, marker: seq<Byte>, q: seq<Byte>, t: seq<Byte>, final: Byte,
                      data: seq<Byte>, end: seq<Byte>)
    requires IsIntro(Dcs, intro) && CsiParts(marker, q, t) && |Given(Clean(q))| <= MAX_PARAMS && IsFinal(final)
    requires Data(data) && IsEnd(end)
    ensures var o := Run(p, intro + marker + q + t + [final] + data + end);
            && o.Next? && o.parser.state == Ground
            && o.calls == Left(p.state) + HookMeaning(Registers(marker, q, t), data) + EndMeaning(end)
  {
    var r := Registers(marker, q, t);
    RunDcs(p, intro, marker, q, t);
    HookedString(p, intro + marker + q + t, r.(state := DcsState(marker, q, t)), Left(p.state), final, data, end);
  }

  lemma StepDcsBad(p: Parser, marker: seq<Byte>, q: seq<Byte>, t: seq<Byte>, b: Byte)
    requires IsBad(marker, Clean(q), Clean(t), b) && p.state == DcsState(marker, q, t)
    ensures Step(p, b) == Next(p.(state := DcsIgnore), [])
  {
    Lands(p, NoAction, b, DcsIgnore);
  }

  /** A string with a byte in front of its data that does not belong there reaches nobody. */
  lemma IllFormedDcs(p: Parser, intro: seq<Byte>, marker: seq<Byte>, q: seq<Byte>, t: seq<Byte>, bad: Byte,
                     rest: seq<Byte>, end: seq<Byte>)
    requires IsIntro(Dcs, intro) && CsiParts(marker, q, t) && |Given(Clean(q))| <= MAX_PARAMS
    requires IsBad(marker, Clean(q), Clean(t), bad) && Data(rest) && IsEnd(end)
    ensures var bytes := intro + marker + q + t + [bad] + rest + end;
            && Run(p, bytes).Next? && Run(p, bytes).parser.state == Ground
            && Run(p, bytes).calls == Left(p.state) + Each(SilentCalls, rest) + EndMeaning(end)
  {
    var o, head := Next(p, []), intro + marker + q + t;
    RunDcs(p, intro, marker, q, t);
    var r := RunOn(o, head).parser;
    RunSplit(o, head, [bad]);
    RunOne(RunOn(o, head), bad);
    StepDcsBad(r, marker, q, t, bad);
    var i := r.(state := DcsIgnore);
    assert Left(p.state) + [] == Left(p.state);
    RunSplit(o, head + [bad], rest);
    forall j | 0 <= j < |rest| ensures Step(i, rest[j]) == Next(i, SilentCalls(rest[j])) { StepSilent(i, rest[j]); }
    RunSteady(i, Left(p.state), SilentCalls, rest);
    EndsRun(p, head + [bad] + rest, i, Left(p.state) + Each(SilentCalls, rest), end);
    assert Left(p.state) + Each(SilentCalls, rest) + [] == Left(p.state) + Each(SilentCalls, rest);
  }
}
