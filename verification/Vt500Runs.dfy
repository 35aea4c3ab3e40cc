/** What holds of every run of the VT500 parser. */
module Vt500Runs {
  import opened Vt500Table
  import opened Vt500Parser
  import opened Memory

  lemma RunLast(o: Outcome, bytes: seq<Byte>, front: seq<Byte>, last: Byte)
    requires bytes == front + [last]
    ensures RunOn(o, bytes) == Continue(RunOn(o, front), last)
  {
    assert bytes[..|bytes| - 1] == front;
  }

  lemma {:induction false} RunSplit(o: Outcome, a: seq<Byte>, b: seq<Byte>)
    ensures RunOn(o, a + b) == RunOn(RunOn(o, a), b)
  {
    if b == [] {
      assert a + b == a;
    } else {
      var front, last := b[..|b| - 1], b[|b| - 1];
      RunSplit(o, a, front);
      RunLast(RunOn(o, a), b, front, last);
      RunLast(o, a + b, a + front, last);
    }
  }

  // ---------------------------------------------------------------------------------------
  // Resynchronisation

  /** Only in these states can the registers still reach a client before they are cleared. */
  predicate Collecting(s: State) {
    s.CsiEntry? || s.CsiParam? || s.CsiIntermediate? || s.DcsEntry? || s.DcsParam? || s.DcsIntermediate?
    || s.Escape? || s.EscapeIntermediate?
  }

  ghost predicate Alike(p: Parser, q: Parser) {
    p.state == q.state && (Collecting(p.state) ==> p == q)
  }

  /** Both overrun, or neither does, the clients are told the same and the parsers end up alike. */
  ghost predicate SameOutcome(o: Outcome, n: Outcome) {
    (o.Overrun? <==> n.Overrun?) && (o.Next? && n.Next? ==> o.calls == n.calls && Alike(o.parser, n.parser))
  }

  lemma AlikeStaying(p: Parser, q: Parser, ch: Byte)
    requires Alike(p, q) && StateTable(p.state, ch).Stay?
    ensures SameOutcome(Step(p, ch), Step(q, ch))
  {
  }

  /** Where a transition ends that does not add to the registers. */
  function Landing(p: Parser, s: State): Parser {
    if EntryAction(s) == Clear then Parser(s, [], [], false) else p.(state := s)
  }

  function Told(action: Action, ch: Byte): seq<Call> {
    if action == NoAction || action == Clear then [] else [Plain(action, ch)]
  }

  lemma Tells(p: Parser, action: Action, ch: Byte)
    requires action in {NoAction, Clear, Execute, Unhook, OscEnd, OscStart}
    ensures Perform(p, action, ch).Next? && Perform(p, action, ch).calls == Told(action, ch)
    ensures action != Clear ==> Perform(p, action, ch).parser == p
  {
  }

  lemma Lands(p: Parser, action: Action, ch: Byte, s: State)
    requires (action == NoAction || action == Execute) && s != DcsPassthrough
    ensures Transition(p, action, ch, s)
         == Next(Landing(p, s), Told(ExitAction(p.state), 0) + Told(action, ch) + Told(EntryAction(s), 0))
  {
    Tells(p, ExitAction(p.state), 0);
    Tells(p, action, ch);
    Tells(p, EntryAction(s), 0);
  }

  lemma LeavingTheRest(s: State, ch: Byte)
    requires !Collecting(s) && StateTable(s, ch).Go?
    ensures var c := StateTable(s, ch);
            (c.action == NoAction || c.action == Execute) && c.state != DcsPassthrough
              && (Collecting(c.state) ==> EntryAction(c.state) == Clear)
  {
  }

  lemma AlikeGoing(p: Parser, q: Parser, ch: Byte)
    requires Alike(p, q) && StateTable(p.state, ch).Go?
    ensures SameOutcome(Step(p, ch), Step(q, ch))
  {
    if !Collecting(p.state) {
      var c := StateTable(p.state, ch);
      LeavingTheRest(p.state, ch);
      Lands(p, c.action, ch, c.state);
      Lands(q, c.action, ch, c.state);
    }
  }

  lemma AlikeStep(p: Parser, q: Parser, ch: Byte)
    requires Alike(p, q)
    ensures SameOutcome(Step(p, ch), Step(q, ch))
  {
    if StateTable(p.state, ch).Stay? { AlikeStaying(p, q, ch); } else { AlikeGoing(p, q, ch); }
  }

  lemma {:induction false} AlikeRun(p: Parser, q: Parser, bytes: seq<Byte>)
    requires Alike(p, q)
    ensures SameOutcome(Run(p, bytes), Run(q, bytes))
  {
    if bytes != [] {
      var front, last := bytes[..|bytes| - 1], bytes[|bytes| - 1];
      AlikeRun(p, q, front);
      if Run(p, front).Next? {
        AlikeStep(Run(p, front).parser, Run(q, front).parser, last);
      }
    }
  }

  lemma Synchronised(p: Parser, q: Parser, ch: Byte)
    requires Synchronises(ch)
    ensures Step(p, ch).Next? && Step(q, ch).Next? && Alike(Step(p, ch).parser, Step(q, ch).parser)
  {
    var c := Anywhere(ch);
    Lands(p, c.action, ch, c.state);
    Lands(q, c.action, ch, c.state);
  }

  /**
   CAN, SUB, ESC and the C1 control characters make two parsers alike, whatever state they were in: what
   follows calls the clients with the same actions, characters, parameters and intermediate characters.
   */
  lemma Resynchronises(p: Parser, q: Parser, ch: Byte, bytes: seq<Byte>)
    requires Synchronises(ch)
    ensures var a, b := Step(p, ch), Step(q, ch);
            a.Next? && b.Next? && SameOutcome(Run(a.parser, bytes), Run(b.parser, bytes))
  {
    Synchronised(p, q, ch);
    AlikeRun(Step(p, ch).parser, Step(q, ch).parser, bytes);
  }

  ghost predicate MakesAlike(ch: Byte) {
    forall p, q :: AlikeAfter(p, q, ch)
  }

  ghost predicate AlikeAfter(p: Parser, q: Parser, ch: Byte) {
    Step(p, ch).Next? && Step(q, ch).Next? ==> Alike(Step(p, ch).parser, Step(q, ch).parser)
  }

  lemma OthersDoNot(ch: Byte)
    requires !Synchronises(ch)
    ensures !MakesAlike(ch)
  {
    var p, q := RESET, RESET.(state := SosPmApcString);
    assert !AlikeAfter(p, q, ch);
  }

  /** No other byte does. */
  lemma ResynchronisesExactly(ch: Byte)
    ensures MakesAlike(ch) <==> Synchronises(ch)
  {
    if Synchronises(ch) {
      forall p, q ensures AlikeAfter(p, q, ch) {
        Synchronised(p, q, ch);
      }
    } else {
      OthersDoNot(ch);
    }
  }

  // ---------------------------------------------------------------------------------------
  // Bracketing of callbacks

  datatype Phase = Idle | Hooked | OscOpen | Broken

  /** The callbacks that a client may expect, one after the other. */
  function Expect(phase: Phase, c: Call): Phase {
    match c.action
    case Error => phase
    case Print | Execute | CsiDispatch | EscDispatch => if phase == Idle then Idle else Broken
    case Hook => if phase == Idle then Hooked else Broken
    case Put => if phase == Hooked then Hooked else Broken
    case Unhook => if phase == Hooked then Idle else Broken
    case OscStart => if phase == Idle then OscOpen else Broken
    case OscPut => if phase == OscOpen then OscOpen else Broken
    case OscEnd => if phase == OscOpen then Idle else Broken
    case _ => Broken
  }

  function Watch(phase: Phase, calls: seq<Call>): Phase {
    if calls == [] then phase else Expect(Watch(phase, calls[..|calls| - 1]), calls[|calls| - 1])
  }

  lemma {:induction false} WatchSplit(phase: Phase, a: seq<Call>, b: seq<Call>)
    ensures Watch(phase, a + b) == Watch(Watch(phase, a), b)
  {
    if b == [] {
      assert a + b == a;
    } else {
      WatchSplit(phase, a, b[..|b| - 1]);
      assert (a + b)[..|a + b| - 1] == a + b[..|b| - 1];
    }
  }

  function PhaseOf(s: State): Phase {
    if s == DcsPassthrough then Hooked else if s == OscString then OscOpen else Idle
  }

  lemma WatchOne(phase: Phase, c: Call)
    ensures Watch(phase, [c]) == Expect(phase, c)
  {
    assert [c][..0] == [];
  }

  lemma WatchStaying(p: Parser, ch: Byte)
    requires StateTable(p.state, ch).Stay? && Step(p, ch).Next?
    ensures Step(p, ch).parser.state == p.state
    ensures Watch(PhaseOf(p.state), Step(p, ch).calls) == PhaseOf(p.state)
  {
    var calls := Step(p, ch).calls;
    assert calls == [] || calls == [calls[0]];
    if calls != [] { WatchOne(PhaseOf(p.state), calls[0]); }
  }

  lemma WatchExit(p: Parser)
    ensures Perform(p, ExitAction(p.state), 0).Next?
    ensures Watch(PhaseOf(p.state), Perform(p, ExitAction(p.state), 0).calls) == Idle
  {
    var a := ExitAction(p.state);
    if a != NoAction { WatchOne(PhaseOf(p.state), Report(p, a, 0)); }
  }

  lemma WatchEntry(p: Parser, s: State)
    ensures Perform(p, EntryAction(s), 0).Next? && Watch(Idle, Perform(p, EntryAction(s), 0).calls) == PhaseOf(s)
  {
    var a := EntryAction(s);
    if a == Hook || a == OscStart { WatchOne(Idle, Report(p, a, 0)); }
  }

  lemma WatchTransition(p: Parser, action: Action, ch: Byte)
    requires action in {NoAction, Collect, Param, Execute, CsiDispatch, EscDispatch} && Perform(p, action, ch).Next?
    ensures Watch(Idle, Perform(p, action, ch).calls) == Idle
  {
    var calls := Perform(p, action, ch).calls;
    assert calls == [] || calls == [calls[0]];
    if calls != [] { WatchOne(Idle, calls[0]); }
  }

  lemma TransitionActions(s: State, ch: Byte)
    requires StateTable(s, ch).Go?
    ensures StateTable(s, ch).action in {NoAction, Collect, Param, Execute, CsiDispatch, EscDispatch}
  {
  }

  lemma WatchGoing(p: Parser, action: Action, ch: Byte, s: State)
    requires action in {NoAction, Collect, Param, Execute, CsiDispatch, EscDispatch}
    requires Transition(p, action, ch, s).Next?
    ensures Transition(p, action, ch, s).parser.state == s
    ensures Watch(PhaseOf(p.state), Transition(p, action, ch, s).calls) == PhaseOf(s)
  {
    var x := Perform(p, ExitAction(p.state), 0);
    WatchExit(p);
    var y := Perform(x.parser, action, ch);
    WatchTransition(x.parser, action, ch);
    var z := Perform(y.parser, EntryAction(s), 0);
    WatchEntry(y.parser, s);
    WatchSplit(PhaseOf(p.state), x.calls + y.calls, z.calls);
    WatchSplit(PhaseOf(p.state), x.calls, y.calls);
  }

  lemma WatchStep(p: Parser, ch: Byte)
    requires Step(p, ch).Next?
    ensures Watch(PhaseOf(p.state), Step(p, ch).calls) == PhaseOf(Step(p, ch).parser.state)
  {
    var c := StateTable(p.state, ch);
    if c.Go? {
      TransitionActions(p.state, ch);
      WatchGoing(p, c.action, ch, c.state);
    } else {
      WatchStaying(p, ch);
    }
  }

  /** For every byte stream, a client sees properly bracketed callbacks. */
  lemma {:induction false} Bracketed(p: Parser, bytes: seq<Byte>)
    requires Run(p, bytes).Next?
    ensures Watch(PhaseOf(p.state), Run(p, bytes).calls) == PhaseOf(Run(p, bytes).parser.state) != Broken
  {
    if bytes != [] {
      var front, last := bytes[..|bytes| - 1], bytes[|bytes| - 1];
      var o := Run(p, front);
      Bracketed(p, front);
      WatchStep(o.parser, last);
      WatchSplit(PhaseOf(p.state), o.calls, Step(o.parser, last).calls);
    }
  }

  // ---------------------------------------------------------------------------------------
  // Registers

  ghost predicate RegistersOk(p: Parser) {
    && |p.intermediates| <= MAX_INTERMEDIATE_CHARS && |p.params| <= MAX_PARAMS
    && forall i :: 0 <= i < |p.params| ==> -0x8000 <= p.params[i] < 0x8000
  }

  lemma RegistersStep(p: Parser, action: Action, ch: Byte)
    requires RegistersOk(p) && Act(p, action, ch).Next?
    ensures RegistersOk(Act(p, action, ch).parser)
  {
  }

  lemma {:induction false} RegistersStayOk(p: Parser, bytes: seq<Byte>)
    requires RegistersOk(p) && Run(p, bytes).Next?
    ensures RegistersOk(Run(p, bytes).parser)
  {
    if bytes != [] {
      var front, last := bytes[..|bytes| - 1], bytes[|bytes| - 1];
      RegistersStayOk(p, front);
      var q := Run(p, front).parser;
      var c := StateTable(q.state, last);
      if c.Go? {
        RegistersTransition(q, c.action, last, c.state);
      } else {
        RegistersStep(q, c.action, last);
      }
    }
  }

  lemma RegistersTransition(p: Parser, action: Action, ch: Byte, s: State)
    requires RegistersOk(p) && Transition(p, action, ch, s).Next?
    ensures RegistersOk(Transition(p, action, ch, s).parser)
  {
    var x := Perform(p, ExitAction(p.state), 0);
    if ExitAction(p.state) != NoAction { RegistersStep(p, ExitAction(p.state), 0); }
    var y := Perform(x.parser, action, ch);
    if action != NoAction { RegistersStep(x.parser, action, ch); }
    if EntryAction(s) != NoAction { RegistersStep(y.parser, EntryAction(s), 0); }
  }
}
