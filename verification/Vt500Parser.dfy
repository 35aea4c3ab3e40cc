/** The VT500 parser: one step per byte, on values and in place. */
module Vt500Parser {
  import opened Vt500Table
  import opened Memory

  const MAX_INTERMEDIATE_CHARS := 2
  const MAX_PARAMS := 16

  /** What can be seen of a parser: the arrays up to their counts. */
  datatype Parser = Parser(state: State, intermediates: seq<Byte>, params: seq<int>, ignoreFlagged: bool)

  /** The registers that a client reads when it is called back. */
  datatype Call =
    | Plain(action: Action, ch: Byte)
    | Dispatch(action: Action, ch: Byte, intermediates: seq<Byte>, params: seq<int>, ignoreFlagged: bool)

  /** `Overrun`: a 17th parameter, which is written behind the end of the array. */
  datatype Outcome = Overrun | Next(parser: Parser, calls: seq<Call>)

  /** Conversion to a 16 bit signed integer. */
  function Short(x: int): int {
    (x + 0x8000) % 0x1_0000 - 0x8000
  }

  function Times10Plus(v: int, ch: Byte): int {
    if v < 9999 then Short(Short(v * 10) + (ch as int - 0x30)) else v
  }

  function Report(p: Parser, action: Action, ch: Byte): Call {
    if action == CsiDispatch || action == EscDispatch || action == Hook
    then Dispatch(action, ch, p.intermediates, p.params, p.ignoreFlagged)
    else Plain(action, ch)
  }

  function AddParamChar(p: Parser, ch: Byte): Outcome {
    if ch == 0x3b then
      if |p.params| >= MAX_PARAMS then Overrun else Next(p.(params := p.params + [0]), [])
    else
      var params := if p.params == [] then [0] else p.params;
      var current := |params| - 1;
      Next(p.(params := params[current := Times10Plus(params[current], ch)]), [])
  }

  /** `do_action` */
  function Act(p: Parser, action: Action, ch: Byte): Outcome {
    match action
    case Ignore => Next(p, [])
    case Collect =>
      if |p.intermediates| + 1 > MAX_INTERMEDIATE_CHARS then Next(p.(ignoreFlagged := true), [])
      else Next(p.(intermediates := p.intermediates + [ch]), [])
    case Param => AddParamChar(p, ch)
    case Clear => Next(p.(intermediates := [], params := [], ignoreFlagged := false), [])
    case NoAction | Error => Next(p, [Report(p, Error, 0)])
    case _ => Next(p, [Report(p, action, ch)])
  }

  function Perform(p: Parser, action: Action, ch: Byte): Outcome {
    if action == NoAction then Next(p, []) else Act(p, action, ch)
  }

  /** The exit action of the old state, the action of the transition, the entry action of the new state. */
  function Transition(p: Parser, action: Action, ch: Byte, state: State): Outcome {
    var x := Perform(p, ExitAction(p.state), 0);
    if x.Overrun? then Overrun
    else
      var y := Perform(x.parser, action, ch);
      if y.Overrun? then Overrun
      else
        var z := Perform(y.parser, EntryAction(state), 0);
        if z.Overrun? then Overrun else Next(z.parser.(state := state), x.calls + y.calls + z.calls)
  }

  /** `vt500parse_do_state_change` */
  function Step(p: Parser, ch: Byte): Outcome {
    match StateTable(p.state, ch)
    case Stay(action) => Act(p, action, ch)
    case Go(action, state) => Transition(p, action, ch, state)
  }

  /** One more byte after what happened so far. */
  function Continue(o: Outcome, ch: Byte): Outcome {
    if o.Overrun? then Overrun
    else
      var n := Step(o.parser, ch);
      if n.Overrun? then Overrun else Next(n.parser, o.calls + n.calls)
  }

  function RunOn(o: Outcome, bytes: seq<Byte>): Outcome {
    if bytes == [] then o else Continue(RunOn(o, bytes[..|bytes| - 1]), bytes[|bytes| - 1])
  }

  function Run(p: Parser, bytes: seq<Byte>): Outcome {
    RunOn(Next(p, []), bytes)
  }

  const RESET := Parser(Ground, [], [], false)

  // ---------------------------------------------------------------------------------------
  // The parser in place

  class Vt500 {
    var state: State
    const intermediateChars: array<Byte>
    var numIntermediateChars: nat
    const params: array<int>
    var numParams: nat
    var ignoreFlagged: bool
    /** The callbacks so far. */
    var calls: seq<Call>
    /** What can be seen of the parser. */
    ghost var view: Parser

    ghost predicate Valid()
      reads this, intermediateChars, params
    {
      && intermediateChars.Length == MAX_INTERMEDIATE_CHARS + 1 && numIntermediateChars <= MAX_INTERMEDIATE_CHARS
      && params.Length == MAX_PARAMS && numParams <= MAX_PARAMS
      && view == Parser(state, intermediateChars[..numIntermediateChars], params[..numParams], ignoreFlagged)
    }

    constructor ()
      ensures Valid() && fresh(intermediateChars) && fresh(params)
      ensures view == RESET && calls == []
    {
      intermediateChars := new Byte[MAX_INTERMEDIATE_CHARS + 1];
      params := new int[MAX_PARAMS];
      state := Ground;
      numIntermediateChars, numParams, ignoreFlagged, calls := 0, 0, false, [];
      view := RESET;
    }

    method Reset()
      requires Valid()
      modifies this
      ensures Valid() && view == RESET && calls == old(calls)
    {
      state := Ground;
      numIntermediateChars, numParams, ignoreFlagged := 0, 0, false;
      view := RESET;
    }

    method Callback(action: Action, ch: Byte)
      requires Valid()
      modifies `calls
      ensures Valid() && calls == old(calls) + [Report(view, action, ch)]
    {
      var now := Parser(state, intermediateChars[..numIntermediateChars], params[..numParams], ignoreFlagged);
      calls := calls + [Report(now, action, ch)];
    }

    method DoParam(ch: Byte) returns (ok: bool)
      requires Valid()
      modifies `numParams, `view, params
      ensures ok == AddParamChar(old(view), ch).Next?
      ensures ok ==> Valid() && view == AddParamChar(old(view), ch).parser
    {
      if ch == 0x3b {
        if numParams >= MAX_PARAMS {
          return false;
        }
        numParams := numParams + 1;
        params[numParams - 1] := 0;
        assert params[..numParams] == old(params[..numParams]) + [0];
      } else {
        if numParams == 0 {
          numParams := 1;
          params[0] := 0;
        }
        ghost var before := params[..numParams];
        var currentParam := numParams - 1;
        if params[currentParam] < 9999 {
          params[currentParam] := Short(params[currentParam] * 10);
          params[currentParam] := Short(params[currentParam] + (ch as int - 0x30));
        }
        assert params[..numParams] == before[currentParam := Times10Plus(before[currentParam], ch)];
      }
      view := view.(params := params[..numParams]);
      return true;
    }

    method DoCollect(ch: Byte)
      requires Valid()
      modifies `numIntermediateChars, `ignoreFlagged, `view, intermediateChars
      ensures Valid() && Act(old(view), Collect, ch) == Next(view, [])
    {
      if numIntermediateChars + 1 > MAX_INTERMEDIATE_CHARS {
        ignoreFlagged := true;
        view := view.(ignoreFlagged := true);
      } else {
        intermediateChars[numIntermediateChars] := ch;
        numIntermediateChars := numIntermediateChars + 1;
        assert intermediateChars[..numIntermediateChars] == old(intermediateChars[..numIntermediateChars]) + [ch];
        view := view.(intermediates := view.intermediates + [ch]);
      }
    }

    method DoAction(action: Action, ch: Byte) returns (ok: bool)
      requires Valid()
      modifies this, intermediateChars, params
      ensures ok == Act(old(view), action, ch).Next?
      ensures ok ==> Valid() && view == Act(old(view), action, ch).parser
                     && calls == old(calls) + Act(old(view), action, ch).calls
    {
      match action {
        case Ignore =>
        case Collect =>
          DoCollect(ch);
        case Param =>
          ok := DoParam(ch);
          return;
        case Clear =>
          numIntermediateChars, numParams, ignoreFlagged := 0, 0, false;
          view := Parser(state, [], [], false);
        case NoAction | Error =>
          Callback(Error, 0);
        case _ =>
          Callback(action, ch);
      }
      return true;
    }

    method DoIfAny(action: Action, ch: Byte) returns (ok: bool)
      requires Valid()
      modifies this, intermediateChars, params
      ensures ok == Perform(old(view), action, ch).Next?
      ensures ok ==> Valid() && view == Perform(old(view), action, ch).parser
                     && calls == old(calls) + Perform(old(view), action, ch).calls
    {
      ok := true;
      if action != NoAction {
        ok := DoAction(action, ch);
      }
    }

    method DoTransition(action: Action, ch: Byte, newState: State) returns (ok: bool)
      requires Valid()
      modifies this, intermediateChars, params
      ensures ok == Transition(old(view), action, ch, newState).Next?
      ensures ok ==> && Valid() && view == Transition(old(view), action, ch, newState).parser
                     && calls == old(calls) + Transition(old(view), action, ch, newState).calls
    {
      ghost var p := view;
      ok := DoIfAny(ExitAction(state), 0);
      if !ok { return; }
      ghost var x, q := Perform(p, ExitAction(p.state), 0).calls, view;
      ok := DoIfAny(action, ch);
      if !ok { return; }
      ghost var y, r := Perform(q, action, ch).calls, view;
      ok := DoIfAny(EntryAction(newState), 0);
      if !ok { return; }
      Regrouped(old(calls), x, y, Perform(r, EntryAction(newState), 0).calls);
      state, view := newState, view.(state := newState);
    }

    method DoStateChange(ch: Byte) returns (ok: bool)
      requires Valid()
      modifies this, intermediateChars, params
      ensures ok == Step(old(view), ch).Next?
      ensures ok ==> Valid() && view == Step(old(view), ch).parser && calls == old(calls) + Step(old(view), ch).calls
    {
      var change := StateTable(state, ch);
      if change.Go? {
        ok := DoTransition(change.action, ch, change.state);
      } else {
        ok := DoAction(change.action, ch);
      }
    }

    /** Parses bytes until the end or until the parameters overrun their array. */
    method Parse(bytes: seq<Byte>) returns (ok: bool)
      requires Valid()
      modifies this, intermediateChars, params
      ensures ok == Run(old(view), bytes).Next?
      ensures ok ==> Valid() && view == Run(old(view), bytes).parser
                     && calls == old(calls) + Run(old(view), bytes).calls
    {
      for i := 0 to |bytes|
        invariant Valid() && SoFar(old(view), old(calls), bytes[..i], view, calls)
      {
        RunMore(old(view), bytes, i);
        SoFarMore(old(view), old(calls), bytes[..i], bytes[i], bytes[..i + 1], view, calls);
        ok := DoStateChange(bytes[i]);
        if !ok {
          OverrunStays(old(view), bytes, i + 1);
          return;
        }
      }
      assert bytes[..|bytes|] == bytes;
      ok := true;
    }
  }

  /** The run over `done` ended in `q`, with `calls` made since `was`. */
  ghost predicate SoFar(p: Parser, was: seq<Call>, done: seq<Byte>, q: Parser, calls: seq<Call>) {
    Run(p, done).Next? && Run(p, done).parser == q && calls == was + Run(p, done).calls
  }

  lemma Regrouped(a: seq<Call>, b: seq<Call>, c: seq<Call>, d: seq<Call>)
    ensures a + b + c + d == a + (b + c + d)
  {
  }

  lemma SoFarMore(p: Parser, was: seq<Call>, done: seq<Byte>, ch: Byte, more: seq<Byte>, q: Parser, calls: seq<Call>)
    requires SoFar(p, was, done, q, calls) && Run(p, more) == Continue(Run(p, done), ch)
    ensures Run(p, more).Next? <==> Step(q, ch).Next?
    ensures Step(q, ch).Next? ==> SoFar(p, was, more, Step(q, ch).parser, calls + Step(q, ch).calls)
  {
    ContinuedCalls(Run(p, done), ch, was);
  }

  lemma ContinuedCalls(o: Outcome, ch: Byte, was: seq<Call>)
    requires o.Next?
    ensures Continue(o, ch).Next? <==> Step(o.parser, ch).Next?
    ensures Step(o.parser, ch).Next? ==>
              && Continue(o, ch).parser == Step(o.parser, ch).parser
              && was + o.calls + Step(o.parser, ch).calls == was + Continue(o, ch).calls
  {
  }

  lemma RunMore(p: Parser, bytes: seq<Byte>, i: nat)
    requires i < |bytes|
    ensures Run(p, bytes[..i + 1]) == Continue(Run(p, bytes[..i]), bytes[i])
  {
    assert bytes[..i + 1][..i] == bytes[..i];
  }

  lemma {:induction false} OverrunStays(p: Parser, bytes: seq<Byte>, i: nat)
    requires i <= |bytes| && Run(p, bytes[..i]).Overrun?
    ensures Run(p, bytes).Overrun?
    decreases |bytes| - i
  {
    if i < |bytes| {
      RunMore(p, bytes, i);
      OverrunStays(p, bytes, i + 1);
    } else {
      assert bytes[..i] == bytes;
    }
  }
}
