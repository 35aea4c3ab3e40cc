/** What a stream of text, sequences and strings means. */
module Vt500Grammar {
  import opened Vt500Table
  import opened Vt500Parser
  import opened Vt500Runs
  import opened Vt500Csi
  import opened Vt500Strings
  import opened Vt500Dcs
  import opened Memory

  /** What a terminal is sent. */
  datatype Item =
    | Characters(bytes: seq<Byte>)
    | Control(ctl: Byte)
    | EscapeItem(mid: seq<Byte>, final: Byte)
    | CsiItem(intro: seq<Byte>, marker: seq<Byte>, params: seq<Byte>, mid: seq<Byte>, final: Byte)
    | BadCsi(intro: seq<Byte>, marker: seq<Byte>, params: seq<Byte>, mid: seq<Byte>, bad: Byte, rest: seq<Byte>,
             final: Byte)
    | DcsItem(intro: seq<Byte>, marker: seq<Byte>, params: seq<Byte>, mid: seq<Byte>, final: Byte, data: seq<Byte>,
              end: seq<Byte>)
    | BadDcs(intro: seq<Byte>, marker: seq<Byte>, params: seq<Byte>, mid: seq<Byte>, bad: Byte, rest: seq<Byte>,
             end: seq<Byte>)
    | OscItem(intro: seq<Byte>, data: seq<Byte>, end: seq<Byte>)
    | SilentItem(kind: Intro, intro: seq<Byte>, data: seq<Byte>, end: seq<Byte>)

  ghost predicate ReadableParts(marker: seq<Byte>, q: seq<Byte>, t: seq<Byte>) {
    CsiParts(marker, q, t) && |Given(Clean(q))| <= MAX_PARAMS
  }

  ghost predicate Proper(x: Item) {
    match x
    case Characters(bytes) => Text(bytes)
    case Control(b) => Aborts(b) || b == 0x9c
    case EscapeItem(t, final) =>
      IntermediatesOrEmbedded(t) && 0x30 <= final <= 0x7e && (Clean(t) == [] ==> IsEscFinal(final))
    case CsiItem(intro, marker, q, t, final) => IsIntro(Csi, intro) && ReadableParts(marker, q, t) && IsFinal(final)
    case BadCsi(intro, marker, q, t, bad, rest, final) =>
      && IsIntro(Csi, intro) && ReadableParts(marker, q, t) && IsBad(marker, Clean(q), Clean(t), bad)
      && (forall i :: 0 <= i < |rest| ==> IsSkipped(rest[i])) && IsFinal(final)
    case DcsItem(intro, marker, q, t, final, data, end) =>
      IsIntro(Dcs, intro) && ReadableParts(marker, q, t) && IsFinal(final) && Data(data) && IsEnd(end)
    case BadDcs(intro, marker, q, t, bad, rest, end) =>
      && IsIntro(Dcs, intro) && ReadableParts(marker, q, t) && IsBad(marker, Clean(q), Clean(t), bad)
      && Data(rest) && IsEnd(end)
    case OscItem(intro, data, end) => IsIntro(Osc, intro) && Data(data) && IsEnd(end)
    case SilentItem(k, intro, data, end) =>
      (k == Sos || k == Pm || k == Apc) && IsIntro(k, intro) && Data(data) && IsEnd(end)
  }

  function Spelled(x: Item): seq<Byte> {
    match x
    case Characters(bytes) => bytes
    case Control(b) => [b]
    case EscapeItem(t, final) => [ESC] + t + [final]
    case CsiItem(intro, marker, q, t, final) => intro + (marker + q + t + [final])
    case BadCsi(intro, marker, q, t, bad, rest, final) => intro + (marker + q + t + [bad] + rest + [final])
    case DcsItem(intro, marker, q, t, final, data, end) => intro + marker + q + t + [final] + data + end
    case BadDcs(intro, marker, q, t, bad, rest, end) => intro + marker + q + t + [bad] + rest + end
    case OscItem(intro, data, end) => intro + data + end
    case SilentItem(_, intro, data, end) => intro + data + end
  }

  /** What a client is told. */
  function Meaning(x: Item): seq<Call> {
    match x
    case Characters(bytes) => Each(Shown, bytes)
    case Control(b) => if b == 0x9c then [] else [Plain(Execute, b)]
    case EscapeItem(t, final) => EscMeaning(t, final)
    case CsiItem(_, marker, q, t, final) =>
      var r := Registers(marker, q, t);
      Executed(q) + Executed(t) + [Dispatch(CsiDispatch, final, r.intermediates, r.params, r.ignoreFlagged)]
    case BadCsi(_, _, q, t, _, rest, _) => Executed(q) + Executed(t) + Each(SkippedCalls, rest)
    case DcsItem(_, marker, q, t, _, data, end) => HookMeaning(Registers(marker, q, t), data) + EndMeaning(end)
    case BadDcs(_, _, _, _, _, rest, end) => Each(SilentCalls, rest) + EndMeaning(end)
    case OscItem(_, data, end) =>
      [Plain(OscStart, 0)] + Each(OscCalls, data) + [Plain(OscEnd, 0)] + EndMeaning(end)
    case SilentItem(_, _, data, end) => Each(SilentCalls, data) + EndMeaning(end)
  }

  /** The run ends where text is expected and has told the client `calls`. */
  ghost predicate Says(p: Parser, bytes: seq<Byte>, calls: seq<Call>) {
    Run(p, bytes).Next? && Run(p, bytes).parser.state == Ground && Run(p, bytes).calls == calls
  }

  lemma TellsCharacters(p: Parser, bytes: seq<Byte>)
    requires p.state == Ground && Text(bytes)
    ensures Says(p, bytes, Each(Shown, bytes))
  {
    TextRun(p, [], bytes);
    assert [] + Each(Shown, bytes) == Each(Shown, bytes);
  }

  lemma TellsControl(p: Parser, b: Byte)
    requires p.state == Ground && (Aborts(b) || b == 0x9c)
    ensures Says(p, [b], if b == 0x9c then [] else [Plain(Execute, b)])
  {
    RunOne(Next(p, []), b);
    if b == 0x9c { Terminating(p); } else { Aborting(p, b); }
  }

  lemma TellsEscape(p: Parser, t: seq<Byte>, final: Byte)
    requires p.state == Ground && Proper(EscapeItem(t, final))
    ensures Says(p, [ESC] + t + [final], EscMeaning(t, final))
  {
    EscapeSequence(p, t, final);
    assert [] + EscMeaning(t, final) == EscMeaning(t, final);
  }

  lemma InOrder(marker: seq<Byte>, q: seq<Byte>, t: seq<Byte>, rest: seq<Byte>)
    ensures [ESC, BRACKET] + (marker + q + t + rest) == Prologue(marker) + q + t + rest
  {
  }

  lemma BadInOrder(head: seq<Byte>, bad: seq<Byte>, rest: seq<Byte>, final: seq<Byte>)
    ensures head + bad + rest + final == head + (bad + rest + final)
  {
  }

  lemma TellsCsi(p: Parser, x: Item)
    requires p.state == Ground && x.CsiItem? && Proper(x)
    ensures Says(p, Spelled(x), Meaning(x))
  {
    CsiSpelling(p, x.intro, x.marker + x.params + x.mid + [x.final]);
    InOrder(x.marker, x.params, x.mid, [x.final]);
    ControlSequence(p, x.marker, x.params, x.mid, x.final);
    assert [] + Executed(x.params) == Executed(x.params);
  }

  lemma TellsBadCsi(p: Parser, x: Item)
    requires p.state == Ground && x.BadCsi? && Proper(x)
    ensures Says(p, Spelled(x), Meaning(x))
  {
    CsiSpelling(p, x.intro, x.marker + x.params + x.mid + [x.bad] + x.rest + [x.final]);
    InOrder(x.marker, x.params, x.mid, [x.bad] + x.rest + [x.final]);
    BadInOrder(x.marker + x.params + x.mid, [x.bad], x.rest, [x.final]);
    BadInOrder(Prologue(x.marker) + x.params + x.mid, [x.bad], x.rest, [x.final]);
    IllFormed(p, x.marker, x.params, x.mid, x.bad, x.rest, x.final);
    assert [] + Executed(x.params) == Executed(x.params);
  }

  lemma TellsDcs(p: Parser, x: Item)
    requires p.state == Ground && x.DcsItem? && Proper(x)
    ensures Says(p, Spelled(x), Meaning(x))
  {
    DeviceControl(p, x.intro, x.marker, x.params, x.mid, x.final, x.data, x.end);
    var h := HookMeaning(Registers(x.marker, x.params, x.mid), x.data);
    assert [] + h == h;
  }

  lemma TellsBadDcs(p: Parser, x: Item)
    requires p.state == Ground && x.BadDcs? && Proper(x)
    ensures Says(p, Spelled(x), Meaning(x))
  {
    IllFormedDcs(p, x.intro, x.marker, x.params, x.mid, x.bad, x.rest, x.end);
    assert [] + Each(SilentCalls, x.rest) == Each(SilentCalls, x.rest);
  }

  lemma TellsOsc(p: Parser, x: Item)
    requires p.state == Ground && x.OscItem? && Proper(x)
    ensures Says(p, Spelled(x), Meaning(x))
  {
    OscSequence(p, x.intro, x.data, x.end);
    assert [] + [Plain(OscStart, 0)] == [Plain(OscStart, 0)];
  }

  lemma TellsSilent(p: Parser, x: Item)
    requires p.state == Ground && x.SilentItem? && Proper(x)
    ensures Says(p, Spelled(x), Meaning(x))
  {
    SilentString(p, x.kind, x.intro, x.data, x.end);
    assert [] + Each(SilentCalls, x.data) == Each(SilentCalls, x.data);
  }

  /** Every item means what it should, and leaves the parser ready for the next one. */
  lemma ItemMeaning(p: Parser, x: Item)
    requires p.state == Ground && Proper(x)
    ensures Says(p, Spelled(x), Meaning(x))
  {
    match x
    case Characters(bytes) => TellsCharacters(p, bytes);
    case Control(b) => TellsControl(p, b);
    case EscapeItem(t, final) => TellsEscape(p, t, final);
    case CsiItem(_, _, _, _, _) => TellsCsi(p, x);
    case BadCsi(_, _, _, _, _, _, _) => TellsBadCsi(p, x);
    case DcsItem(_, _, _, _, _, _, _) => TellsDcs(p, x);
    case BadDcs(_, _, _, _, _, _, _) => TellsBadDcs(p, x);
    case OscItem(_, _, _) => TellsOsc(p, x);
    case SilentItem(_, _, _, _) => TellsSilent(p, x);
  }

  function SpelledAll(xs: seq<Item>): seq<Byte> {
    if xs == [] then [] else SpelledAll(xs[..|xs| - 1]) + Spelled(xs[|xs| - 1])
  }

  function MeaningAll(xs: seq<Item>): seq<Call> {
    if xs == [] then [] else MeaningAll(xs[..|xs| - 1]) + Meaning(xs[|xs| - 1])
  }

  /**
   A stream is read as what it is made of: text, control characters, sequences and strings, well-formed or not,
   call back for each of them in order, with nothing in between.
   */
  lemma {:induction false} StreamMeaning(p: Parser, xs: seq<Item>)
    requires p.state == Ground && forall i :: 0 <= i < |xs| ==> Proper(xs[i])
    ensures Says(p, SpelledAll(xs), MeaningAll(xs))
  {
    if xs != [] {
      var front, x := xs[..|xs| - 1], xs[|xs| - 1];
      StreamMeaning(p, front);
      var o := Run(p, SpelledAll(front));
      ItemMeaning(o.parser, x);
      RunSplit(Next(p, []), SpelledAll(front), Spelled(x));
      RunFrom(o.parser, o.calls, Spelled(x));
    }
  }
}
