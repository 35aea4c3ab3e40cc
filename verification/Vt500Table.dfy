/** States, actions and the constant tables of the VT500 parser. */
module Vt500Table {
  import opened Memory

  datatype State =
    | CsiEntry | CsiIgnore | CsiIntermediate | CsiParam
    | DcsEntry | DcsIgnore | DcsIntermediate | DcsParam | DcsPassthrough
    | Escape | EscapeIntermediate | Ground | OscString | SosPmApcString

  datatype Action =
    | NoAction | Clear | Collect | CsiDispatch | EscDispatch | Execute | Hook | Ignore
    | OscEnd | OscPut | OscStart | Param | Print | Put | Unhook | Error

  /** `Stay` performs an action only; `Go` leaves the state, even if only to enter it again. */
  datatype Change = Stay(action: Action) | Go(action: Action, state: State)

  const CAN: Byte := 0x18
  const SUB: Byte := 0x1a
  const ESC: Byte := 0x1b

  predicate IsC0(ch: Byte) {
    ch < 0x20 && ch != CAN && ch != SUB && ch != ESC
  }

  /** The bytes that have the same meaning in all states. */
  predicate Synchronises(ch: Byte) {
    ch == CAN || ch == SUB || ch == ESC || 0x80 <= ch <= 0x9f
  }

  function Anywhere(ch: Byte): Change
    requires Synchronises(ch)
  {
    if ch == ESC then Go(NoAction, Escape)
    else if ch == 0x90 then Go(NoAction, DcsEntry)
    else if ch == 0x98 || ch == 0x9e || ch == 0x9f then Go(NoAction, SosPmApcString)
    else if ch == 0x9b then Go(NoAction, CsiEntry)
    else if ch == 0x9c then Go(NoAction, Ground)
    else if ch == 0x9d then Go(NoAction, OscString)
    else Go(Execute, Ground)
  }

  /** The rows for the states inside of a control sequence or a device control string. */
  function ParameterRow(ch: Byte, first: bool, param: State, intermediate: State, ignore: State, final: Change): Change
    requires 0x20 <= ch < 0x7f
  {
    if ch < 0x30 then Go(Collect, intermediate)
    else if ch == 0x3a then Go(NoAction, ignore)
    else if ch < 0x3c then (if first then Go(Param, param) else Stay(Param))
    else if ch < 0x40 then (if first then Go(Collect, param) else Go(NoAction, ignore))
    else final
  }

  function IntermediateRow(ch: Byte, ignore: State, final: Change): Change
    requires 0x20 <= ch < 0x7f
  {
    if ch < 0x30 then Stay(Collect) else if ch < 0x40 then Go(NoAction, ignore) else final
  }

  function EscapeRow(ch: Byte): Change
    requires 0x20 <= ch < 0x7f
  {
    if ch < 0x30 then Go(Collect, EscapeIntermediate)
    else if ch == 0x50 then Go(NoAction, DcsEntry)
    else if ch == 0x58 || ch == 0x5e || ch == 0x5f then Go(NoAction, SosPmApcString)
    else if ch == 0x5b then Go(NoAction, CsiEntry)
    else if ch == 0x5d then Go(NoAction, OscString)
    else Go(EscDispatch, Ground)
  }

  /** What a control character does that does not abort the sequence. */
  function C0Row(s: State): Change {
    match s
    case DcsPassthrough => Stay(Put)
    case DcsEntry | DcsIgnore | DcsIntermediate | DcsParam | OscString | SosPmApcString => Stay(Ignore)
    case _ => Stay(Execute)
  }

  function DelRow(s: State): Change {
    match s
    case Ground => Stay(Print)
    case OscString => Stay(OscPut)
    case _ => Stay(Ignore)
  }

  function GraphicRow(s: State, ch: Byte): Change
    requires 0x20 <= ch < 0x7f
  {
    match s
    case CsiEntry => ParameterRow(ch, true, CsiParam, CsiIntermediate, CsiIgnore, Go(CsiDispatch, Ground))
    case CsiParam => ParameterRow(ch, false, CsiParam, CsiIntermediate, CsiIgnore, Go(CsiDispatch, Ground))
    case CsiIntermediate => IntermediateRow(ch, CsiIgnore, Go(CsiDispatch, Ground))
    case CsiIgnore => if ch < 0x40 then Stay(Ignore) else Go(NoAction, Ground)
    case DcsEntry => ParameterRow(ch, true, DcsParam, DcsIntermediate, DcsIgnore, Go(NoAction, DcsPassthrough))
    case DcsParam => ParameterRow(ch, false, DcsParam, DcsIntermediate, DcsIgnore, Go(NoAction, DcsPassthrough))
    case DcsIntermediate => IntermediateRow(ch, DcsIgnore, Go(NoAction, DcsPassthrough))
    case DcsIgnore | SosPmApcString => Stay(Ignore)
    case DcsPassthrough => Stay(Put)
    case Escape => EscapeRow(ch)
    case EscapeIntermediate => if ch < 0x30 then Stay(Collect) else Go(EscDispatch, Ground)
    case Ground => Stay(Print)
    case OscString => Stay(OscPut)
  }

  /** `VT500_STATE_TABLE`. The entries from 160 on are not initialised, that is, zero. */
  function StateTable(s: State, ch: Byte): Change {
    if Synchronises(ch) then Anywhere(ch)
    else if ch >= 0xa0 then Stay(NoAction)
    else if ch < 0x20 then C0Row(s)
    else if ch == 0x7f then DelRow(s)
    else GraphicRow(s, ch)
  }

  function EntryAction(s: State): Action {
    match s
    case CsiEntry | DcsEntry | Escape => Clear
    case DcsPassthrough => Hook
    case OscString => OscStart
    case _ => NoAction
  }

  function ExitAction(s: State): Action {
    match s
    case DcsPassthrough => Unhook
    case OscString => OscEnd
    case _ => NoAction
  }
}
