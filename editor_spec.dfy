/**
 * The editor's state and what each of its handlers does to it, as functions
 * of the state the handler reads.
 *
 * The editor keeps a linear undo history of snapshots (at most fifty), the
 * index of the current one, a cursor (a gap index between symbols) and the
 * selected range reported by the host. Every handler reads one consistent
 * state and produces the next one; effects on the host selection and the
 * clipboard come back as a `HostRequest`.
 */
module EditorSpec {
  import opened Wrappers
  import opened Types
  import opened JsText
  import opened InputUtils

  /** The history never holds more snapshots than this. */
  const MaxHistory: nat := 50

  /**
   * One history entry: the expression text, where the cursor goes when the
   * entry becomes current, and the range that was edited to produce it.
   */
  datatype Snapshot = Snapshot(expression: string, cursorPosition: int, selection: Option<(int, int)>)

  /** The entry the editor starts from, and the one clearing appends. */
  const EmptySnapshot := Snapshot("", 0, None)

  /** The editor's state: the history, its current index, the cursor and the selected range. */
  datatype EditorState = EditorState(actions: seq<Snapshot>, currentStep: int, cursor: int, range: SelectionRange)

  /** The state the editor mounts with. */
  const InitialState := EditorState([EmptySnapshot], 0, 0, DefaultSelectionRange)

  /** The history is non-empty, within its cap, and the current index points into it. */
  predicate ValidState(st: EditorState)
  {
    1 <= |st.actions| <= MaxHistory && 0 <= st.currentStep < |st.actions|
  }

  /** The current snapshot. */
  function Current(st: EditorState): Snapshot
    requires ValidState(st)
  {
    st.actions[st.currentStep]
  }

  /** The current expression text. */
  function Text(st: EditorState): string
    requires ValidState(st)
  {
    Current(st).expression
  }

  /** What a handler asks of the host once the state is updated. */
  datatype HostRequest =
    | NoRequest
    | ClearSelection            // drop every host selection range
    | SelectSpan(from: int, to: int) // select the symbols with indices from .. to-1
    | SelectAll                 // select every symbol
    | WriteClipboard(text: string)

  // ------------------------------------------------------------- history

  /**
   * The entries a commit keeps: everything up to and including the current
   * one (the redo tail is dropped), minus the oldest when that would leave
   * fifty.
   */
  function KeptHistory(actions: seq<Snapshot>, currentStep: nat): (h: seq<Snapshot>)
    requires currentStep < |actions| <= MaxHistory
    ensures |h| == if currentStep + 1 == MaxHistory then MaxHistory - 1 else currentStep + 1
    ensures h == actions[currentStep + 1 - |h|..currentStep + 1]
  {
    var history := if currentStep + 1 < |actions| then actions[..currentStep + 1] else actions;
    if |history| == MaxHistory then history[1..] else history
  }

  /**
   * `changeHistory`: a snapshot whose text differs from the current one is
   * appended after the kept history and becomes current, and the cursor moves
   * to its position; a snapshot with the same text leaves history and cursor
   * alone. Either way the range is reset.
   */
  function Commit(st: EditorState, snap: Snapshot): (r: EditorState)
    requires ValidState(st)
    ensures ValidState(r)
    ensures r.range == DefaultSelectionRange
    ensures snap.expression == Text(st) ==> r == st.(range := DefaultSelectionRange)
    ensures snap.expression != Text(st) ==>
      && Current(r) == snap
      && r.currentStep == |r.actions| - 1
      && |r.actions| == (if st.currentStep + 2 > MaxHistory then MaxHistory else st.currentStep + 2)
      && r.actions[r.currentStep - 1] == Current(st)
      && r.actions == st.actions[st.currentStep + 2 - |r.actions|..st.currentStep + 1] + [snap]
      && r.cursor == snap.cursorPosition
  {
    var h := KeptHistory(st.actions, st.currentStep);
    if snap.expression != Text(st) then EditorState(h + [snap], |h|, snap.cursorPosition, DefaultSelectionRange)
    else st.(range := DefaultSelectionRange)
  }

  /** `setHistoryStep`: a snapshot of `text` with the cursor moved by `offset`. */
  function SetHistoryStep(st: EditorState, text: string, offset: int): Snapshot
  {
    Snapshot(text, st.cursor + offset, None)
  }

  /** `changeHistoryStep`: make entry `step` current and put the cursor where it says. */
  function ChangeStep(st: EditorState, step: int): (r: EditorState)
    requires ValidState(st) && 0 <= step < |st.actions|
    ensures ValidState(r) && r.actions == st.actions && r.currentStep == step
  {
    st.(currentStep := step, cursor := st.actions[step].cursorPosition)
  }

  /**
   * Undo: nothing at the first entry; otherwise step back, and restore the
   * range the undone entry was made from (selecting it and putting the cursor
   * at its end), or clear the host selection when it has none.
   */
  function UndoSpec(st: EditorState): (EditorState, HostRequest)
    requires ValidState(st)
  {
    if st.currentStep < 1 then (st, NoRequest)
    else
      var moved := ChangeStep(st, st.currentStep - 1);
      match st.actions[st.currentStep].selection
      case None => (moved, ClearSelection)
      case Some(sel) => (moved.(cursor := sel.1), SelectSpan(sel.0, sel.1))
  }

  /** Redo: nothing at the last entry; otherwise step forward and clear the host selection. */
  function RedoSpec(st: EditorState): (EditorState, HostRequest)
    requires ValidState(st)
  {
    if st.currentStep + 1 == |st.actions| then (st, NoRequest)
    else (ChangeStep(st, st.currentStep + 1), ClearSelection)
  }

  /** `onInputClear`: keep only the current entry followed by an empty one, and make that current. */
  function ClearSpec(st: EditorState): (r: EditorState)
    requires ValidState(st)
    ensures ValidState(r) && Text(r) == "" && r.cursor == 0
  {
    EditorState([Current(st), EmptySnapshot], 1, 0, DefaultSelectionRange)
  }

  // ---------------------------------------------------------- edit window

  /** Where paste and cut splice: the range's first end if known, else the cursor. */
  function EditStart(range: SelectionRange, cursor: int): int
  {
    if range.firstElement >= 0 then range.firstElement else cursor
  }

  /** How many symbols paste and cut replace: the range's length when a range is active. */
  function EditCount(range: SelectionRange): int
  {
    if range.direction != NoDirection then range.numberOfElements else 0
  }

  /**
   * A snapshot of `text` for an edit that put `length` symbols where the
   * range was: with both ends of the range known, the cursor goes to the
   * range start plus `length` and the range is remembered; otherwise the
   * cursor moves by `offset`.
   */
  function EditSnapshot(st: EditorState, text: string, offset: int, length: int): (r: Snapshot)
    ensures r.expression == text
    ensures st.range.firstElement >= 0 && st.range.lastElement >= 0 ==>
      r.cursorPosition == st.range.firstElement + length
      && r.selection == Some((st.range.firstElement, st.range.lastElement))
    ensures !(st.range.firstElement >= 0 && st.range.lastElement >= 0) ==>
      r.cursorPosition == st.cursor + offset && r.selection.None?
  {
    var step := SetHistoryStep(st, text, offset);
    if st.range.firstElement >= 0 && st.range.lastElement >= 0 then
      step.(cursorPosition := st.range.firstElement + length,
            selection := Some((st.range.firstElement, st.range.lastElement)))
    else step
  }

  /** `onInputPaste`: the snapshot that pasting `data` commits. */
  function PasteSnapshot(st: EditorState, data: string): Snapshot
    requires ValidState(st)
  {
    EditSnapshot(st, Splice(Text(st), EditStart(st.range, st.cursor), EditCount(st.range), data), |data|, |data|)
  }

  /** `onInputCut`: the snapshot that cutting the range commits. */
  function CutSnapshot(st: EditorState): Snapshot
    requires ValidState(st)
  {
    EditSnapshot(st, Splice(Text(st), EditStart(st.range, st.cursor), EditCount(st.range), []), 0, 0)
  }

  /** Pasting `data`. */
  function PasteSpec(st: EditorState, data: string): EditorState
    requires ValidState(st)
  {
    Commit(st, PasteSnapshot(st, data))
  }

  /** Cutting the range. */
  function CutSpec(st: EditorState): EditorState
    requires ValidState(st)
  {
    Commit(st, CutSnapshot(st))
  }

  /** `onPressBackspace`: cut a non-empty range, else remove the symbol before the cursor. */
  function BackspaceSpec(st: EditorState): EditorState
    requires ValidState(st)
  {
    if st.range.numberOfElements != 0 then CutSpec(st)
    else if st.cursor == 0 then st
    else Commit(st, SetHistoryStep(st, Splice(Text(st), st.cursor - 1, 1, []), -1))
  }

  /** `onPressDelete`: cut a non-empty range, else remove the symbol after the cursor. */
  function DeleteSpec(st: EditorState): EditorState
    requires ValidState(st)
  {
    if st.range.numberOfElements != 0 then CutSpec(st)
    else if st.cursor == |Text(st)| then st
    else Commit(st, SetHistoryStep(st, Splice(Text(st), st.cursor, 1, []), 0))
  }

  // --------------------------------------------------------------- arrows

  /**
   * `onPressArrow`: where an arrow press that aims at `next` lands, given the
   * text length and the range: one step back if it overshoots the end with no
   * range, one further right over a leftward range, the range end over a
   * rightward one.
   */
  function ArrowTarget(next: int, length: nat, range: SelectionRange): int
  {
    var a := if range.direction == NoDirection && length + 1 == next then next - 1 else next;
    var b := if range.direction == Left then a + 1 else a;
    if range.direction == Right && range.lastElement >= 0 then range.lastElement else b
  }

  /** `onPressLeftArrow`. */
  function LeftSpec(st: EditorState): EditorState
    requires ValidState(st)
  {
    if st.cursor == 0 && st.range.direction == NoDirection then st
    else st.(cursor := ArrowTarget(st.cursor - 1, |Text(st)|, st.range), range := DefaultSelectionRange)
  }

  /** `onPressRightArrow`. */
  function RightSpec(st: EditorState): EditorState
    requires ValidState(st)
  {
    st.(cursor := ArrowTarget(st.cursor + 1, |Text(st)|, st.range), range := DefaultSelectionRange)
  }

  /** The cursor part of `selectElementsWithArrow('left')`: one step left unless at the start. */
  function ShiftLeftSpec(st: EditorState): EditorState
    requires ValidState(st)
  {
    if st.cursor <= 0 then st else st.(cursor := st.cursor - 1)
  }

  /** The cursor part of `selectElementsWithArrow('right')`: one step right unless at the end. */
  function ShiftRightSpec(st: EditorState): EditorState
    requires ValidState(st)
  {
    if st.cursor == |Text(st)| then st else st.(cursor := st.cursor + 1)
  }

  /**
   * The host reports a new selection: ignored when it is anchored on the
   * symbol container itself, otherwise it becomes the range.
   */
  function SelectionChangeSpec(st: EditorState, anchoredOnContainer: bool, rawText: string, ends: Option<HostSelection>): EditorState
  {
    if anchoredOnContainer then st else st.(range := GetSelectionInfo(rawText, ends))
  }

  // --------------------------------------------------------------- insert

  /** The range start the insert uses: recomputed from the end and the length when unknown. */
  function InsertStart(range: SelectionRange): int
  {
    if range.firstElement < 0 then range.lastElement - range.numberOfElements else range.firstElement
  }

  /**
   * The text after an insert: a group pattern over an active range wraps it
   * (the last character after the range, the rest before it); anything else
   * replaces the range, or goes in at the cursor.
   */
  function InsertedText(text: string, range: SelectionRange, cursor: int, ins: InsertType): string
  {
    var first := InsertStart(range);
    if ins.isGroup && range.direction != NoDirection then
      Splice(Splice(text, range.lastElement, 0, Last(ins.insert)), first, 0, DropLast(ins.insert))
    else Splice(text, if first >= 0 then first else cursor, range.numberOfElements, ins.insert)
  }

  /** Where the inserted text starts, as the cursor placement counts it. */
  function InsertAnchor(st: EditorState): int
  {
    var first := InsertStart(st.range);
    if first >= 0 && st.range.lastElement >= 0 then first else st.cursor
  }

  /** The snapshot an insert commits. */
  function InsertSnapshot(st: EditorState, ins: InsertType): (r: Snapshot)
    requires ValidState(st)
    ensures r.expression == InsertedText(Text(st), st.range, st.cursor, ins)
    ensures ins.selection.None? ==> r.cursorPosition == InsertAnchor(st) + |ins.insert|
    ensures ins.selection.Some? ==> r.cursorPosition == InsertAnchor(st) + ins.selection.value.to
    ensures var first := InsertStart(st.range);
      r.selection == if first >= 0 && st.range.lastElement >= 0 then Some((first, st.range.lastElement)) else None
  {
    var first := InsertStart(st.range);
    var step := SetHistoryStep(st, InsertedText(Text(st), st.range, st.cursor, ins), |ins.insert|);
    var placed :=
      if first >= 0 && st.range.lastElement >= 0 then
        step.(cursorPosition := first + |ins.insert|, selection := Some((first, st.range.lastElement)))
      else step;
    match ins.selection
    case None => placed
    case Some(sel) => placed.(cursorPosition := placed.cursorPosition - |ins.insert| + sel.to)
  }

  /**
   * An insert: commit its snapshot, then, for a pattern with a placeholder
   * to select, select the placeholder, which ends at the new cursor.
   */
  function InsertSpec(st: EditorState, ins: InsertType): (EditorState, HostRequest)
    requires ValidState(st)
  {
    var after := Commit(st, InsertSnapshot(st, ins));
    match ins.selection
    case Some(sel) =>
      if sel.select then (after, SelectSpan(after.cursor + sel.from - sel.to, after.cursor)) else (after, NoRequest)
    case None => (after, NoRequest)
  }

  // ------------------------------------------------------ method templates

  /** The regular-expression literal `/expression/flags`, the flags joined in order. */
  function RegexpLiteral(expression: string, flags: seq<string>): string
  {
    "/" + expression + "/" + Join(flags)
  }

  /**
   * `getRegexpMethod`: a call template around the literal `/expression/flags`:
   * a `str.` method takes the literal as its argument (`replace` with an
   * empty replacement as well), a `regexp.` method is called on it with `str`.
   */
  function GetRegexpMethod(methodName: string, expression: string, flags: seq<string>): string
  {
    var regexp := RegexpLiteral(expression, flags);
    if StartsWith(methodName, "str") then
      var call := methodName + "(" + regexp + ")";
      if methodName == "str.replace" then DropLast(call) + ", '')" else call
    else regexp + SliceFrom(methodName, 6) + "(str)"
  }

  // ------------------------------------------------------------- dispatch

  /** The prefix that marks a request to copy a method template. */
  const MethodPrefix := "method."

  /** What the editor does with one insertion request. */
  function ApplySpec(st: EditorState, ins: InsertType, clipboard: string, flags: seq<string>): (EditorState, HostRequest)
    requires ValidState(st)
  {
    var key := ins.insert;
    if key == "" then (st, NoRequest)
    else if StartsWith(key, MethodPrefix) then
      (st, WriteClipboard(GetRegexpMethod(key[|MethodPrefix|..], Text(st), flags)))
    else if key == "copy expression" then (st, WriteClipboard(Text(st)))
    else if key == "clear input" then (ClearSpec(st), NoRequest)
    else if key == "Backspace" then (BackspaceSpec(st), NoRequest)
    else if key == "Delete" then (DeleteSpec(st), NoRequest)
    else if key == "ArrowLeft" then (LeftSpec(st), NoRequest)
    else if key == "ArrowRight" then (RightSpec(st), NoRequest)
    else if key == "Control+KeyZ" then UndoSpec(st)
    else if key == "Control+KeyY" then RedoSpec(st)
    else if key == "Control+KeyX" then (CutSpec(st), WriteClipboard(st.range.text))
    else if key == "Control+KeyC" then (st, WriteClipboard(st.range.text))
    else if key == "Control+KeyV" then (PasteSpec(st, clipboard), NoRequest)
    else if key == "Control+KeyA" then (st, SelectAll)
    else if key == "Shift+ArrowLeft" then (ShiftLeftSpec(st), NoRequest)
    else if key == "Shift+ArrowRight" then (ShiftRightSpec(st), NoRequest)
    else InsertSpec(st, ins)
  }

  // --------------------------------------------------------------- render

  /** One element of the rendered line: the cursor, or a tagged symbol. */
  datatype RenderItem = CursorMarker | SymbolItem(token: Token)

  /** Where the render places the cursor marker among `length` symbols. */
  function MarkerIndex(cursor: int, length: nat): (m: nat)
    ensures m <= length
    ensures cursor >= 0 ==> m == if cursor < length then cursor else length
  {
    if cursor >= length then length
    else if cursor == 0 then 0
    else SpliceStart(cursor, length)
  }

  /** The tokens as render items. */
  function Items(tokens: seq<Token>): (r: seq<RenderItem>)
    ensures |r| == |tokens|
    ensures forall i :: 0 <= i < |r| ==> r[i] == SymbolItem(tokens[i])
  {
    seq(|tokens|, i requires 0 <= i < |tokens| => SymbolItem(tokens[i]))
  }

  /** The rendered line: the tokens with the cursor marker at its index. */
  function Rendered(tokens: seq<Token>, cursor: int): seq<RenderItem>
  {
    var m := MarkerIndex(cursor, |tokens|);
    Items(tokens)[..m] + [CursorMarker] + Items(tokens)[m..]
  }

  /** The tokens of a rendered line, with every cursor marker left out. */
  function Unmark(items: seq<RenderItem>): seq<Token>
  {
    if |items| == 0 then []
    else
      match items[0]
      case CursorMarker => Unmark(items[1..])
      case SymbolItem(t) => [t] + Unmark(items[1..])
  }
}
