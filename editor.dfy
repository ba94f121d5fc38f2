/**
 * The editor component: its history, cursor and range as fields that its
 * handlers update, each handler proved to produce the state its function in
 * `EditorSpec` describes.
 */
module CustomInput {
  import opened Wrappers
  import opened Types
  import opened JsText
  import opened InputUtils
  import opened ClassifierSpec
  import opened Classifier
  import opened EditorSpec
  import opened EditorProps

  /** Which way `changeHistoryStep` moves. */
  datatype StepChange = Previous | Next

  class Editor {
    /** The undo history. */
    var actions: seq<Snapshot>
    /** The index of the current entry. */
    var currentStep: int
    /** The cursor, as a gap index between symbols. */
    var cursor: int
    /** The selected range the host last reported. */
    var range: SelectionRange

    /** The fields as one value. */
    function State(): EditorState
      reads this
    {
      EditorState(actions, currentStep, cursor, range)
    }

    /** The history is non-empty, within its cap, and the current index points into it. */
    predicate Valid()
      reads this
    {
      ValidState(State())
    }

    /** The editor as mounted: one empty entry, the cursor at 0, no range. */
    constructor ()
      ensures State() == InitialState && Valid()
    {
      actions := [EmptySnapshot];
      currentStep := 0;
      cursor := 0;
      range := DefaultSelectionRange;
    }

    /** `changeHistory`: commit `newHistoryStep` and reset the range. */
    method ChangeHistory(newHistoryStep: Snapshot)
      requires Valid()
      modifies this
      ensures Valid()
      ensures State() == Commit(old(State()), newHistoryStep)
    {
      var history := actions;
      var nextStepNumber := currentStep + 1;
      if nextStepNumber < |history| {
        history := history[..nextStepNumber];
      }
      if |history| == MaxHistory {
        nextStepNumber := MaxHistory - 1;
        history := history[1..];
      }
      if newHistoryStep.expression != actions[currentStep].expression {
        actions := history + [newHistoryStep];
        currentStep := nextStepNumber;
        cursor := newHistoryStep.cursorPosition;
      }
      range := DefaultSelectionRange;
    }

    /** `onInputClear`: the current entry and an empty one after it, which becomes current. */
    method Clear()
      requires Valid()
      modifies this
      ensures Valid()
      ensures State() == ClearSpec(old(State()))
    {
      actions := [actions[currentStep], EmptySnapshot];
      currentStep := 1;
      range := DefaultSelectionRange;
      cursor := 0;
    }

    /** `onInputPaste`: splice `pasteData` over the range, or in at the cursor, and commit. */
    method Paste(pasteData: string)
      requires Valid()
      modifies this
      ensures Valid()
      ensures State() == PasteSpec(old(State()), pasteData)
    {
      var first, last := range.firstElement, range.lastElement;
      var newSymbols := Splice(actions[currentStep].expression,
        if first >= 0 then first else cursor,
        if range.direction != NoDirection then range.numberOfElements else 0,
        pasteData);
      var historyStep := SetHistoryStep(State(), newSymbols, |pasteData|);
      if first >= 0 && last >= 0 {
        historyStep := historyStep.(cursorPosition := first + |pasteData|, selection := Some((first, last)));
      }
      ChangeHistory(historyStep);
    }

    /** `onInputCut`: remove the range's symbols and commit. */
    method Cut()
      requires Valid()
      modifies this
      ensures Valid()
      ensures State() == CutSpec(old(State()))
    {
      var first, last := range.firstElement, range.lastElement;
      var newSymbols := Splice(actions[currentStep].expression,
        if first >= 0 then first else cursor,
        if range.direction != NoDirection then range.numberOfElements else 0,
        []);
      var historyStep := SetHistoryStep(State(), newSymbols, 0);
      if first >= 0 && last >= 0 {
        historyStep := historyStep.(cursorPosition := first, selection := Some((first, last)));
      }
      ChangeHistory(historyStep);
    }

    /** `onPressBackspace`. */
    method Backspace()
      requires Valid()
      modifies this
      ensures Valid()
      ensures State() == BackspaceSpec(old(State()))
    {
      if range.numberOfElements != 0 {
        Cut();
        return;
      }
      if cursor == 0 {
        return;
      }
      var newSymbols := Splice(actions[currentStep].expression, cursor - 1, 1, []);
      ChangeHistory(SetHistoryStep(State(), newSymbols, -1));
    }

    /** `onPressDelete`. */
    method Delete()
      requires Valid()
      modifies this
      ensures Valid()
      ensures State() == DeleteSpec(old(State()))
    {
      if range.numberOfElements != 0 {
        Cut();
        return;
      }
      if cursor == |actions[currentStep].expression| {
        return;
      }
      var newSymbols := Splice(actions[currentStep].expression, cursor, 1, []);
      ChangeHistory(SetHistoryStep(State(), newSymbols, 0));
    }

    /** `onPressArrow`: where an arrow aiming at `nextPosition` lands; resets the range. */
    method PressArrow(nextPosition: int) returns (target: int)
      requires Valid()
      modifies this
      ensures Valid()
      ensures target == ArrowTarget(nextPosition, |Text(old(State()))|, old(range))
      ensures State() == old(State()).(range := DefaultSelectionRange)
    {
      target := nextPosition;
      if range.direction == NoDirection && |actions[currentStep].expression| + 1 == target {
        target := target - 1;
      }
      if range.direction == Left {
        target := target + 1;
      }
      if range.direction == Right && range.lastElement >= 0 {
        target := range.lastElement;
      }
      range := DefaultSelectionRange;
    }

    /** `onPressLeftArrow`. */
    method LeftArrow()
      requires Valid()
      modifies this
      ensures Valid()
      ensures State() == LeftSpec(old(State()))
    {
      if cursor == 0 && range.direction == NoDirection {
        return;
      }
      var nextPosition := cursor - 1;
      nextPosition := PressArrow(nextPosition);
      cursor := nextPosition;
    }

    /** `onPressRightArrow`. */
    method RightArrow()
      requires Valid()
      modifies this
      ensures Valid()
      ensures State() == RightSpec(old(State()))
    {
      var nextPosition := cursor + 1;
      nextPosition := PressArrow(nextPosition);
      cursor := nextPosition;
    }

    /** `changeHistoryStep`: move one entry back or forward and put the cursor where it says. */
    method ChangeHistoryStep(change: StepChange)
      requires Valid()
      requires change == Previous ==> currentStep >= 1
      requires change == Next ==> currentStep + 1 < |actions|
      modifies this
      ensures Valid()
      ensures State() == ChangeStep(old(State()), if change == Next then old(currentStep) + 1 else old(currentStep) - 1)
    {
      var step := if change == Next then currentStep + 1 else currentStep - 1;
      currentStep := step;
      cursor := actions[step].cursorPosition;
    }

    /**
     * The effect that follows a step change: after undo, the range the undone
     * entry was made from is selected again and the cursor put at its end;
     * otherwise the host selection is cleared.
     */
    method StepChangeEffect(change: StepChange) returns (request: HostRequest)
      requires Valid()
      requires change == Previous ==> currentStep + 1 < |actions|
      modifies this
      ensures Valid()
      ensures change == Next ==> request == ClearSelection && State() == old(State())
      ensures change == Previous ==>
        match old(actions[currentStep + 1].selection)
        case None => request == ClearSelection && State() == old(State())
        case Some(sel) => request == SelectSpan(sel.0, sel.1) && State() == old(State()).(cursor := sel.1)
    {
      request := ClearSelection;
      if change == Previous {
        var selection := actions[currentStep + 1].selection;
        if selection.Some? {
          request := SelectSpan(selection.value.0, selection.value.1);
          cursor := selection.value.1;
        }
      }
    }

    /** Undo (`Control+KeyZ`). */
    method Undo() returns (request: HostRequest)
      requires Valid()
      modifies this
      ensures Valid()
      ensures (State(), request) == UndoSpec(old(State()))
    {
      if currentStep < 1 {
        return NoRequest;
      }
      ChangeHistoryStep(Previous);
      request := StepChangeEffect(Previous);
    }

    /** Redo (`Control+KeyY`). */
    method Redo() returns (request: HostRequest)
      requires Valid()
      modifies this
      ensures Valid()
      ensures (State(), request) == RedoSpec(old(State()))
    {
      if currentStep + 1 == |actions| {
        return NoRequest;
      }
      ChangeHistoryStep(Next);
      request := StepChangeEffect(Next);
    }

    /** The cursor part of `selectElementsWithArrow('left')`. */
    method ShiftLeft()
      requires Valid()
      modifies this
      ensures Valid()
      ensures State() == ShiftLeftSpec(old(State()))
    {
      if cursor <= 0 {
        return;
      }
      cursor := cursor - 1;
    }

    /** The cursor part of `selectElementsWithArrow('right')`. */
    method ShiftRight()
      requires Valid()
      modifies this
      ensures Valid()
      ensures State() == ShiftRightSpec(old(State()))
    {
      if cursor == |actions[currentStep].expression| {
        return;
      }
      cursor := cursor + 1;
    }

    /** The host's `selectionchange`: take over its selection unless it is anchored on the container. */
    method OnSelectionChange(anchoredOnContainer: bool, rawText: string, ends: Option<HostSelection>)
      requires Valid()
      modifies this
      ensures Valid()
      ensures State() == SelectionChangeSpec(old(State()), anchoredOnContainer, rawText, ends)
    {
      if anchoredOnContainer {
        return;
      }
      range := GetSelectionInfo(rawText, ends);
    }

    /** The text after the insert branch's splices. */
    method InsertSymbols(currentInsert: InsertType, firstElement: int) returns (newSymbols: string)
      requires Valid()
      requires firstElement == InsertStart(range)
      ensures newSymbols == InsertedText(actions[currentStep].expression, range, cursor, currentInsert)
    {
      newSymbols := actions[currentStep].expression;
      if currentInsert.isGroup && range.direction != NoDirection {
        newSymbols := Splice(newSymbols, range.lastElement, 0, Last(currentInsert.insert));
        newSymbols := Splice(newSymbols, firstElement, 0, DropLast(currentInsert.insert));
      } else {
        newSymbols := Splice(newSymbols, if firstElement >= 0 then firstElement else cursor,
          range.numberOfElements, currentInsert.insert);
      }
    }

    /** The snapshot the insert branch commits, and whether its placeholder is to be selected. */
    method InsertHistoryStep(currentInsert: InsertType) returns (historyStep: Snapshot, isInsertSelected: bool)
      requires Valid()
      ensures historyStep == InsertSnapshot(State(), currentInsert)
      ensures isInsertSelected <==> currentInsert.selection.Some? && currentInsert.selection.value.select
    {
      var lastElement := range.lastElement;
      var firstElement := if range.firstElement < 0 then lastElement - range.numberOfElements else range.firstElement;
      var newSymbols := InsertSymbols(currentInsert, firstElement);
      historyStep := SetHistoryStep(State(), newSymbols, |currentInsert.insert|);
      if firstElement >= 0 && lastElement >= 0 {
        historyStep := historyStep.(cursorPosition := firstElement + |currentInsert.insert|,
                                    selection := Some((firstElement, lastElement)));
      }
      isInsertSelected := false;
      if currentInsert.selection.Some? {
        if currentInsert.selection.value.select {
          isInsertSelected := true;
        }
        historyStep := historyStep.(cursorPosition :=
          historyStep.cursorPosition - |currentInsert.insert| + currentInsert.selection.value.to);
      }
    }

    /**
     * The insert branch: splice the pattern in (wrapping the range for a group
     * pattern), place the cursor, commit, and then select the pattern's
     * placeholder when it asks for that.
     */
    method Insert(currentInsert: InsertType) returns (request: HostRequest)
      requires Valid()
      modifies this
      ensures Valid()
      ensures (State(), request) == InsertSpec(old(State()), currentInsert)
    {
      var historyStep, isInsertSelected := InsertHistoryStep(currentInsert);
      ChangeHistory(historyStep);
      request := NoRequest;
      if isInsertSelected {
        var sel := currentInsert.selection.value;
        request := SelectSpan(cursor + sel.from - sel.to, cursor);
      }
    }

    /** What the editor does with one insertion request; `clipboard` is what a paste reads. */
    method Apply(currentInsert: InsertType, clipboard: string, flags: seq<string>) returns (request: HostRequest)
      requires Valid()
      modifies this
      ensures Valid()
      ensures (State(), request) == ApplySpec(old(State()), currentInsert, clipboard, flags)
    {
      var key := currentInsert.insert;
      request := NoRequest;
      if key == "" {
        return;
      }
      if StartsWith(key, MethodPrefix) {
        request := WriteClipboard(GetRegexpMethod(key[|MethodPrefix|..], actions[currentStep].expression, flags));
        return;
      }
      if key == "copy expression" {
        request := WriteClipboard(actions[currentStep].expression);
      } else if key == "clear input" {
        Clear();
      } else if key == "Backspace" {
        Backspace();
      } else if key == "Delete" {
        Delete();
      } else if key == "ArrowLeft" {
        LeftArrow();
      } else if key == "ArrowRight" {
        RightArrow();
      } else if key == "Control+KeyZ" {
        request := Undo();
      } else if key == "Control+KeyY" {
        request := Redo();
      } else if key == "Control+KeyX" {
        request := WriteClipboard(range.text);
        Cut();
      } else if key == "Control+KeyC" {
        request := WriteClipboard(range.text);
      } else if key == "Control+KeyV" {
        Paste(clipboard);
      } else if key == "Control+KeyA" {
        request := SelectAll;
      } else if key == "Shift+ArrowLeft" {
        ShiftLeft();
      } else if key == "Shift+ArrowRight" {
        ShiftRight();
      } else {
        request := Insert(currentInsert);
      }
    }

    /**
     * The render projection: the highlighter's tokens with the cursor marker
     * pushed at the end, put in front, or spliced in at the cursor.
     */
    method Render() returns (renderExpression: seq<RenderItem>)
      requires Valid()
      ensures renderExpression == Rendered(Classify(actions[currentStep].expression), cursor)
      ensures |renderExpression| == |actions[currentStep].expression| + 1
      ensures Unmark(renderExpression) == Classify(actions[currentStep].expression)
    {
      var expression := actions[currentStep].expression;
      var tokens := AnalyzeExpression(expression);
      var items := Items(tokens);
      renderExpression := items;
      if cursor >= |expression| {
        renderExpression := renderExpression + [CursorMarker];
        assert items[..|items|] == items;
      } else if cursor == 0 {
        renderExpression := [CursorMarker] + renderExpression;
      } else {
        renderExpression := Splice(renderExpression, cursor, 0, [CursorMarker]);
        var m := SpliceStart(cursor, |items|);
        assert renderExpression == items[..m] + [CursorMarker] + items[m..];
      }
      RenderedExact(tokens, cursor);
    }
  }
}
