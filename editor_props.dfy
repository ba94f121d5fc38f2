/**
 * What the editor's handlers guarantee: the history stays within its cap and
 * undo walks back over every commit, the edit window splices exactly the
 * selected symbols, arrows move the cursor by one or to the range end, and
 * the rendered line holds the tokens with one cursor marker among them.
 */
module EditorProps {
  import opened Wrappers
  import opened Types
  import opened JsText
  import opened InputUtils
  import opened EditorSpec

  // ------------------------------------------------------------- history

  /** Undoing right after a commit brings back the entry that was current before it. */
  lemma UndoAfterCommit(st: EditorState, snap: Snapshot)
    requires ValidState(st)
    requires snap.expression != Text(st)
    ensures var c := Commit(st, snap);
      var u := UndoSpec(c).0;
      && ValidState(u)
      && u.actions == c.actions
      && u.currentStep == c.currentStep - 1
      && Current(u) == Current(st)
  {
    var c := Commit(st, snap);
    assert c.currentStep >= 1;
    StepMovesKeepHistory(c);
    var u := UndoSpec(c).0;
    assert Current(u) == c.actions[c.currentStep - 1];
  }

  /** At the first entry undo does nothing; at the last entry redo does nothing. */
  lemma HistoryGuards(st: EditorState)
    requires ValidState(st)
    ensures st.currentStep == 0 ==> UndoSpec(st) == (st, NoRequest)
    ensures st.currentStep == |st.actions| - 1 ==> RedoSpec(st) == (st, NoRequest)
  {
  }

  /**
   * Undo and redo move the current index by exactly one (or not at all at
   * the ends), keep the history itself, and keep the state valid; the cursor
   * goes to the position the new current entry records, or to the end of the
   * range undo restores.
   */
  lemma StepMovesKeepHistory(st: EditorState)
    requires ValidState(st)
    ensures var u := UndoSpec(st).0;
      && ValidState(u) && u.actions == st.actions
      && u.currentStep == (if st.currentStep == 0 then 0 else st.currentStep - 1)
      && (st.currentStep > 0 ==>
            u.cursor == match st.actions[st.currentStep].selection
                        case None => Current(u).cursorPosition
                        case Some(sel) => sel.1)
    ensures var r := RedoSpec(st).0;
      && ValidState(r) && r.actions == st.actions
      && r.currentStep == (if st.currentStep == |st.actions| - 1 then st.currentStep else st.currentStep + 1)
      && (st.currentStep < |st.actions| - 1 ==> r.cursor == Current(r).cursorPosition)
  {
  }

  /** Redo after undo returns to the same entry, with the cursor where that entry puts it. */
  lemma RedoAfterUndo(st: EditorState)
    requires ValidState(st) && st.currentStep >= 1
    ensures var r := RedoSpec(UndoSpec(st).0).0;
      r.actions == st.actions && r.currentStep == st.currentStep && r.cursor == Current(st).cursorPosition
  {
  }

  /** Clearing can be undone: one undo brings back the text that was current. */
  lemma ClearThenUndo(st: EditorState)
    requires ValidState(st)
    ensures var u := UndoSpec(ClearSpec(st)).0;
      ValidState(u) && Current(u) == Current(st) && |u.actions| == 2
  {
  }

  // ---------------------------------------------------------- edit window

  /** Splicing nothing out and nothing in leaves the text as it was. */
  lemma SpliceNothing(s: string, start: int)
    ensures Splice(s, start, 0, []) == s
  {
    var r := Splice(s, start, 0, []);
    var a := SpliceStart(start, |s|);
    assert r == r[..a] + r[a..];
  }

  /** With no range, pasting puts the text in at the cursor and moves the cursor past it. */
  lemma PasteAtCursor(st: EditorState, data: string)
    requires ValidState(st)
    requires st.range.direction == NoDirection && st.range.firstElement < 0
    requires 0 <= st.cursor <= |Text(st)|
    ensures PasteSnapshot(st, data)
      == Snapshot(Text(st)[..st.cursor] + data + Text(st)[st.cursor..], st.cursor + |data|, None)
  {
  }

  /**
   * Over a range, pasting replaces its symbols, puts the cursor after the
   * pasted text and remembers the range in the snapshot.
   */
  lemma PasteOverRange(st: EditorState, data: string)
    requires ValidState(st)
    requires st.range.direction != NoDirection
    requires st.range.firstElement >= 0 && st.range.lastElement >= 0 && st.range.numberOfElements >= 0
    requires st.range.firstElement + st.range.numberOfElements <= |Text(st)|
    ensures var f, n := st.range.firstElement, st.range.numberOfElements;
      PasteSnapshot(st, data)
        == Snapshot(Text(st)[..f] + data + Text(st)[f + n..], f + |data|, Some((f, st.range.lastElement)))
  {
  }

  /** Cutting a range removes its symbols and leaves the cursor where the range began. */
  lemma CutOverRange(st: EditorState)
    requires ValidState(st)
    requires st.range.direction != NoDirection
    requires st.range.firstElement >= 0 && st.range.lastElement >= 0 && st.range.numberOfElements >= 0
    requires st.range.firstElement + st.range.numberOfElements <= |Text(st)|
    ensures var f, n := st.range.firstElement, st.range.numberOfElements;
      CutSnapshot(st) == Snapshot(Text(st)[..f] + Text(st)[f + n..], f, Some((f, st.range.lastElement)))
  {
  }

  /** Cutting with no range changes nothing but the range. */
  lemma CutWithoutRange(st: EditorState)
    requires ValidState(st)
    requires st.range.direction == NoDirection
    ensures CutSpec(st) == st.(range := DefaultSelectionRange)
  {
    SpliceNothing(Text(st), EditStart(st.range, st.cursor));
  }

  /** Backspace at the start with no range does nothing. */
  lemma BackspaceAtStart(st: EditorState)
    requires ValidState(st)
    requires st.range.numberOfElements == 0 && st.cursor == 0
    ensures BackspaceSpec(st) == st
  {
  }

  /** Backspace with no range removes the symbol before the cursor, commits, and moves the cursor back. */
  lemma BackspaceRemovesOne(st: EditorState)
    requires ValidState(st)
    requires st.range.numberOfElements == 0 && 1 <= st.cursor <= |Text(st)|
    ensures var r := BackspaceSpec(st);
      && Text(r) == Text(st)[..st.cursor - 1] + Text(st)[st.cursor..]
      && r.cursor == st.cursor - 1
      && r.currentStep == |r.actions| - 1
      && r.actions[r.currentStep - 1] == Current(st)
  {
    var t := Splice(Text(st), st.cursor - 1, 1, []);
    assert |t| == |Text(st)| - 1;
  }

  /** Delete at the end with no range does nothing. */
  lemma DeleteAtEnd(st: EditorState)
    requires ValidState(st)
    requires st.range.numberOfElements == 0 && st.cursor == |Text(st)|
    ensures DeleteSpec(st) == st
  {
  }

  /** Delete with no range removes the symbol after the cursor, commits, and keeps the cursor. */
  lemma DeleteRemovesOne(st: EditorState)
    requires ValidState(st)
    requires st.range.numberOfElements == 0 && 0 <= st.cursor < |Text(st)|
    ensures var r := DeleteSpec(st);
      && Text(r) == Text(st)[..st.cursor] + Text(st)[st.cursor + 1..]
      && r.cursor == st.cursor
      && r.currentStep == |r.actions| - 1
      && r.actions[r.currentStep - 1] == Current(st)
  {
    var t := Splice(Text(st), st.cursor, 1, []);
    assert |t| == |Text(st)| - 1;
  }

  /** With a non-empty range, Backspace and Delete both cut it. */
  lemma RangeKeysCut(st: EditorState)
    requires ValidState(st)
    requires st.range.numberOfElements != 0
    ensures BackspaceSpec(st) == CutSpec(st) && DeleteSpec(st) == CutSpec(st)
  {
  }

  // --------------------------------------------------------------- insert

  /**
   * A group pattern over a range wraps it: everything but the pattern's last
   * character goes before the range, that character after it. The selected
   * symbols survive in order, shifted right, and the text grows by the
   * pattern's length.
   */
  lemma {:induction false} PairWrap(text: string, range: SelectionRange, cursor: int, ins: InsertType)
    requires ins.isGroup && range.direction != NoDirection && |ins.insert| > 0
    requires 0 <= InsertStart(range) <= range.lastElement <= |text|
    ensures var f, l, k := InsertStart(range), range.lastElement, |ins.insert|;
      var r := InsertedText(text, range, cursor, ins);
      && r == text[..f] + ins.insert[..k - 1] + text[f..l] + [ins.insert[k - 1]] + text[l..]
      && |r| == |text| + k
      && r[f + k - 1..l + k - 1] == text[f..l]
  {
    var f, l, k := InsertStart(range), range.lastElement, |ins.insert|;
    var t1 := Splice(text, l, 0, Last(ins.insert));
    assert t1 == text[..l] + [ins.insert[k - 1]] + text[l..];
    var t2 := Splice(t1, f, 0, DropLast(ins.insert));
    assert t2 == t1[..f] + ins.insert[..k - 1] + t1[f..];
    assert t1[..f] == text[..f];
    assert t1[f..] == text[f..l] + [ins.insert[k - 1]] + text[l..];
    var r := text[..f] + ins.insert[..k - 1] + text[f..l] + [ins.insert[k - 1]] + text[l..];
    assert t2 == r;
    assert r[f + k - 1..l + k - 1] == text[f..l];
  }

  /** With no range, an insert goes in at the cursor. */
  lemma InsertAtCursor(st: EditorState, ins: InsertType)
    requires ValidState(st)
    requires st.range.direction == NoDirection
    requires st.range.firstElement < 0 && st.range.lastElement < 0 && st.range.numberOfElements == 0
    requires 0 <= st.cursor <= |Text(st)|
    ensures var r := InsertSnapshot(st, ins);
      && r.expression == Text(st)[..st.cursor] + ins.insert + Text(st)[st.cursor..]
      && r.cursorPosition == st.cursor + (if ins.selection.Some? then ins.selection.value.to else |ins.insert|)
      && r.selection.None?
  {
  }

  /**
   * Over a range, a plain insert replaces its symbols; the cursor lands after
   * the inserted text, or at the placeholder end the pattern names.
   */
  lemma InsertOverRange(st: EditorState, ins: InsertType)
    requires ValidState(st)
    requires !ins.isGroup
    requires st.range.firstElement >= 0 && st.range.lastElement >= 0 && st.range.numberOfElements >= 0
    requires st.range.firstElement + st.range.numberOfElements <= |Text(st)|
    ensures var f, n := st.range.firstElement, st.range.numberOfElements;
      var r := InsertSnapshot(st, ins);
      && r.expression == Text(st)[..f] + ins.insert + Text(st)[f + n..]
      && r.cursorPosition == f + (if ins.selection.Some? then ins.selection.value.to else |ins.insert|)
      && r.selection == Some((f, st.range.lastElement))
  {
  }

  /**
   * A pattern whose placeholder is to be selected gets it selected: the span
   * ends at the cursor the commit placed and is as long as the placeholder.
   */
  lemma InsertSelectsPlaceholder(st: EditorState, ins: InsertType)
    requires ValidState(st)
    requires ins.selection.Some? && ins.selection.value.select
    requires InsertSnapshot(st, ins).expression != Text(st)
    ensures var (r, req) := InsertSpec(st, ins);
      var sel := ins.selection.value;
      && r.cursor == InsertAnchor(st) + sel.to
      && req == SelectSpan(InsertAnchor(st) + sel.from, InsertAnchor(st) + sel.to)
  {
  }

  // --------------------------------------------------------------- arrows

  /** With no range, Right moves one step but not past the end. */
  lemma RightArrowNoRange(st: EditorState)
    requires ValidState(st)
    requires st.range.direction == NoDirection && 0 <= st.cursor <= |Text(st)|
    ensures RightSpec(st).cursor == if st.cursor < |Text(st)| then st.cursor + 1 else |Text(st)|
  {
  }

  /** With no range, Left does nothing at the start and otherwise moves one step. */
  lemma LeftArrowNoRange(st: EditorState)
    requires ValidState(st)
    requires st.range.direction == NoDirection && 0 <= st.cursor <= |Text(st)|
    ensures st.cursor == 0 ==> LeftSpec(st) == st
    ensures st.cursor > 0 ==> LeftSpec(st).cursor == st.cursor - 1
  {
  }

  /** Over a rightward range both arrows put the cursor at its end. */
  lemma ArrowsOverRightwardRange(st: EditorState)
    requires ValidState(st)
    requires st.range.direction == Right && st.range.lastElement >= 0
    ensures LeftSpec(st).cursor == st.range.lastElement && RightSpec(st).cursor == st.range.lastElement
  {
  }

  /** Over a leftward range Left keeps the cursor and Right moves it two steps, unclamped. */
  lemma ArrowsOverLeftwardRange(st: EditorState)
    requires ValidState(st)
    requires st.range.direction == Left
    ensures LeftSpec(st).cursor == st.cursor && RightSpec(st).cursor == st.cursor + 2
  {
  }

  /** Arrows commit nothing, and whenever they move they clear the range. */
  lemma ArrowsCommitNothing(st: EditorState)
    requires ValidState(st)
    ensures var l, r := LeftSpec(st), RightSpec(st);
      && l.actions == st.actions && l.currentStep == st.currentStep
      && r.actions == st.actions && r.currentStep == st.currentStep
      && r.range == DefaultSelectionRange
      && (l == st || l.range == DefaultSelectionRange)
  {
  }

  // ------------------------------------------------------ method templates

  /** A `str.` method other than `replace` takes the literal as its one argument. */
  lemma StrMethodTemplate(m: string, expression: string, flags: seq<string>)
    requires StartsWith(m, "str") && m != "str.replace"
    ensures GetRegexpMethod(m, expression, flags) == m + "(" + RegexpLiteral(expression, flags) + ")"
  {
  }

  /** `str.replace` takes the literal and an empty replacement. */
  lemma ReplaceTemplate(expression: string, flags: seq<string>)
    ensures GetRegexpMethod("str.replace", expression, flags)
      == "str.replace" + "(" + RegexpLiteral(expression, flags) + ", '')"
  {
    var call := "str.replace" + "(" + RegexpLiteral(expression, flags) + ")";
    assert StartsWith("str.replace", "str");
    assert DropLast(call) == "str.replace" + "(" + RegexpLiteral(expression, flags);
  }

  /** A `regexp.` method is called on the literal with `str`. */
  lemma RegexpMethodTemplate(name: string, expression: string, flags: seq<string>)
    ensures GetRegexpMethod("regexp." + name, expression, flags)
      == RegexpLiteral(expression, flags) + "." + name + "(str)"
  {
    var m := "regexp." + name;
    assert !StartsWith(m, "str") by { assert m[0] == 'r'; }
    assert SliceFrom(m, 6) == "." + name;
  }

  // ------------------------------------------------------------- dispatch

  /** Every request leaves the editor in a valid state. */
  lemma ApplyKeepsValid(st: EditorState, ins: InsertType, clipboard: string, flags: seq<string>)
    requires ValidState(st)
    ensures ValidState(ApplySpec(st, ins, clipboard, flags).0)
  {
  }

  /** A method-template request only writes the template to the clipboard. */
  lemma MethodRequestTouchesNothing(st: EditorState, ins: InsertType, clipboard: string, flags: seq<string>)
    requires ValidState(st)
    requires StartsWith(ins.insert, MethodPrefix)
    ensures ApplySpec(st, ins, clipboard, flags)
      == (st, WriteClipboard(GetRegexpMethod(ins.insert[|MethodPrefix|..], Text(st), flags)))
  {
  }

  // --------------------------------------------------------------- render

  /** Leaving out markers distributes over concatenation. */
  lemma {:induction false} UnmarkConcat(a: seq<RenderItem>, b: seq<RenderItem>)
    ensures Unmark(a + b) == Unmark(a) + Unmark(b)
  {
    if |a| > 0 {
      UnmarkConcat(a[1..], b);
      assert (a + b)[1..] == a[1..] + b;
    } else {
      assert a + b == b;
    }
  }

  /** A line of symbols holds exactly its tokens. */
  lemma {:induction false} UnmarkItems(tokens: seq<Token>)
    ensures Unmark(Items(tokens)) == tokens
  {
    if |tokens| > 0 {
      UnmarkItems(tokens[1..]);
      assert Items(tokens)[1..] == Items(tokens[1..]);
    }
  }

  /** The rendered line holds one more item than there are tokens, the marker only at its index. */
  lemma RenderedShape(tokens: seq<Token>, cursor: int)
    ensures var items, m := Rendered(tokens, cursor), MarkerIndex(cursor, |tokens|);
      && |items| == |tokens| + 1
      && (forall i :: 0 <= i < |items| ==> (items[i] == CursorMarker <==> i == m))
  {
    var m := MarkerIndex(cursor, |tokens|);
    var all := Items(tokens);
    var items := Rendered(tokens, cursor);
    forall i | 0 <= i < |items| ensures items[i] == CursorMarker <==> i == m {
      if i < m {
        assert items[i] == all[i];
      } else if i > m {
        assert items[i] == all[i - 1];
      }
    }
  }

  /** Leaving the marker out of the rendered line gives the tokens back. */
  lemma RenderedUnmark(tokens: seq<Token>, cursor: int)
    ensures Unmark(Rendered(tokens, cursor)) == tokens
  {
    var m := MarkerIndex(cursor, |tokens|);
    var all := Items(tokens);
    var front, back := all[..m], all[m..];
    assert Rendered(tokens, cursor) == (front + [CursorMarker]) + back;
    UnmarkConcat(front + [CursorMarker], back);
    UnmarkConcat(front, [CursorMarker]);
    assert Unmark([CursorMarker]) == [] by {
      assert [CursorMarker][1..] == [];
    }
    assert Unmark(front + [CursorMarker]) == Unmark(front);
    UnmarkConcat(front, back);
    assert front + back == all;
    UnmarkItems(tokens);
  }

  /**
   * The rendered line holds one more item than there are tokens, exactly one
   * of them the cursor marker, at the cursor (clamped to the end); leaving the
   * marker out gives the tokens back.
   */
  lemma RenderedExact(tokens: seq<Token>, cursor: int)
    ensures var items, m := Rendered(tokens, cursor), MarkerIndex(cursor, |tokens|);
      && |items| == |tokens| + 1
      && (forall i :: 0 <= i < |items| ==> (items[i] == CursorMarker <==> i == m))
      && Unmark(items) == tokens
  {
    RenderedShape(tokens, cursor);
    RenderedUnmark(tokens, cursor);
  }
}
