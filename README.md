# Regexp constructor: a Dafny model of its editor core

The regexp constructor is a web page for building regular expressions from a
palette of buttons and hotkeys. Its core is a custom input that does not use a
browser text field. Instead it keeps:

- an undo history of snapshots;
- a cursor (a gap index between symbols);
- a selected range that the host's selection reports.

Every render runs the expression through a highlighter that tags each character
with its syntax role: escape, group number, quantifier brace, set bracket,
operator, special-group prefix or named-group prefix.

Around it sit three more pieces:

- a key handler that turns key presses into insertion requests, in plain mode or
  in hotkey mode, and keeps the active flags;
- a context menu that copies the selection in three formats;
- button hints that shorten key codes.

The project models those pieces:

| file | what it holds |
|---|---|
| `wrappers.dfy` | `Option` |
| `js_text.dfy` | the JavaScript string and array built-ins the code relies on (`splice`, `slice` with negative indices, `startsWith`, `includes`, `join`) with their clamping written out |
| `types.dfy` | tokens, selection ranges, insertion requests and palette patterns |
| `classifier_spec.dfy` | the highlighter's output as a per-character closed form, `Classify` / `ClassifiedAt`, built on the scan state before each index |
| `classifier.dfy` | `analyzeExpression` as a method with its two loops, proved to return `Classify(expression)` |
| `classifier_props.dfy` | what the highlighter's tags mean: escapes, group ordinals, quantifier braces, sets, group prefixes |
| `input_utils.dfy` | `getSelectionInfo` and `groupClass` |
| `editor_spec.dfy` | every editor handler as a function on an `EditorState` value, including the 50-entry history cap |
| `editor.dfy` | the editor as a class whose fields the handlers update; each method is proved to produce its `EditorSpec` state |
| `editor_props.dfy` | undo/redo, paste, cut, delete, arrows, insertion, method templates and rendering, proved about the spec functions |
| `regexp_constructor.dfy` | the key handler as a class with its held keys, flags and hotkey switch; the palette table; flag toggling |
| `context_menu.dfy` | the menu position, the three copy formats, reading a copied string back, the click handler |
| `buttons.dfy` | the key hint shown on a palette button |

Effects that the page performs on the browser become values:

- placing the host selection, clearing it, and writing the clipboard become a
  `HostRequest` that a method returns;
- the host's `selectionchange` becomes a call carrying what the host reports;
- the clipboard text a paste reads is a parameter.

## Model

| member | source | states |
|---|---|---|
| JsText.Splice | src/components/customInput/CustomInput.tsx:214-237 | the array `splice` leaves: the prefix up to the clamped start, the items, then the rest after the clamped count |
| InputUtils.Position | src/components/customInput/utils.ts:3-14 | a point in a symbol element is that element's index plus its offset; an unknown node gives −1 |
| InputUtils.GetSelectionInfo | src/components/customInput/utils.ts:24-52 | the selected text with line breaks removed; with ends at two different positions, the direction, the lower and higher end as first and last element, and the count as the length of the text rather than of the span; otherwise the empty range |
| InputUtils.SelectionInfoSymmetric | src/components/customInput/utils.ts:24-52 | swapping anchor and focus selects the same span with the opposite direction |
| InputUtils.SelectionInfoKnownEnds | src/components/customInput/utils.ts:24-52 | with both ends in symbol elements at different positions, neither end is −1 and the count is the length of the text; at one position the range is empty; the count is never negative |
| InputUtils.ClassOfRankExact | src/components/customInput/utils.ts:177-208 | the class picked at a rank has that rank and is called for by the token's tags, and none of that rank is missed |
| InputUtils.EmitClass | src/components/customInput/utils.ts:177-208 | pushing a called-for class of the next rank keeps the class list exact and ordered |
| InputUtils.ClassesBelowExact | src/components/customInput/utils.ts:177-208 | the classes pushed for ranks below k are exactly those the tags call for, in emission order |
| InputUtils.GroupClass | src/components/customInput/utils.ts:177-208 | the style classes of a token: a class is present exactly when its tag is set, in the order the source pushes them |
| Classifier.QuantifierChars | src/components/customInput/utils.ts:95-99 | the filtered brace body keeps all its characters exactly when each is a digit, a comma or JavaScript white space |
| Classifier.FindCloseBracket | src/components/customInput/utils.ts:147-149 | the first `>` after the group opener, or −1 when there is none |
| Classifier.SetElementsTags | src/components/customInput/utils.ts:133-139 | the tokens strictly after k through `to` get the tag; all others are unchanged |
| Classifier.ScanSymbols | src/components/customInput/utils.ts:64-127 | after the first pass every token is the closed-form first-pass token of its index |
| Classifier.ScanSymbol | src/components/customInput/utils.ts:64-126 | one first-pass step tags the new symbol, advances the scan state and revokes exactly the brace the closed form revokes |
| Classifier.ScanOutsideSet | src/components/customInput/utils.ts:73-108 | the step for a symbol outside a set: groups, quantifier braces, set openers, operators |
| Classifier.NumericBodyByFilter | src/components/customInput/utils.ts:89-105 | the source's filter-and-compare test on a brace body agrees with the numeric-body predicate |
| Classifier.MarkGroupPrefixes | src/components/customInput/utils.ts:129-172 | the second pass turns the first-pass tokens into `Classify(s)` |
| Classifier.TagGroupPrefix | src/components/customInput/utils.ts:141-171 | one opener's step adds the named-group or special-group tags it covers and nothing else |
| Classifier.TagNamedGroup | src/components/customInput/utils.ts:146-158 | a `(?<name>` with a valid name tags everything through the first `>` as a named group |
| Classifier.TagSpecialGroup | src/components/customInput/utils.ts:159-171 | `(?:`, `(?=`, `(?!` tag two characters; `(?<=`, `(?<!` tag three |
| Classifier.NamedGroupEndAt | src/components/customInput/utils.ts:146-157 | the source's bracket search and name match accept exactly when the named-group end exists, and then agree on it |
| Classifier.NameTestAgrees | src/components/customInput/utils.ts:150-155 | the name regex matches at the start exactly when the name is an identifier start followed by word characters |
| Classifier.AnalyzeExpression | src/components/customInput/utils.ts:54-175 | the highlighter returns `Classify(expression)`: one token per character, carrying that character |
| ClassifierProps.EscapeSkipsTags | src/components/customInput/utils.ts:69-71 | an escaped character and its backslash carry the escape tag, and the character gets no other first-pass tag |
| ClassifierProps.EscapeTagExactly | src/components/customInput/utils.ts:69-71 | exactly the escaped characters and the backslashes escaping them carry the escape tag |
| ClassifierProps.EscaperIsUnescaped | src/components/customInput/utils.ts:120-124 | the backslash that escapes a character is itself not escaped |
| ClassifierProps.ExampleDoubleBackslash | src/components/customInput/utils.ts:120-124 | in `\\d` both backslashes are escape-tagged and the `d` is not |
| ClassifierProps.MaxGroupCountsOpeners | src/components/customInput/utils.ts:78-82 | the group counter equals the number of openers seen so far |
| ClassifierProps.OpenOrdinal | src/components/customInput/utils.ts:78-82 | every unescaped `(` outside a set gets the next group number, counting from 1 |
| ClassifierProps.StackHoldsOpeners | src/components/customInput/utils.ts:78-88 | every number on the open-group stack belongs to an earlier opener |
| ClassifierProps.StackIsUnmatched | src/components/customInput/utils.ts:78-88 | the open-group stack lists, in increasing order, exactly the group numbers handed out that no earlier `)` carries |
| ClassifierProps.CloseMatchesOpener | src/components/customInput/utils.ts:83-88 | a `)` that closes a group carries the number of the most recent group still open: opened earlier, carried by no earlier `)`, with every group opened after it already closed |
| ClassifierProps.UnmatchedCloseUntagged | src/components/customInput/utils.ts:83-88 | a `)` with no open group gets no group tag |
| ClassifierProps.ExampleGroupPair | src/components/customInput/utils.ts:78-88 | in `a(b)c` both parentheses carry group 1 |
| ClassifierProps.ExampleSequentialGroups | src/components/customInput/utils.ts:78-88 | in `(a)(b)` the first `)` closes group 1 and the second closes group 2 |
| ClassifierProps.PendingThrough | src/components/customInput/utils.ts:89-104 | a brace pending before i has been pending since just after it, with no `}` in between |
| ClassifierProps.PendingIsActive | src/components/customInput/utils.ts:89-92 | the pending brace is an unescaped `{` outside a set |
| ClassifierProps.OnlySettlement | src/components/customInput/utils.ts:94-105 | only the `}` that settles a `{` can revoke its tag |
| ClassifierProps.QuantifierSettled | src/components/customInput/utils.ts:94-105 | a settled `{…}` pair keeps its quantifier tags exactly when the body is numeric |
| ClassifierProps.UnclosedBraceKeepsTag | src/components/customInput/utils.ts:89-92 | a `{` still open when the scan ends keeps its tag |
| ClassifierProps.OverwrittenBraceKeepsTag | src/components/customInput/utils.ts:89-92 | a `{` replaced by a later `{` keeps its tag |
| ClassifierProps.ExampleNumericQuantifier | src/components/customInput/utils.ts:89-105 | in `a{2,5}b` both braces are quantifier braces |
| ClassifierProps.ExampleRevokedQuantifier | src/components/customInput/utils.ts:94-105 | in `a{x}b` neither brace is tagged |
| ClassifierProps.OutsideSetRoles | src/components/customInput/utils.ts:73-77 | outside a set `[` is a set bracket and the six operators are special |
| ClassifierProps.InsideSetRoles | src/components/customInput/utils.ts:109-117 | inside a set only the closing `]` and a `^` right after `[` are tagged |
| ClassifierProps.ExampleSet | src/components/customInput/utils.ts:109-117 | in `[(+]` the parenthesis and the plus are plain |
| ClassifierProps.SpecialGroupHasOpener | src/components/customInput/utils.ts:159-171 | every special-group character belongs to an opener at most three places before |
| ClassifierProps.NonCapturingPrefix | src/components/customInput/utils.ts:159-171 | `(?:`, `(?=` and `(?!` mark the two characters after the parenthesis |
| ClassifierProps.LookbehindPrefix | src/components/customInput/utils.ts:159-171 | `(?<=` and `(?<!` mark the three characters after the parenthesis |
| ClassifierProps.NamedGroupPrefix | src/components/customInput/utils.ts:146-158 | `(?<name>` marks everything from after the parenthesis through the first `>` |
| ClassifierProps.ExampleBadGroupName | src/components/customInput/utils.ts:146-158 | a name starting with a digit gives no named-group tags |
| ClassifierProps.ExampleNamedGroup | src/data/patterns.ts:153-163 | the named-group template `(?<name>)` has characters 1 to 7 tagged |
| EditorSpec.KeptHistory | src/components/customInput/CustomInput.tsx:104-116 | the history kept before a commit: the entries up to the current one, the oldest dropped at 50 |
| EditorSpec.Commit | src/components/customInput/CustomInput.tsx:104-126 | a changed text is appended after the entries up to the current one, the redo tail dropped and the oldest evicted at 50, and becomes current with its cursor; an unchanged text only resets the range; the state stays valid |
| EditorSpec.ChangeStep | src/components/customInput/CustomInput.tsx:321-330 | moving to another entry keeps the history and stays valid |
| EditorSpec.ClearSpec | src/components/customInput/CustomInput.tsx:194-201 | clearing leaves an empty current text with the cursor at 0 |
| EditorSpec.EditSnapshot | src/components/customInput/CustomInput.tsx:203-234 | the committed text, with the cursor at the range start plus the offset when the range is known, else at the cursor plus the offset |
| EditorSpec.InsertSnapshot | src/components/customInput/CustomInput.tsx:543-602 | an insert commits the spliced text and puts the cursor after the insert or at its placeholder end |
| EditorSpec.MarkerIndex | src/components/customInput/CustomInput.tsx:87-95 | the cursor marker goes at the cursor, or at the end when the cursor is past it |
| EditorSpec.Items | src/components/customInput/CustomInput.tsx:83-85 | one render item per token, carrying that token |
| EditorProps.UndoAfterCommit | src/components/customInput/CustomInput.tsx:104-126 | undoing right after a commit brings back the entry that was current before it |
| EditorProps.HistoryGuards | src/components/customInput/CustomInput.tsx:512-519 | undo at the first entry and redo at the last do nothing |
| EditorProps.StepMovesKeepHistory | src/components/customInput/CustomInput.tsx:321-330 | undo and redo keep the history and move the current index by one |
| EditorProps.RedoAfterUndo | src/components/customInput/CustomInput.tsx:321-330 | redo after undo returns to the same entry and cursor |
| EditorProps.ClearThenUndo | src/components/customInput/CustomInput.tsx:194-201 | one undo after clearing brings back the text that was current |
| EditorProps.PasteAtCursor | src/components/customInput/CustomInput.tsx:214-237 | with no range, a paste goes in at the cursor and the cursor moves past it |
| EditorProps.PasteOverRange | src/components/customInput/CustomInput.tsx:214-237 | with a range, a paste replaces its symbols and the cursor lands after the pasted text |
| EditorProps.CutOverRange | src/components/customInput/CustomInput.tsx:239-258 | cutting removes the range's symbols and leaves the cursor where the range began |
| EditorProps.CutWithoutRange | src/components/customInput/CustomInput.tsx:239-258 | cutting with no range changes nothing but the range |
| EditorProps.BackspaceAtStart | src/components/customInput/CustomInput.tsx:260-272 | Backspace at the start with no range does nothing |
| EditorProps.BackspaceRemovesOne | src/components/customInput/CustomInput.tsx:260-272 | Backspace with no range removes the symbol before the cursor and moves the cursor back |
| EditorProps.DeleteAtEnd | src/components/customInput/CustomInput.tsx:274-286 | Delete at the end with no range does nothing |
| EditorProps.DeleteRemovesOne | src/components/customInput/CustomInput.tsx:274-286 | Delete with no range removes the symbol after the cursor and keeps the cursor |
| EditorProps.RangeKeysCut | src/components/customInput/CustomInput.tsx:260-286 | with a non-empty range, Backspace and Delete both cut it |
| EditorProps.PairWrap | src/components/customInput/CustomInput.tsx:551-573 | a group insert over a range wraps the selected symbols between the two halves of the pattern |
| EditorProps.InsertAtCursor | src/components/customInput/CustomInput.tsx:543-602 | with no range an insert goes in at the cursor |
| EditorProps.InsertOverRange | src/components/customInput/CustomInput.tsx:543-602 | a plain insert over a range replaces its symbols |
| EditorProps.InsertSelectsPlaceholder | src/components/customInput/CustomInput.tsx:605-624 | an insert with a selected placeholder asks the host to select exactly that placeholder |
| EditorProps.RightArrowNoRange | src/components/customInput/CustomInput.tsx:315-319 | with no range Right moves one step but not past the end |
| EditorProps.LeftArrowNoRange | src/components/customInput/CustomInput.tsx:307-313 | with no range Left does nothing at the start and otherwise moves one step |
| EditorProps.ArrowsOverRightwardRange | src/components/customInput/CustomInput.tsx:288-319 | over a rightward range both arrows put the cursor at its end |
| EditorProps.ArrowsOverLeftwardRange | src/components/customInput/CustomInput.tsx:288-319 | over a leftward range Left keeps the cursor and Right moves it two steps, unclamped |
| EditorProps.ArrowsCommitNothing | src/components/customInput/CustomInput.tsx:288-319 | arrows never change the history, and when they move they clear the range |
| EditorProps.StrMethodTemplate | src/components/customInput/CustomInput.tsx:446-458 | a `str.` method other than `replace` takes the literal as its one argument |
| EditorProps.ReplaceTemplate | src/components/customInput/CustomInput.tsx:446-458 | `str.replace` takes the literal and an empty replacement |
| EditorProps.RegexpMethodTemplate | src/components/customInput/CustomInput.tsx:446-458 | a `regexp.` method is called on the literal with `str` |
| EditorProps.ApplyKeepsValid | src/components/customInput/CustomInput.tsx:482-602 | every request leaves the history non-empty, within its cap, with the current index inside it |
| EditorProps.MethodRequestTouchesNothing | src/components/customInput/CustomInput.tsx:482-541 | a method-template request only writes the template to the clipboard |
| EditorProps.UnmarkItems | src/components/customInput/CustomInput.tsx:83-95 | leaving out cursor markers from the item line gives the tokens back |
| EditorProps.RenderedShape | src/components/customInput/CustomInput.tsx:83-95 | the rendered line has one more item than there are symbols, with the cursor marker only at its index |
| EditorProps.RenderedUnmark | src/components/customInput/CustomInput.tsx:83-95 | leaving the marker out of the rendered line gives the tokens back |
| EditorProps.RenderedExact | src/components/customInput/CustomInput.tsx:83-95 | both of the above at once |
| CustomInput.Editor.constructor | src/components/customInput/CustomInput.tsx:47-64 | the editor mounts with one empty entry, the cursor at 0 and no range |
| CustomInput.Editor.ChangeHistory | src/components/customInput/CustomInput.tsx:104-126 | the new state is `Commit` of the old one, and it is valid |
| CustomInput.Editor.Clear | src/components/customInput/CustomInput.tsx:194-201 | the new state is `ClearSpec` of the old one |
| CustomInput.Editor.Paste | src/components/customInput/CustomInput.tsx:214-237 | the new state is `PasteSpec` of the old one |
| CustomInput.Editor.Cut | src/components/customInput/CustomInput.tsx:239-258 | the new state is `CutSpec` of the old one |
| CustomInput.Editor.Backspace | src/components/customInput/CustomInput.tsx:260-272 | the new state is `BackspaceSpec` of the old one |
| CustomInput.Editor.Delete | src/components/customInput/CustomInput.tsx:274-286 | the new state is `DeleteSpec` of the old one |
| CustomInput.Editor.PressArrow | src/components/customInput/CustomInput.tsx:288-305 | the landing index is the clamped arrow target, and only the range is reset |
| CustomInput.Editor.LeftArrow | src/components/customInput/CustomInput.tsx:307-313 | the new state is `LeftSpec` of the old one |
| CustomInput.Editor.RightArrow | src/components/customInput/CustomInput.tsx:315-319 | the new state is `RightSpec` of the old one |
| CustomInput.Editor.ChangeHistoryStep | src/components/customInput/CustomInput.tsx:321-330 | the current index moves by one and the cursor goes where that entry says |
| CustomInput.Editor.StepChangeEffect | src/components/customInput/CustomInput.tsx:460-480 | after a redo the host selection is cleared; after an undo the previous entry's change is selected |
| CustomInput.Editor.Undo | src/components/customInput/CustomInput.tsx:512-515 | the new state and the host request are those of `UndoSpec` |
| CustomInput.Editor.Redo | src/components/customInput/CustomInput.tsx:516-519 | the new state and the host request are those of `RedoSpec` |
| CustomInput.Editor.ShiftLeft | src/components/customInput/CustomInput.tsx:342-425 | the new state is `ShiftLeftSpec` of the old one |
| CustomInput.Editor.ShiftRight | src/components/customInput/CustomInput.tsx:342-425 | the new state is `ShiftRightSpec` of the old one |
| CustomInput.Editor.OnSelectionChange | src/components/customInput/CustomInput.tsx:626-633 | the range becomes what `getSelectionInfo` reports, unless the selection is anchored on the container |
| CustomInput.Editor.InsertSymbols | src/components/customInput/CustomInput.tsx:543-583 | the text after the insert branch's splices is `InsertedText` |
| CustomInput.Editor.InsertHistoryStep | src/components/customInput/CustomInput.tsx:543-602 | the committed snapshot is `InsertSnapshot`, and the placeholder is selected exactly when the request asks for it |
| CustomInput.Editor.Insert | src/components/customInput/CustomInput.tsx:543-624 | the new state and the host request are those of `InsertSpec` |
| CustomInput.Editor.Apply | src/components/customInput/CustomInput.tsx:482-602 | the new state and the host request are those of `ApplySpec` |
| CustomInput.Editor.Render | src/components/customInput/CustomInput.tsx:83-95 | the rendered line is the classified symbols with the cursor marker, one item longer, and the symbols come back when the marker is left out |
| RegexpConstructor.FindPattern | src/components/RegexpConstructor/RegexpConstructor.tsx:96-105 | the lookup returns the first pattern with the code, and none exactly when no pattern has it |
| RegexpConstructor.AddedKeys | src/components/RegexpConstructor/RegexpConstructor.tsx:48-66 | a key is recorded when nothing or a modifier is held; otherwise the held keys reset to just that key |
| RegexpConstructor.Without | src/components/RegexpConstructor/RegexpConstructor.tsx:38-41 | removing a flag keeps every other flag and nothing else |
| RegexpConstructor.Toggle | src/components/RegexpConstructor/RegexpConstructor.tsx:38-41 | toggling a flag flips its membership and keeps the others |
| RegexpConstructor.KeyTracker.constructor | src/components/RegexpConstructor/RegexpConstructor.tsx:31-36 | nothing held, no flags, hotkey mode off |
| RegexpConstructor.KeyTracker.ChangeActiveFlags | src/components/RegexpConstructor/RegexpConstructor.tsx:38-41 | the flags become `Toggle` of the old ones |
| RegexpConstructor.KeyTracker.SwitchHotkeyActive | src/components/RegexpConstructor/RegexpConstructor.tsx:43-46 | hotkey mode flips and an empty request is sent |
| RegexpConstructor.KeyTracker.AddPressedKey | src/components/RegexpConstructor/RegexpConstructor.tsx:48-66 | the held keys become `AddedKeys` of the old ones |
| RegexpConstructor.KeyTracker.DeletePressedKey | src/components/RegexpConstructor/RegexpConstructor.tsx:68-70 | a released key is forgotten, and nothing else changes |
| RegexpConstructor.KeyTracker.KeyPress | src/components/RegexpConstructor/RegexpConstructor.tsx:77-134 | Escape flips hotkey mode and sends an empty request; any other key is recorded and the request is `KeyDecision` |
| RegexpConstructor.PressThenRelease | src/components/RegexpConstructor/RegexpConstructor.tsx:48-70 | releasing a key added while a modifier was held gives back the keys held before |
| RegexpConstructor.ComposeOrder | src/components/RegexpConstructor/RegexpConstructor.tsx:83-94 | with both modifiers held the code reads `Control+Shift+…` and only the value gets `Control+` |
| RegexpConstructor.ComposeNoModifier | src/components/RegexpConstructor/RegexpConstructor.tsx:83-94 | with no modifier held the code and the value pass through unchanged |
| RegexpConstructor.HotkeyWins | src/components/RegexpConstructor/RegexpConstructor.tsx:96-105 | in hotkey mode a code bound to a pattern sends the first such pattern and nothing else |
| RegexpConstructor.PatternCodeShape | src/data/patterns.ts:1-213 | every palette code is 4, 5, 10 or 11 characters long, with `S` first when 10 |
| RegexpConstructor.NotPaletteShaped | src/data/patterns.ts:1-213 | a code without that shape is bound to no pattern |
| RegexpConstructor.EditingCodesAreNotHotkeys | src/components/RegexpConstructor/RegexpConstructor.tsx:111-133 | no editing command code is bound to a palette pattern |
| RegexpConstructor.EditingCodeSent | src/components/RegexpConstructor/RegexpConstructor.tsx:111-133 | an editing command is sent as its composed code, in either mode |
| RegexpConstructor.AvailableCharacterSent | src/components/RegexpConstructor/RegexpConstructor.tsx:107-109 | outside hotkey mode an available character is sent as itself |
| RegexpConstructor.CapitalNAvailable | src/data/ranges.ts:3-10 | the capital letter N is an available character |
| RegexpConstructor.ShiftKeyNBinding | src/data/patterns.ts:153-163 | `Shift+KeyN` finds the named-group template |
| RegexpConstructor.ShiftKeyNNoCommand | src/components/RegexpConstructor/RegexpConstructor.tsx:111-133 | `Shift+KeyN` is no editing command |
| RegexpConstructor.NamedGroupHotkey | src/components/RegexpConstructor/RegexpConstructor.tsx:96-105 | Shift+N in hotkey mode sends the named-group template with its name selected |
| RegexpConstructor.CapitalNTyped | src/components/RegexpConstructor/RegexpConstructor.tsx:107-109 | Shift+N outside hotkey mode types the capital letter |
| RegexpConstructor.WithoutAbsent | src/components/RegexpConstructor/RegexpConstructor.tsx:38-41 | removing an absent flag changes nothing |
| RegexpConstructor.WithoutDistinct | src/components/RegexpConstructor/RegexpConstructor.tsx:38-41 | removing a flag keeps the others distinct |
| RegexpConstructor.ToggleDistinct | src/components/RegexpConstructor/RegexpConstructor.tsx:38-41 | toggling keeps the active flags free of repeats |
| RegexpConstructor.OnThenOffRestores | src/components/RegexpConstructor/RegexpConstructor.tsx:38-41 | switching an inactive flag on and off again restores the flags exactly |
| RegexpConstructor.WithoutAppended | src/components/RegexpConstructor/RegexpConstructor.tsx:38-41 | removing a flag just appended to a list that lacked it gives the list back |
| RegexpConstructor.OffThenOnMovesLast | src/components/RegexpConstructor/RegexpConstructor.tsx:38-41 | switching an active flag off and on keeps the same flags but moves it last |
| RegexpConstructor.FlagOrderExample | src/components/RegexpConstructor/RegexpConstructor.tsx:38-41 | switching `i` off and on in `["i", "g"]` leaves `["g", "i"]` |
| ContextMenu.MenuLeft | src/components/customInput/contextMenu/ContextMenu.tsx:117-120 | the menu opens at the click when 210 pixels fit to the right, and otherwise ends at the window edge |
| ContextMenu.EscapeBackslashesAsWritten | src/components/customInput/contextMenu/ContextMenu.tsx:85 | the source's backslash rewrite never shortens the text and at most doubles it |
| ContextMenu.DoubleBackslashes | src/components/customInput/contextMenu/ContextMenu.tsx:85 | the intended rewrite never shortens the text and at most doubles it |
| ContextMenu.EscapeQuotes | src/components/customInput/contextMenu/ContextMenu.tsx:86 | the quote rewrite never shortens the text and at most doubles it |
| ContextMenu.NoBackslashUnchanged | src/components/customInput/contextMenu/ContextMenu.tsx:85 | text without a backslash passes both backslash rewrites unchanged |
| ContextMenu.NoQuoteUnchanged | src/components/customInput/contextMenu/ContextMenu.tsx:86 | text without a quote passes the quote rewrite unchanged |
| ContextMenu.EscapeQuotesConcat | src/components/customInput/contextMenu/ContextMenu.tsx:86 | the quote rewrite works piece by piece |
| ContextMenu.CopyWithFlags | src/components/customInput/contextMenu/ContextMenu.tsx:81 | the selection between slashes, followed by the flags |
| ContextMenu.CopyAsString | src/components/customInput/contextMenu/ContextMenu.tsx:83-89 | the intended format: the literal with every backslash doubled and every quote escaped, between single quotes |
| ContextMenu.CopyAsStringAsWritten | src/components/customInput/contextMenu/ContextMenu.tsx:83-89 | the source's format: the literal after the written backslash rewrite and the quote rewrite, between single quotes |
| ContextMenu.CopyAsStringReadsBack | src/components/customInput/contextMenu/ContextMenu.tsx:83-89 | with every backslash doubled, the copied string read as a JavaScript literal is the `copyWithFlags` text |
| ContextMenu.PlainTextUnchanged | src/components/customInput/contextMenu/ContextMenu.tsx:83-89 | text with no backslash and no quote appears unchanged between the delimiters |
| ContextMenu.BackslashBeforeCharacterAsWritten | src/components/customInput/contextMenu/ContextMenu.tsx:85 | as written, a backslash before any other character is doubled |
| ContextMenu.TwoBackslashesAsWritten | src/components/customInput/contextMenu/ContextMenu.tsx:85 | as written, two backslashes become four |
| ContextMenu.TrailingBackslashKept | src/components/customInput/contextMenu/ContextMenu.tsx:85 | as written, a final lone backslash stays single |
| ContextMenu.RewritesAgree | src/components/customInput/contextMenu/ContextMenu.tsx:85 | the written and the intended rewrites agree on every text that does not end in a backslash |
| ContextMenu.TrailingBackslashCopy | src/components/customInput/contextMenu/ContextMenu.tsx:83-89 | as written, the selection `a\` is copied as `'/a\/'` |
| ContextMenu.TrailingBackslashLost | src/components/customInput/contextMenu/ContextMenu.tsx:83-89 | that copy does not read back as the `copyWithFlags` text |
| ContextMenu.ClickHandler | src/components/customInput/contextMenu/ContextMenu.tsx:73-98 | each entry makes its one editor call, the string copy using the source's rewrite as written; every entry but select-all then closes the menu |
| ContextMenu.CopyFormatsAgree | src/components/customInput/contextMenu/ContextMenu.tsx:83-89 | the written and the intended string copies agree unless the text ends in a backslash |
| ContextMenu.ClickCopyAsStringReadsBack | src/components/customInput/contextMenu/ContextMenu.tsx:83-89 | the string copy the menu makes reads back as the `copyWithFlags` text when the selection has no line break and does not end in a backslash |
| ContextMenu.ClickCopyTrailingBackslash | src/components/customInput/contextMenu/ContextMenu.tsx:83-89 | the menu copies the selection `a\` with no flags as `'/a\/'`, then closes |
| Buttons.CutKeyFromShortcut | src/components/Buttons/Buttons.tsx:21-29 | `Shift+Key…` shows as `Shift+` and the last character, `Key…` as its last character, anything else unchanged |
| Buttons.CutKeyIdempotent | src/components/Buttons/Buttons.tsx:21-29 | a shortened hint is shortened no further |
| Buttons.CutKeyExamples | src/components/Buttons/Buttons.tsx:21-29 | `Shift+KeyN` shows `Shift+N`, `KeyA` shows `A`, `Space` and `Shift+Space` are unchanged |

## Left out

- Mouse handling is not modelled: cursor placement by click (`setCursorSide`), click and right-click handlers, and opening or closing the context menu on blur or scroll. These are DOM geometry.
- `selectAllExpression` is not modelled, and `selectElementsWithArrow` is modelled only for the cursor. Placing the DOM selection is the host's business; the editor learns the result through `OnSelectionChange`.
- The clipboard is not modelled. Reading it is a parameter of `Apply`. Writing it is a `WriteClipboard` request. Its asynchrony is not modelled.
- The URL hash, the timer that writes the expression to it, and the value read from a link are not modelled.
- Character ids from `uid()` are dropped: a symbol is its character, and a snapshot keeps only its text.
- The style sheet lookup is not modelled: `GroupClass` returns class keys, not CSS class names.
- InputUtils.GroupClass: modelled as a function that pushes classes rank by rank rather than as seven pushes onto a local array.
- The splice of the symbol array in the insert branch is modelled on values.
- `resetSelectRanges` sets the range to the default; the `removeAllRanges` call on the host is not modelled.
- The visual press of a palette button from a hotkey and the `preventDefault` on Space are not modelled.
- ContextMenu.LiteralValue reads only the escapes a copied string can hold. Any other escape, and a line break, give no value. CopyAsStringReadsBack therefore requires the text to have no line break.
- The button rendering and the method-select and menu components are not modelled.
- React's rendering and batching are assumed to apply each handler's updates together, before the next event.
- Text is a sequence of Unicode code points, while the page splits pasted and inserted text into UTF-16 code units and measures lengths in them. A character outside the Basic Multilingual Plane (an emoji, say) is two symbols there, and the cursor moves past it by 2; in this model it is one symbol and the cursor moves by 1.
- `getSelectionNode`'s DOM lookups become a `HostPoint` value: an element index and an offset, or unknown.

## Findings

| source | as written | input that shows it | evidently intended | confidence | as-written member | corrected member |
|---|---|---|---|---|---|---|
| src/components/customInput/contextMenu/ContextMenu.tsx:85 | the backslash rewrite doubles a backslash only when another character or a second backslash follows it, so a lone final backslash stays single | the selection `a\` is copied as `'/a\/'`; read as a JavaScript string that is `/a/`, not `/a\/` | every backslash doubled, so the copied string reads back as the `copyWithFlags` text | medium, not executed | ContextMenu.TrailingBackslashLost | ContextMenu.CopyAsStringReadsBack |

