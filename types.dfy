/** The data shapes shared by the editor, the classifier and the key handler. */
module Types {
  import opened Wrappers

  /** Which side of a parenthesis pair a group marker sits on. */
  datatype GroupRole = Open | Close

  /** A parenthesis that belongs to group number `number`. */
  datatype GroupMarker = GroupMarker(number: int, role: GroupRole)

  /**
   * One character of the expression together with its syntax roles. A tag the
   * classifier never sets is `false`, which is how `undefined` reads in the
   * highlighter.
   */
  datatype Token = Token(
    symbol: char,
    group: Option<GroupMarker>,
    isEscaped: bool,
    isQuantifier: bool,
    isSetBracket: bool,
    isSpecial: bool,
    isSpecialGroup: bool,
    isNamedGroup: bool)

  /** The untagged token for one character. */
  function Plain(c: char): (t: Token)
    ensures t.symbol == c && t.group == None
    ensures !t.isEscaped && !t.isQuantifier && !t.isSetBracket && !t.isSpecial
    ensures !t.isSpecialGroup && !t.isNamedGroup
  {
    Token(c, None, false, false, false, false, false, false)
  }

  /** Direction of a selected range; `NoDirection` means no active range. */
  datatype Direction = Left | Right | NoDirection

  /**
   * The editor's view of the host selection: gap indices, −1 meaning none.
   */
  datatype SelectionRange = SelectionRange(
    text: string,
    direction: Direction,
    firstElement: int,
    lastElement: int,
    numberOfElements: int)

  /** A placeholder inside an inserted pattern that the editor selects afterwards. */
  datatype InsertSelection = InsertSelection(from: int, to: int, select: bool)

  /**
   * An insertion request. An empty `insert` stands for a missing one; `isGroup`
   * false stands for a missing flag.
   */
  datatype InsertType = InsertType(insert: string, selection: Option<InsertSelection>, isGroup: bool)

  /** A palette button: what it inserts and the key code that triggers it. */
  datatype Pattern = Pattern(insert: string, code: string, selection: Option<InsertSelection>, isGroup: bool)

  /** The insertion request a palette button emits. */
  function PatternInsert(p: Pattern): (r: InsertType)
    ensures r.insert == p.insert && r.selection == p.selection && r.isGroup == p.isGroup
  {
    InsertType(p.insert, p.selection, p.isGroup)
  }
}
