/**
 * The editor's helpers around the highlighter: turning the host selection
 * into a `SelectionRange`, and turning a token's tags into its style classes.
 */
module InputUtils {
  import opened Wrappers
  import opened Types
  import opened JsText

  /** No selection: no direction, both ends −1, nothing selected. */
  const DefaultSelectionRange := SelectionRange("", NoDirection, -1, -1, 0)

  /**
   * One end of the host selection: the index of the symbol element it lies
   * in (`None` when the node is not one of them) and the offset inside it.
   */
  datatype HostPoint = HostPoint(node: Option<nat>, offset: nat)

  /** The anchor and focus ends of a host selection. */
  datatype HostSelection = HostSelection(anchor: HostPoint, focus: HostPoint)

  /** A point's gap index: the element index plus the offset, or −1 for an unknown node. */
  function Position(p: HostPoint): (r: int)
    ensures r == -1 || r >= 0
    ensures p.node.None? <==> r == -1
  {
    match p.node
    case None => -1
    case Some(index) => index + p.offset
  }

  /**
   * `getSelectionInfo`: the selected text with its line breaks removed, and,
   * when the selection has ends at two different positions, its direction,
   * its ends in order and the length of its text. `ends` is `None` when the
   * host selection has no anchor node.
   */
  function GetSelectionInfo(rawText: string, ends: Option<HostSelection>): (r: SelectionRange)
    ensures r.text == RemoveAll(rawText, '\n')
    ensures ends.None? || Position(ends.value.anchor) == Position(ends.value.focus)
      ==> r == DefaultSelectionRange.(text := r.text)
    ensures ends.Some? && Position(ends.value.anchor) != Position(ends.value.focus) ==>
      var a, f := Position(ends.value.anchor), Position(ends.value.focus);
      && (r.direction == Left <==> a > f)
      && r.direction != NoDirection
      && r.firstElement < r.lastElement
      && (r.firstElement == a || r.firstElement == f) && (r.lastElement == a || r.lastElement == f)
      && r.numberOfElements == |r.text|
  {
    var info := DefaultSelectionRange.(text := RemoveAll(rawText, '\n'));
    if ends.None? then info
    else
      var anchorPosition := Position(ends.value.anchor);
      var focusPosition := Position(ends.value.focus);
      if anchorPosition == focusPosition then info
      else info.(
        direction := if anchorPosition > focusPosition then Left else Right,
        firstElement := if anchorPosition < focusPosition then anchorPosition else focusPosition,
        lastElement := if anchorPosition > focusPosition then anchorPosition else focusPosition,
        numberOfElements := |info.text|)
  }

  /** Swapping anchor and focus selects the same span in the other direction. */
  lemma SelectionInfoSymmetric(rawText: string, sel: HostSelection)
    requires Position(sel.anchor) != Position(sel.focus)
    ensures var r := GetSelectionInfo(rawText, Some(sel));
      var q := GetSelectionInfo(rawText, Some(HostSelection(sel.focus, sel.anchor)));
      && q == r.(direction := if r.direction == Left then Right else Left)
  {
  }

  /**
   * A selection whose two ends lie in known symbol elements: at two different
   * positions it has no −1 end and counts the characters of its text; at one
   * position it is the empty range. The count is never negative.
   */
  lemma SelectionInfoKnownEnds(rawText: string, sel: HostSelection)
    requires sel.anchor.node.Some? && sel.focus.node.Some?
    ensures var r := GetSelectionInfo(rawText, Some(sel));
      && r.numberOfElements >= 0
      && (Position(sel.anchor) != Position(sel.focus) ==>
            && 0 <= r.firstElement < r.lastElement
            && r.numberOfElements == |RemoveAll(rawText, '\n')|)
      && (Position(sel.anchor) == Position(sel.focus) ==>
            r.firstElement == -1 && r.lastElement == -1 && r.numberOfElements == 0)
  {
  }

  // ---------------------------------------------------------- style classes

  /** The style classes a token can carry, in the order they are emitted. */
  datatype ClassKey =
    | GroupBracketOpen
    | GroupBracketClose
    | Escaped
    | QuantifierClass
    | SetBracket
    | Special
    | SpecialGroup
    | NamedGroup

  /** Position of a class in the emission order; the two bracket classes share the first slot. */
  function Rank(c: ClassKey): (n: nat)
    ensures n <= 6
  {
    match c
    case GroupBracketOpen => 0
    case GroupBracketClose => 0
    case Escaped => 1
    case QuantifierClass => 2
    case SetBracket => 3
    case Special => 4
    case SpecialGroup => 5
    case NamedGroup => 6
  }

  /** The token's tags call for class `c`. */
  predicate HasClass(t: Token, c: ClassKey)
  {
    match c
    case GroupBracketOpen => t.group.Some? && t.group.value.role == Open
    case GroupBracketClose => t.group.Some? && t.group.value.role == Close
    case Escaped => t.isEscaped
    case QuantifierClass => t.isQuantifier
    case SetBracket => t.isSetBracket
    case Special => t.isSpecial
    case SpecialGroup => t.isSpecialGroup
    case NamedGroup => t.isNamedGroup
  }

  /** `cs` holds, in rank order, exactly the classes of rank below `k` that `t` calls for. */
  ghost predicate EmittedBelow(t: Token, cs: seq<ClassKey>, k: nat)
  {
    && (forall c :: c in cs <==> HasClass(t, c) && Rank(c) < k)
    && (forall i :: 0 <= i < |cs| ==> Rank(cs[i]) < k)
    && (forall i, j :: 0 <= i < j < |cs| ==> Rank(cs[i]) < Rank(cs[j]))
  }

  /** The class of rank `k` the token calls for, if any. */
  function ClassOfRank(t: Token, k: nat): Option<ClassKey>
  {
    if k == 0 then (if t.group.None? then None else if t.group.value.role == Open then Some(GroupBracketOpen) else Some(GroupBracketClose))
    else if k == 1 then (if t.isEscaped then Some(Escaped) else None)
    else if k == 2 then (if t.isQuantifier then Some(QuantifierClass) else None)
    else if k == 3 then (if t.isSetBracket then Some(SetBracket) else None)
    else if k == 4 then (if t.isSpecial then Some(Special) else None)
    else if k == 5 then (if t.isSpecialGroup then Some(SpecialGroup) else None)
    else if k == 6 then (if t.isNamedGroup then Some(NamedGroup) else None)
    else None
  }

  /** What `ClassOfRank` picks has that rank and is called for, and nothing of that rank is missed. */
  lemma ClassOfRankExact(t: Token, k: nat)
    ensures ClassOfRank(t, k).Some? ==> Rank(ClassOfRank(t, k).value) == k && HasClass(t, ClassOfRank(t, k).value)
    ensures ClassOfRank(t, k).None? ==> forall c :: Rank(c) == k ==> !HasClass(t, c)
  {
  }

  /** The classes of the ranks below `k`, pushed one after another. */
  function ClassesBelow(t: Token, k: nat): seq<ClassKey>
  {
    if k == 0 then []
    else ClassesBelow(t, k - 1) + (match ClassOfRank(t, k - 1) case None => [] case Some(c) => [c])
  }

  /** Appending a class of rank `k` that `t` calls for keeps the order. */
  lemma EmitClass(t: Token, cs: seq<ClassKey>, k: nat, c: ClassKey)
    requires EmittedBelow(t, cs, k)
    requires Rank(c) == k && HasClass(t, c)
    ensures EmittedBelow(t, cs + [c], k + 1)
  {
    var r := cs + [c];
    forall d
      ensures d in r <==> HasClass(t, d) && Rank(d) < k + 1
    {
      assert d in r <==> d in cs || d == c;
    }
  }

  /** A rank the token calls for no class of adds nothing. */
  lemma SkipRank(t: Token, cs: seq<ClassKey>, k: nat)
    requires EmittedBelow(t, cs, k)
    requires forall c :: Rank(c) == k ==> !HasClass(t, c)
    ensures EmittedBelow(t, cs + [], k + 1)
  {
    assert cs + [] == cs;
  }

  /** One more rank keeps the classes exact. */
  lemma ClassesBelowStep(t: Token, k: nat)
    requires EmittedBelow(t, ClassesBelow(t, k), k)
    ensures EmittedBelow(t, ClassesBelow(t, k + 1), k + 1)
  {
    var below := ClassesBelow(t, k);
    ClassOfRankExact(t, k);
    match ClassOfRank(t, k)
    case None =>
      assert ClassesBelow(t, k + 1) == below + [];
      SkipRank(t, below, k);
    case Some(c) =>
      assert ClassesBelow(t, k + 1) == below + [c];
      EmitClass(t, below, k, c);
  }

  /** The classes below rank `k` are exactly those the token calls for, in rank order. */
  lemma {:induction false} ClassesBelowExact(t: Token, k: nat)
    ensures EmittedBelow(t, ClassesBelow(t, k), k)
  {
    if k > 0 {
      ClassesBelowExact(t, k - 1);
      ClassesBelowStep(t, k - 1);
    }
  }

  /**
   * `groupClass`: the style classes of a token, pushed in the fixed order
   * bracket, escaped, quantifier, set bracket, special, special group, named
   * group — each class the token's tags call for, once, and no other.
   */
  function GroupClass(symbol: Token): (specialClasses: seq<ClassKey>)
    ensures forall c :: c in specialClasses <==> HasClass(symbol, c)
    ensures forall i, j :: 0 <= i < j < |specialClasses| ==> Rank(specialClasses[i]) < Rank(specialClasses[j])
  {
    ClassesBelowExact(symbol, 7);
    ClassesBelow(symbol, 7)
  }
}
