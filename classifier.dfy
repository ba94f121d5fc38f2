/**
 * The syntax highlighter itself: one left-to-right scan that tags every
 * character, then a second look at every opening parenthesis for group
 * prefixes. Both passes work on a local token list that they update in place;
 * the result is proved equal to the position-by-position description in
 * `ClassifierSpec`.
 */
module Classifier {
  import opened Wrappers
  import opened Types
  import opened JsText
  import opened ClassifierSpec

  /** `body.filter(c => !isNaN(+c) || c === ',')`: the characters a quantifier body may hold. */
  function QuantifierChars(body: seq<char>): (r: seq<char>)
    ensures |r| <= |body|
    ensures |r| == |body| <==> forall t :: 0 <= t < |body| ==> IsQuantifierBodyChar(body[t])
  {
    if |body| == 0 then []
    else if IsQuantifierBodyChar(body[0]) then [body[0]] + QuantifierChars(body[1..])
    else QuantifierChars(body[1..])
  }

  /** The symbols of a token list, `tokens.map(t => t.symbol)`. */
  function Symbols(tokens: seq<Token>): (r: seq<char>)
    ensures |r| == |tokens|
    ensures forall t :: 0 <= t < |tokens| ==> r[t] == tokens[t].symbol
  {
    seq(|tokens|, t requires 0 <= t < |tokens| => tokens[t].symbol)
  }

  /** Which of the two second-pass tags `SetElementsTags` sets. */
  datatype GroupTag = SpecialGroupTag | NamedGroupTag

  /** `tok` with `tag` set. */
  function WithTag(tok: Token, tag: GroupTag): Token
  {
    match tag
    case SpecialGroupTag => tok.(isSpecialGroup := true)
    case NamedGroupTag => tok.(isNamedGroup := true)
  }

  /**
   * `findIndex((el, index) => el.symbol === '>' && index > after)`: the first
   * `>` past index `after`, or −1.
   */
  function FindCloseBracket(tokens: seq<Token>, after: nat): (r: int)
    decreases |tokens| - after
    ensures r == -1 || (after < r < |tokens| && tokens[r].symbol == '>')
    ensures r != -1 ==> forall q :: after < q < r ==> tokens[q].symbol != '>'
    ensures r == -1 ==> forall q :: after < q < |tokens| ==> tokens[q].symbol != '>'
  {
    if after + 1 >= |tokens| then -1
    else if tokens[after + 1].symbol == '>' then after + 1
    else FindCloseBracket(tokens, after + 1)
  }

  /**
   * The regular expression `[a-zA-Z$_]+[\w$]*>` matches `g` starting at index 0
   * (`g.match(...)?.index === 0`).
   */
  predicate NameMatchesAtStart(g: seq<char>)
  {
    exists m :: 1 <= m < |g| && g[m] == '>' && IsNameStart(g[0])
      && forall q :: 1 <= q < m ==> IsNameChar(g[q])
  }

  /** `setElementsTags(to, tag)`: sets `tag` on every token after index `k` up to `to`. */
  method SetElementsTags(tagged: seq<Token>, k: nat, to: nat, tag: GroupTag) returns (r: seq<Token>)
    requires to < |tagged|
    ensures |r| == |tagged|
    ensures forall t :: 0 <= t < |r| ==> r[t] == if k < t <= to then WithTag(tagged[t], tag) else tagged[t]
  {
    r := tagged;
    var t := k + 1;
    while t <= to
      invariant k + 1 <= t && (t <= to + 1 || t == k + 1)
      invariant |r| == |tagged|
      invariant forall u :: 0 <= u < |r| ==> r[u] == if k < u < t then WithTag(tagged[u], tag) else tagged[u]
    {
      r := r[t := WithTag(r[t], tag)];
      t := t + 1;
    }
  }

  /** The first pass: escapes, sets, group numbers, quantifier braces and operators. */
  method ScanSymbols(expression: seq<char>) returns (tagged: seq<Token>)
    ensures |tagged| == |expression|
    ensures forall j :: 0 <= j < |expression| ==> tagged[j] == Pass1Token(expression, j, |expression|)
  {
    tagged := [];
    var backslashCount: nat := 0;
    var state := ScanState(false, [], 0, None);
    var i := 0;
    while i < |expression|
      invariant i <= |expression|
      invariant backslashCount == BackslashRun(expression, i)
      invariant state == StateBefore(expression, i)
      invariant |tagged| == i
      invariant forall j :: 0 <= j < i ==> tagged[j] == Pass1Token(expression, j, i)
    {
      ghost var before := tagged;
      var taggedSymbol;
      ghost var revoked;
      taggedSymbol, state, tagged, revoked := ScanSymbol(expression, i, backslashCount, state, tagged);
      ExtendHorizon(expression, i, before, tagged, revoked, taggedSymbol);
      if expression[i] == '\\' {
        backslashCount := backslashCount + 1;
      } else {
        backslashCount := 0;
      }
      tagged := tagged + [taggedSymbol];
      i := i + 1;
    }
  }

  /**
   * One step of the first pass: the token of `expression[i]`, the scan state after it, and the
   * earlier tokens retagged (the preceding backslash marked escaped, a revoked `{` untagged).
   */
  method ScanSymbol(expression: seq<char>, i: nat, backslashCount: nat, state: ScanState, tagged: seq<Token>)
    returns (taggedSymbol: Token, next: ScanState, retagged: seq<Token>, ghost revoked: Option<nat>)
    requires i < |expression| && |tagged| == i
    requires backslashCount == BackslashRun(expression, i)
    requires state == StateBefore(expression, i)
    ensures taggedSymbol == Pass1Token(expression, i, i + 1)
    ensures next == StateBefore(expression, i + 1)
    ensures forall j: nat :: RevokesAt(expression, j, i) <==> revoked == Some(j)
    ensures |retagged| == i
    ensures forall j :: 0 <= j < i ==> retagged[j] == tagged[j].(
      isEscaped := tagged[j].isEscaped || (j + 1 == i && EscapedAt(expression, i)),
      isQuantifier := tagged[j].isQuantifier && revoked != Some(j))
  {
    var symbol := expression[i];
    TokenAtHorizon(expression, i);
    if backslashCount % 2 == 1 {
      taggedSymbol := Plain(symbol).(isEscaped := true);
      retagged := tagged[i - 1 := tagged[i - 1].(isEscaped := true)];
      next := state;
      revoked := None;
    } else if !state.setOpen {
      taggedSymbol, next, retagged, revoked := ScanOutsideSet(expression, i, state, tagged);
    } else {
      taggedSymbol := Plain(symbol);
      next := state;
      if symbol == ']' {
        next := next.(setOpen := false);
        taggedSymbol := taggedSymbol.(isSetBracket := true);
      }
      if symbol == '^' && expression[i - 1] == '[' {
        taggedSymbol := taggedSymbol.(isSetBracket := true);
      }
      retagged := tagged;
      revoked := None;
    }
  }

  /** The part of a first-pass step for an unescaped character outside any set. */
  method ScanOutsideSet(expression: seq<char>, i: nat, state: ScanState, tagged: seq<Token>)
    returns (taggedSymbol: Token, next: ScanState, retagged: seq<Token>, ghost revoked: Option<nat>)
    requires i < |expression| && |tagged| == i
    requires state == StateBefore(expression, i)
    requires ActiveOutside(expression, i)
    ensures taggedSymbol == Pass1Token(expression, i, i + 1)
    ensures next == StateBefore(expression, i + 1)
    ensures forall j: nat :: RevokesAt(expression, j, i) <==> revoked == Some(j)
    ensures |retagged| == i
    ensures forall j :: 0 <= j < i ==> retagged[j] == tagged[j].(
      isQuantifier := tagged[j].isQuantifier && revoked != Some(j))
  {
    var symbol := expression[i];
    TokenAtHorizon(expression, i);
    taggedSymbol := Plain(symbol);
    retagged := tagged;
    revoked := None;
    next := state;
    if symbol == '[' {
      next := next.(setOpen := true);
      taggedSymbol := taggedSymbol.(isSetBracket := true);
    }
    if symbol == '(' {
      next := next.(maxGroup := next.maxGroup + 1);
      next := next.(openGroups := next.openGroups + [next.maxGroup]);
      taggedSymbol := taggedSymbol.(group := Some(GroupMarker(next.maxGroup, Open)));
    }
    if symbol == ')' && |next.openGroups| > 0 {
      taggedSymbol := taggedSymbol.(group := Some(GroupMarker(next.openGroups[|next.openGroups| - 1], Close)));
      next := next.(openGroups := next.openGroups[..|next.openGroups| - 1]);
    }
    if symbol == '{' {
      next := next.(quantifierOpen := Some(i));
      taggedSymbol := taggedSymbol.(isQuantifier := true);
    }
    if symbol == '}' && next.quantifierOpen.Some? {
      var prev := next.quantifierOpen.value;
      var quantifierValue := QuantifierChars(expression[prev + 1..i]);
      NumericBodyByFilter(expression, prev, i);
      if |quantifierValue| + 1 == i - prev {
        taggedSymbol := taggedSymbol.(isQuantifier := true);
      } else {
        retagged := retagged[prev := retagged[prev].(isQuantifier := false)];
        revoked := Some(prev);
      }
      next := next.(quantifierOpen := None);
    }
    if IsSpecialChar(symbol) {
      taggedSymbol := taggedSymbol.(isSpecial := true);
    }
    Revocations(expression, i, revoked);
  }

  /** The filter keeps every character of a quantifier body exactly when the body is numeric. */
  lemma NumericBodyByFilter(s: seq<char>, p: nat, i: nat)
    requires p < i <= |s|
    ensures |QuantifierChars(s[p + 1..i])| + 1 == i - p <==> NumericBody(s, p, i)
  {
    var body := s[p + 1..i];
    assert forall t :: 0 <= t < |body| ==> body[t] == s[p + 1 + t];
    if NumericBody(s, p, i) {
      assert forall t :: 0 <= t < |body| ==> IsQuantifierBodyChar(body[t]);
    } else {
      var t :| p < t < i && !IsQuantifierBodyChar(s[t]);
      assert !IsQuantifierBodyChar(body[t - p - 1]);
    }
  }

  /** The first-pass token of index `i` right after scanning it: nothing can have revoked it yet. */
  lemma TokenAtHorizon(s: seq<char>, i: nat)
    requires i < |s|
    ensures Pass1Token(s, i, i + 1) == Token(
      s[i],
      GroupMarkerAt(s, i),
      EscapedAt(s, i),
      (ActiveOutside(s, i) && s[i] == '{') || ConfirmsQuantifier(s, i),
      (ActiveOutside(s, i) && s[i] == '[')
        || (ActiveInside(s, i) && (s[i] == ']' || (s[i] == '^' && i > 0 && s[i - 1] == '['))),
      ActiveOutside(s, i) && IsSpecialChar(s[i]),
      false,
      false)
  {
    assert !RevokedBefore(s, i, i + 1);
  }

  /** The character at `i` revokes at most one `{`: the pending one, when its body is not numeric. */
  lemma Revocations(s: seq<char>, i: nat, revoked: Option<nat>)
    requires i < |s|
    requires revoked == (var q := StateBefore(s, i).quantifierOpen;
      if ClosesQuantifier(s, i) && !NumericBody(s, q.value, i) then q else None)
    ensures forall j: nat :: RevokesAt(s, j, i) <==> revoked == Some(j)
  {
  }

  /**
   * Moving the horizon of the first pass past index `i` changes only the
   * escape tag of `i - 1` and the quantifier tag of a `{` that `i` revokes.
   */
  lemma ExtendHorizon(s: seq<char>, i: nat, before: seq<Token>, after: seq<Token>, revoked: Option<nat>, tok: Token)
    requires i < |s| && |before| == i && |after| == i
    requires tok == Pass1Token(s, i, i + 1)
    requires forall j :: 0 <= j < i ==> before[j] == Pass1Token(s, j, i)
    requires forall j: nat :: RevokesAt(s, j, i) <==> revoked == Some(j)
    requires forall j :: 0 <= j < i ==> after[j] == before[j].(
      isEscaped := before[j].isEscaped || (j + 1 == i && EscapedAt(s, i)),
      isQuantifier := before[j].isQuantifier && revoked != Some(j))
    ensures forall j :: 0 <= j < i + 1 ==> (after + [tok])[j] == Pass1Token(s, j, i + 1)
  {
    forall j | 0 <= j < i + 1
      ensures (after + [tok])[j] == Pass1Token(s, j, i + 1)
    {
      if j < i {
        ExtendOne(s, i, j, revoked);
      }
    }
  }

  /** The horizon step of `ExtendHorizon` for a single index `j`. */
  lemma ExtendOne(s: seq<char>, i: nat, j: nat, revoked: Option<nat>)
    requires j < i < |s|
    requires forall j: nat :: RevokesAt(s, j, i) <==> revoked == Some(j)
    ensures Pass1Token(s, j, i + 1) == Pass1Token(s, j, i).(
      isEscaped := Pass1Token(s, j, i).isEscaped || (j + 1 == i && EscapedAt(s, i)),
      isQuantifier := Pass1Token(s, j, i).isQuantifier && revoked != Some(j))
  {
    assert RevokedBefore(s, j, i + 1) <==> RevokedBefore(s, j, i) || RevokesAt(s, j, i) by {
      if RevokedBefore(s, j, i + 1) && !RevokesAt(s, j, i) {
        var k :| j < k < i + 1 && RevokesAt(s, j, k);
        assert k != i;
      }
    }
    if RevokesAt(s, j, i) {
      assert s[j] == '{';
    }
  }

  /** The second pass: tags the prefixes `?:`, `?=`, `?!`, `?<=`, `?<!` and `?<name>`. */
  method MarkGroupPrefixes(s: seq<char>, pass1: seq<Token>) returns (tagged: seq<Token>)
    requires |pass1| == |s|
    requires forall j :: 0 <= j < |s| ==> pass1[j] == Pass1Token(s, j, |s|)
    ensures tagged == Classify(s)
  {
    tagged := pass1;
    var k := 0;
    while k < |tagged|
      invariant k <= |tagged| == |s|
      invariant forall t :: 0 <= t < |s| ==> tagged[t] == Pass1Token(s, t, |s|).(
        isSpecialGroup := SpecialGroupBefore(s, k, t),
        isNamedGroup := NamedGroupBefore(s, k, t))
    {
      CoverStep(s, k);
      if tagged[k].symbol == '(' && tagged[k].group.Some? {
        assert OpensGroup(s, k);
        tagged := TagGroupPrefix(s, k, tagged);
      } else {
        assert !OpensGroup(s, k);
      }
      k := k + 1;
    }
    assert forall t :: 0 <= t < |s| ==> tagged[t] == Classify(s)[t];
  }

  /**
   * The second-pass work for the group opened at `k`: the characters of its
   * prefix are tagged, and nothing else changes.
   */
  method TagGroupPrefix(s: seq<char>, k: nat, tagged: seq<Token>) returns (r: seq<Token>)
    requires |tagged| == |s| && OpensGroup(s, k)
    requires forall t :: 0 <= t < |s| ==> tagged[t].symbol == s[t]
    ensures |r| == |tagged|
    ensures forall t :: 0 <= t < |s| ==> r[t] == tagged[t].(
      isSpecialGroup := tagged[t].isSpecialGroup || CoversSpecialGroup(s, k, t),
      isNamedGroup := tagged[t].isNamedGroup || CoversNamedGroup(s, k, t))
  {
    assert Symbols(tagged) == s;
    var groupFirstChars := Symbols(Slice(tagged, k + 1, k + 4));
    PrefixWindow(s, k, groupFirstChars);
    var named := TagNamedGroup(s, k, tagged, groupFirstChars);
    r := TagSpecialGroup(s, k, named, groupFirstChars);
  }

  /** The `?<name>` part of `TagGroupPrefix`. */
  method TagNamedGroup(s: seq<char>, k: nat, tagged: seq<Token>, groupFirstChars: seq<char>)
    returns (r: seq<Token>)
    requires |tagged| == |s| && OpensGroup(s, k) && Symbols(tagged) == s
    requires StartsWith(groupFirstChars, "?<") <==> PrefixAt(s, k + 1, "?<")
    ensures |r| == |tagged|
    ensures forall t :: 0 <= t < |s| ==> r[t] == tagged[t].(
      isNamedGroup := tagged[t].isNamedGroup || CoversNamedGroup(s, k, t))
  {
    r := tagged;
    ghost var end := NamedGroupEnd(s, k);
    if StartsWith(groupFirstChars, "?<") {
      var closeBracket := FindCloseBracket(tagged, k + 2);
      var groupName := Symbols(Slice(tagged, k + 3, closeBracket + 1));
      NamedGroupEndAt(s, k, tagged, closeBracket, groupName);
      if NameMatchesAtStart(groupName) {
        r := SetElementsTags(tagged, k, closeBracket, NamedGroupTag);
      }
    }
    assert forall t :: CoversNamedGroup(s, k, t) <==> end.Some? && k < t <= end.value;
  }

  /** The `?:`, `?=`, `?!`, `?<=` and `?<!` part of `TagGroupPrefix`. */
  method TagSpecialGroup(s: seq<char>, k: nat, tagged: seq<Token>, groupFirstChars: seq<char>)
    returns (r: seq<Token>)
    requires |tagged| == |s| && OpensGroup(s, k)
    requires forall p: string :: |p| <= 3 ==> (StartsWith(groupFirstChars, p) <==> PrefixAt(s, k + 1, p))
    ensures |r| == |tagged|
    ensures forall t :: 0 <= t < |s| ==> r[t] == tagged[t].(
      isSpecialGroup := tagged[t].isSpecialGroup || CoversSpecialGroup(s, k, t))
  {
    r := tagged;
    if StartsWith(groupFirstChars, "?:") || StartsWith(groupFirstChars, "?=")
      || StartsWith(groupFirstChars, "?!")
    {
      r := SetElementsTags(r, k, k + 2, SpecialGroupTag);
    }
    if StartsWith(groupFirstChars, "?<=") || StartsWith(groupFirstChars, "?<!") {
      r := SetElementsTags(r, k, k + 3, SpecialGroupTag);
    }
  }

  /** Widening the bound of the prefix predicates past `k` adds exactly what the `(` at `k` covers. */
  lemma CoverStep(s: seq<char>, k: nat)
    ensures forall t :: SpecialGroupBefore(s, k + 1, t) <==> SpecialGroupBefore(s, k, t) || CoversSpecialGroup(s, k, t)
    ensures forall t :: NamedGroupBefore(s, k + 1, t) <==> NamedGroupBefore(s, k, t) || CoversNamedGroup(s, k, t)
  {
    forall t | SpecialGroupBefore(s, k + 1, t) && !CoversSpecialGroup(s, k, t)
      ensures SpecialGroupBefore(s, k, t)
    {
      var q :| 0 <= q < k + 1 && CoversSpecialGroup(s, q, t);
    }
    forall t | NamedGroupBefore(s, k + 1, t) && !CoversNamedGroup(s, k, t)
      ensures NamedGroupBefore(s, k, t)
    {
      var q :| 0 <= q < k + 1 && CoversNamedGroup(s, q, t);
    }
  }

  /** The three characters after the `(` at `k` decide the same prefixes in `s` and in the window. */
  lemma PrefixWindow(s: seq<char>, k: nat, window: seq<char>)
    requires k < |s|
    requires window == Slice(s, k + 1, k + 4)
    ensures forall p: string :: |p| <= 3 ==> (StartsWith(window, p) <==> PrefixAt(s, k + 1, p))
  {
    forall p: string | |p| <= 3
      ensures StartsWith(window, p) <==> PrefixAt(s, k + 1, p)
    {
      if |p| <= |window| {
        assert window[..|p|] == s[k + 1..k + 1 + |p|];
      }
    }
  }

  /** The named-group test on the tokens agrees with `NamedGroupEnd` on the text. */
  lemma NamedGroupEndAt(s: seq<char>, k: nat, tagged: seq<Token>, closeBracket: int, groupName: seq<char>)
    requires Symbols(tagged) == s
    requires PrefixAt(s, k + 1, "?<")
    requires closeBracket == FindCloseBracket(tagged, k + 2)
    requires groupName == Symbols(Slice(tagged, k + 3, closeBracket + 1))
    ensures NameMatchesAtStart(groupName) <==> NamedGroupEnd(s, k) == Some(closeBracket)
    ensures NameMatchesAtStart(groupName) ==> 0 <= closeBracket < |tagged|
    ensures !NameMatchesAtStart(groupName) ==> NamedGroupEnd(s, k).None?
  {
    CloseBracketAgrees(s, k, tagged);
    if closeBracket != -1 {
      var name := s[k + 3..closeBracket];
      assert groupName == name + ">";
      NameTestAgrees(name);
    }
  }

  /** `FindCloseBracket` on the tokens finds the `>` that `FirstCloseAngle` finds on the text. */
  lemma CloseBracketAgrees(s: seq<char>, k: nat, tagged: seq<Token>)
    requires Symbols(tagged) == s
    ensures FirstCloseAngle(s, k + 3).None? <==> FindCloseBracket(tagged, k + 2) == -1
    ensures FirstCloseAngle(s, k + 3).Some? ==> FirstCloseAngle(s, k + 3).value == FindCloseBracket(tagged, k + 2)
  {
    var first := FirstCloseAngle(s, k + 3);
    var close := FindCloseBracket(tagged, k + 2);
    if close == -1 {
      assert first.None?;
    } else {
      assert first == Some(close);
    }
  }

  /** A name followed by `>` matches at index 0 exactly when it is a group name. */
  lemma NameTestAgrees(name: seq<char>)
    requires forall q :: 0 <= q < |name| ==> name[q] != '>'
    ensures NameMatchesAtStart(name + ">") <==> IsGroupName(name)
  {
    var g := name + ">";
    if NameMatchesAtStart(g) {
      var m :| 1 <= m < |g| && g[m] == '>' && IsNameStart(g[0]) && forall q :: 1 <= q < m ==> IsNameChar(g[q]);
      assert m == |name|;
      forall q | 0 <= q < |name|
        ensures IsNameChar(name[q])
      {
        assert name[q] == g[q];
      }
    }
    if IsGroupName(name) {
      assert g[|name|] == '>';
    }
  }

  /**
   * `analyzeExpression`: one token per character, tagged as `Classify`
   * describes; the empty expression comes back as it is.
   */
  method AnalyzeExpression(expression: seq<char>) returns (tagged: seq<Token>)
    ensures tagged == Classify(expression)
    ensures |tagged| == |expression|
    ensures forall j :: 0 <= j < |expression| ==> tagged[j].symbol == expression[j]
  {
    if |expression| < 1 {
      return [];
    }
    var pass1 := ScanSymbols(expression);
    tagged := MarkGroupPrefixes(expression, pass1);
  }
}
