/**
 * What the syntax highlighter tags, stated position by position.
 *
 * The highlighter scans the expression left to right, keeping a little state:
 * the length of the current backslash run, whether a character set `[...]` is
 * open, the stack of open group numbers, the largest group number handed out,
 * and the index of a pending quantifier brace `{`. `StateBefore(s, i)` is that
 * state just before index `i`. Every tag is then a property of one position,
 * its prefix state and, for the two retroactive tags (the backslash that
 * escapes its successor, the `{` revoked by a non-numeric `}`), of what lies
 * after it. Group prefixes (`(?:`, `(?<=`, `(?<name>` ...) are tagged by a
 * second look at every opening parenthesis.
 */
module ClassifierSpec {
  import opened Wrappers
  import opened Types

  // ---------------------------------------------------------------- escapes

  /** Length of the run of backslashes that ends just before index `i`. */
  function BackslashRun(s: seq<char>, i: nat): (r: nat)
    requires i <= |s|
    ensures r <= i
    ensures r > 0 ==> s[i - 1] == '\\'
  {
    if i == 0 || s[i - 1] != '\\' then 0 else BackslashRun(s, i - 1) + 1
  }

  /** The character at `i` follows an odd run of backslashes, so it is escaped. */
  predicate EscapedAt(s: seq<char>, i: nat)
    requires i <= |s|
  {
    BackslashRun(s, i) % 2 == 1
  }

  // ------------------------------------------------------ character classes

  /** Characters that are operators outside a set. */
  predicate IsSpecialChar(c: char)
  {
    c == '+' || c == '*' || c == '?' || c == '^' || c == '$' || c == '|'
  }

  /** ECMAScript WhiteSpace and LineTerminator code points. */
  predicate IsJsWhiteSpace(c: char)
  {
    || c == '\U{9}' || c == '\U{A}' || c == '\U{B}' || c == '\U{C}' || c == '\U{D}'
    || c == '\U{20}' || c == '\U{A0}' || c == '\U{1680}'
    || ('\U{2000}' <= c <= '\U{200A}')
    || c == '\U{2028}' || c == '\U{2029}' || c == '\U{202F}' || c == '\U{205F}'
    || c == '\U{3000}' || c == '\U{FEFF}'
  }

  /**
   * A character that may stand between quantifier braces: one for which the
   * unary `+` gives a number (a decimal digit, or white space, which converts
   * to 0), or a comma.
   */
  predicate IsQuantifierBodyChar(c: char)
  {
    ('0' <= c <= '9') || IsJsWhiteSpace(c) || c == ','
  }

  /** Every character strictly between indices `p` and `k` may stand in a quantifier. */
  predicate NumericBody(s: seq<char>, p: nat, k: nat)
    requires p < k <= |s|
  {
    forall t :: p < t < k ==> IsQuantifierBodyChar(s[t])
  }

  // -------------------------------------------------------------- scan state

  /** The highlighter's running state between two characters. */
  datatype ScanState = ScanState(
    setOpen: bool,
    openGroups: seq<nat>,
    maxGroup: nat,
    quantifierOpen: Option<nat>)

  /** How the state changes across the character at index `i`. */
  function Scan(st: ScanState, s: seq<char>, i: nat): ScanState
    requires i < |s|
  {
    if EscapedAt(s, i) then st
    else if !st.setOpen then
      if s[i] == '[' then st.(setOpen := true)
      else if s[i] == '(' then
        st.(openGroups := st.openGroups + [st.maxGroup + 1], maxGroup := st.maxGroup + 1)
      else if s[i] == ')' && |st.openGroups| > 0 then
        st.(openGroups := st.openGroups[..|st.openGroups| - 1])
      else if s[i] == '{' then st.(quantifierOpen := Some(i))
      else if s[i] == '}' && st.quantifierOpen.Some? then st.(quantifierOpen := None)
      else st
    else if s[i] == ']' then st.(setOpen := false)
    else st
  }

  /** The state just before index `i`. */
  function StateBefore(s: seq<char>, i: nat): (st: ScanState)
    requires i <= |s|
    ensures st.maxGroup <= i
    ensures st.quantifierOpen.Some? ==> st.quantifierOpen.value < i && s[st.quantifierOpen.value] == '{'
    ensures i == 0 ==> !st.setOpen
  {
    if i == 0 then ScanState(false, [], 0, None)
    else Scan(StateBefore(s, i - 1), s, i - 1)
  }

  // ------------------------------------------------------- position roles

  /** Index `j` is not escaped and lies outside any character set. */
  predicate ActiveOutside(s: seq<char>, j: nat)
    requires j < |s|
  {
    !EscapedAt(s, j) && !StateBefore(s, j).setOpen
  }

  /** Index `j` is not escaped and lies inside a character set. */
  predicate ActiveInside(s: seq<char>, j: nat)
    requires j < |s|
  {
    !EscapedAt(s, j) && StateBefore(s, j).setOpen
  }

  /** Index `j` opens a capturing-or-not group: an active `(` outside a set. */
  predicate OpensGroup(s: seq<char>, j: nat)
  {
    j < |s| && ActiveOutside(s, j) && s[j] == '('
  }

  /** Index `j` closes the innermost open group. */
  predicate ClosesGroup(s: seq<char>, j: nat)
  {
    j < |s| && ActiveOutside(s, j) && s[j] == ')' && |StateBefore(s, j).openGroups| > 0
  }

  /** Index `j` is a `}` that settles a pending `{`. */
  predicate ClosesQuantifier(s: seq<char>, j: nat)
  {
    j < |s| && ActiveOutside(s, j) && s[j] == '}' && StateBefore(s, j).quantifierOpen.Some?
  }

  /** The `}` at `k` settles the `{` at `p` and finds a non-numeric body, revoking `p`. */
  predicate RevokesAt(s: seq<char>, p: nat, k: nat)
  {
    && ClosesQuantifier(s, k)
    && StateBefore(s, k).quantifierOpen == Some(p)
    && p < k
    && !NumericBody(s, p, k)
  }

  /** Some `}` before horizon `h` revoked the `{` at `p`. */
  predicate RevokedBefore(s: seq<char>, p: nat, h: nat)
  {
    exists k :: p < k < h && RevokesAt(s, p, k)
  }

  /** The group marker of index `j`, if it is a group parenthesis. */
  function GroupMarkerAt(s: seq<char>, j: nat): Option<GroupMarker>
    requires j < |s|
  {
    var st := StateBefore(s, j);
    if OpensGroup(s, j) then Some(GroupMarker(st.maxGroup + 1, Open))
    else if ClosesGroup(s, j) then Some(GroupMarker(st.openGroups[|st.openGroups| - 1], Close))
    else None
  }

  /** The `}` at `j` settles a numeric quantifier body. */
  predicate ConfirmsQuantifier(s: seq<char>, j: nat)
  {
    ClosesQuantifier(s, j) && NumericBody(s, StateBefore(s, j).quantifierOpen.value, j)
  }

  /**
   * The first-pass tags of index `j` as known once the first `h` characters
   * have been scanned: a later backslash partner or a later revoking `}` can
   * still change the escape and quantifier tags until the horizon passes them.
   */
  function Pass1Token(s: seq<char>, j: nat, h: nat): Token
    requires j < h <= |s|
  {
    Token(
      s[j],
      GroupMarkerAt(s, j),
      EscapedAt(s, j) || (j + 1 < h && EscapedAt(s, j + 1)),
      (ActiveOutside(s, j) && s[j] == '{' && !RevokedBefore(s, j, h)) || ConfirmsQuantifier(s, j),
      (ActiveOutside(s, j) && s[j] == '[')
        || (ActiveInside(s, j) && (s[j] == ']' || (s[j] == '^' && j > 0 && s[j - 1] == '['))),
      ActiveOutside(s, j) && IsSpecialChar(s[j]),
      false,
      false)
  }

  // ------------------------------------------------------- group prefixes

  /** `s` holds `p` starting at index `k`. */
  predicate PrefixAt(s: seq<char>, k: nat, p: string)
  {
    k + |p| <= |s| && s[k..k + |p|] == p
  }

  /** How many characters after the `(` at `k` form a lookaround or non-capturing marker. */
  function SpecialGroupSpan(s: seq<char>, k: nat): nat
  {
    if PrefixAt(s, k + 1, "?<=") || PrefixAt(s, k + 1, "?<!") then 3
    else if PrefixAt(s, k + 1, "?:") || PrefixAt(s, k + 1, "?=") || PrefixAt(s, k + 1, "?!") then 2
    else 0
  }

  /** A character that may begin a group name. */
  predicate IsNameStart(c: char)
  {
    ('a' <= c <= 'z') || ('A' <= c <= 'Z') || c == '$' || c == '_'
  }

  /** A character that may continue a group name. */
  predicate IsNameChar(c: char)
  {
    IsNameStart(c) || ('0' <= c <= '9')
  }

  /** `name` matches `[a-zA-Z$_][\w$]*`. */
  predicate IsGroupName(name: seq<char>)
  {
    |name| > 0 && IsNameStart(name[0]) && forall q :: 0 <= q < |name| ==> IsNameChar(name[q])
  }

  /** The first `>` at or after index `from`. */
  function FirstCloseAngle(s: seq<char>, from: nat): (r: Option<nat>)
    decreases |s| - from
    ensures r.Some? ==> from <= r.value < |s| && s[r.value] == '>'
    ensures r.Some? ==> forall q :: from <= q < r.value ==> s[q] != '>'
    ensures r.None? ==> forall q :: from <= q < |s| ==> s[q] != '>'
  {
    if from >= |s| then None
    else if s[from] == '>' then Some(from)
    else FirstCloseAngle(s, from + 1)
  }

  /** The index of the `>` that ends a valid `(?<name>` prefix at `k`. */
  function NamedGroupEnd(s: seq<char>, k: nat): (r: Option<nat>)
    ensures r.Some? ==> k + 3 < r.value < |s| && s[r.value] == '>'
  {
    if !PrefixAt(s, k + 1, "?<") then None
    else
      match FirstCloseAngle(s, k + 3)
      case None => None
      case Some(e) => if IsGroupName(s[k + 3..e]) then Some(e) else None
  }

  /** The `(` at `k` marks index `t` as part of its special-group prefix. */
  predicate CoversSpecialGroup(s: seq<char>, k: nat, t: nat)
  {
    OpensGroup(s, k) && k < t <= k + SpecialGroupSpan(s, k)
  }

  /** The `(` at `k` marks index `t` as part of its `?<name>` prefix. */
  predicate CoversNamedGroup(s: seq<char>, k: nat, t: nat)
  {
    OpensGroup(s, k) && NamedGroupEnd(s, k).Some? && k < t <= NamedGroupEnd(s, k).value
  }

  /** Some opening parenthesis before index `bound` gives `t` a special-group tag. */
  predicate SpecialGroupBefore(s: seq<char>, bound: nat, t: nat)
  {
    exists k :: 0 <= k < bound && CoversSpecialGroup(s, k, t)
  }

  /** Some opening parenthesis before index `bound` gives `t` a named-group tag. */
  predicate NamedGroupBefore(s: seq<char>, bound: nat, t: nat)
  {
    exists k :: 0 <= k < bound && CoversNamedGroup(s, k, t)
  }

  // ------------------------------------------------------------ the result

  /** The token the highlighter produces for index `j`. */
  function ClassifiedAt(s: seq<char>, j: nat): Token
    requires j < |s|
  {
    Pass1Token(s, j, |s|).(
      isSpecialGroup := SpecialGroupBefore(s, |s|, j),
      isNamedGroup := NamedGroupBefore(s, |s|, j))
  }

  /** The highlighter's output for the whole expression. */
  function Classify(s: seq<char>): (r: seq<Token>)
    ensures |r| == |s|
    ensures forall j :: 0 <= j < |s| ==> r[j] == ClassifiedAt(s, j) && r[j].symbol == s[j]
  {
    seq(|s|, j requires 0 <= j < |s| => ClassifiedAt(s, j))
  }
}
