/**
 * Properties of `ClassifiedAt(s, j)`, the token that the highlighter's output
 * `Classify(s)` (which `AnalyzeExpression` is proved to compute) holds at
 * index `j`: escapes, group ordinals, quantifier braces, sets and operators,
 * and group prefixes, with a few concrete expressions.
 */
module ClassifierProps {
  import opened Wrappers
  import opened Types
  import opened ClassifierSpec

  // ---------------------------------------------------------------- escapes

  /**
   * A character after an odd run of backslashes is escaped, so is the
   * backslash just before it, and the character gets no other first-pass tag,
   * inside a set or outside.
   */
  lemma EscapeSkipsTags(s: seq<char>, j: nat)
    requires j < |s| && EscapedAt(s, j)
    ensures j > 0 && s[j - 1] == '\\'
    ensures ClassifiedAt(s, j).isEscaped && ClassifiedAt(s, j - 1).isEscaped
    ensures ClassifiedAt(s, j).group.None?
    ensures !ClassifiedAt(s, j).isQuantifier && !ClassifiedAt(s, j).isSetBracket && !ClassifiedAt(s, j).isSpecial
  {
  }

  /** Exactly the escaped characters and the backslashes that escape them carry the escape tag. */
  lemma EscapeTagExactly(s: seq<char>, j: nat)
    requires j < |s|
    ensures ClassifiedAt(s, j).isEscaped <==> EscapedAt(s, j) || (j + 1 < |s| && EscapedAt(s, j + 1))
  {
  }

  /** An escaping backslash is itself unescaped: it begins an odd run. */
  lemma {:induction false} EscaperIsUnescaped(s: seq<char>, j: nat)
    requires j + 1 < |s| && EscapedAt(s, j + 1)
    ensures s[j] == '\\' && !EscapedAt(s, j)
  {
    assert BackslashRun(s, j + 1) == BackslashRun(s, j) + 1;
  }

  /** "\\d": the first backslash escapes the second; the `d` is plain. */
  lemma ExampleDoubleBackslash()
    ensures ClassifiedAt("\\\\d", 0).isEscaped && ClassifiedAt("\\\\d", 1).isEscaped
    ensures !ClassifiedAt("\\\\d", 2).isEscaped
  {
    var s := "\\\\d";
    assert BackslashRun(s, 1) == 1;
    assert BackslashRun(s, 2) == 2;
  }

  // ----------------------------------------------------------------- groups

  /** How many group openers lie before index `i`. */
  function OpenersBefore(s: seq<char>, i: nat): (n: nat)
    requires i <= |s|
    ensures n <= i
  {
    if i == 0 then 0 else OpenersBefore(s, i - 1) + (if OpensGroup(s, i - 1) then 1 else 0)
  }

  /** The group counter is the number of openers seen so far. */
  lemma {:induction false} MaxGroupCountsOpeners(s: seq<char>, i: nat)
    requires i <= |s|
    ensures StateBefore(s, i).maxGroup == OpenersBefore(s, i)
  {
    if i > 0 {
      MaxGroupCountsOpeners(s, i - 1);
    }
  }

  /** Every unescaped `(` outside a set gets the next ordinal, counting openers from 1. */
  lemma OpenOrdinal(s: seq<char>, j: nat)
    requires OpensGroup(s, j)
    ensures ClassifiedAt(s, j).group == Some(GroupMarker(OpenersBefore(s, j) + 1, Open))
  {
    var n := StateBefore(s, j).maxGroup;
    assert GroupMarkerAt(s, j) == Some(GroupMarker(n + 1, Open));
    assert ClassifiedAt(s, j).group == GroupMarkerAt(s, j);
    MaxGroupCountsOpeners(s, j);
  }

  /** Group number `n` was handed to an opener before index `i`. */
  predicate OpenedBefore(s: seq<char>, i: nat, n: nat)
    requires i <= |s|
  {
    exists k :: 0 <= k < i && OpensGroup(s, k) && n == OpenersBefore(s, k) + 1
  }

  /** Every number on the open-group stack is the ordinal of an earlier opener. */
  lemma {:induction false} StackHoldsOpeners(s: seq<char>, i: nat)
    requires i <= |s|
    ensures forall q :: 0 <= q < |StateBefore(s, i).openGroups| ==> OpenedBefore(s, i, StateBefore(s, i).openGroups[q])
  {
    if i > 0 {
      StackHoldsOpeners(s, i - 1);
      MaxGroupCountsOpeners(s, i - 1);
      var prev := StateBefore(s, i - 1);
      var st := StateBefore(s, i);
      forall q | 0 <= q < |st.openGroups|
        ensures OpenedBefore(s, i, st.openGroups[q])
      {
        if q < |prev.openGroups| && st.openGroups[q] == prev.openGroups[q] {
          assert OpenedBefore(s, i - 1, prev.openGroups[q]);
          var k :| 0 <= k < i - 1 && OpensGroup(s, k) && prev.openGroups[q] == OpenersBefore(s, k) + 1;
        } else {
          assert OpensGroup(s, i - 1) && st.openGroups[q] == OpenersBefore(s, i - 1) + 1;
        }
      }
    }
  }

  /** Some `)` before index `i` carries group number `n` as its closing marker. */
  predicate ClosedBefore(s: seq<char>, i: nat, n: nat)
    requires i <= |s|
  {
    exists c :: 0 <= c < i && GroupMarkerAt(s, c) == Some(GroupMarker(n, Close))
  }

  /** Each number is larger than the ones before it. */
  predicate Increasing(q: seq<nat>)
  {
    forall a, b :: 0 <= a < b < |q| ==> q[a] < q[b]
  }

  /** One more character closes at most the group its marker names. */
  lemma ClosedStep(s: seq<char>, i: nat, n: nat)
    requires 0 < i <= |s|
    ensures ClosedBefore(s, i, n) <==> ClosedBefore(s, i - 1, n) || GroupMarkerAt(s, i - 1) == Some(GroupMarker(n, Close))
  {
    if ClosedBefore(s, i, n) && !ClosedBefore(s, i - 1, n) {
      var c :| 0 <= c < i && GroupMarkerAt(s, c) == Some(GroupMarker(n, Close));
      assert c == i - 1;
    }
  }

  /**
   * The open-group stack lists, in increasing order, exactly the group numbers
   * handed out so far that no earlier `)` has closed; and every number an
   * earlier `)` closed was handed out.
   */
  lemma {:induction false} StackIsUnmatched(s: seq<char>, i: nat)
    requires i <= |s|
    ensures Increasing(StateBefore(s, i).openGroups)
    ensures forall n: nat :: n in StateBefore(s, i).openGroups <==> 1 <= n <= StateBefore(s, i).maxGroup && !ClosedBefore(s, i, n)
    ensures forall n: nat :: ClosedBefore(s, i, n) ==> 1 <= n <= StateBefore(s, i).maxGroup
  {
    if i > 0 {
      StackIsUnmatched(s, i - 1);
      var prev, st := StateBefore(s, i - 1), StateBefore(s, i);
      forall n: nat
        ensures ClosedBefore(s, i, n) <==> ClosedBefore(s, i - 1, n) || GroupMarkerAt(s, i - 1) == Some(GroupMarker(n, Close))
      {
        ClosedStep(s, i, n);
      }
      if OpensGroup(s, i - 1) {
        assert st.openGroups == prev.openGroups + [prev.maxGroup + 1] && st.maxGroup == prev.maxGroup + 1;
        forall a | 0 <= a < |prev.openGroups|
          ensures prev.openGroups[a] <= prev.maxGroup
        {
          assert prev.openGroups[a] in prev.openGroups;
        }
      } else if ClosesGroup(s, i - 1) {
        var top := prev.openGroups[|prev.openGroups| - 1];
        assert st.openGroups == prev.openGroups[..|prev.openGroups| - 1] && st.maxGroup == prev.maxGroup;
        assert GroupMarkerAt(s, i - 1) == Some(GroupMarker(top, Close));
        assert top in prev.openGroups;
        forall n: nat | n in prev.openGroups && n != top
          ensures n in st.openGroups
        {
          var a :| 0 <= a < |prev.openGroups| && prev.openGroups[a] == n;
          assert a < |prev.openGroups| - 1;
          assert st.openGroups[a] == n;
        }
        forall n: nat | n in st.openGroups
          ensures n in prev.openGroups && n != top
        {
          var a :| 0 <= a < |st.openGroups| && st.openGroups[a] == n;
          assert prev.openGroups[a] == n;
        }
      } else {
        assert GroupMarkerAt(s, i - 1).None?;
        assert st.openGroups == prev.openGroups && st.maxGroup == prev.maxGroup;
      }
    }
  }

  /**
   * A `)` that closes a group carries, as `close`, the number of the most
   * recently opened group that is still open: an earlier opener's number
   * that no earlier `)` carries, while every group opened after it has
   * already been closed.
   */
  lemma CloseMatchesOpener(s: seq<char>, j: nat)
    requires ClosesGroup(s, j)
    ensures ClassifiedAt(s, j).group.Some? && ClassifiedAt(s, j).group.value.role == Close
    ensures var n := ClassifiedAt(s, j).group.value.number;
      && OpenedBefore(s, j, n)
      && !ClosedBefore(s, j, n)
      && forall m: nat :: n < m <= OpenersBefore(s, j) ==> ClosedBefore(s, j, m)
  {
    StackHoldsOpeners(s, j);
    StackIsUnmatched(s, j);
    MaxGroupCountsOpeners(s, j);
    var st := StateBefore(s, j);
    var last := |st.openGroups| - 1;
    var n := st.openGroups[last];
    assert GroupMarkerAt(s, j) == Some(GroupMarker(n, Close));
    assert n in st.openGroups;
  }

  /** A `)` with no open group is left untagged. */
  lemma UnmatchedCloseUntagged(s: seq<char>, j: nat)
    requires j < |s| && s[j] == ')' && |StateBefore(s, j).openGroups| == 0
    ensures ClassifiedAt(s, j).group.None?
  {
  }

  /** In "a(b)c" the opening and the closing parenthesis both carry group 1. */
  lemma ExampleGroupPair()
    ensures ClassifiedAt("a(b)c", 1).group == Some(GroupMarker(1, Open))
    ensures ClassifiedAt("a(b)c", 3).group == Some(GroupMarker(1, Close))
  {
    var s := "a(b)c";
    assert BackslashRun(s, 1) == 0 && BackslashRun(s, 3) == 0;
    assert StateBefore(s, 1) == ScanState(false, [], 0, None);
    assert StateBefore(s, 2) == ScanState(false, [1], 1, None);
    assert StateBefore(s, 3) == ScanState(false, [1], 1, None);
  }

  /** In "(a)(b)" the second `)` closes group 2, the one opened after group 1 was closed. */
  lemma ExampleSequentialGroups()
    ensures ClassifiedAt("(a)(b)", 2).group == Some(GroupMarker(1, Close))
    ensures ClassifiedAt("(a)(b)", 5).group == Some(GroupMarker(2, Close))
  {
    var s := "(a)(b)";
    assert BackslashRun(s, 0) == 0 && BackslashRun(s, 2) == 0 && BackslashRun(s, 3) == 0 && BackslashRun(s, 5) == 0;
    assert StateBefore(s, 1) == ScanState(false, [1], 1, None);
    assert StateBefore(s, 3) == ScanState(false, [], 1, None);
    assert StateBefore(s, 4) == ScanState(false, [2], 2, None);
    assert StateBefore(s, 5) == ScanState(false, [2], 2, None);
  }

  // ------------------------------------------------------ quantifier braces

  /**
   * One step back from a pending brace: if `p` is still pending before `i`
   * and was not set at `i - 1`, it was already pending before `i - 1`, and
   * the character at `i - 1` did not settle it.
   */
  lemma PendingStep(s: seq<char>, p: nat, i: nat)
    requires 0 < i <= |s| && p < i - 1
    requires StateBefore(s, i).quantifierOpen == Some(p)
    ensures StateBefore(s, i - 1).quantifierOpen == Some(p) && !ClosesQuantifier(s, i - 1)
  {
    assert StateBefore(s, i) == Scan(StateBefore(s, i - 1), s, i - 1);
  }

  /** A brace pending before `i` has been pending since just after it, and nothing settled it. */
  lemma {:induction false} PendingThrough(s: seq<char>, p: nat, i: nat)
    requires i <= |s| && StateBefore(s, i).quantifierOpen == Some(p)
    ensures forall k :: p < k < i ==> StateBefore(s, k).quantifierOpen == Some(p) && !ClosesQuantifier(s, k)
  {
    if p < i - 1 {
      PendingStep(s, p, i);
      PendingThrough(s, p, i - 1);
    }
  }

  /** The pending brace is an unescaped `{` outside a set. */
  lemma {:induction false} PendingIsActive(s: seq<char>, i: nat)
    requires i <= |s| && StateBefore(s, i).quantifierOpen.Some?
    ensures ActiveOutside(s, StateBefore(s, i).quantifierOpen.value)
    ensures s[StateBefore(s, i).quantifierOpen.value] == '{'
  {
    var p := StateBefore(s, i).quantifierOpen.value;
    if i > 0 && StateBefore(s, i - 1).quantifierOpen == Some(p) {
      PendingIsActive(s, i - 1);
    }
  }

  /** The `}` at `k` that settles the `{` at `p` is the only index that can revoke it. */
  lemma OnlySettlement(s: seq<char>, p: nat, k: nat, k2: nat)
    requires ClosesQuantifier(s, k) && StateBefore(s, k).quantifierOpen == Some(p)
    requires k2 != k
    ensures !RevokesAt(s, p, k2)
  {
    if RevokesAt(s, p, k2) {
      if k2 < k {
        PendingThrough(s, p, k);
      } else {
        PendingThrough(s, p, k2);
      }
    }
  }

  /**
   * A `}` that settles the pending `{` confirms both braces when every
   * character between them passes the numeric filter, and clears both tags
   * otherwise.
   */
  lemma QuantifierSettled(s: seq<char>, p: nat, k: nat)
    requires ClosesQuantifier(s, k) && StateBefore(s, k).quantifierOpen == Some(p)
    ensures p < k
    ensures ClassifiedAt(s, k).isQuantifier == NumericBody(s, p, k)
    ensures ClassifiedAt(s, p).isQuantifier == NumericBody(s, p, k)
  {
    PendingIsActive(s, k);
    if NumericBody(s, p, k) {
      forall k2 | p < k2 < |s| && k2 != k
        ensures !RevokesAt(s, p, k2)
      {
        OnlySettlement(s, p, k, k2);
      }
      assert !RevokedBefore(s, p, |s|);
    } else {
      assert RevokesAt(s, p, k);
    }
  }

  /** A `{` still pending when the scan ends keeps its tag. */
  lemma UnclosedBraceKeepsTag(s: seq<char>, p: nat)
    requires StateBefore(s, |s|).quantifierOpen == Some(p)
    ensures ClassifiedAt(s, p).isQuantifier
  {
    PendingIsActive(s, |s|);
    PendingThrough(s, p, |s|);
    assert !RevokedBefore(s, p, |s|);
  }

  /**
   * A second `{` while one is pending takes over the pending slot, and the
   * first keeps its tag: nothing ever revokes it.
   */
  lemma OverwrittenBraceKeepsTag(s: seq<char>, p: nat, q: nat)
    requires q < |s| && ActiveOutside(s, q) && s[q] == '{'
    requires StateBefore(s, q).quantifierOpen == Some(p)
    ensures StateBefore(s, q + 1).quantifierOpen == Some(q)
    ensures ClassifiedAt(s, p).isQuantifier
  {
    PendingIsActive(s, q);
    PendingThrough(s, p, q);
    assert StateBefore(s, q + 1) == Scan(StateBefore(s, q), s, q);
    forall k | q < k < |s|
      ensures !RevokesAt(s, p, k)
    {
      if k > q + 1 && StateBefore(s, k).quantifierOpen == Some(p) {
        PendingThrough(s, p, k);
      }
    }
    assert !RevokedBefore(s, p, |s|);
  }

  /** "a{2,5}b": both braces are quantifier braces. */
  lemma ExampleNumericQuantifier()
    ensures ClassifiedAt("a{2,5}b", 1).isQuantifier && ClassifiedAt("a{2,5}b", 5).isQuantifier
  {
    var s := "a{2,5}b";
    assert StateBefore(s, 2).quantifierOpen == Some(1);
    assert StateBefore(s, 5).quantifierOpen == Some(1);
    assert ClosesQuantifier(s, 5);
    QuantifierSettled(s, 1, 5);
  }

  /** "a{x}b": the body is not numeric, so neither brace is tagged. */
  lemma ExampleRevokedQuantifier()
    ensures !ClassifiedAt("a{x}b", 1).isQuantifier && !ClassifiedAt("a{x}b", 3).isQuantifier
  {
    var s := "a{x}b";
    assert StateBefore(s, 2).quantifierOpen == Some(1);
    assert StateBefore(s, 3).quantifierOpen == Some(1);
    assert ClosesQuantifier(s, 3);
    assert !IsQuantifierBodyChar(s[2]);
    QuantifierSettled(s, 1, 3);
  }

  // --------------------------------------------------- sets and operators

  /** Outside a set: `[` is a set bracket, the six operators are special. */
  lemma OutsideSetRoles(s: seq<char>, j: nat)
    requires j < |s| && ActiveOutside(s, j)
    ensures ClassifiedAt(s, j).isSpecial <==> IsSpecialChar(s[j])
    ensures ClassifiedAt(s, j).isSetBracket <==> s[j] == '['
    ensures s[j] == '[' ==> StateBefore(s, j + 1).setOpen
  {
  }

  /** Inside a set only `]`, which closes it, and a `^` right after `[` are tagged. */
  lemma InsideSetRoles(s: seq<char>, j: nat)
    requires j < |s| && ActiveInside(s, j)
    ensures !ClassifiedAt(s, j).isSpecial && !ClassifiedAt(s, j).isQuantifier && ClassifiedAt(s, j).group.None?
    ensures ClassifiedAt(s, j).isSetBracket <==> s[j] == ']' || (s[j] == '^' && j > 0 && s[j - 1] == '[')
    ensures StateBefore(s, j + 1).setOpen <==> s[j] != ']'
  {
  }

  /** "[(+]": inside the set the parenthesis and the plus are plain. */
  lemma ExampleSet()
    ensures ClassifiedAt("[(+]", 0).isSetBracket && ClassifiedAt("[(+]", 1).group.None?
    ensures !ClassifiedAt("[(+]", 2).isSpecial && ClassifiedAt("[(+]", 3).isSetBracket
  {
    var s := "[(+]";
    assert StateBefore(s, 1).setOpen && StateBefore(s, 2).setOpen && StateBefore(s, 3).setOpen;
  }

  // ---------------------------------------------------------- group prefixes

  /** Every character of a special-group prefix belongs to one opened at most three places before. */
  lemma SpecialGroupHasOpener(s: seq<char>, t: nat)
    requires t < |s| && ClassifiedAt(s, t).isSpecialGroup
    ensures exists k :: 0 <= k < t && OpensGroup(s, k) && t - k <= SpecialGroupSpan(s, k) <= 3
  {
  }

  /** `(?:`, `(?=` and `(?!` mark the two characters after the parenthesis. */
  lemma NonCapturingPrefix(s: seq<char>, k: nat)
    requires OpensGroup(s, k)
    requires PrefixAt(s, k + 1, "?:") || PrefixAt(s, k + 1, "?=") || PrefixAt(s, k + 1, "?!")
    ensures k + 2 < |s|
    ensures ClassifiedAt(s, k + 1).isSpecialGroup && ClassifiedAt(s, k + 2).isSpecialGroup
  {
    assert !PrefixAt(s, k + 1, "?<=") && !PrefixAt(s, k + 1, "?<!") by {
      assert s[k + 2] != '<';
    }
    assert CoversSpecialGroup(s, k, k + 1) && CoversSpecialGroup(s, k, k + 2);
  }

  /** `(?<=` and `(?<!` mark the three characters after the parenthesis. */
  lemma LookbehindPrefix(s: seq<char>, k: nat)
    requires OpensGroup(s, k)
    requires PrefixAt(s, k + 1, "?<=") || PrefixAt(s, k + 1, "?<!")
    ensures k + 3 < |s|
    ensures forall t :: k < t <= k + 3 ==> ClassifiedAt(s, t).isSpecialGroup
  {
    forall t | k < t <= k + 3
      ensures ClassifiedAt(s, t).isSpecialGroup
    {
      assert CoversSpecialGroup(s, k, t);
    }
  }

  /** `(?<name>` marks everything from after the parenthesis through the first `>`. */
  lemma NamedGroupPrefix(s: seq<char>, k: nat, e: nat)
    requires OpensGroup(s, k) && NamedGroupEnd(s, k) == Some(e)
    ensures forall t :: k < t <= e ==> ClassifiedAt(s, t).isNamedGroup
  {
    forall t | k < t <= e
      ensures ClassifiedAt(s, t).isNamedGroup
    {
      assert CoversNamedGroup(s, k, t);
    }
  }

  /** `(?<1x>`: a name that starts with a digit gives no named-group tags. */
  lemma ExampleBadGroupName()
    ensures !ClassifiedAt("(?<1x>)", 3).isNamedGroup
  {
    var s := "(?<1x>)";
    assert !IsGroupName(s[3..5]);
    assert FirstCloseAngle(s, 3) == Some(5);
    assert NamedGroupEnd(s, 0) == None;
    assert !PrefixAt(s, 2, "?<") && !PrefixAt(s, 3, "?<") && !PrefixAt(s, 4, "?<");
  }

  /** The `named_group` fixture `(?<name>)`: characters 1 to 7 are tagged. */
  lemma ExampleNamedGroup()
    ensures forall t :: 1 <= t <= 7 ==> ClassifiedAt("(?<name>)", t).isNamedGroup
  {
    var s := "(?<name>)";
    assert OpensGroup(s, 0) by {
      assert StateBefore(s, 0) == ScanState(false, [], 0, None);
    }
    assert PrefixAt(s, 1, "?<");
    assert FirstCloseAngle(s, 3) == Some(7);
    assert IsGroupName(s[3..7]);
    assert NamedGroupEnd(s, 0) == Some(7);
    NamedGroupPrefix(s, 0, 7);
  }
}
