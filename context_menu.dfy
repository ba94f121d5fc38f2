/**
 * The editor's context menu: where it opens, and what each of its six
 * actions hands to the editor — in particular the two copy formats, a regular
 * expression literal with its flags and the same literal as the body of a
 * single-quoted JavaScript string.
 */
module ContextMenu {
  import opened Wrappers
  import opened JsText
  import opened EditorSpec

  // --------------------------------------------------------------- position

  /** The width the menu is laid out with. */
  const MenuWidth := 210

  /**
   * The menu's left edge for a click at `x` in a window `windowSize` wide: at
   * the click when the menu fits to its right, otherwise pushed left so that
   * its right edge meets the window's.
   */
  function MenuLeft(x: int, windowSize: int): (left: int)
    ensures left <= x || windowSize - x > MenuWidth
    ensures left + MenuWidth <= windowSize
    ensures windowSize - x > MenuWidth <==> left == x && x + MenuWidth < windowSize
    ensures windowSize - x <= MenuWidth ==> left + MenuWidth == windowSize
  {
    var fromLeftSide := windowSize - x;
    if fromLeftSide > MenuWidth then x else x - MenuWidth + fromLeftSide
  }

  // ------------------------------------------------------------- the escapes

  /**
   * The backslash rewrite as written: scanning left to right, a backslash
   * and the character after it are taken together — two backslashes and
   * that character when it is no backslash, four backslashes when it is —
   * and a backslash with nothing after it is kept as it is.
   */
  function EscapeBackslashesAsWritten(s: string): (r: string)
    ensures |s| <= |r| <= 2 * |s|
  {
    if |s| == 0 then ""
    else if s[0] == '\\' && |s| >= 2 then
      (if s[1] == '\\' then "\\\\\\\\" else ['\\', '\\', s[1]]) + EscapeBackslashesAsWritten(s[2..])
    else [s[0]] + EscapeBackslashesAsWritten(s[1..])
  }

  /** The backslash rewrite as intended: every backslash doubled. */
  function DoubleBackslashes(s: string): (r: string)
    ensures |s| <= |r| <= 2 * |s|
  {
    if |s| == 0 then ""
    else (if s[0] == '\\' then "\\\\" else [s[0]]) + DoubleBackslashes(s[1..])
  }

  /** A backtick, a single quote or a double quote. */
  predicate IsQuote(c: char)
  {
    c == '`' || c == '\'' || c == '"'
  }

  /** The quote rewrite: every backtick, single quote and double quote gets a backslash before it. */
  function EscapeQuotes(s: string): (r: string)
    ensures |s| <= |r| <= 2 * |s|
  {
    if |s| == 0 then ""
    else (if IsQuote(s[0]) then ['\\', s[0]] else [s[0]]) + EscapeQuotes(s[1..])
  }

  /** Text without a backslash passes both backslash rewrites unchanged. */
  lemma {:induction false} NoBackslashUnchanged(s: string)
    requires '\\' !in s
    ensures EscapeBackslashesAsWritten(s) == s
    ensures DoubleBackslashes(s) == s
  {
    if |s| > 0 {
      assert s[0] != '\\';
      assert '\\' !in s[1..];
      NoBackslashUnchanged(s[1..]);
      assert [s[0]] + s[1..] == s;
    }
  }

  /** Text without a quote passes the quote rewrite unchanged. */
  lemma {:induction false} NoQuoteUnchanged(s: string)
    requires forall i :: 0 <= i < |s| ==> !IsQuote(s[i])
    ensures EscapeQuotes(s) == s
  {
    if |s| > 0 {
      assert !IsQuote(s[0]);
      NoQuoteUnchanged(s[1..]);
      assert [s[0]] + s[1..] == s;
    }
  }

  /** The quote rewrite works character by character. */
  lemma {:induction false} EscapeQuotesConcat(a: string, b: string)
    ensures EscapeQuotes(a + b) == EscapeQuotes(a) + EscapeQuotes(b)
  {
    if |a| > 0 {
      assert (a + b)[0] == a[0] && (a + b)[1..] == a[1..] + b;
      EscapeQuotesConcat(a[1..], b);
      var head := if IsQuote(a[0]) then ['\\', a[0]] else [a[0]];
      assert EscapeQuotes(a) == head + EscapeQuotes(a[1..]);
      assert EscapeQuotes(a + b) == head + EscapeQuotes(a[1..] + b);
    } else {
      assert a + b == b;
    }
  }

  /** The selected text as it appears between the delimiters of the intended `copyAsString`. */
  function EscapeForString(text: string): string
  {
    EscapeQuotes(DoubleBackslashes(text))
  }

  // -------------------------------------------------------- the copy formats

  /** `copyWithFlags`: the selected text as a regular expression literal with the active flags. */
  function CopyWithFlags(text: string, flags: seq<string>): (r: string)
    ensures r == RegexpLiteral(text, flags)
    ensures |r| == |text| + 2 + |Join(flags)|
    ensures r[0] == '/' && r[1..|text| + 1] == text && r[|text| + 1] == '/' && r[|text| + 2..] == Join(flags)
  {
    RegexpLiteral(text, flags)
  }

  /**
   * `copyAsString` as intended: the regular expression literal, every
   * backslash doubled and every quote escaped, between single quotes.
   */
  function CopyAsString(text: string, flags: seq<string>): (r: string)
    ensures |r| == |RegexpLiteral(EscapeForString(text), flags)| + 2
    ensures r[0] == '\'' && r[|r| - 1] == '\''
    ensures r[1..|r| - 1] == RegexpLiteral(EscapeForString(text), flags)
  {
    "'" + RegexpLiteral(EscapeForString(text), flags) + "'"
  }

  /** `copyAsString` as written: the source's backslash rewrite, then the quote rewrite, between single quotes. */
  function CopyAsStringAsWritten(text: string, flags: seq<string>): (r: string)
    ensures |r| == |RegexpLiteral(EscapeQuotes(EscapeBackslashesAsWritten(text)), flags)| + 2
    ensures r[0] == '\'' && r[|r| - 1] == '\''
    ensures r[1..|r| - 1] == RegexpLiteral(EscapeQuotes(EscapeBackslashesAsWritten(text)), flags)
  {
    "'" + RegexpLiteral(EscapeQuotes(EscapeBackslashesAsWritten(text)), flags) + "'"
  }

  // ------------------------------------------- reading a string literal back

  /**
   * A character that, after a backslash in a JavaScript string literal,
   * stands for itself: anything but a line terminator, a digit or one of the
   * letters that start a special escape.
   */
  predicate IdentityEscape(c: char)
  {
    c !in "bfnrtvxu0123456789\n\r"
  }

  /** `Some(prefix + v)` when `o` is `Some(v)`. */
  function PrependTo(prefix: string, o: Option<string>): Option<string>
  {
    match o
    case None => None
    case Some(v) => Some(prefix + v)
  }

  /**
   * The value of the body of a single-quoted JavaScript string literal, or
   * `None` when the body ends the literal early, breaks the line, or uses an
   * escape this model leaves out.
   */
  function LiteralValue(body: string): Option<string>
  {
    if |body| == 0 then Some("")
    else if body[0] == '\\' then
      if |body| >= 2 && IdentityEscape(body[1]) then PrependTo([body[1]], LiteralValue(body[2..])) else None
    else if body[0] == '\'' || body[0] == '\n' || body[0] == '\r' then None
    else PrependTo([body[0]], LiteralValue(body[1..]))
  }

  /** A body with no backslash, single quote or line break reads back as itself. */
  lemma {:induction false} PlainLiteral(body: string)
    requires forall i :: 0 <= i < |body| ==> body[i] !in "\\'\n\r"
    ensures LiteralValue(body) == Some(body)
  {
    if |body| > 0 {
      assert body[0] !in "\\'\n\r";
      PlainLiteral(body[1..]);
      assert [body[0]] + body[1..] == body;
    }
  }

  /** A plain character followed by more of the body reads back as that character first. */
  lemma PlainStep(c: char, rest: string)
    requires c !in "\\'\n\r"
    ensures LiteralValue([c] + rest) == PrependTo([c], LiteralValue(rest))
  {
    assert ([c] + rest)[1..] == rest;
  }

  /** An escaped backslash reads back as one backslash. */
  lemma EscapedBackslashStep(rest: string)
    ensures LiteralValue(EscapeForString("\\") + rest) == PrependTo("\\", LiteralValue(rest))
  {
    assert DoubleBackslashes("\\") == "\\\\" + DoubleBackslashes([]);
    assert EscapeQuotes("\\\\") == "\\\\" by {
      assert !IsQuote('\\');
      assert EscapeQuotes("\\") == "\\" + EscapeQuotes([]);
    }
    var body := "\\\\" + rest;
    assert body[0] == '\\' && body[1] == '\\' && body[2..] == rest;
  }

  /** An escaped quote reads back as that quote. */
  lemma EscapedQuoteStep(c: char, rest: string)
    requires IsQuote(c)
    ensures LiteralValue(EscapeForString([c]) + rest) == PrependTo([c], LiteralValue(rest))
  {
    assert DoubleBackslashes([c]) == [c] + DoubleBackslashes([]);
    assert EscapeQuotes([c]) == ['\\', c] + EscapeQuotes([]);
    var body := ['\\', c] + rest;
    assert body[0] == '\\' && body[1] == c && body[2..] == rest;
  }

  /** Any other character reads back as itself. */
  lemma OtherCharStep(c: char, rest: string)
    requires c != '\\' && !IsQuote(c) && c != '\n' && c != '\r'
    ensures LiteralValue(EscapeForString([c]) + rest) == PrependTo([c], LiteralValue(rest))
  {
    assert DoubleBackslashes([c]) == [c] + DoubleBackslashes([]);
    assert EscapeQuotes([c]) == [c] + EscapeQuotes([]);
    PlainStep(c, rest);
  }

  /** The escaped form of one character reads back as that character. */
  lemma EscapedCharStep(c: char, rest: string)
    requires c != '\n' && c != '\r'
    ensures LiteralValue(EscapeForString([c]) + rest) == PrependTo([c], LiteralValue(rest))
  {
    if c == '\\' {
      EscapedBackslashStep(rest);
    } else if IsQuote(c) {
      EscapedQuoteStep(c, rest);
    } else {
      OtherCharStep(c, rest);
    }
  }

  /** `PrependTo` of two pieces in turn is `PrependTo` of both. */
  lemma PrependTwice(a: string, b: string, o: Option<string>)
    ensures PrependTo(a, PrependTo(b, o)) == PrependTo(a + b, o)
  {
    if o.Some? {
      assert a + (b + o.value) == (a + b) + o.value;
    }
  }

  /** Escaping works character by character. */
  lemma EscapeForStringCons(c: char, tail: string)
    ensures EscapeForString([c] + tail) == EscapeForString([c]) + EscapeForString(tail)
  {
    var text := [c] + tail;
    assert text[0] == c && text[1..] == tail;
    assert DoubleBackslashes(text) == DoubleBackslashes([c]) + DoubleBackslashes(tail) by {
      assert DoubleBackslashes([c]) == (if c == '\\' then "\\\\" else [c]) + DoubleBackslashes([]);
    }
    EscapeQuotesConcat(DoubleBackslashes([c]), DoubleBackslashes(tail));
  }

  /**
   * The escaped text followed by more of the body reads back as the text
   * followed by what the rest reads as, whenever the text has no line break.
   */
  lemma {:induction false} EscapedReadsBack(text: string, rest: string)
    requires '\n' !in text && '\r' !in text
    ensures LiteralValue(EscapeForString(text) + rest) == PrependTo(text, LiteralValue(rest))
  {
    if |text| == 0 {
      assert EscapeForString(text) + rest == rest;
      match LiteralValue(rest)
      case None =>
      case Some(v) => assert text + v == v;
    } else {
      var c, tail := text[0], text[1..];
      assert text == [c] + tail;
      EscapeForStringCons(c, tail);
      assert EscapeForString(text) + rest == EscapeForString([c]) + (EscapeForString(tail) + rest);
      EscapedCharStep(c, EscapeForString(tail) + rest);
      EscapedReadsBack(tail, rest);
      PrependTwice([c], tail, LiteralValue(rest));
    }
  }

  /** The flags of a regular expression: single letters. */
  const FlagLetters: seq<string> := ["i", "g", "m", "s", "y", "d"]

  /**
   * The intended `copyAsString` yields a well-formed single-quoted string literal whose
   * value is exactly what `copyWithFlags` copies.
   */
  lemma CopyAsStringReadsBack(text: string, flags: seq<string>)
    requires '\n' !in text && '\r' !in text
    requires forall i :: 0 <= i < |flags| ==> flags[i] in FlagLetters
    ensures var r := CopyAsString(text, flags);
      LiteralValue(r[1..|r| - 1]) == Some(CopyWithFlags(text, flags))
  {
    var joined := Join(flags);
    forall i | 0 <= i < |joined| ensures joined[i] !in "\\'\n\r" {
      assert joined[i] in joined;
      var k :| 0 <= k < |flags| && joined[i] in flags[k];
      assert flags[k] in FlagLetters;
    }
    PlainLiteral(joined);
    PlainStep('/', joined);
    EscapedReadsBack(text, "/" + joined);
    var body := RegexpLiteral(EscapeForString(text), flags);
    assert body == ['/'] + (EscapeForString(text) + ("/" + joined));
    PlainStep('/', EscapeForString(text) + ("/" + joined));
    PrependTwice("/", text, Some("/" + joined));
    assert "/" + text + ("/" + joined) == RegexpLiteral(text, flags);
  }

  /** Text with no backslash and no quote appears unchanged between the delimiters. */
  lemma PlainTextUnchanged(text: string, flags: seq<string>)
    requires '\\' !in text
    requires forall i :: 0 <= i < |text| ==> !IsQuote(text[i])
    ensures CopyAsString(text, flags) == "'" + CopyWithFlags(text, flags) + "'"
    ensures CopyAsStringAsWritten(text, flags) == CopyAsString(text, flags)
  {
    NoBackslashUnchanged(text);
    NoQuoteUnchanged(text);
  }

  /** As written, a backslash before any other character is doubled. */
  lemma BackslashBeforeCharacterAsWritten(c: char, rest: string)
    requires c != '\\'
    ensures EscapeBackslashesAsWritten(['\\', c] + rest) == ['\\', '\\', c] + EscapeBackslashesAsWritten(rest)
  {
    var s := ['\\', c] + rest;
    assert s[0] == '\\' && s[1] == c && s[2..] == rest;
  }

  /** Doubling every backslash doubles one before any other character. */
  lemma BackslashBeforeCharacterDoubled(c: char, rest: string)
    requires c != '\\'
    ensures DoubleBackslashes(['\\', c] + rest) == ['\\', '\\', c] + DoubleBackslashes(rest)
  {
    var s := ['\\', c] + rest;
    assert s[0] == '\\' && s[1..] == [c] + rest;
    assert ([c] + rest)[0] == c && ([c] + rest)[1..] == rest;
  }

  /** As written, two backslashes become four. */
  lemma TwoBackslashesAsWritten(rest: string)
    ensures EscapeBackslashesAsWritten(['\\', '\\'] + rest) == ['\\', '\\', '\\', '\\'] + EscapeBackslashesAsWritten(rest)
  {
    var s := ['\\', '\\'] + rest;
    assert s[0] == '\\' && s[1] == '\\' && s[2..] == rest;
  }

  /** Doubling every backslash turns two into four. */
  lemma TwoBackslashesDoubled(rest: string)
    ensures DoubleBackslashes(['\\', '\\'] + rest) == ['\\', '\\', '\\', '\\'] + DoubleBackslashes(rest)
  {
    var s := ['\\', '\\'] + rest;
    var t := ['\\'] + rest;
    assert s[0] == '\\' && s[1..] == t;
    assert t[0] == '\\' && t[1..] == rest;
    assert DoubleBackslashes(t) == ['\\', '\\'] + DoubleBackslashes(rest);
  }

  /** The as-written rewrite keeps a final lone backslash single. */
  lemma {:induction false} TrailingBackslashKept(s: string)
    requires '\\' !in s
    ensures EscapeBackslashesAsWritten(s + "\\") == s + "\\"
  {
    if |s| > 0 {
      assert (s + "\\")[1..] == s[1..] + "\\";
      assert s[0] in s;
      TrailingBackslashKept(s[1..]);
      assert [s[0]] + (s[1..] + "\\") == s + "\\";
    }
  }

  /** The two backslash rewrites agree on every text that does not end in a backslash. */
  lemma {:induction false} RewritesAgree(s: string)
    requires |s| == 0 || s[|s| - 1] != '\\'
    ensures EscapeBackslashesAsWritten(s) == DoubleBackslashes(s)
  {
    if |s| == 0 {
    } else if s[0] == '\\' {
      assert |s| >= 2;
      var rest := s[2..];
      assert |rest| == 0 || rest[|rest| - 1] != '\\';
      RewritesAgree(rest);
      if s[1] == '\\' {
        assert s == ['\\', '\\'] + rest;
        TwoBackslashesAsWritten(rest);
        TwoBackslashesDoubled(rest);
      } else {
        assert s == ['\\', s[1]] + rest;
        BackslashBeforeCharacterAsWritten(s[1], rest);
        BackslashBeforeCharacterDoubled(s[1], rest);
      }
    } else {
      RewritesAgree(s[1..]);
    }
  }

  /** The body `/a\/` reads back as `/a/`: the backslash escapes the closing slash. */
  lemma LoneBackslashEscapesSlash()
    ensures LiteralValue("/a\\/") == Some("/a/")
  {
    var escape: string := ['\\', '/'];
    assert IdentityEscape('/');
    assert escape[2..] == [];
    assert LiteralValue(escape) == PrependTo(['/'], Some([]));
    assert ['/'] + [] == "/";
    PlainStep('a', escape);
    assert ['a'] + "/" == "a/";
    PlainStep('/', ['a'] + escape);
    assert ['/'] + "a/" == "/a/";
    assert ['/'] + (['a'] + escape) == "/a\\/";
  }

  /** As written, the selection `a\` is copied as `'/a\/'`, its backslash left single. */
  lemma TrailingBackslashCopy()
    ensures CopyWithFlags("a\\", []) == "/a\\/"
    ensures CopyAsStringAsWritten("a\\", []) == "'/a\\/'"
  {
    assert RegexpLiteral("a\\", []) == "/a\\/" by {
      assert Join([]) == "";
    }
    TrailingBackslashKept("a");
    assert EscapeQuotes("a\\") == "a\\" by {
      assert EscapeQuotes("a\\") == [('a')] + EscapeQuotes("\\");
      assert EscapeQuotes("\\") == ['\\'] + EscapeQuotes([]);
    }
  }

  /**
   * As written, a selection ending in a backslash is copied as a string that
   * does not read back as the regular expression literal.
   */
  lemma TrailingBackslashLost()
    ensures var r := CopyAsStringAsWritten("a\\", []);
      LiteralValue(r[1..|r| - 1]) != Some(CopyWithFlags("a\\", []))
  {
    TrailingBackslashCopy();
    LoneBackslashEscapesSlash();
    assert "'/a\\/'"[1..5] == "/a\\/";
    assert "/a/" != "/a\\/";
  }

  // ------------------------------------------------------------ the actions

  /** The menu's entries, top to bottom. */
  datatype MenuAction = SelectAllAction | CutAction | PasteAction | CopyAction | CopyWithFlagsAction | CopyAsStringAction

  /** A call the menu makes into the editor. */
  datatype MenuCall =
    | PasteCall
    | CopyCall(text: string)
    | CutCall(text: string)
    | SelectCall
    | CloseCall

  /**
   * `clickHandler`: the calls one click makes, in order. Select-all only asks
   * the editor to select everything; every other action makes its one call
   * and then closes the menu.
   */
  function ClickHandler(action: MenuAction, selectionText: string, flags: seq<string>): (calls: seq<MenuCall>)
    ensures CloseCall in calls <==> action != SelectAllAction
    ensures action == SelectAllAction ==> calls == [SelectCall]
    ensures action != SelectAllAction ==> |calls| == 2 && calls[1] == CloseCall
    ensures action == CopyAction ==> calls[0] == CopyCall(selectionText)
    ensures action == CutAction ==> calls[0] == CutCall(selectionText)
    ensures action == PasteAction ==> calls[0] == PasteCall
    ensures action == CopyWithFlagsAction ==> calls[0] == CopyCall(RegexpLiteral(selectionText, flags))
    ensures action == CopyAsStringAction ==>
      calls[0].CopyCall? && calls[0].text == "'" + RegexpLiteral(EscapeQuotes(EscapeBackslashesAsWritten(selectionText)), flags) + "'"
  {
    match action
    case SelectAllAction => [SelectCall]
    case PasteAction => [PasteCall, CloseCall]
    case CopyAction => [CopyCall(selectionText), CloseCall]
    case CopyWithFlagsAction => [CopyCall(CopyWithFlags(selectionText, flags)), CloseCall]
    case CopyAsStringAction => [CopyCall(CopyAsStringAsWritten(selectionText, flags)), CloseCall]
    case CutAction => [CutCall(selectionText), CloseCall]
  }

  /** Unless the text ends in a backslash, the copy as written is the intended one. */
  lemma CopyFormatsAgree(text: string, flags: seq<string>)
    requires |text| == 0 || text[|text| - 1] != '\\'
    ensures CopyAsStringAsWritten(text, flags) == CopyAsString(text, flags)
  {
    RewritesAgree(text);
  }

  /**
   * The string copy the menu makes reads back as its regular expression
   * literal whenever the selection has no line break and does not end in a
   * backslash.
   */
  lemma ClickCopyAsStringReadsBack(text: string, flags: seq<string>)
    requires '\n' !in text && '\r' !in text
    requires |text| == 0 || text[|text| - 1] != '\\'
    requires forall i :: 0 <= i < |flags| ==> flags[i] in FlagLetters
    ensures var r := ClickHandler(CopyAsStringAction, text, flags)[0].text;
      LiteralValue(r[1..|r| - 1]) == Some(CopyWithFlags(text, flags))
  {
    CopyFormatsAgree(text, flags);
    CopyAsStringReadsBack(text, flags);
  }

  /** The menu copies the selection `a\` with no flags as `'/a\/'`. */
  lemma ClickCopyTrailingBackslash()
    ensures ClickHandler(CopyAsStringAction, "a\\", []) == [CopyCall("'/a\\/'"), CloseCall]
  {
    TrailingBackslashCopy();
  }
}
