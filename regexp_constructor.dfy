/**
 * The key handler around the editor: it tracks which keys are held, turns a
 * key press into a composed key code (`Control+Shift+KeyN`), and decides what
 * insertion request, if any, the press sends to the editor — a palette
 * pattern in hotkey mode, a printable character, or an editing command. It
 * also keeps the set of active flags and the hotkey-mode switch.
 */
module RegexpConstructor {
  import opened Wrappers
  import opened Types
  import opened JsText

  // ------------------------------------------------------------ the tables

  const CyrillicUpper: string := "АЕЁИОУЫЭЮЯБВГДЖЗЙКЛМНПРСТФХЧЦШЩ"
  const CyrillicLower: string := "аеёиоуыэюябвгджзйклмнпрстфхчцшщ"
  const LatinUpper: string := "AEIOUYBCDFGHJKLMNPQRSTVWXYZ"
  const LatinLower: string := "aeiouybcdfghjklmnpqrstvwxyz"
  const Digits: string := "0123456789"
  const Punctuation: string := ".,+-*/\\|?<>;:'\"{[]}=+–—_!@#№$%^&*()`~ "

  /** Characters a plain key press may insert, in six groups. */
  const AvailableCharacters: seq<string> := [CyrillicUpper, CyrillicLower, LatinUpper, LatinLower, Digits, Punctuation]

  /** The composed key codes that are sent to the editor as commands. */
  const EditingCodes: seq<string> := [
    "Backspace", "Delete", "ArrowLeft", "ArrowRight",
    "Shift+ArrowLeft", "Shift+ArrowRight",
    "Control+KeyZ", "Control+KeyY", "Control+KeyX", "Control+KeyC", "Control+KeyV", "Control+KeyA"
  ]

  /** The named-group template: its placeholder name is selected after insertion. */
  const NamedGroupPattern := Pattern("(?<name>)", "Shift+KeyN", Some(InsertSelection(3, 7, true)), true)

  /** The palette, in the order the hotkey lookup walks it: symbols, quantifiers, groups. */
  const PatternTable: seq<Pattern> := [
    Pattern(".", "KeyA", None, false),
    Pattern("\\d", "KeyD", None, false),
    Pattern("\\D", "Shift+KeyD", None, false),
    Pattern("\\s", "Space", None, false),
    Pattern("\\S", "Shift+Space", None, false),
    Pattern("\\w", "KeyW", None, false),
    Pattern("\\W", "Shift+KeyW", None, false),
    Pattern("\\", "KeyE", None, false),
    Pattern("|", "KeyO", None, false),
    Pattern("^", "KeyF", None, false),
    Pattern("$", "KeyL", None, false),
    Pattern("+", "KeyP", None, false),
    Pattern("*", "KeyM", None, false),
    Pattern("?", "KeyQ", None, false),
    Pattern("{n}", "KeyN", Some(InsertSelection(1, 2, true)), false),
    Pattern("{n,m}", "KeyR", Some(InsertSelection(1, 2, true)), false),
    Pattern("{n,}", "Shift+KeyR", Some(InsertSelection(1, 2, true)), false),
    Pattern("[]", "KeyS", Some(InsertSelection(1, 1, false)), true),
    Pattern("[^]", "KeyX", Some(InsertSelection(2, 2, false)), true),
    Pattern("()", "KeyG", Some(InsertSelection(1, 1, false)), true),
    Pattern("(?:)", "Shift+KeyG", Some(InsertSelection(3, 3, false)), true),
    NamedGroupPattern,
    Pattern("(?=)", "KeyC", Some(InsertSelection(3, 3, false)), true),
    Pattern("(?<=)", "KeyB", Some(InsertSelection(4, 4, false)), true),
    Pattern("(?!)", "Shift+KeyC", Some(InsertSelection(3, 3, false)), true),
    Pattern("(?<!)", "Shift+KeyB", Some(InsertSelection(4, 4, false)), true)
  ]

  // ---------------------------------------------------- pure key decisions

  /** Some character group contains `keyValue` as a substring. */
  predicate IsAvailableCharacter(keyValue: string)
  {
    exists i :: 0 <= i < |AvailableCharacters| && Includes(AvailableCharacters[i], keyValue)
  }

  /** The first pattern whose code is `keyCode`. */
  function FindPattern(table: seq<Pattern>, keyCode: string): (r: Option<Pattern>)
    ensures r.Some? ==> r.value in table && r.value.code == keyCode
    ensures r.Some? ==> exists i :: 0 <= i < |table| && table[i] == r.value
                         && forall j :: 0 <= j < i ==> table[j].code != keyCode
    ensures r.None? ==> forall p :: p in table ==> p.code != keyCode
  {
    if |table| == 0 then None
    else if table[0].code == keyCode then Some(table[0])
    else
      var rest := FindPattern(table[1..], keyCode);
      assert rest.None? ==> forall p :: p in table ==> p.code != keyCode by {
        if rest.None? {
          forall p | p in table ensures p.code != keyCode {
            if p != table[0] { assert p in table[1..]; }
          }
        }
      }
      rest
  }

  /**
   * `addPressedKey`: the first key pressed is recorded alone; while Shift or
   * Control is held a new key is added (a key already held keeps its code);
   * otherwise the keys recorded so far are forgotten and only the new one kept.
   */
  function AddedKeys(keys: map<string, string>, keyCode: string, keyValue: string): (r: map<string, string>)
    ensures keyValue in r
    ensures |keys| == 0 ==> r == map[keyValue := keyCode]
    ensures |keys| > 0 && ("Shift" in keys || "Control" in keys) ==>
      && r.Keys == keys.Keys + {keyValue}
      && (forall k :: k in keys ==> r[k] == keys[k])
      && (keyValue !in keys ==> r[keyValue] == keyCode)
    ensures !("Shift" in keys || "Control" in keys) ==> r == map[keyValue := keyCode]
  {
    if |keys| == 0 then map[keyValue := keyCode]
    else if "Shift" in keys || "Control" in keys then
      if keyValue !in keys then keys[keyValue := keyCode] else keys
    else map[keyValue := keyCode]
  }

  /** The key code with the held modifiers in front: `Shift+` first, then `Control+` before it. */
  function ComposeKeyCode(keys: map<string, string>, code: string): (r: string)
  {
    var shifted := if "Shift" in keys then "Shift+" + code else code;
    if "Control" in keys then "Control+" + shifted else shifted
  }

  /** The key value with `Control+` in front while Control is held. */
  function ComposeKeyValue(keys: map<string, string>, key: string): string
  {
    if "Control" in keys then "Control+" + key else key
  }

  /** A request that carries only an insertion text. */
  function Command(insert: string): (r: InsertType)
    ensures r.insert == insert && r.selection.None? && !r.isGroup
  {
    InsertType(insert, None, false)
  }

  /**
   * What a key press (other than Escape) sends to the editor, once `keys`
   * holds the pressed key: the pattern bound to the composed code in hotkey
   * mode; otherwise an editing command for its code, or else the composed
   * value when it is an available character; otherwise nothing.
   */
  function KeyDecision(hotkeyOn: bool, keys: map<string, string>, code: string, key: string): Option<InsertType>
  {
    var keyCode := ComposeKeyCode(keys, code);
    var keyValue := ComposeKeyValue(keys, key);
    var hotkey := FindPattern(PatternTable, keyCode);
    if hotkeyOn && hotkey.Some? then Some(PatternInsert(hotkey.value))
    else if keyCode in EditingCodes then Some(Command(keyCode))
    else if IsAvailableCharacter(keyValue) then Some(Command(keyValue))
    else None
  }

  /** Removes `flag` from a sequence of distinct flags. */
  function Without(flags: seq<string>, flag: string): (r: seq<string>)
    ensures forall f :: f in r <==> f in flags && f != flag
    ensures |r| <= |flags|
  {
    if |flags| == 0 then []
    else if flags[0] == flag then Without(flags[1..], flag)
    else [flags[0]] + Without(flags[1..], flag)
  }

  /** No flag occurs twice. */
  predicate Distinct(flags: seq<string>)
  {
    forall i, j :: 0 <= i < j < |flags| ==> flags[i] != flags[j]
  }

  /**
   * `changeActiveFlags` on an insertion-ordered set: an active flag is
   * removed, an inactive one added at the end.
   */
  function Toggle(flags: seq<string>, flag: string): (r: seq<string>)
    ensures flag in r <==> flag !in flags
    ensures forall f :: f != flag ==> (f in r <==> f in flags)
  {
    if flag in flags then Without(flags, flag) else flags + [flag]
  }

  // --------------------------------------------------------------- the state

  /** The key handler's mutable state. */
  class KeyTracker {
    /** The held keys: key value to key code. */
    var pressedKeys: map<string, string>
    /** The active flags in the order they were switched on. */
    var activeFlags: seq<string>
    /** Whether key presses trigger palette patterns. */
    var isHotkeyOn: bool

    /** The handler as mounted: nothing held, no flags, hotkey mode off. */
    constructor ()
      ensures pressedKeys == map[] && activeFlags == [] && !isHotkeyOn
    {
      pressedKeys := map[];
      activeFlags := [];
      isHotkeyOn := false;
    }

    /** `changeActiveFlags`. */
    method ChangeActiveFlags(flag: string)
      modifies this
      ensures activeFlags == Toggle(old(activeFlags), flag)
      ensures pressedKeys == old(pressedKeys) && isHotkeyOn == old(isHotkeyOn)
    {
      if flag in activeFlags {
        activeFlags := Without(activeFlags, flag);
      } else {
        activeFlags := activeFlags + [flag];
      }
    }

    /** `switchHotkeyActive`: flip hotkey mode and send an empty request. */
    method SwitchHotkeyActive() returns (emitted: InsertType)
      modifies this
      ensures isHotkeyOn == !old(isHotkeyOn)
      ensures emitted == Command("")
      ensures pressedKeys == old(pressedKeys) && activeFlags == old(activeFlags)
    {
      isHotkeyOn := !isHotkeyOn;
      emitted := Command("");
    }

    /** `addPressedKey`. */
    method AddPressedKey(keyCode: string, keyValue: string)
      modifies this
      ensures pressedKeys == AddedKeys(old(pressedKeys), keyCode, keyValue)
      ensures activeFlags == old(activeFlags) && isHotkeyOn == old(isHotkeyOn)
    {
      if |pressedKeys| == 0 {
        pressedKeys := pressedKeys[keyValue := keyCode];
        return;
      }
      if "Shift" in pressedKeys || "Control" in pressedKeys {
        if keyValue !in pressedKeys {
          pressedKeys := pressedKeys[keyValue := keyCode];
        }
        return;
      }
      pressedKeys := map[];
      pressedKeys := pressedKeys[keyValue := keyCode];
    }

    /** `deletePressedKey`: a released key is forgotten, and nothing else. */
    method DeletePressedKey(keyValue: string)
      modifies this
      ensures pressedKeys == old(pressedKeys) - {keyValue}
      ensures activeFlags == old(activeFlags) && isHotkeyOn == old(isHotkeyOn)
    {
      pressedKeys := pressedKeys - {keyValue};
    }

    /**
     * `keyPressHandler`: Escape flips hotkey mode and sends an empty request;
     * any other key is recorded and then decided on. `None` means the press
     * sends nothing.
     */
    method KeyPress(code: string, key: string) returns (emitted: Option<InsertType>)
      modifies this
      ensures code == "Escape" ==>
        && emitted == Some(Command(""))
        && isHotkeyOn == !old(isHotkeyOn) && pressedKeys == old(pressedKeys)
      ensures code != "Escape" ==>
        && pressedKeys == AddedKeys(old(pressedKeys), code, key)
        && isHotkeyOn == old(isHotkeyOn)
        && emitted == KeyDecision(isHotkeyOn, pressedKeys, code, key)
      ensures activeFlags == old(activeFlags)
    {
      if code == "Escape" {
        var empty := SwitchHotkeyActive();
        return Some(empty);
      }
      var keyCode := code;
      var keyValue := key;
      AddPressedKey(keyCode, keyValue);
      if "Shift" in pressedKeys {
        keyCode := "Shift+" + keyCode;
      }
      if "Control" in pressedKeys {
        keyCode := "Control+" + keyCode;
        keyValue := "Control+" + keyValue;
      }
      var hotkeyButtonValue := FindPattern(PatternTable, keyCode);
      if isHotkeyOn && hotkeyButtonValue.Some? {
        return Some(PatternInsert(hotkeyButtonValue.value));
      }
      emitted := None;
      if IsAvailableCharacter(keyValue) {
        emitted := Some(Command(keyValue));
      }
      if keyCode in EditingCodes {
        emitted := Some(Command(keyCode));
      }
    }
  }

  // ------------------------------------------------------------ properties

  /** Releasing a key added while a modifier was held gives back the keys held before. */
  lemma PressThenRelease(keys: map<string, string>, keyCode: string, keyValue: string)
    requires "Shift" in keys || "Control" in keys
    requires keyValue !in keys
    ensures AddedKeys(keys, keyCode, keyValue) - {keyValue} == keys
  {
  }

  /** With both modifiers held the code reads `Control+Shift+…`, and only the value's `Control+` is added. */
  lemma ComposeOrder(keys: map<string, string>, code: string, key: string)
    requires "Shift" in keys && "Control" in keys
    ensures ComposeKeyCode(keys, code) == "Control+" + "Shift+" + code
    ensures ComposeKeyValue(keys, key) == "Control+" + key
  {
  }

  /** With no modifier held the code and the value pass through unchanged. */
  lemma ComposeNoModifier(keys: map<string, string>, code: string, key: string)
    requires "Shift" !in keys && "Control" !in keys
    ensures ComposeKeyCode(keys, code) == code && ComposeKeyValue(keys, key) == key
  {
  }

  /** In hotkey mode a code bound to a pattern sends that pattern and nothing else. */
  lemma HotkeyWins(keys: map<string, string>, code: string, key: string, p: Pattern)
    requires p in PatternTable && p.code == ComposeKeyCode(keys, code)
    ensures var d := KeyDecision(true, keys, code, key);
      && d.Some?
      && exists i :: 0 <= i < |PatternTable| && d.value == PatternInsert(PatternTable[i])
           && PatternTable[i].code == ComposeKeyCode(keys, code)
           && forall j :: 0 <= j < i ==> PatternTable[j].code != ComposeKeyCode(keys, code)
  {
  }

  /** The shape every palette code has: 4, 5, 10 or 11 characters, and `S` first when 10. */
  predicate PaletteShaped(c: string)
  {
    |c| == 4 || |c| == 5 || |c| == 11 || (|c| == 10 && c[0] == 'S')
  }

  /** Every palette code has the palette shape. */
  lemma PatternCodeShape(i: int)
    requires 0 <= i < |PatternTable|
    ensures PaletteShaped(PatternTable[i].code)
  {
  }

  /** No command code has the palette shape. */
  lemma EditingCodeShape(i: int)
    requires 0 <= i < |EditingCodes|
    ensures !PaletteShaped(EditingCodes[i])
  {
  }

  /** A code no entry carries finds nothing. */
  lemma FindNothing(table: seq<Pattern>, c: string)
    requires forall i :: 0 <= i < |table| ==> table[i].code != c
    ensures FindPattern(table, c).None?
  {
  }

  /** A code without the palette shape is bound to no pattern. */
  lemma NotPaletteShaped(c: string)
    requires !PaletteShaped(c)
    ensures FindPattern(PatternTable, c).None?
  {
    forall i | 0 <= i < |PatternTable| ensures PatternTable[i].code != c {
      PatternCodeShape(i);
    }
    FindNothing(PatternTable, c);
  }

  /** No editing command is bound to a palette pattern. */
  lemma EditingCodesAreNotHotkeys(c: string)
    requires c in EditingCodes
    ensures FindPattern(PatternTable, c).None?
  {
    var k :| 0 <= k < |EditingCodes| && EditingCodes[k] == c;
    EditingCodeShape(k);
    NotPaletteShaped(c);
  }

  /** An editing command is sent as its composed code, in or out of hotkey mode. */
  lemma EditingCodeSent(hotkeyOn: bool, keys: map<string, string>, code: string, key: string)
    requires ComposeKeyCode(keys, code) in EditingCodes
    ensures KeyDecision(hotkeyOn, keys, code, key) == Some(Command(ComposeKeyCode(keys, code)))
  {
    EditingCodesAreNotHotkeys(ComposeKeyCode(keys, code));
  }

  /** Outside hotkey mode, an available character that is no command is sent as itself. */
  lemma AvailableCharacterSent(keys: map<string, string>, code: string, key: string)
    requires ComposeKeyCode(keys, code) !in EditingCodes
    requires IsAvailableCharacter(ComposeKeyValue(keys, key))
    ensures KeyDecision(false, keys, code, key) == Some(Command(ComposeKeyValue(keys, key)))
  {
  }

  /** The entry at `k` is the first with code `c`, so the lookup finds it. */
  lemma FindFirst(table: seq<Pattern>, c: string, k: int)
    requires 0 <= k < |table| && table[k].code == c
    requires forall j :: 0 <= j < k ==> table[j].code != c
    ensures FindPattern(table, c) == Some(table[k])
  {
  }

  /** Ten characters ending in `N`: the shape of `Shift+KeyN`. */
  predicate ShiftNShaped(c: string)
  {
    |c| == 10 && c[9] == 'N'
  }

  /** No palette code before the named group has that shape. */
  lemma BeforeNamedGroup(j: int)
    requires 0 <= j < 21
    ensures !ShiftNShaped(PatternTable[j].code)
  {
  }

  /** A one-character string is included in any text holding that character. */
  lemma CharIncluded(haystack: string, i: int)
    requires 0 <= i < |haystack|
    ensures Includes(haystack, [haystack[i]])
  {
    assert OccursAt(haystack, [haystack[i]], i);
  }

  /** The capital letter N may be typed. */
  lemma CapitalNAvailable()
    ensures IsAvailableCharacter("N")
  {
    assert LatinUpper[16] == 'N';
    CharIncluded(LatinUpper, 16);
    assert AvailableCharacters[2] == LatinUpper;
  }

  /** `Shift+KeyN` is bound to the named group. */
  lemma ShiftKeyNBinding()
    ensures FindPattern(PatternTable, "Shift+KeyN") == Some(NamedGroupPattern)
  {
    assert PatternTable[21] == NamedGroupPattern;
    assert ShiftNShaped("Shift+KeyN");
    forall j | 0 <= j < 21 ensures PatternTable[j].code != "Shift+KeyN" {
      BeforeNamedGroup(j);
    }
    FindFirst(PatternTable, "Shift+KeyN", 21);
  }

  /** `Shift+KeyN` is no command. */
  lemma ShiftKeyNNoCommand()
    ensures "Shift+KeyN" !in EditingCodes
  {
    assert PaletteShaped("Shift+KeyN");
    forall i | 0 <= i < |EditingCodes| ensures EditingCodes[i] != "Shift+KeyN" {
      EditingCodeShape(i);
    }
  }

  /** Shift and N held, as the key handler records them. */
  const ShiftAndN: map<string, string> := map["Shift" := "ShiftLeft", "N" := "KeyN"]

  /** Shift+N in hotkey mode sends the named-group template with its name selected. */
  lemma NamedGroupHotkey()
    ensures KeyDecision(true, ShiftAndN, "KeyN", "N") == Some(InsertType("(?<name>)", Some(InsertSelection(3, 7, true)), true))
  {
    assert ComposeKeyCode(ShiftAndN, "KeyN") == "Shift+KeyN";
    ShiftKeyNBinding();
    assert PatternInsert(NamedGroupPattern) == InsertType("(?<name>)", Some(InsertSelection(3, 7, true)), true);
  }

  /** Shift+N outside hotkey mode types the capital letter. */
  lemma CapitalNTyped()
    ensures KeyDecision(false, ShiftAndN, "KeyN", "N") == Some(Command("N"))
  {
    assert ComposeKeyCode(ShiftAndN, "KeyN") == "Shift+KeyN";
    assert ComposeKeyValue(ShiftAndN, "N") == "N";
    ShiftKeyNNoCommand();
    CapitalNAvailable();
  }

  /** Removing an absent flag changes nothing. */
  lemma {:induction false} WithoutAbsent(flags: seq<string>, flag: string)
    requires flag !in flags
    ensures Without(flags, flag) == flags
  {
    if |flags| > 0 {
      WithoutAbsent(flags[1..], flag);
      assert [flags[0]] + flags[1..] == flags;
    }
  }

  /** Removing a flag keeps the others distinct and in their order. */
  lemma {:induction false} WithoutDistinct(flags: seq<string>, flag: string)
    requires Distinct(flags)
    ensures Distinct(Without(flags, flag))
    ensures flag in flags ==> |Without(flags, flag)| == |flags| - 1
  {
    if |flags| > 0 {
      assert Distinct(flags[1..]);
      WithoutDistinct(flags[1..], flag);
      if flags[0] == flag {
        assert flag !in flags[1..];
        WithoutAbsent(flags[1..], flag);
      } else {
        var r := [flags[0]] + Without(flags[1..], flag);
        forall i, j | 0 <= i < j < |r| ensures r[i] != r[j] {
          if i == 0 {
            assert r[j] in Without(flags[1..], flag);
            assert flags[0] !in flags[1..];
          }
        }
        if flag in flags {
          assert flag in flags[1..];
        }
      }
    }
  }

  /** Toggling keeps the active flags free of repeats. */
  lemma ToggleDistinct(flags: seq<string>, flag: string)
    requires Distinct(flags)
    ensures Distinct(Toggle(flags, flag))
  {
    WithoutDistinct(flags, flag);
  }

  /** Switching an inactive flag on and off again restores the flags exactly. */
  lemma OnThenOffRestores(flags: seq<string>, flag: string)
    requires flag !in flags
    ensures Toggle(Toggle(flags, flag), flag) == flags
  {
    assert flag in flags + [flag];
    WithoutAppended(flags, flag);
  }

  /** Removing a flag appended to a list that lacked it gives the list back. */
  lemma {:induction false} WithoutAppended(flags: seq<string>, flag: string)
    requires flag !in flags
    ensures Without(flags + [flag], flag) == flags
  {
    if |flags| == 0 {
      assert Without([flag], flag) == Without([], flag);
    } else {
      assert (flags + [flag])[1..] == flags[1..] + [flag];
      WithoutAppended(flags[1..], flag);
      assert [flags[0]] + flags[1..] == flags;
    }
  }

  /**
   * Switching an active flag off and on again restores the same flags and
   * count, with that flag now last.
   */
  lemma OffThenOnMovesLast(flags: seq<string>, flag: string)
    requires Distinct(flags) && flag in flags
    ensures var r := Toggle(Toggle(flags, flag), flag);
      && (forall f :: f in r <==> f in flags)
      && |r| == |flags|
      && r[|r| - 1] == flag
  {
    WithoutDistinct(flags, flag);
  }

  /** Switching `i` off and on in `["i", "g"]` leaves `["g", "i"]`. */
  lemma FlagOrderExample()
    ensures Toggle(Toggle(["i", "g"], "i"), "i") == ["g", "i"]
  {
    assert Without(["i", "g"], "i") == ["g"] by {
      assert ["i", "g"][1..] == ["g"];
      assert Without(["g"], "i") == ["g"] + Without([], "i");
    }
  }
}
