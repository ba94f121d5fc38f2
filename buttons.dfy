/**
 * The hint a palette button shows in hotkey mode: its key code shortened to
 * what a user presses.
 */
module Buttons {
  import opened JsText

  /**
   * `cutKeyFromShortcut`: `Shift+Key` followed by anything becomes `Shift+`
   * and its last character, `Key` followed by anything becomes its last
   * character, and any other code is shown as it is.
   */
  function CutKeyFromShortcut(shortcut: string): (r: string)
    ensures StartsWith(shortcut, "Shift+Key") ==> r == "Shift+" + [shortcut[|shortcut| - 1]]
    ensures StartsWith(shortcut, "Key") ==> r == [shortcut[|shortcut| - 1]]
    ensures !StartsWith(shortcut, "Shift+Key") && !StartsWith(shortcut, "Key") ==> r == shortcut
    ensures |r| <= |shortcut|
  {
    var cut := if StartsWith(shortcut, "Shift+Key") then "Shift+" + Last(shortcut) else shortcut;
    assert StartsWith(shortcut, "Shift+Key") ==> cut[0] == 'S' && !StartsWith(cut, "Key");
    if StartsWith(cut, "Key") then Last(cut) else cut
  }

  /** A shortened hint is shortened no further. */
  lemma CutKeyIdempotent(shortcut: string)
    ensures CutKeyFromShortcut(CutKeyFromShortcut(shortcut)) == CutKeyFromShortcut(shortcut)
  {
    var r := CutKeyFromShortcut(shortcut);
    if StartsWith(shortcut, "Shift+Key") {
      assert !StartsWith(r, "Shift+Key");
      assert r[0] == 'S';
      assert !StartsWith(r, "Key");
    } else if StartsWith(shortcut, "Key") {
      assert |r| == 1;
    }
  }

  /** The hints of a few palette codes. */
  lemma CutKeyExamples()
    ensures CutKeyFromShortcut("Shift+KeyN") == "Shift+N"
    ensures CutKeyFromShortcut("KeyA") == "A"
    ensures CutKeyFromShortcut("Space") == "Space"
    ensures CutKeyFromShortcut("Shift+Space") == "Shift+Space"
  {
    assert StartsWith("Shift+KeyN", "Shift+Key");
    assert StartsWith("KeyA", "Key");
    assert !StartsWith("Space", "Shift+Key") && !StartsWith("Space", "Key") by {
      assert "Space"[0] == 'S';
    }
    assert !StartsWith("Shift+Space", "Shift+Key") by {
      assert "Shift+Space"[..9] != "Shift+Key" by {
        assert "Shift+Space"[6] == 'S';
      }
    }
    assert !StartsWith("Shift+Space", "Key") by {
      assert "Shift+Space"[0] == 'S';
    }
  }
}
