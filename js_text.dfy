/**
 * The few JavaScript string and array built-ins the editor relies on, with
 * their ECMAScript semantics written out (negative indices, clamping).
 */
module JsText {

  /** `String.prototype.startsWith` with no position argument. */
  predicate StartsWith(s: string, prefix: string)
  {
    |prefix| <= |s| && s[..|prefix|] == prefix
  }

  /** The start index `Array.prototype.splice` actually uses for a given `start`. */
  function SpliceStart(start: int, len: nat): (a: nat)
    ensures a <= len
    ensures 0 <= start <= len ==> a == start
    ensures start > len ==> a == len
    ensures start < 0 ==> a == if len + start < 0 then 0 else len + start
  {
    if start < 0 then (if len + start < 0 then 0 else len + start)
    else if start > len then len
    else start
  }

  /** The number of elements `splice` actually removes when asked for `count` from `a`. */
  function SpliceCount(count: int, a: nat, len: nat): (d: nat)
    requires a <= len
    ensures a + d <= len
    ensures 0 <= count <= len - a ==> d == count
    ensures count < 0 ==> d == 0
  {
    if count < 0 then 0 else if count > len - a then len - a else count
  }

  /**
   * `s.splice(start, count, ...items)` as a value: the sequence the array holds
   * afterwards.
   */
  function Splice<T>(s: seq<T>, start: int, count: int, items: seq<T>): (r: seq<T>)
    ensures var a := SpliceStart(start, |s|);
            var d := SpliceCount(count, a, |s|);
            && |r| == |s| - d + |items|
            && r[..a] == s[..a]
            && r[a..a + |items|] == items
            && r[a + |items|..] == s[a + d..]
  {
    var a := SpliceStart(start, |s|);
    var d := SpliceCount(count, a, |s|);
    s[..a] + items + s[a + d..]
  }

  /** `s.slice(from)` for a non-negative `from`. */
  function SliceFrom<T>(s: seq<T>, from: nat): (r: seq<T>)
    ensures from <= |s| ==> r == s[from..]
    ensures from > |s| ==> r == []
  {
    if from <= |s| then s[from..] else []
  }

  /**
   * `s.slice(start, end)` for a non-negative `start`: a negative `end` counts
   * from the back, and an end before the start gives nothing.
   */
  function Slice<T>(s: seq<T>, start: nat, end: int): (r: seq<T>)
    ensures start <= end <= |s| ==> r == s[start..end]
    ensures 0 <= end <= start ==> r == []
    ensures |r| <= |s|
  {
    var e := if end < 0 then (if |s| + end < 0 then 0 else |s| + end) else if end > |s| then |s| else end;
    var b := if start > |s| then |s| else start;
    if e <= b then [] else s[b..e]
  }

  /** `s.slice(-1)`: the last element, or nothing for an empty sequence. */
  function Last<T>(s: seq<T>): (r: seq<T>)
    ensures |s| > 0 ==> r == [s[|s| - 1]]
    ensures |s| == 0 ==> r == []
  {
    if |s| == 0 then [] else s[|s| - 1..]
  }

  /** `s.slice(0, -1)`: everything but the last element. */
  function DropLast<T>(s: seq<T>): (r: seq<T>)
    ensures |s| > 0 ==> r + Last(s) == s && |r| == |s| - 1
    ensures |s| == 0 ==> r == []
  {
    if |s| == 0 then [] else s[..|s| - 1]
  }

  /** `parts.join('')`. */
  function Join(parts: seq<string>): (r: string)
    ensures |parts| == 0 ==> r == ""
    ensures forall c :: c in r <==> exists i :: 0 <= i < |parts| && c in parts[i]
  {
    if |parts| == 0 then "" else Join(parts[..|parts| - 1]) + parts[|parts| - 1]
  }

  /** `s.split(c).join('')`: every occurrence of `c` removed. */
  function RemoveAll(s: string, c: char): (r: string)
    ensures |r| <= |s|
    ensures c !in r
    ensures forall x :: x != c ==> (x in r <==> x in s)
    ensures c !in s ==> r == s
  {
    if |s| == 0 then ""
    else if s[0] == c then RemoveAll(s[1..], c)
    else [s[0]] + RemoveAll(s[1..], c)
  }

  /** `needle` occurs in `haystack` starting at index `i`. */
  predicate OccursAt(haystack: string, needle: string, i: int)
  {
    0 <= i <= |haystack| - |needle| && haystack[i..i + |needle|] == needle
  }

  /** `haystack.includes(needle)` for strings: substring containment. */
  predicate Includes(haystack: string, needle: string)
  {
    exists i :: 0 <= i <= |haystack| && OccursAt(haystack, needle, i)
  }
}
