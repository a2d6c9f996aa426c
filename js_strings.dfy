/**
 * The JavaScript string operations the handlers rely on: `trim()`,
 * `split(sep)` with a non-empty string separator, and `join(sep)`.
 * A JavaScript string is modelled as a sequence of characters.
 */
module JsStrings {
  import opened Wrappers

  /** The characters `String.prototype.trim` removes: ECMAScript WhiteSpace
      (TAB, VT, FF, SPACE, NBSP, ZWNBSP and the other Zs characters) and
      LineTerminator (LF, CR, LS, PS). */
  predicate IsWhitespace(c: char) {
    var n := c as int;
    n == 0x09 || n == 0x0A || n == 0x0B || n == 0x0C || n == 0x0D
    || n == 0x20 || n == 0xA0 || n == 0x1680 || (0x2000 <= n <= 0x200A)
    || n == 0x2028 || n == 0x2029 || n == 0x202F || n == 0x205F
    || n == 0x3000 || n == 0xFEFF
  }

  predicate AllWhitespace(s: string) {
    forall i :: 0 <= i < |s| ==> IsWhitespace(s[i])
  }

  /** Neither end of `s` is a whitespace character. */
  predicate Trimmed(s: string) {
    s != [] ==> !IsWhitespace(s[0]) && !IsWhitespace(s[|s| - 1])
  }

  /** The index of the first non-whitespace character of `s` at or after
      `k`, or `|s|` when there is none; `s[..k]` is known to be whitespace. */
  function TextStart(s: string, k: nat): (a: nat)
    requires k <= |s|
    requires forall i :: 0 <= i < k ==> IsWhitespace(s[i])
    ensures k <= a <= |s|
    ensures forall i :: 0 <= i < a ==> IsWhitespace(s[i])
    ensures a < |s| ==> !IsWhitespace(s[a])
    decreases |s| - k
  {
    if k < |s| && IsWhitespace(s[k]) then TextStart(s, k + 1) else k
  }

  /** The index just past the last non-whitespace character of `s[a..e]`,
      or `a` when there is none; `s[e..]` is known to be whitespace. */
  function TextEnd(s: string, a: nat, e: nat): (r: nat)
    requires a <= e <= |s|
    requires forall i :: e <= i < |s| ==> IsWhitespace(s[i])
    ensures a <= r <= e
    ensures forall i :: r <= i < |s| ==> IsWhitespace(s[i])
    ensures r > a ==> !IsWhitespace(s[r - 1])
    decreases e
  {
    if a < e && IsWhitespace(s[e - 1]) then TextEnd(s, a, e - 1) else e
  }

  /** `r` is `s` with a whitespace-only prefix of length `a` and a
      whitespace-only suffix removed. */
  predicate StripsTo(s: string, a: int, r: string) {
    && 0 <= a && a + |r| <= |s| && r == s[a..a + |r|]
    && (forall i :: 0 <= i < a ==> IsWhitespace(s[i]))
    && (forall i :: a + |r| <= i < |s| ==> IsWhitespace(s[i]))
  }

  /** `s.trim()`: the infix of `s` left after removing whitespace from both
      ends; everything removed is whitespace and the result has none at either end. */
  function Trim(s: string): (r: string)
    ensures Trimmed(r)
    ensures StripsTo(s, TextStart(s, 0), r)
  {
    var a := TextStart(s, 0);
    var e := TextEnd(s, a, |s|);
    s[a..e]
  }

  /** Trimming twice is trimming once. */
  lemma TrimIdempotent(s: string)
    ensures Trim(Trim(s)) == Trim(s)
  {
    TrimmedIsFixed(Trim(s));
  }

  /** A string without whitespace at either end is its own `trim()`. */
  lemma TrimmedIsFixed(s: string)
    requires Trimmed(s)
    ensures Trim(s) == s
  {
    assert TextStart(s, 0) == 0;
    assert TextEnd(s, 0, |s|) == |s|;
  }

  /** `s.trim()` is empty exactly when `s` is whitespace only. */
  lemma TrimEmptyIff(s: string)
    ensures Trim(s) == [] <==> AllWhitespace(s)
  {
  }

  /** `s.trim()` is `s[a..e]` when exactly the characters outside `[a, e)`
      are whitespace, and those at its ends are not. */
  lemma TrimBetween(s: string, a: nat, e: nat)
    requires a < e <= |s|
    requires forall i :: 0 <= i < a ==> IsWhitespace(s[i])
    requires forall i :: e <= i < |s| ==> IsWhitespace(s[i])
    requires !IsWhitespace(s[a]) && !IsWhitespace(s[e - 1])
    ensures Trim(s) == s[a..e]
  {
    assert TextStart(s, 0) == a;
  }

  /** `sep` occurs in `s` starting at index `i`. */
  predicate OccursAt(s: string, sep: string, i: int) {
    0 <= i && i + |sep| <= |s| && s[i..i + |sep|] == sep
  }

  predicate Contains(s: string, sep: string) {
    exists i :: 0 <= i <= |s| && OccursAt(s, sep, i)
  }

  lemma OccursAtTail(s: string, sep: string, j: int)
    requires s != [] && 0 <= j
    ensures OccursAt(s, sep, j + 1) <==> OccursAt(s[1..], sep, j)
  {
    if 0 <= j && j + 1 + |sep| <= |s| {
      assert s[j + 1..j + 1 + |sep|] == s[1..][j..j + |sep|];
    }
  }

  /** The index of the first occurrence of `sep` in `s`, as `s.indexOf(sep)`
      finds it (with `None` for JavaScript's -1). */
  function FindFirst(s: string, sep: string): (r: Option<nat>)
    ensures r.Some? ==> OccursAt(s, sep, r.value)
    ensures r.Some? ==> forall j :: 0 <= j < r.value ==> !OccursAt(s, sep, j)
    ensures r.None? <==> !Contains(s, sep)
    decreases |s|
  {
    if |s| < |sep| then
      None
    else if s[..|sep|] == sep then
      assert OccursAt(s, sep, 0);
      Some(0)
    else
      var r := FindFirst(s[1..], sep);
      assert !OccursAt(s, sep, 0);
      assert forall j :: 0 <= j ==> (OccursAt(s, sep, j + 1) <==> OccursAt(s[1..], sep, j)) by {
        forall j | 0 <= j ensures OccursAt(s, sep, j + 1) <==> OccursAt(s[1..], sep, j) {
          OccursAtTail(s, sep, j);
        }
      }
      match r
      case None =>
        assert forall j :: !OccursAt(s, sep, j) by {
          forall j ensures !OccursAt(s, sep, j) {
            if j > 0 { assert !OccursAt(s[1..], sep, j - 1); }
          }
        }
        None
      case Some(i) =>
        forall j | 0 < j < i + 1
          ensures !OccursAt(s, sep, j)
        {
          OccursAtTail(s, sep, j - 1);
        }
        Some(i + 1)
  }

  /** An occurrence with none before it is the one `FindFirst` finds. */
  lemma FirstOccurrence(s: string, sep: string, i: nat)
    requires OccursAt(s, sep, i)
    requires forall j :: 0 <= j < i ==> !OccursAt(s, sep, j)
    ensures FindFirst(s, sep) == Some(i)
  {
    assert Contains(s, sep);
  }

  /** A prefix of `s` ending before the first occurrence of `sep` holds no
      occurrence of `sep`. */
  lemma PrefixBeforeFirst(s: string, sep: string, i: nat)
    requires sep != [] && i <= |s|
    requires forall j :: 0 <= j < i ==> !OccursAt(s, sep, j)
    ensures !Contains(s[..i], sep)
  {
    forall j | OccursAt(s[..i], sep, j)
      ensures false
    {
      assert s[..i][j..j + |sep|] == s[j..j + |sep|];
      assert OccursAt(s, sep, j);
    }
  }

  /** `s.split(sep)` for a non-empty separator: the pieces between the
      occurrences of `sep`, scanning left to right; there is always at least
      one piece and no piece contains `sep`. */
  function Split(s: string, sep: string): (parts: seq<string>)
    requires sep != []
    ensures |parts| >= 1
    ensures forall k :: 0 <= k < |parts| ==> !Contains(parts[k], sep)
    decreases |s|
  {
    match FindFirst(s, sep)
    case None => [s]
    case Some(i) =>
      PrefixBeforeFirst(s, sep, i);
      [s[..i]] + Split(s[i + |sep|..], sep)
  }

  /** `a || b` on two strings: the empty string is the only falsy string. */
  function OrElse(a: string, b: string): (r: string)
    ensures r == a || r == b
    ensures a != "" ==> r == a
    ensures r == "" ==> a == "" && b == ""
  {
    if a != "" then a else b
  }

  /** `parts.join(sep)`; joining no parts gives the empty string. */
  function Join(parts: seq<string>, sep: string): string {
    if parts == [] then ""
    else if |parts| == 1 then parts[0]
    else parts[0] + sep + Join(parts[1..], sep)
  }

  /** Splitting and joining again with the same separator gives back the
      original string. */
  lemma {:induction false} JoinSplit(s: string, sep: string)
    requires sep != []
    ensures Join(Split(s, sep), sep) == s
    decreases |s|
  {
    var found := FindFirst(s, sep);
    if found.Some? {
      var i := found.value;
      var rest := s[i + |sep|..];
      var tail := Split(rest, sep);
      JoinSplit(rest, sep);
      assert Split(s, sep) == [s[..i]] + tail;
      assert Join([s[..i]] + tail, sep) == s[..i] + sep + Join(tail, sep) by {
        assert |tail| >= 1;
        assert ([s[..i]] + tail)[1..] == tail;
      }
      assert s == s[..i] + s[i..i + |sep|] + rest;
    }
  }

  /** The pieces after the first, joined again, are exactly the text after
      the first occurrence of `sep`: later occurrences are kept. */
  lemma JoinTailAfterFirst(s: string, sep: string, i: nat)
    requires sep != []
    requires FindFirst(s, sep) == Some(i)
    ensures Split(s, sep)[0] == s[..i]
    ensures Join(Split(s, sep)[1..], sep) == s[i + |sep|..]
  {
    var rest := s[i + |sep|..];
    SplitAtFirst(s, sep, i);
    JoinSplit(rest, sep);
  }

  /** Splitting at a first occurrence: its prefix, then the split of the rest. */
  lemma SplitAtFirst(s: string, sep: string, i: nat)
    requires sep != []
    requires FindFirst(s, sep) == Some(i)
    ensures Split(s, sep)[0] == s[..i]
    ensures Split(s, sep)[1..] == Split(s[i + |sep|..], sep)
  {
  }
}
