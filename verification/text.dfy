/** String primitives of the JavaScript runtime that the controllers rely
    on, written out over `seq<char>`. */
module Text {
  import opened Wrappers

  /** `needle` occurs in `s` starting at position `i`. */
  predicate OccursAt(s: string, needle: string, i: nat) {
    i + |needle| <= |s| && s[i..i + |needle|] == needle
  }

  predicate Contains(s: string, needle: string) {
    exists i: nat | i <= |s| :: OccursAt(s, needle, i)
  }

  predicate IsSuffix(suffix: string, s: string) {
    |suffix| <= |s| && s[|s| - |suffix|..] == suffix
  }

  /** The first position at or after `from` where `needle` occurs. */
  function FindFrom(s: string, needle: string, from: nat): (r: Option<nat>)
    decreases |s| - from
    ensures r.Some? ==> from <= r.value && OccursAt(s, needle, r.value)
    ensures r.Some? ==> forall j: nat :: from <= j < r.value ==> !OccursAt(s, needle, j)
    ensures r.None? ==> forall j: nat :: from <= j ==> !OccursAt(s, needle, j)
  {
    if from + |needle| > |s| then None
    else if s[from..from + |needle|] == needle then Some(from)
    else FindFrom(s, needle, from + 1)
  }

  /** `String.prototype.indexOf(needle, fromIndex)`: a negative start counts
      as 0, a start past the end as the length; -1 when absent. */
  function IndexOfFrom(s: string, needle: string, fromIndex: int): (r: int)
    ensures r == -1 || (0 <= r && OccursAt(s, needle, r))
  {
    var start := if fromIndex < 0 then 0 else if fromIndex > |s| then |s| else fromIndex;
    match FindFrom(s, needle, start)
    case Some(i) => i
    case None => -1
  }

  /** `s.indexOf(needle)`. */
  function IndexOf(s: string, needle: string): (r: int)
    ensures r == -1 <==> !Contains(s, needle)
    ensures r >= 0 ==> OccursAt(s, needle, r) && forall j: nat :: j < r ==> !OccursAt(s, needle, j)
  {
    match FindFrom(s, needle, 0)
    case Some(i) => i
    case None => -1
  }

  /** `s.indexOf(c)` for a one-character needle: -1 exactly when `c` is
      absent, otherwise the position of its first occurrence. */
  lemma IndexOfChar(s: string, c: char)
    ensures IndexOf(s, [c]) == -1 <==> c !in s
    ensures IndexOf(s, [c]) >= 0 ==> IndexOf(s, [c]) < |s| && s[IndexOf(s, [c])] == c && c !in s[..IndexOf(s, [c])]
  {
    var i := IndexOf(s, [c]);
    forall j: nat | j < |s|
      ensures OccursAt(s, [c], j) <==> s[j] == c
    {
      assert s[j..j + 1] == [s[j]];
    }
    if i >= 0 {
      forall j | 0 <= j < i
        ensures s[..i][j] != c
      {
        assert !OccursAt(s, [c], j);
      }
    } else {
      forall k | 0 <= k < |s|
        ensures s[k] != c
      {
        assert !OccursAt(s, [c], k);
      }
    }
  }

  /** `s.replace(pattern, replacement)` with a string pattern: only the
      first occurrence is replaced. */
  function ReplaceFirst(s: string, pattern: string, replacement: string): (r: string)
    ensures !Contains(s, pattern) ==> r == s
  {
    var i := IndexOf(s, pattern);
    if i < 0 then s else s[..i] + replacement + s[i + |pattern|..]
  }

  lemma ReplaceFirstAt(s: string, pattern: string, replacement: string, a: string, b: string)
    requires s == a + pattern + b
    requires forall j: nat :: j < |a| ==> !OccursAt(s, pattern, j)
    ensures ReplaceFirst(s, pattern, replacement) == a + replacement + b
  {
    assert OccursAt(s, pattern, |a|) by {
      assert s[|a|..|a| + |pattern|] == pattern;
    }
    var i := IndexOf(s, pattern);
    assert i == |a|;
    assert s[..i] == a;
    assert s[i + |pattern|..] == b;
  }

  /** An index argument of `substring`, clamped to `[0, n]`. */
  function Clamp(i: int, n: nat): (r: nat)
    ensures r <= n
    ensures 0 <= i <= n ==> r == i
  {
    if i < 0 then 0 else if i > n then n else i
  }

  /** `s.substring(start, end)`: both ends clamped, swapped when reversed. */
  function Substring(s: string, start: int, end: int): (r: string)
    ensures 0 <= start <= end <= |s| ==> r == s[start..end]
    ensures |r| <= |s|
  {
    var a := Clamp(start, |s|);
    var b := Clamp(end, |s|);
    if a <= b then s[a..b] else s[b..a]
  }

  /** ASCII lower-casing of one character. */
  function LowerChar(c: char): char {
    if 'A' <= c <= 'Z' then (c as int + 32) as char else c
  }

  function ToLower(s: string): (r: string)
    ensures |r| == |s|
    ensures forall i :: 0 <= i < |s| ==> r[i] == LowerChar(s[i])
  {
    seq(|s|, i requires 0 <= i < |s| => LowerChar(s[i]))
  }

  lemma ToLowerIdempotent(s: string)
    ensures ToLower(ToLower(s)) == ToLower(s)
  {
  }

  /** `s.split(sep)` for a one-character separator. */
  function Split(s: string, sep: char): (r: seq<string>)
    ensures |r| >= 1
    ensures forall i :: 0 <= i < |r| ==> sep !in r[i]
    decreases |s|
  {
    if sep !in s then [s]
    else
      var i := FirstChar(s, sep);
      [s[..i]] + Split(s[i + 1..], sep)
  }

  /** The index of the first `c` in `s`. */
  function FirstChar(s: string, c: char): (i: nat)
    requires c in s
    ensures i < |s| && s[i] == c && c !in s[..i]
  {
    if s[0] == c then 0 else 1 + FirstChar(s[1..], c)
  }

  lemma {:induction false} FirstCharIs(s: string, c: char, k: nat)
    requires k < |s| && s[k] == c && c !in s[..k]
    ensures FirstChar(s, c) == k
  {
    if k > 0 {
      assert s[0] == s[..k][0];
      assert s[1..][..k - 1] == s[1..k];
      assert c !in s[1..k] by {
        assert forall j :: 0 <= j < k - 1 ==> s[1..k][j] == s[..k][j + 1];
      }
      FirstCharIs(s[1..], c, k - 1);
    }
  }

  /** `parts.join(sep)`. */
  function Join(parts: seq<string>, sep: char): string {
    if |parts| == 0 then ""
    else if |parts| == 1 then parts[0]
    else parts[0] + [sep] + Join(parts[1..], sep)
  }

  lemma {:induction false} JoinSplit(s: string, sep: char)
    ensures Join(Split(s, sep), sep) == s
    decreases |s|
  {
    if sep in s {
      var i := FirstChar(s, sep);
      var rest := Split(s[i + 1..], sep);
      JoinSplit(s[i + 1..], sep);
      assert Split(s, sep) == [s[..i]] + rest;
      assert Join([s[..i]] + rest, sep) == s[..i] + [sep] + Join(rest, sep) by {
        assert ([s[..i]] + rest)[1..] == rest;
      }
      assert s == s[..i] + [sep] + s[i + 1..];
    }
  }

  lemma {:induction false} SplitJoin(parts: seq<string>, sep: char)
    requires |parts| >= 1
    requires forall i :: 0 <= i < |parts| ==> sep !in parts[i]
    ensures Split(Join(parts, sep), sep) == parts
    decreases |parts|
  {
    if |parts| > 1 {
      var rest := parts[1..];
      SplitJoin(rest, sep);
      var s := Join(parts, sep);
      assert s == parts[0] + [sep] + Join(rest, sep);
      assert s[|parts[0]|] == sep;
      assert sep in s;
      var i := FirstChar(s, sep);
      var n := |parts[0]|;
      assert s[..n] == parts[0];
      FirstCharIs(s, sep, n);
      assert s[i + 1..] == Join(rest, sep);
      assert parts == [parts[0]] + rest;
    }
  }
}
