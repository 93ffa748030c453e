/**
  The JavaScript string and array built-ins that the location parser and the
  calendar id are made of: `split` and `join` with a one-character
  separator, `splice(start)`, `trim` and `toLowerCase`, together with the
  truthiness test JavaScript applies to a `string | null | undefined`.
  IndexOf is the search for the separator that `split` performs.
 */
module JsStrings {
  import opened Wrappers

  /** JavaScript truthiness of an optional string: present and not the empty string. */
  predicate Truthy(s: Option<string>) {
    s.Some? && s.value != ""
  }

  /** The search for the separator that `split` performs: the first position of `c` in `s`, or None. */
  function IndexOf(s: string, c: char): (r: Option<nat>)
    ensures r.None? <==> c !in s
    ensures r.Some? ==> r.value < |s| && s[r.value] == c && c !in s[..r.value]
  {
    if |s| == 0 then None
    else if s[0] == c then Some(0)
    else
      match IndexOf(s[1..], c)
      case None => None
      case Some(i) =>
        assert s[..i + 1] == [s[0]] + s[1..][..i];
        Some(i + 1)
  }

  /** The position of a first occurrence is what IndexOf reports. */
  lemma IndexOfAt(s: string, c: char, i: nat)
    requires i < |s| && s[i] == c
    requires forall k :: 0 <= k < i ==> s[k] != c
    ensures IndexOf(s, c) == Some(i)
  {
  }

  /** `s.split(sep)` for a one-character separator: the pieces between the separators, never an empty list. */
  function Split(s: string, sep: char): (r: seq<string>)
    ensures |r| >= 1
    decreases |s|
  {
    match IndexOf(s, sep)
    case None => [s]
    case Some(i) => [s[..i]] + Split(s[i + 1..], sep)
  }

  /** `parts.join(sep)`: the pieces with one separator between neighbours; `[].join(sep)` is the empty string. */
  function Join(parts: seq<string>, sep: char): string
  {
    if |parts| == 0 then ""
    else if |parts| == 1 then parts[0]
    else parts[0] + [sep] + Join(parts[1..], sep)
  }

  /** The array `xs.splice(start)` returns: the elements it removes, from `start` (clamped to the length) to the end. */
  function SpliceRemoved<T>(xs: seq<T>, start: nat): (removed: seq<T>)
    ensures |removed| == if start <= |xs| then |xs| - start else 0
    ensures var kept := if start <= |xs| then start else |xs|; xs[..kept] + removed == xs
  {
    if start <= |xs| then xs[start..] else []
  }

  /** Everything after the first occurrence of `c` in `s`, or the empty string when `c` does not occur. */
  function AfterFirst(s: string, c: char): string
  {
    match IndexOf(s, c)
    case None => ""
    case Some(i) => s[i + 1..]
  }

  /** No piece produced by `split` contains the separator. */
  lemma {:induction false} SplitPiecesLackSeparator(s: string, sep: char)
    ensures forall k :: 0 <= k < |Split(s, sep)| ==> sep !in Split(s, sep)[k]
    decreases |s|
  {
    match IndexOf(s, sep)
    case None =>
    case Some(i) =>
      SplitPiecesLackSeparator(s[i + 1..], sep);
  }

  /** `split` yields one piece more than there are separators in the string. */
  lemma {:induction false} SplitCount(s: string, sep: char)
    ensures |Split(s, sep)| == multiset(s)[sep] + 1
    decreases |s|
  {
    match IndexOf(s, sep)
    case None =>
      assert sep !in multiset(s);
    case Some(i) =>
      SplitCount(s[i + 1..], sep);
      assert s == s[..i] + [s[i]] + s[i + 1..];
      assert sep !in multiset(s[..i]);
      assert multiset(s) == multiset(s[..i]) + multiset([s[i]]) + multiset(s[i + 1..]);
  }

  /** Joining the pieces of a split with the same separator gives back the original string. */
  lemma {:induction false} JoinSplit(s: string, sep: char)
    ensures Join(Split(s, sep), sep) == s
    decreases |s|
  {
    match IndexOf(s, sep)
    case None =>
    case Some(i) =>
      var rest := Split(s[i + 1..], sep);
      JoinSplit(s[i + 1..], sep);
      assert Split(s, sep) == [s[..i]] + rest;
      assert ([s[..i]] + rest)[1..] == rest;
      assert s == s[..i] + [sep] + s[i + 1..];
  }

  /** A separator-free piece followed by the separator splits off as the first piece. */
  lemma SplitAtSeparator(p: string, sep: char, tail: string)
    requires sep !in p
    ensures Split(p + [sep] + tail, sep) == [p] + Split(tail, sep)
  {
    var s := p + [sep] + tail;
    assert forall k :: 0 <= k < |p| ==> s[k] == p[k];
    IndexOfAt(s, sep, |p|);
    assert s[..|p|] == p;
    assert s[|p| + 1..] == tail;
  }

  /** Splitting the join of separator-free pieces gives back the pieces. */
  lemma {:induction false} SplitJoin(parts: seq<string>, sep: char)
    requires |parts| >= 1
    requires forall k :: 0 <= k < |parts| ==> sep !in parts[k]
    ensures Split(Join(parts, sep), sep) == parts
    decreases |parts|
  {
    if |parts| == 1 {
      assert IndexOf(parts[0], sep).None?;
    } else {
      SplitJoin(parts[1..], sep);
      SplitAtSeparator(parts[0], sep, Join(parts[1..], sep));
      assert parts == [parts[0]] + parts[1..];
    }
  }

  /**
    The text `Split(s, c).splice(1)` rejoins to: what follows the first `c`
    (later occurrences of `c` kept), or the empty string when `c` does not occur.
   */
  lemma {:induction false} RejoinAfterFirstPiece(s: string, c: char)
    ensures Join(SpliceRemoved(Split(s, c), 1), c) == AfterFirst(s, c)
  {
    match IndexOf(s, c)
    case None =>
    case Some(i) =>
      var rest := Split(s[i + 1..], c);
      assert SpliceRemoved(Split(s, c), 1) == rest by {
        assert Split(s, c) == [s[..i]] + rest;
      }
      JoinSplit(s[i + 1..], c);
  }

  /**
    The characters `String.prototype.trim` removes: the ECMAScript WhiteSpace
    code points (tab, vertical tab, form feed, space, no-break space, zero
    width no-break space and the Unicode space separators) and the
    LineTerminator code points (line feed, carriage return, line and
    paragraph separator).
   */
  predicate IsWhiteSpace(c: char) {
    var n := c as int;
    n == 0x09 || n == 0x0A || n == 0x0B || n == 0x0C || n == 0x0D || n == 0x20 ||
    n == 0xA0 || n == 0x1680 || (0x2000 <= n <= 0x200A) || n == 0x2028 || n == 0x2029 ||
    n == 0x202F || n == 0x205F || n == 0x3000 || n == 0xFEFF
  }

  /** `s.trimStart()`: the longest suffix of `s` that does not start with white space. */
  function TrimStart(s: string): (r: string)
    ensures |r| <= |s| && r == s[|s| - |r|..]
    ensures forall k :: 0 <= k < |s| - |r| ==> IsWhiteSpace(s[k])
    ensures r != [] ==> !IsWhiteSpace(r[0])
  {
    if |s| > 0 && IsWhiteSpace(s[0]) then TrimStart(s[1..]) else s
  }

  /** `s.trimEnd()`: the longest prefix of `s` that does not end with white space. */
  function TrimEnd(s: string): (r: string)
    ensures |r| <= |s| && r == s[..|r|]
    ensures forall k :: |r| <= k < |s| ==> IsWhiteSpace(s[k])
    ensures r != [] ==> !IsWhiteSpace(r[|r| - 1])
  {
    if |s| > 0 && IsWhiteSpace(s[|s| - 1]) then TrimEnd(s[..|s| - 1]) else s
  }

  /**
    `s.trim()`: `s` without its white-space prefix and suffix. The result is a
    slice of `s` that neither starts nor ends with white space; TrimRemovesWhiteSpace
    states that what is cut away is white space.
   */
  function Trim(s: string): (r: string)
    ensures var i := |s| - |TrimStart(s)|; i + |r| <= |s| && r == s[i..i + |r|]
    ensures r != [] ==> !IsWhiteSpace(r[0]) && !IsWhiteSpace(r[|r| - 1])
  {
    var t := TrimStart(s);
    var r := TrimEnd(t);
    TrimSliceOfSlice(s, t, r);
    r
  }

  lemma TrimSliceOfSlice(s: string, t: string, r: string)
    requires |t| <= |s| && t == s[|s| - |t|..]
    requires |r| <= |t| && r == t[..|r|]
    ensures var i := |s| - |t|; i + |r| <= |s| && r == s[i..i + |r|]
    ensures r != [] ==> r[0] == t[0]
  {
  }

  /** Everything trim cuts away, before and after the slice it keeps, is white space. */
  lemma TrimRemovesWhiteSpace(s: string)
    ensures var i := |s| - |TrimStart(s)|;
      && (forall k :: 0 <= k < i ==> IsWhiteSpace(s[k]))
      && (forall k :: i + |Trim(s)| <= k < |s| ==> IsWhiteSpace(s[k]))
  {
    var t := TrimStart(s);
    var i := |s| - |t|;
    forall k | i + |Trim(s)| <= k < |s|
      ensures IsWhiteSpace(s[k])
    {
      assert s[k] == t[k - i];
    }
  }

  /** `c.toLowerCase()` for the letters A to Z; every other character stays as it is. */
  function LowerChar(c: char): char
  {
    if 'A' <= c <= 'Z' then (c as int + 32) as char else c
  }

  /** `s.toLowerCase()`, with the case mapping of LowerChar. */
  function ToLowerCase(s: string): (r: string)
    ensures |r| == |s|
    ensures forall k :: 0 <= k < |s| ==> r[k] == LowerChar(s[k])
  {
    seq(|s|, k requires 0 <= k < |s| => LowerChar(s[k]))
  }

  /** A lowered string holds no upper-case letter, and lowering it again changes nothing. */
  lemma ToLowerCaseIdempotent(s: string)
    ensures forall k :: 0 <= k < |s| ==> !('A' <= ToLowerCase(s)[k] <= 'Z')
    ensures ToLowerCase(ToLowerCase(s)) == ToLowerCase(s)
  {
  }
}
