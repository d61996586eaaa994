/** The JavaScript string built-ins the adapter's parsers are made of
    (`indexOf`, `split`, `join`, `substring`, `trim`, `startsWith`, ...), with
    their ECMAScript semantics written out over `seq<char>`.  Each splitting
    rule the parsers rely on is proved here once: `Split` followed by `Join`
    gives the input back, no piece contains the separator, and a separator
    whose first character does not occur in the head splits off exactly that
    head. */
module JsStrings {

  /** `p` occurs in `s` starting at index `i`. */
  predicate OccursAt(s: string, p: string, i: int) {
    0 <= i && i + |p| <= |s| && s[i..i + |p|] == p
  }

  /** String.prototype.startsWith */
  predicate StartsWith(s: string, p: string) {
    OccursAt(s, p, 0)
  }

  /** String.prototype.endsWith */
  predicate EndsWith(s: string, p: string) {
    OccursAt(s, p, |s| - |p|)
  }

  /** String.prototype.includes */
  predicate Includes(s: string, p: string) {
    exists i :: 0 <= i <= |s| - |p| && OccursAt(s, p, i)
  }

  /** String.prototype.indexOf(p, from): the first occurrence of `p` at or
      after `from`, or -1 when there is none. */
  function IndexOf(s: string, p: string, from: nat): (r: int)
    requires from <= |s|
    ensures r == -1 || (from <= r && OccursAt(s, p, r))
    decreases |s| - from
  {
    if from + |p| > |s| then -1
    else if s[from..from + |p|] == p then from
    else IndexOf(s, p, from + 1)
  }

  /** `indexOf` finds the first occurrence: -1 exactly when there is none
      at or after `from`, and no occurrence lies before the one it finds. */
  lemma {:induction false} IndexOfFirst(s: string, p: string, from: nat)
    requires from <= |s|
    ensures var r := IndexOf(s, p, from);
      (r == -1 <==> forall j :: from <= j ==> !OccursAt(s, p, j))
      && (r >= 0 ==> forall j :: from <= j < r ==> !OccursAt(s, p, j))
    decreases |s| - from
  {
    if from + |p| <= |s| && s[from..from + |p|] != p {
      IndexOfFirst(s, p, from + 1);
    }
  }

  /** An occurrence with none before it is the one `indexOf` finds. */
  lemma IndexOfIs(s: string, p: string, from: nat, i: nat)
    requires from <= i && OccursAt(s, p, i)
    requires forall j :: from <= j < i ==> !OccursAt(s, p, j)
    ensures IndexOf(s, p, from) == i
  {
    IndexOfFirst(s, p, from);
  }

  lemma IncludesIndexOf(s: string, p: string)
    ensures Includes(s, p) <==> IndexOf(s, p, 0) >= 0
  {
    IndexOfFirst(s, p, 0);
    if Includes(s, p) {
      var i :| 0 <= i <= |s| - |p| && OccursAt(s, p, i);
      assert OccursAt(s, p, i);
    }
  }

  /** Concatenation regroups. */
  lemma ConcatAssoc<T>(a: seq<T>, b: seq<T>, c: seq<T>)
    ensures a + (b + c) == a + b + c
  {
  }

  /** Appending nothing changes nothing. */
  lemma AppendEmpty<T>(a: seq<T>)
    ensures a + [] == a
  {
  }

  /** String.prototype.split(sep) for a non-empty string separator: the
      pieces between the leftmost non-overlapping occurrences of `sep`. */
  function Split(s: string, sep: string): (r: seq<string>)
    requires sep != ""
    ensures |r| >= 1
    decreases |s|
  {
    var i := IndexOf(s, sep, 0);
    if i < 0 then [s] else [s[..i]] + Split(s[i + |sep|..], sep)
  }

  /** Array.prototype.join(sep) */
  function Join(parts: seq<string>, sep: string): string {
    if parts == [] then ""
    else if |parts| == 1 then parts[0]
    else parts[0] + sep + Join(parts[1..], sep)
  }

  /** Splitting and joining again gives the input back. */
  lemma {:induction false} SplitJoin(s: string, sep: string)
    requires sep != ""
    ensures Join(Split(s, sep), sep) == s
    decreases |s|
  {
    var i := IndexOf(s, sep, 0);
    if i >= 0 {
      var rest := s[i + |sep|..];
      var t := Split(rest, sep);
      SplitJoin(rest, sep);
      var parts := [s[..i]] + t;
      assert Split(s, sep) == parts;
      assert parts[0] == s[..i] && parts[1..] == t;
      assert Join(parts, sep) == s[..i] + sep + Join(t, sep);
      assert s[i..i + |sep|] == sep;
      assert s == s[..i] + s[i..i + |sep|] + rest;
    }
  }

  /** No piece of a split contains the separator. */
  lemma {:induction false} SplitPiecesFree(s: string, sep: string, k: nat)
    requires sep != ""
    requires k < |Split(s, sep)|
    ensures !Includes(Split(s, sep)[k], sep)
    decreases |s|
  {
    var i := IndexOf(s, sep, 0);
    if k == 0 {
      SplitFirstPieceFree(s, sep);
    } else {
      var rest := s[i + |sep|..];
      assert Split(s, sep)[k] == Split(rest, sep)[k - 1];
      SplitPiecesFree(rest, sep, k - 1);
    }
  }

  /** The first piece of a split does not contain the separator. */
  lemma SplitFirstPieceFree(s: string, sep: string)
    requires sep != ""
    ensures !Includes(Split(s, sep)[0], sep)
  {
    var i := IndexOf(s, sep, 0);
    IndexOfFirst(s, sep, 0);
    if i < 0 {
      IncludesIndexOf(s, sep);
    } else {
      PrefixBeforeFirstFree(s, sep, i);
    }
  }

  /** The text before the first occurrence of `p` does not contain `p`. */
  lemma PrefixBeforeFirstFree(s: string, p: string, i: nat)
    requires p != "" && i <= |s|
    requires forall j :: 0 <= j < i ==> !OccursAt(s, p, j)
    ensures !Includes(s[..i], p)
  {
    var head := s[..i];
    forall j | 0 <= j <= |head| - |p|
      ensures !OccursAt(head, p, j)
    {
      assert head[j..j + |p|] == s[j..j + |p|];
      assert !OccursAt(s, p, j);
    }
  }

  /** A string that does not contain the separator is a single piece. */
  lemma SplitNoSeparator(s: string, sep: string)
    requires sep != ""
    requires !Includes(s, sep)
    ensures Split(s, sep) == [s]
  {
    IncludesIndexOf(s, sep);
  }

  /** When `sep` does not occur in `a + sep + b` before the end of `a`,
      splitting `a + sep + b` cuts off exactly `a`. */
  lemma SplitAtFirst(a: string, sep: string, b: string)
    requires sep != ""
    requires forall j :: 0 <= j < |a| ==> !OccursAt(a + sep + b, sep, j)
    ensures Split(a + sep + b, sep) == [a] + Split(b, sep)
  {
    var s := a + sep + b;
    assert OccursAt(s, sep, |a|) by {
      assert s[|a|..|a| + |sep|] == sep;
    }
    IndexOfIs(s, sep, 0, |a|);
    var i := IndexOf(s, sep, 0);
    assert s[..i] == a;
    assert s[i + |sep|..] == b;
  }

  /** When the first character of `sep` does not occur in `a`, splitting
      `a + sep + b` cuts off exactly `a`. */
  lemma SplitAfterHead(a: string, sep: string, b: string)
    requires sep != ""
    requires sep[0] !in a
    ensures Split(a + sep + b, sep) == [a] + Split(b, sep)
  {
    var s := a + sep + b;
    forall j | 0 <= j < |a|
      ensures !OccursAt(s, sep, j)
    {
      assert s[j] == a[j];
    }
    SplitAtFirst(a, sep, b);
  }

  /** The empty string splits into one empty piece. */
  lemma SplitEmpty(sep: string)
    requires sep != ""
    ensures Split("", sep) == [""]
  {
    assert IndexOf("", sep, 0) == -1;
  }

  /** A string that starts with the separator splits into an empty piece
      and the pieces of the rest. */
  lemma SplitAtStart(sep: string, b: string)
    requires sep != ""
    ensures Split(sep + b, sep) == [""] + Split(b, sep)
  {
    var s := sep + b;
    assert OccursAt(s, sep, 0) by {
      assert s[..|sep|] == sep;
    }
    IndexOfIs(s, sep, 0, 0);
    assert s[|sep|..] == b;
  }

  /** The first piece of a split is the text before the first occurrence of
      the separator, or the whole string when there is none. */
  lemma SplitHead(s: string, sep: string)
    requires sep != ""
    ensures var r := Split(s, sep);
      !Includes(r[0], sep) && r[0] == s[..|r[0]|]
      && (|r| == 1 <==> !Includes(s, sep))
      && (|r| > 1 ==> OccursAt(s, sep, |r[0]|))
  {
    IncludesIndexOf(s, sep);
    SplitPiecesFree(s, sep, 0);
  }

  /** When the first character of `sep` is not in `s`, `s` is a single piece. */
  lemma SplitWithoutFirstChar(s: string, sep: string)
    requires sep != ""
    requires sep[0] !in s
    ensures Split(s, sep) == [s]
  {
    forall j | 0 <= j <= |s| - |sep|
      ensures !OccursAt(s, sep, j)
    {
      assert s[j] in s;
    }
    SplitNoSeparator(s, sep);
  }

  /** `indexOf` of a one-character string finds the first index of that
      character. */
  lemma IndexOfChar(s: string, c: char, from: nat)
    requires from <= |s|
    ensures var r := IndexOf(s, [c], from);
      (r == -1 <==> forall k :: from <= k < |s| ==> s[k] != c)
      && (r >= 0 ==> r < |s| && s[r] == c && forall k :: from <= k < r ==> s[k] != c)
  {
    forall k | from <= k < |s|
      ensures OccursAt(s, [c], k) <==> s[k] == c
    {
      assert s[k..k + 1] == [s[k]];
    }
    IndexOfFirst(s, [c], from);
  }

  /** The number of (possibly overlapping) occurrences of `p` at or after
      index `from`. */
  function CountFrom(s: string, p: string, from: nat): nat
    decreases |s| - from
  {
    if from + |p| > |s| then 0
    else (if OccursAt(s, p, from) then 1 else 0) + CountFrom(s, p, from + 1)
  }

  /** The number of occurrences of `p` in `s`. */
  function Count(s: string, p: string): nat {
    CountFrom(s, p, 0)
  }

  /** A stretch without occurrences does not add to the count. */
  lemma {:induction false} CountSkip(s: string, p: string, a: nat, b: nat)
    requires a <= b
    requires forall j :: a <= j < b ==> !OccursAt(s, p, j)
    ensures CountFrom(s, p, a) == CountFrom(s, p, b)
    decreases b - a
  {
    if a < b && a + |p| <= |s| {
      CountSkip(s, p, a + 1, b);
    }
  }

  /** Counting in a suffix is counting from the suffix's start. */
  lemma {:induction false} CountShift(s: string, p: string, m: nat, from: nat)
    requires m <= |s|
    ensures CountFrom(s, p, m + from) == CountFrom(s[m..], p, from)
    decreases |s| - m - from
  {
    if m + from + |p| <= |s| {
      assert s[m..][from..from + |p|] == s[m + from..m + from + |p|];
      CountShift(s, p, m, from + 1);
    }
  }

  /** A separator whose first character does not recur in it cannot
      overlap itself. */
  predicate SelfDisjoint(sep: string) {
    sep != "" && sep[0] !in sep[1..]
  }

  lemma NoOverlap(s: string, sep: string, i: int, j: int)
    requires SelfDisjoint(sep)
    requires OccursAt(s, sep, i) && i < j < i + |sep|
    ensures !OccursAt(s, sep, j)
  {
    assert s[i..i + |sep|][j - i] == s[j];
    assert sep[j - i] in sep[1..] by { assert sep[j - i] == sep[1..][j - i - 1]; }
  }

  /** The first occurrence of a self-disjoint separator accounts for one
      count; the rest are counted in what follows it. */
  lemma CountAtFirst(s: string, sep: string, i: nat)
    requires SelfDisjoint(sep) && OccursAt(s, sep, i)
    requires forall j :: 0 <= j < i ==> !OccursAt(s, sep, j)
    ensures Count(s, sep) == 1 + Count(s[i + |sep|..], sep)
  {
    CountSkip(s, sep, 0, i);
    CountPastOne(s, sep, i);
    CountShift(s, sep, i + |sep|, 0);
  }

  /** An occurrence of a self-disjoint separator counts once, and the count
      resumes after it. */
  lemma CountPastOne(s: string, sep: string, i: nat)
    requires SelfDisjoint(sep) && OccursAt(s, sep, i)
    ensures CountFrom(s, sep, i) == 1 + CountFrom(s, sep, i + |sep|)
  {
    forall j | i + 1 <= j < i + |sep|
      ensures !OccursAt(s, sep, j)
    {
      NoOverlap(s, sep, i, j);
    }
    CountSkip(s, sep, i + 1, i + |sep|);
  }

  /** Splitting on a self-disjoint separator gives one piece more than
      there are occurrences of it. */
  lemma {:induction false} SplitCount(s: string, sep: string)
    requires SelfDisjoint(sep)
    ensures |Split(s, sep)| == Count(s, sep) + 1
    decreases |s|
  {
    var i := IndexOf(s, sep, 0);
    IndexOfFirst(s, sep, 0);
    if i < 0 {
      CountSkip(s, sep, 0, |s| + 1);
      assert Split(s, sep) == [s];
    } else {
      var rest := s[i + |sep|..];
      CountAtFirst(s, sep, i);
      SplitCount(rest, sep);
      assert Split(s, sep) == [s[..i]] + Split(rest, sep);
    }
  }

  /** Clamp an index into [0, n], as String.prototype.substring does. */
  function Clamp(i: int, n: nat): (r: nat)
    ensures r <= n
    ensures 0 <= i <= n ==> r == i
  {
    if i < 0 then 0 else if i > n then n else i
  }

  /** String.prototype.substring(start, end): both ends clamped into the
      string, and swapped when start is past end. */
  function Substring(s: string, start: int, end: int): (r: string)
    ensures 0 <= start <= end <= |s| ==> r == s[start..end]
    ensures |r| <= |s|
  {
    var a := Clamp(start, |s|);
    var b := Clamp(end, |s|);
    if a <= b then s[a..b] else s[b..a]
  }

  /** String.prototype.substring(start) */
  function SubstringFrom(s: string, start: int): (r: string)
    ensures 0 <= start <= |s| ==> r == s[start..]
  {
    Substring(s, start, |s|)
  }

  /** ECMAScript WhiteSpace and LineTerminator code points: the class `\s` of
      regular expressions and what String.prototype.trim removes. */
  predicate IsWhitespace(c: char) {
    c == '\t' || c == '\n' || c == '\U{000B}' || c == '\U{000C}' || c == '\r' || c == ' '
    || c == '\U{00A0}' || c == '\U{1680}' || ('\U{2000}' <= c <= '\U{200A}')
    || c == '\U{2028}' || c == '\U{2029}' || c == '\U{202F}' || c == '\U{205F}'
    || c == '\U{3000}' || c == '\U{FEFF}'
  }

  /** ECMAScript LineTerminator: the characters `.` in a regular expression
      does not match. */
  predicate IsLineTerminator(c: char) {
    c == '\n' || c == '\r' || c == '\U{2028}' || c == '\U{2029}'
  }

  /** Leading whitespace removed: the result is a suffix of `s`, everything
      cut off is whitespace, and the result does not start with whitespace. */
  function TrimStart(s: string): (r: string)
    ensures |r| <= |s| && r == s[|s| - |r|..]
    ensures forall k :: 0 <= k < |s| - |r| ==> IsWhitespace(s[k])
    ensures r != [] ==> !IsWhitespace(r[0])
  {
    if s != [] && IsWhitespace(s[0]) then TrimStart(s[1..]) else s
  }

  /** Trailing whitespace removed: the result is a prefix of `s`, everything
      cut off is whitespace, and the result does not end with whitespace. */
  function TrimEnd(s: string): (r: string)
    ensures |r| <= |s| && r == s[..|r|]
    ensures forall k :: |r| <= k < |s| ==> IsWhitespace(s[k])
    ensures r != [] ==> !IsWhitespace(r[|r| - 1])
  {
    if s != [] && IsWhitespace(s[|s| - 1]) then TrimEnd(s[..|s| - 1]) else s
  }

  /** String.prototype.trim */
  function Trim(s: string): (r: string)
    ensures |r| <= |s|
    ensures r != [] ==> !IsWhitespace(r[0]) && !IsWhitespace(r[|r| - 1])
  {
    TrimEnd(TrimStart(s))
  }

  /** Lower-casing of one character (ASCII letters only). */
  function LowerChar(c: char): char {
    if 'A' <= c <= 'Z' then (c as int - 'A' as int + 'a' as int) as char else c
  }

  /** String.prototype.toLowerCase, restricted to the ASCII letters. */
  function ToLower(s: string): (r: string)
    ensures |r| == |s|
  {
    seq(|s|, i requires 0 <= i < |s| => LowerChar(s[i]))
  }

  /** `s.replace(/\\/g, '/')`: every backslash becomes a forward slash. */
  function ReplaceBackslashes(s: string): (r: string)
    ensures |r| == |s|
    ensures '\\' !in r
  {
    seq(|s|, i requires 0 <= i < |s| => if s[i] == '\\' then '/' else s[i])
  }

  /** Array.prototype.findIndex(line => line.includes(p)) over `lines`. */
  function FindIndexIncluding(lines: seq<string>, p: string): (r: int)
    ensures -1 <= r < |lines|
    ensures r >= 0 ==> Includes(lines[r], p) && forall k :: 0 <= k < r ==> !Includes(lines[k], p)
    ensures r == -1 ==> forall k :: 0 <= k < |lines| ==> !Includes(lines[k], p)
  {
    if lines == [] then -1
    else if Includes(lines[0], p) then 0
    else
      var r := FindIndexIncluding(lines[1..], p);
      if r < 0 then -1 else r + 1
  }
}
