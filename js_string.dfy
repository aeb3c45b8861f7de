/** The JavaScript string primitives that the parser is built from: `trim`,
    `indexOf`, `split` on a literal separator, `substr` and first-occurrence
    `replace`, over strings of Unicode scalar values. */
module JsString {

  /** The code points `String.prototype.trim` strips: the ECMAScript
      WhiteSpace (tab, vertical tab, form feed, space, no-break space,
      zero-width no-break space and the Zs category) and LineTerminator
      (line feed, carriage return, line and paragraph separators) sets. */
  predicate IsWs(c: char) {
    || c == '\t' || c == '\n' || c == '\U{000B}' || c == '\U{000C}' || c == '\r'
    || c == ' ' || c == '\U{00A0}' || c == '\U{1680}'
    || ('\U{2000}' <= c <= '\U{200A}')
    || c == '\U{2028}' || c == '\U{2029}' || c == '\U{202F}' || c == '\U{205F}'
    || c == '\U{3000}' || c == '\U{FEFF}'
  }

  /** Neither end of `s` is white space. */
  predicate IsTrimmed(s: string) {
    |s| == 0 || (!IsWs(s[0]) && !IsWs(s[|s| - 1]))
  }

  /** A non-empty run of characters with no white space at all. */
  predicate IsWord(s: string) {
    |s| > 0 && forall i :: 0 <= i < |s| ==> !IsWs(s[i])
  }

  function TrimStart(s: string): (r: string)
    ensures |r| == 0 || !IsWs(r[0])
  {
    if |s| > 0 && IsWs(s[0]) then TrimStart(s[1..]) else s
  }

  /** `TrimStart` drops a prefix made only of white space. */
  lemma {:induction false} TrimStartDropsWs(s: string)
    ensures |TrimStart(s)| <= |s| && TrimStart(s) == s[|s| - |TrimStart(s)|..]
    ensures forall i :: 0 <= i < |s| - |TrimStart(s)| ==> IsWs(s[i])
    decreases |s|
  {
    if |s| > 0 && IsWs(s[0]) {
      TrimStartDropsWs(s[1..]);
      forall i | 1 <= i < |s| - |TrimStart(s)| ensures IsWs(s[i]) {
        assert s[i] == s[1..][i - 1];
      }
    }
  }

  function TrimEnd(s: string): (r: string)
    ensures |r| == 0 || !IsWs(r[|r| - 1])
  {
    if |s| > 0 && IsWs(s[|s| - 1]) then TrimEnd(s[..|s| - 1]) else s
  }

  /** `TrimEnd` drops a suffix made only of white space. */
  lemma {:induction false} TrimEndDropsWs(s: string)
    ensures |TrimEnd(s)| <= |s| && TrimEnd(s) == s[..|TrimEnd(s)|]
    ensures forall i :: |TrimEnd(s)| <= i < |s| ==> IsWs(s[i])
    decreases |s|
  {
    if |s| > 0 && IsWs(s[|s| - 1]) {
      var p := s[..|s| - 1];
      TrimEndDropsWs(p);
      forall i | |TrimEnd(s)| <= i < |s| - 1 ensures IsWs(s[i]) {
        assert s[i] == p[i];
      }
    }
  }

  /** `r` is the slice of `s` that starts at `i`, and everything of `s`
      outside that slice is white space. */
  predicate WsAround(s: string, i: int, r: string) {
    && 0 <= i <= |s| - |r| && r == s[i..i + |r|]
    && (forall k :: 0 <= k < i ==> IsWs(s[k]))
    && (forall k :: i + |r| <= k < |s| ==> IsWs(s[k]))
  }

  /** `s.trim()`: `s` without the white space at either end. */
  function Trim(s: string): (r: string)
    ensures IsTrimmed(r)
  {
    var t := TrimStart(s);
    var r := TrimEnd(t);
    TrimEndDropsWs(t);
    assert |r| > 0 ==> r[0] == t[0];
    r
  }

  /** A slice with only white space before it, whose own end is stripped
      of white space, is a slice with only white space around it. */
  lemma {:induction false} StrippedSlice(s: string, t: string, r: string)
    requires |t| <= |s| && t == s[|s| - |t|..]
    requires forall k :: 0 <= k < |s| - |t| ==> IsWs(s[k])
    requires |r| <= |t| && r == t[..|r|]
    requires forall k :: |r| <= k < |t| ==> IsWs(t[k])
    ensures WsAround(s, |s| - |t|, r)
  {
    var i := |s| - |t|;
    assert r == s[i..i + |r|];
    forall k | i + |r| <= k < |s| ensures IsWs(s[k]) {
      assert s[k] == t[k - i];
    }
  }

  /** `Trim(s)` is a slice of `s` with only white space around it. */
  lemma {:induction false} TrimIsSlice(s: string)
    ensures exists i :: WsAround(s, i, Trim(s))
  {
    var t := TrimStart(s);
    TrimStartDropsWs(s);
    TrimEndDropsWs(t);
    StrippedSlice(s, t, TrimEnd(t));
    assert Trim(s) == TrimEnd(t);
    assert WsAround(s, |s| - |t|, Trim(s));
  }

  /** The trim of `x` is the slice from its first to its last character
      that is not white space. */
  lemma {:induction false} TrimBetween(x: string, a: int, b: int)
    requires 0 <= a < b <= |x| && !IsWs(x[a]) && !IsWs(x[b - 1])
    requires forall k :: 0 <= k < a ==> IsWs(x[k])
    requires forall k :: b <= k < |x| ==> IsWs(x[k])
    ensures Trim(x) == x[a..b]
  {
    var r := Trim(x);
    TrimIsSlice(x);
    var i :| WsAround(x, i, r);
    assert |r| > 0;
    assert x[i] == r[0];
    assert i == a;
    assert x[i + |r| - 1] == r[|r| - 1];
    assert i + |r| == b;
  }

  /** Trimming text that is trimmed inside white-space padding gives the
      text. */
  lemma {:induction false} TrimOfPadded(w1: string, s: string, w2: string)
    requires |s| > 0 && IsTrimmed(s)
    requires forall k :: 0 <= k < |w1| ==> IsWs(w1[k])
    requires forall k :: 0 <= k < |w2| ==> IsWs(w2[k])
    ensures Trim(w1 + s + w2) == s
  {
    var x := w1 + s + w2;
    forall k | 0 <= k < |w1| ensures IsWs(x[k]) {
      assert x[k] == w1[k];
    }
    forall k | |w1| + |s| <= k < |x| ensures IsWs(x[k]) {
      assert x[k] == w2[k - |w1| - |s|];
    }
    assert x[|w1|] == s[0];
    assert x[|w1| + |s| - 1] == s[|s| - 1];
    TrimBetween(x, |w1|, |w1| + |s|);
    assert x[|w1|..|w1| + |s|] == s;
  }

  lemma {:induction false} TrimmedIsFixed(s: string)
    requires IsTrimmed(s)
    ensures Trim(s) == s
  {
  }

  lemma {:induction false} TrimIdempotent(s: string)
    ensures Trim(Trim(s)) == Trim(s)
  {
    TrimmedIsFixed(Trim(s));
  }

  lemma {:induction false} WordIsTrimmed(s: string)
    requires IsWord(s)
    ensures IsTrimmed(s) && Trim(s) == s
  {
    TrimmedIsFixed(s);
  }

  /** `pat` occurs in `s` starting at index `k`. */
  predicate OccursAt(s: string, pat: string, k: int) {
    0 <= k && k + |pat| <= |s| && s[k..k + |pat|] == pat
  }

  /** The position `indexOf` starts from: `from` clamped to `0..|s|`. */
  function ClampIndex(s: string, from: int): (k: nat)
    ensures k <= |s|
    ensures 0 <= from <= |s| ==> k == from
  {
    if from < 0 then 0 else if from > |s| then |s| else from
  }

  function Scan(s: string, pat: string, k: nat): (r: int)
    requires k <= |s|
    ensures r == -1 || (k <= r && OccursAt(s, pat, r))
    ensures forall j :: k <= j && (r == -1 || j < r) ==> !OccursAt(s, pat, j)
    decreases |s| - k
  {
    if k + |pat| > |s| then -1
    else if s[k..k + |pat|] == pat then k
    else Scan(s, pat, k + 1)
  }

  /** `s.indexOf(pat, from)`: the first occurrence of `pat` at or after the
      clamped start position, or -1 when there is none. */
  function IndexOfFrom(s: string, pat: string, from: int): (r: int)
    ensures r == -1 || (ClampIndex(s, from) <= r && OccursAt(s, pat, r))
    ensures forall j :: ClampIndex(s, from) <= j && (r == -1 || j < r) ==> !OccursAt(s, pat, j)
  {
    Scan(s, pat, ClampIndex(s, from))
  }

  /** `s.indexOf(pat)`. */
  function IndexOf(s: string, pat: string): (r: int)
    ensures r == -1 || OccursAt(s, pat, r)
    ensures forall j :: 0 <= j && (r == -1 || j < r) ==> !OccursAt(s, pat, j)
  {
    IndexOfFrom(s, pat, 0)
  }

  lemma {:induction false} OccursAtChar(s: string, c: char, k: int)
    requires 0 <= k < |s|
    ensures OccursAt(s, [c], k) <==> s[k] == c
  {
    if s[k] == c {
      assert s[k..k + 1] == [c];
    }
  }

  /** A one-character pattern is found exactly when the character occurs. */
  lemma {:induction false} IndexOfChar(s: string, c: char)
    ensures IndexOf(s, [c]) == -1 <==> c !in s
    ensures IndexOf(s, [c]) != -1 ==> s[IndexOf(s, [c])] == c && c !in s[..IndexOf(s, [c])]
  {
    var i := IndexOf(s, [c]);
    if c in s {
      var k :| 0 <= k < |s| && s[k] == c;
      OccursAtChar(s, c, k);
    }
    if i != -1 {
      OccursAtChar(s, c, i);
      forall k | 0 <= k < i ensures s[k] != c {
        OccursAtChar(s, c, k);
      }
    }
  }

  /** Occurrences inside a prefix are occurrences in the whole string. */
  lemma {:induction false} OccursInPrefix(s: string, pat: string, n: nat, k: int)
    requires n <= |s|
    ensures OccursAt(s[..n], pat, k) ==> OccursAt(s, pat, k)
  {
    if OccursAt(s[..n], pat, k) {
      assert s[..n][k..k + |pat|] == s[k..k + |pat|];
    }
  }

  /** Occurrences inside a suffix are occurrences in the whole string. */
  lemma {:induction false} OccursInSuffix(s: string, pat: string, n: nat, k: int)
    requires n <= |s|
    ensures OccursAt(s[n..], pat, k) ==> OccursAt(s, pat, n + k)
  {
    if OccursAt(s[n..], pat, k) {
      assert s[n..][k..k + |pat|] == s[n + k..n + k + |pat|];
    }
  }

  /** `parts.join(sep)`. */
  function Join(parts: seq<string>, sep: string): string {
    if |parts| == 0 then ""
    else if |parts| == 1 then parts[0]
    else parts[0] + sep + Join(parts[1..], sep)
  }

  /** `s.split(sep)` for a non-empty literal separator: the pieces between
      the non-overlapping occurrences of `sep`, found from the left. It never
      returns an empty list (`"".split(" ")` is `[""]`) and no piece
      contains `sep`. */
  function Split(s: string, sep: string): (r: seq<string>)
    requires |sep| > 0
    ensures |r| >= 1
    ensures forall i :: 0 <= i < |r| ==> IndexOf(r[i], sep) == -1
    decreases |s|
  {
    var i := IndexOf(s, sep);
    if i == -1 then [s]
    else
      var rest := Split(s[i + |sep|..], sep);
      forall k | 0 <= k ensures !OccursAt(s[..i], sep, k) {
        OccursInPrefix(s, sep, i, k);
      }
      [s[..i]] + rest
  }

  /** Joining the pieces of a split with the separator gives the string
      back. */
  lemma {:induction false} JoinSplit(s: string, sep: string)
    requires |sep| > 0
    ensures Join(Split(s, sep), sep) == s
    decreases |s|
  {
    var i := IndexOf(s, sep);
    if i != -1 {
      var tail := s[i + |sep|..];
      var rest := Split(tail, sep);
      assert Split(s, sep) == [s[..i]] + rest;
      JoinSplit(tail, sep);
      JoinCons(s[..i], rest, sep);
      assert s == s[..i] + sep + tail;
    }
  }

  /** Joining a list with a head is the head, the separator and the join
      of the rest. */
  lemma {:induction false} JoinCons(head: string, rest: seq<string>, sep: string)
    requires |rest| >= 1
    ensures Join([head] + rest, sep) == head + sep + Join(rest, sep)
  {
    assert ([head] + rest)[1..] == rest;
  }

  /** A two-character pattern occurs where its two characters stand side
      by side. */
  lemma {:induction false} OccursAtPair(s: string, c: char, d: char, k: int)
    requires 0 <= k
    ensures OccursAt(s, [c, d], k) <==> k + 1 < |s| && s[k] == c && s[k + 1] == d
  {
    if k + 1 < |s| && s[k] == c && s[k + 1] == d {
      assert s[k..k + 2] == [c, d];
    }
  }

  /** An occurrence starts with the first two characters of the pattern. */
  lemma {:induction false} OccursAtHead(s: string, pat: string, k: int)
    requires |pat| >= 2
    ensures OccursAt(s, pat, k) ==> s[k] == pat[0] && s[k + 1] == pat[1]
  {
    if OccursAt(s, pat, k) {
      assert s[k..k + |pat|][0] == s[k];
      assert s[k..k + |pat|][1] == s[k + 1];
    }
  }

  /** `indexOf` finds the first occurrence. */
  lemma {:induction false} IndexOfIs(s: string, pat: string, i: int)
    requires OccursAt(s, pat, i)
    requires forall k :: 0 <= k < i ==> !OccursAt(s, pat, k)
    ensures IndexOf(s, pat) == i
  {
  }

  /** `indexOf` of a pattern that never occurs is -1. */
  lemma {:induction false} IndexOfAbsent(s: string, pat: string)
    requires forall k :: 0 <= k ==> !OccursAt(s, pat, k)
    ensures IndexOf(s, pat) == -1
  {
  }

  /** `indexOf` from a start position finds the first occurrence at or
      after it. */
  lemma {:induction false} IndexOfFromIs(s: string, pat: string, from: int, i: int)
    requires 0 <= from <= i && OccursAt(s, pat, i)
    requires forall k :: from <= k < i ==> !OccursAt(s, pat, k)
    ensures IndexOfFrom(s, pat, from) == i
  {
    assert from <= |s|;
  }

  /** `indexOf` from a start position is -1 when nothing occurs at or after
      it. */
  lemma {:induction false} IndexOfFromAbsent(s: string, pat: string, from: int)
    requires 0 <= from <= |s|
    requires forall k :: from <= k ==> !OccursAt(s, pat, k)
    ensures IndexOfFrom(s, pat, from) == -1
  {
  }

  /** Splitting at the first occurrence of the separator peels off the text
      before it. */
  lemma {:induction false} SplitAt(a: string, sep: string, b: string)
    requires |sep| > 0
    requires forall k :: 0 <= k < |a| ==> !OccursAt(a + sep + b, sep, k)
    ensures Split(a + sep + b, sep) == [a] + Split(b, sep)
  {
    var s := a + sep + b;
    assert s[|a|..|a| + |sep|] == sep;
    IndexOfIs(s, sep, |a|);
    assert s[..|a|] == a;
    assert s[|a| + |sep|..] == b;
  }

  /** Splitting on a separator that never occurs gives the whole string. */
  lemma {:induction false} SplitWhole(s: string, sep: string)
    requires |sep| > 0
    requires forall k :: 0 <= k ==> !OccursAt(s, sep, k)
    ensures Split(s, sep) == [s]
  {
    IndexOfAbsent(s, sep);
  }

  /** Splitting on a character the first piece does not contain peels that
      piece off. */
  lemma {:induction false} SplitCons(a: string, c: char, b: string)
    requires c !in a
    ensures Split(a + [c] + b, [c]) == [a] + Split(b, [c])
  {
    var s := a + [c] + b;
    var i := IndexOf(s, [c]);
    forall k | 0 <= k < |a| ensures !OccursAt(s, [c], k) {
      OccursAtChar(s, c, k);
    }
    OccursAtChar(s, c, |a|);
    assert i == |a|;
    assert s[..i] == a;
    assert s[i + 1..] == b;
  }

  /** Splitting on a character that does not occur gives the whole string. */
  lemma {:induction false} SplitAbsent(s: string, c: char)
    requires c !in s
    ensures Split(s, [c]) == [s]
  {
    IndexOfChar(s, c);
  }

  /** `split` inverts `join` for a one-character separator that no part
      contains. */
  lemma {:induction false} SplitJoin(parts: seq<string>, c: char)
    requires |parts| >= 1
    requires forall i :: 0 <= i < |parts| ==> c !in parts[i]
    ensures Split(Join(parts, [c]), [c]) == parts
    decreases |parts|
  {
    if |parts| == 1 {
      SplitAbsent(parts[0], c);
    } else {
      SplitJoin(parts[1..], c);
      assert Join(parts, [c]) == parts[0] + [c] + Join(parts[1..], [c]);
      SplitCons(parts[0], c, Join(parts[1..], [c]));
    }
  }

  /** A piece produced by splitting on a character does not contain it. */
  lemma {:induction false} SplitPiecesLackSeparator(s: string, c: char, i: int)
    requires 0 <= i < |Split(s, [c])|
    ensures c !in Split(s, [c])[i]
  {
    IndexOfChar(Split(s, [c])[i], c);
  }

  /** The number of occurrences of `c` in `s`. */
  function CountChar(s: string, c: char): nat {
    multiset(s)[c]
  }

  /** `s.split(c).length - 1` counts the occurrences of `c`. */
  lemma {:induction false} SplitCountsSeparators(s: string, c: char)
    ensures |Split(s, [c])| == CountChar(s, c) + 1
    decreases |s|
  {
    IndexOfChar(s, c);
    var i := IndexOf(s, [c]);
    if i == -1 {
      assert multiset(s)[c] == 0;
    } else {
      SplitCountsSeparators(s[i + 1..], c);
      CountAfterFirst(s, c, i);
    }
  }

  lemma {:induction false} CountAfterFirst(s: string, c: char, i: nat)
    requires i < |s| && s[i] == c && c !in s[..i]
    ensures CountChar(s, c) == CountChar(s[i + 1..], c) + 1
  {
    assert s == s[..i] + [c] + s[i + 1..];
    calc {
      multiset(s)[c];
      (multiset(s[..i]) + multiset([c]) + multiset(s[i + 1..]))[c];
      multiset(s[..i])[c] + 1 + multiset(s[i + 1..])[c];
    }
  }

  /** `s.substr(start, length)` (Annex B of ECMAScript): a negative start
      counts from the end, the length is clamped to `0..|s|` and the slice
      stops at the end of `s`. `s.substr(start)` is `Substr(s, start, |s|)`. */
  function Substr(s: string, start: int, length: int): (r: string)
    ensures |r| <= |s|
    ensures length <= 0 ==> r == ""
    ensures 0 <= start && 0 <= length && start + length <= |s| ==> r == s[start..start + length]
    ensures 0 <= start <= |s| && |s| - start <= length ==> r == s[start..]
    ensures start < 0 && -start <= |s| && -start <= length ==> r == s[|s| + start..]
    ensures start <= -|s| && |s| <= length ==> r == s
    ensures start >= |s| ==> r == ""
    ensures start < 0 && -start <= |s| && 0 <= length <= -start ==> r == s[|s| + start..|s| + start + length]
  {
    if length <= 0 || start >= |s| then ""
    else
      var b := if start >= 0 then start else if |s| + start < 0 then 0 else |s| + start;
      var e := if b + length > |s| then |s| else b + length;
      s[b..e]
  }

  /** `s.replace(pat, rep)` with a string pattern: only the leftmost
      occurrence is replaced, and a pattern holding a character that `s`
      lacks leaves `s` as it is. */
  function ReplaceFirst(s: string, pat: string, rep: string): (r: string)
    ensures (exists c :: c in pat && c !in s) ==> r == s
    ensures r != s ==> exists i :: OccursAt(s, pat, i) && (forall k :: 0 <= k < i ==> !OccursAt(s, pat, k))
                                   && r == s[..i] + rep + s[i + |pat|..]
  {
    var i := IndexOf(s, pat);
    if i == -1 then s
    else
      assert forall j :: 0 <= j < |pat| ==> pat[j] == s[i + j];
      s[..i] + rep + s[i + |pat|..]
  }

  /** A pattern that occurs is replaced at its first occurrence. */
  lemma {:induction false} ReplaceFirstAt(s: string, pat: string, rep: string, i: int)
    requires OccursAt(s, pat, i)
    requires forall k :: 0 <= k < i ==> !OccursAt(s, pat, k)
    ensures ReplaceFirst(s, pat, rep) == s[..i] + rep + s[i + |pat|..]
  {
    IndexOfIs(s, pat, i);
    assert IndexOf(s, pat) != -1;
  }

  /** A pattern that never occurs leaves the text as it is. */
  lemma {:induction false} ReplaceFirstAbsent(s: string, pat: string, rep: string)
    requires forall k :: 0 <= k ==> !OccursAt(s, pat, k)
    ensures ReplaceFirst(s, pat, rep) == s
  {
    IndexOfAbsent(s, pat);
  }
}
