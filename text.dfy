/**
 * String operations of ECMAScript that the extension relies on, on Dafny's
 * `string` (a sequence of code points): ASCII lower-casing, `trim` and the
 * regular-expression class `\s`, `startsWith`/`endsWith`/`includes`, and
 * `split`/`join` with a literal separator.
 */
module Text {
  import opened Wrappers

  /** The LineTerminator code points of ECMAScript (what `.` in a regular expression does not match). */
  predicate IsLineTerminator(c: char) {
    c == '\n' || c == '\r' || c == '\U{2028}' || c == '\U{2029}'
  }

  /** WhiteSpace or LineTerminator: what `String.prototype.trim` removes and what `\s` matches. */
  predicate IsSpace(c: char) {
    || IsLineTerminator(c)
    || c == '\t' || c == '\U{B}' || c == '\U{C}' || c == ' ' || c == '\U{A0}'
    || c == '\U{1680}' || ('\U{2000}' <= c <= '\U{200A}')
    || c == '\U{202F}' || c == '\U{205F}' || c == '\U{3000}' || c == '\U{FEFF}'
  }

  predicate AllSpace(s: string) {
    forall k :: 0 <= k < |s| ==> IsSpace(s[k])
  }

  /** No character that `.` in a regular expression refuses. */
  predicate NoBreak(s: string) {
    forall k :: 0 <= k < |s| ==> !IsLineTerminator(s[k])
  }

  /** The end of the run of white space starting at `i` (greedy `\s*`). */
  function SpacesFrom(s: string, i: nat): (j: nat)
    requires i <= |s|
    ensures i <= j <= |s| && AllSpace(s[i..j]) && (j == |s| || !IsSpace(s[j]))
    decreases |s| - i
  {
    if i < |s| && IsSpace(s[i]) then
      var j := SpacesFrom(s, i + 1);
      assert forall k :: i + 1 <= k < j ==> s[i + 1..j][k - i - 1] == s[k];
      j
    else i
  }

  /** `Math.min`. */
  function Min(a: int, b: int): int {
    if a <= b then a else b
  }

  /** `toLowerCase` restricted to ASCII letters. */
  function LowerChar(c: char): (d: char)
    ensures 'A' <= c <= 'Z' ==> 'a' <= d <= 'z' && d as int == c as int + 32
    ensures !('A' <= c <= 'Z') ==> d == c
  {
    if 'A' <= c <= 'Z' then (c as int + 32) as char else c
  }

  function Lower(s: string): (t: string)
    ensures |t| == |s|
    ensures forall k :: 0 <= k < |s| ==> t[k] == LowerChar(s[k])
  {
    seq(|s|, k requires 0 <= k < |s| => LowerChar(s[k]))
  }

  lemma LowerIdempotent(s: string)
    ensures Lower(Lower(s)) == Lower(s)
  {
    assert forall k :: 0 <= k < |s| ==> LowerChar(LowerChar(s[k])) == LowerChar(s[k]);
  }

  lemma LowerAppend(a: string, b: string)
    ensures Lower(a + b) == Lower(a) + Lower(b)
  {
  }

  predicate StartsWith(s: string, p: string) {
    |p| <= |s| && s[..|p|] == p
  }

  predicate EndsWith(s: string, p: string) {
    |p| <= |s| && s[|s| - |p|..] == p
  }

  /** `p` occurs in `s` at position `i`. */
  predicate OccursAt(s: string, p: string, i: nat) {
    i + |p| <= |s| && s[i..i + |p|] == p
  }

  /** `s.includes(p)`. */
  predicate Contains(s: string, p: string) {
    exists i: nat :: i <= |s| && OccursAt(s, p, i)
  }

  /** A one-character string occurs exactly where the character does. */
  lemma ContainsChar(s: string, c: char)
    ensures Contains(s, [c]) <==> c in s
  {
    if c in s {
      var k :| 0 <= k < |s| && s[k] == c;
      assert OccursAt(s, [c], k);
    }
    if Contains(s, [c]) {
      var k: nat :| k <= |s| && OccursAt(s, [c], k);
      assert s[k..k + 1][0] == s[k];
    }
  }

  /** The first position at or after `from` where `p` occurs in `s`. */
  function IndexFrom(s: string, p: string, from: nat): (r: Option<nat>)
    requires from <= |s|
    ensures r.Some? ==> from <= r.value && OccursAt(s, p, r.value)
    decreases |s| - from
  {
    if OccursAt(s, p, from) then Some(from)
    else if from == |s| then None
    else IndexFrom(s, p, from + 1)
  }

  /** No occurrence lies between `from` and the one `IndexFrom` finds. */
  lemma {:induction false} IndexFromFirst(s: string, p: string, from: nat, j: nat)
    requires from <= j <= |s|
    requires IndexFrom(s, p, from).None? || j < IndexFrom(s, p, from).value
    ensures !OccursAt(s, p, j)
    decreases |s| - from
  {
    if from < j {
      IndexFromFirst(s, p, from + 1, j);
    }
  }

  /** `s.indexOf(p)`, with None for -1. */
  function IndexOf(s: string, p: string): (r: Option<nat>)
    ensures r.Some? ==> OccursAt(s, p, r.value)
  {
    IndexFrom(s, p, 0)
  }

  /** `indexOf` finds the first occurrence. */
  lemma IndexOfFirst(s: string, p: string, j: nat)
    requires IndexOf(s, p).None? || j < IndexOf(s, p).value
    ensures !OccursAt(s, p, j)
  {
    if j <= |s| {
      IndexFromFirst(s, p, 0, j);
    }
  }

  /** `indexOf` reports -1 exactly when `includes` is false. */
  lemma IndexOfNone(s: string, p: string)
    ensures IndexOf(s, p).None? <==> !Contains(s, p)
  {
    if IndexOf(s, p).None? {
      forall j: nat | j <= |s|
        ensures !OccursAt(s, p, j)
      {
        IndexOfFirst(s, p, j);
      }
    }
  }

  /** An occurrence with none before it is the one `indexOf` finds. */
  lemma IndexOfAt(s: string, p: string, i: nat)
    requires OccursAt(s, p, i)
    requires forall j: nat :: j < i ==> !OccursAt(s, p, j)
    ensures IndexOf(s, p) == Some(i)
  {
    var r := IndexOf(s, p);
    if r.None? || i < r.value {
      IndexOfFirst(s, p, i);
    }
  }

  /** An occurrence in `s` is one in `s + c` too, and none starts earlier. */
  lemma IndexOfAppend(s: string, c: string, p: string)
    requires IndexOf(s, p).Some?
    ensures IndexOf(s + c, p) == IndexOf(s, p)
  {
    var i := IndexOf(s, p).value;
    assert OccursAt(s + c, p, i) by {
      assert (s + c)[i..i + |p|] == s[i..i + |p|];
    }
    var r := IndexOf(s + c, p);
    if r.None? || i < r.value {
      IndexOfFirst(s + c, p, i);
    } else if r.value < i {
      IndexOfFirst(s, p, r.value);
    }
  }

  /** Drops the leading characters that `trim` removes. */
  function TrimStart(s: string): (t: string)
    ensures |t| <= |s|
  {
    if s == [] || !IsSpace(s[0]) then s else TrimStart(s[1..])
  }

  /** Drops the trailing characters that `trim` removes. */
  function TrimEnd(s: string): (t: string)
    ensures |t| <= |s|
  {
    if s == [] || !IsSpace(s[|s| - 1]) then s else TrimEnd(s[..|s| - 1])
  }

  /** `TrimStart` removes a white-space prefix, up to the first other character. */
  lemma {:induction false} TrimStartSpec(s: string)
    ensures var t := TrimStart(s);
      && t == s[|s| - |t|..] && AllSpace(s[..|s| - |t|]) && (t == [] || !IsSpace(t[0]))
  {
    if s != [] && IsSpace(s[0]) {
      TrimStartSpec(s[1..]);
      var t := TrimStart(s[1..]);
      assert s[1..][..|s| - 1 - |t|] == s[1..|s| - |t|];
    }
  }

  /** `TrimEnd` removes a white-space suffix, back to the last other character. */
  lemma {:induction false} TrimEndSpec(s: string)
    ensures var t := TrimEnd(s);
      && t == s[..|t|] && AllSpace(s[|t|..]) && (t == [] || !IsSpace(t[|t| - 1]))
  {
    if s != [] && IsSpace(s[|s| - 1]) {
      var s' := s[..|s| - 1];
      TrimEndSpec(s');
      var t := TrimEnd(s');
      assert s'[..|t|] == s[..|t|];
      assert s[|t|..] == s'[|t|..] + [s[|s| - 1]];
    }
  }

  /** `String.prototype.trim`. */
  function Trim(s: string): (t: string)
    ensures |t| <= |s|
  {
    TrimEnd(TrimStart(s))
  }

  /** `trim` removes white space at both ends and nothing else. */
  lemma TrimSpec(s: string)
    ensures var t := Trim(s);
      && (t == [] || (!IsSpace(t[0]) && !IsSpace(t[|t| - 1])))
      && var a := |s| - |TrimStart(s)|;
      && a + |t| <= |s| && t == s[a..a + |t|] && AllSpace(s[..a]) && AllSpace(s[a + |t|..])
  {
    var u := TrimStart(s);
    var t := TrimEnd(u);
    TrimStartSpec(s);
    TrimEndSpec(u);
    TrimEndKeepsStart(u);
    var a := |s| - |u|;
    SuffixSlices(s, a, |t|);
  }

  lemma SuffixSlices(s: string, a: nat, n: nat)
    requires a + n <= |s|
    ensures s[a..][..n] == s[a..a + n] && s[a..][n..] == s[a + n..]
  {
  }

  lemma TrimEndKeepsStart(u: string)
    requires u == [] || !IsSpace(u[0])
    ensures TrimEnd(u) == [] || !IsSpace(TrimEnd(u)[0])
  {
    TrimEndSpec(u);
    var t := TrimEnd(u);
    if t != [] {
      assert t[0] == u[0];
    }
  }

  /** `TrimStart` stops at the first character that is not white space. */
  lemma {:induction false} TrimStartAt(s: string, a: nat)
    requires a <= |s| && AllSpace(s[..a]) && (a == |s| || !IsSpace(s[a]))
    ensures TrimStart(s) == s[a..]
  {
    if a > 0 {
      assert IsSpace(s[..a][0]);
      assert s[1..][..a - 1] == s[1..a];
      assert forall k :: 0 <= k < a - 1 ==> s[1..a][k] == s[..a][k + 1];
      TrimStartAt(s[1..], a - 1);
      assert s[1..][a - 1..] == s[a..];
    }
  }

  /** `TrimEnd` stops at the last character that is not white space. */
  lemma {:induction false} TrimEndAt(s: string, b: nat)
    requires b <= |s| && AllSpace(s[b..]) && (b == 0 || !IsSpace(s[b - 1]))
    ensures TrimEnd(s) == s[..b]
    decreases |s| - b
  {
    if b < |s| {
      assert IsSpace(s[b..][|s| - 1 - b]);
      var s' := s[..|s| - 1];
      assert s'[b..] == s[b..|s| - 1];
      TrimEndAt(s', b);
      assert s'[..b] == s[..b];
    } else {
      assert s[..b] == s;
    }
  }

  /** A string that neither starts nor ends with white space is its own trim. */
  lemma TrimNoop(s: string)
    requires s == [] || (!IsSpace(s[0]) && !IsSpace(s[|s| - 1]))
    ensures Trim(s) == s
  {
    assert TrimStart(s) == s;
    assert TrimEnd(s) == s;
  }

  lemma TrimOfSpaces(s: string)
    requires AllSpace(s)
    ensures Trim(s) == []
  {
    TrimStartSpec(s);
  }

  /** `s.split(sep)` for a non-empty literal separator: the pieces between the leftmost non-overlapping occurrences. */
  function Split(s: string, sep: string): (parts: seq<string>)
    requires |sep| > 0
    ensures |parts| >= 1
    decreases |s|
  {
    match IndexOf(s, sep)
    case None => [s]
    case Some(i) => [s[..i]] + Split(s[i + |sep|..], sep)
  }

  /** `parts.join(sep)`. */
  function Join(parts: seq<string>, sep: string): string
    requires |parts| >= 1
  {
    if |parts| == 1 then parts[0] else parts[0] + sep + Join(parts[1..], sep)
  }

  function Last<T>(xs: seq<T>): T
    requires |xs| >= 1
  {
    xs[|xs| - 1]
  }

  /** Everything but the last element: what remains once `parts.pop()` has run. */
  function Init<T>(xs: seq<T>): seq<T>
    requires |xs| >= 1
  {
    xs[..|xs| - 1]
  }

  /** One step of `Split`: the piece before the first separator, then the split of the rest. */
  lemma SplitStep(s: string, sep: string)
    requires |sep| > 0 && IndexOf(s, sep).Some?
    ensures Split(s, sep) == [s[..IndexOf(s, sep).value]] + Split(s[IndexOf(s, sep).value + |sep|..], sep)
  {
  }

  lemma SplitAt(s: string, sep: string, i: nat)
    requires |sep| > 0 && IndexOf(s, sep) == Some(i)
    ensures Split(s, sep) == [s[..i]] + Split(s[i + |sep|..], sep)
  {
  }

  lemma JoinStep(a: string, parts: seq<string>, sep: string)
    requires |parts| >= 1
    ensures Join([a] + parts, sep) == a + sep + Join(parts, sep)
  {
    assert ([a] + parts)[1..] == parts;
  }

  /** Joining the pieces of a split with the same separator gives the string back. */
  lemma {:induction false} JoinSplit(s: string, sep: string)
    requires |sep| > 0
    ensures Join(Split(s, sep), sep) == s
    decreases |s|
  {
    var r := IndexOf(s, sep);
    if r.Some? {
      var i := r.value;
      var rest := s[i + |sep|..];
      JoinSplit(rest, sep);
      SplitStep(s, sep);
      JoinStep(s[..i], Split(rest, sep), sep);
      SplitAround(s, sep, i);
    }
  }

  /** A string is the text before an occurrence, the occurrence and the text after it. */
  lemma SplitAround(s: string, p: string, i: nat)
    requires OccursAt(s, p, i)
    ensures s == s[..i] + p + s[i + |p|..]
  {
    assert s == s[..i] + s[i..i + |p|] + s[i + |p|..];
  }

  /** No piece of a split contains the separator. */
  lemma {:induction false} SplitPiecesFree(s: string, sep: string)
    requires |sep| > 0
    ensures forall k :: 0 <= k < |Split(s, sep)| ==> !Contains(Split(s, sep)[k], sep)
    decreases |s|
  {
    var r := IndexOf(s, sep);
    if r.None? {
      IndexOfNone(s, sep);
    } else {
      var i := r.value;
      var rest := s[i + |sep|..];
      SplitPiecesFree(rest, sep);
      var head := s[..i];
      forall j: nat | j <= |head|
        ensures !OccursAt(head, sep, j)
      {
        if j + |sep| <= |head| {
          IndexOfFirst(s, sep, j);
          assert head[j..j + |sep|] == s[j..j + |sep|];
        }
      }
      SplitStep(s, sep);
    }
  }

  /**
   * Appending text to a string changes only its last piece: the pieces before
   * it are complete and stay as they are. This is what lets a reader split an
   * ever-growing buffer and keep only the unterminated tail.
   */
  lemma {:induction false} SplitAppend(s: string, c: string, sep: string)
    requires |sep| > 0
    ensures Split(s + c, sep) == Init(Split(s, sep)) + Split(Last(Split(s, sep)) + c, sep)
    decreases |s|
  {
    var r := IndexOf(s, sep);
    if r.Some? {
      var i := r.value;
      var sc := s + c;
      IndexOfAppend(s, c, sep);
      assert IndexOf(sc, sep) == Some(i);
      var rest := s[i + |sep|..];
      var head := s[..i];
      SplitAppend(rest, c, sep);
      var tail := Split(rest, sep);
      SplitAt(s, sep, i);
      SplitAppendHead(s, c, sep, i);
      InitLastCons(head, tail);
      var x := Split(Last(tail) + c, sep);
      assert Split(rest + c, sep) == Init(tail) + x;
      assert [head] + (Init(tail) + x) == ([head] + Init(tail)) + x;
    } else {
      assert Split(s, sep) == [s];
    }
  }

  lemma SplitAppendHead(s: string, c: string, sep: string, i: nat)
    requires |sep| > 0 && IndexOf(s + c, sep) == Some(i) && i + |sep| <= |s|
    ensures Split(s + c, sep) == [s[..i]] + Split(s[i + |sep|..] + c, sep)
  {
    SplitAt(s + c, sep, i);
    AppendSlices(s, c, i, i + |sep|);
  }

  lemma AppendSlices(s: string, c: string, i: nat, k: nat)
    requires i <= k <= |s|
    ensures (s + c)[..i] == s[..i] && (s + c)[k..] == s[k..] + c
  {
  }

  /** Joining after appending a part puts one more separator before it. */
  lemma {:induction false} JoinSnoc(parts: seq<string>, x: string, sep: string)
    requires |parts| >= 1
    ensures Join(parts + [x], sep) == Join(parts, sep) + sep + x
    decreases |parts|
  {
    if |parts| > 1 {
      assert (parts + [x])[1..] == parts[1..] + [x];
      JoinSnoc(parts[1..], x, sep);
    }
  }

  /** Splitting on a single character undoes joining pieces that do not contain it. */
  lemma {:induction false} SplitJoin(parts: seq<string>, c: char)
    requires |parts| >= 1
    requires forall k :: 0 <= k < |parts| ==> c !in parts[k]
    ensures Split(Join(parts, [c]), [c]) == parts
    decreases |parts|
  {
    var head := parts[0];
    forall j: nat | j <= |head|
      ensures !OccursAt(head, [c], j)
    {
      if j + 1 <= |head| {
        assert head[j..j + 1] == [head[j]];
      }
    }
    if |parts| == 1 {
      SplitWithout(head, [c]);
    } else {
      var rest := Join(parts[1..], [c]);
      var s := Join(parts, [c]);
      assert s == head + [c] + rest;
      forall j: nat | j < |head|
        ensures !OccursAt(s, [c], j)
      {
        assert s[j..j + 1] == [head[j]];
        assert head[j] in parts[0];
      }
      assert s[|head|..|head| + 1] == [c];
      IndexOfAt(s, [c], |head|);
      SplitStep(s, [c]);
      assert s[..|head|] == head;
      assert s[|head| + 1..] == rest;
      SplitJoin(parts[1..], c);
    }
  }

  lemma InitLastCons<T>(x: T, xs: seq<T>)
    requires |xs| >= 1
    ensures Init([x] + xs) == [x] + Init(xs) && Last([x] + xs) == Last(xs)
  {
  }

  /** A string without the separator is a single piece. */
  lemma SplitWithout(s: string, sep: string)
    requires |sep| > 0 && !Contains(s, sep)
    ensures Split(s, sep) == [s]
  {
  }

  /** The concatenation of a sequence of strings, front to back. */
  function Concat(xs: seq<string>): string {
    if xs == [] then "" else xs[0] + Concat(xs[1..])
  }

  lemma {:induction false} ConcatSnoc(xs: seq<string>, x: string)
    ensures Concat(xs + [x]) == Concat(xs) + x
  {
    if xs != [] {
      assert (xs + [x])[1..] == xs[1..] + [x];
      ConcatSnoc(xs[1..], x);
    }
  }

  lemma ConcatCons(xs: seq<string>, k: nat)
    requires k < |xs|
    ensures Concat(xs[k..]) == xs[k] + Concat(xs[k + 1..])
  {
    assert xs[k..][1..] == xs[k + 1..];
  }
}
