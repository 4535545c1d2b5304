/** The few Python string operations the URL parser relies on, written on
    `seq<char>`: substring search (`t in s`, `s.find(t)`), `startswith`,
    and `split` with an explicit separator. */
module Text {
  import opened Common

  /** `t` occurs in `s` starting at index `k`. */
  predicate OccursAt(s: string, t: string, k: int)
  {
    0 <= k && k + |t| <= |s| && s[k..k + |t|] == t
  }

  lemma OccursShift(s: string, t: string, k: nat)
    requires |s| > 0
    ensures OccursAt(s, t, k + 1) <==> OccursAt(s[1..], t, k)
  {
  }

  /** Python's `s.find(t)`, with None where Python gives -1: the index of
      the first occurrence of `t` in `s`. */
  function Find(s: string, t: string): (r: Option<nat>)
    ensures r.Some? ==> OccursAt(s, t, r.value)
    ensures r.Some? ==> forall k :: 0 <= k < r.value ==> !OccursAt(s, t, k)
    ensures r.None? ==> forall k :: !OccursAt(s, t, k)
    decreases |s|
  {
    if |t| > |s| then None
    else if s[..|t|] == t then Some(0)
    else
      var rest := Find(s[1..], t);
      assert forall k :: 1 <= k ==> (OccursAt(s, t, k) <==> OccursAt(s[1..], t, k - 1)) by {
        forall k | 1 <= k ensures OccursAt(s, t, k) <==> OccursAt(s[1..], t, k - 1) {
          OccursShift(s, t, k - 1);
        }
      }
      assert !OccursAt(s, t, 0);
      match rest
      case None => None
      case Some(i) => Some(i + 1)
  }

  lemma SliceParts(s: string, i: nat, j: nat)
    requires i <= j <= |s|
    ensures s == s[..i] + s[i..j] + s[j..]
  {
  }

  /** Python's `t in s` on strings. */
  predicate Contains(s: string, t: string)
    ensures Contains(s, t) <==> exists k :: OccursAt(s, t, k)
  {
    Find(s, t).Some?
  }

  lemma ContainsAt(s: string, t: string, k: int)
    requires OccursAt(s, t, k)
    ensures Contains(s, t)
  {
  }

  /** Python's `s.startswith(p)`. */
  predicate StartsWith(s: string, p: string)
    ensures StartsWith(s, p) <==> Find(s, p) == Some(0)
  {
    |p| <= |s| && s[..|p|] == p
  }

  /** The text that follows the first occurrence of `t` in `s`. */
  function After(s: string, t: string): (r: string)
    requires Contains(s, t)
    ensures s == s[..Find(s, t).value] + t + r
  {
    var i := Find(s, t).value;
    SliceParts(s, i, i + |t|);
    s[i + |t|..]
  }

  /** The pieces joined back together with `sep` between them: Python's
      `sep.join(pieces)`. */
  function Join(pieces: seq<string>, sep: string): string
    requires |pieces| >= 1
  {
    if |pieces| == 1 then pieces[0] else pieces[0] + sep + Join(pieces[1..], sep)
  }

  /** Python's `s.split(sep)` for a non-empty separator: the pieces between
      the non-overlapping occurrences of `sep`, found from left to right. */
  function Split(s: string, sep: string): (r: seq<string>)
    requires |sep| > 0
    ensures |r| >= 1
    ensures |r| >= 2 <==> Contains(s, sep)
    ensures r[0] == if Contains(s, sep) then s[..Find(s, sep).value] else s
    decreases |s|
  {
    match Find(s, sep)
    case None => [s]
    case Some(i) => [s[..i]] + Split(s[i + |sep|..], sep)
  }

  /** One step of Split at the first occurrence `i` of `sep`. */
  lemma SplitStep(s: string, sep: string, i: nat)
    requires |sep| > 0 && Find(s, sep) == Some(i)
    ensures Split(s, sep) == [s[..i]] + Split(s[i + |sep|..], sep)
    ensures s == s[..i] + sep + s[i + |sep|..]
  {
    SliceParts(s, i, i + |sep|);
  }

  lemma JoinCons(piece: string, rest: seq<string>, sep: string)
    requires |rest| >= 1
    ensures Join([piece] + rest, sep) == piece + sep + Join(rest, sep)
  {
  }

  /** Joining the pieces of a split with the separator gives the text back. */
  lemma {:induction false} SplitJoin(s: string, sep: string)
    requires |sep| > 0
    ensures Join(Split(s, sep), sep) == s
    decreases |s|
  {
    match Find(s, sep)
    case None =>
    case Some(i) =>
      var rest := s[i + |sep|..];
      SplitStep(s, sep, i);
      SplitJoin(rest, sep);
      JoinCons(s[..i], Split(rest, sep), sep);
  }

  /** The text before the first occurrence of `sep` does not contain it. */
  lemma PrefixAvoidsSep(s: string, sep: string, i: nat)
    requires |sep| > 0 && Find(s, sep) == Some(i)
    ensures !Contains(s[..i], sep)
  {
    if Contains(s[..i], sep) {
      var k := Find(s[..i], sep).value;
      assert s[..i][k..k + |sep|] == s[k..k + |sep|];
      assert OccursAt(s, sep, k);
    }
  }

  /** No piece of a split contains the separator. */
  lemma {:induction false} SplitPiecesAvoidSep(s: string, sep: string)
    requires |sep| > 0
    ensures forall k :: 0 <= k < |Split(s, sep)| ==> !Contains(Split(s, sep)[k], sep)
    decreases |s|
  {
    match Find(s, sep)
    case None =>
    case Some(i) =>
      var rest := s[i + |sep|..];
      SplitStep(s, sep, i);
      SplitPiecesAvoidSep(rest, sep);
      PrefixAvoidsSep(s, sep, i);
  }

  /** The longest prefix of `s` in which `c` does not occur. */
  function UpTo(s: string, c: char): (r: string)
    ensures |r| <= |s| && r == s[..|r|]
    ensures c !in r
    ensures |r| < |s| ==> s[|r|] == c
  {
    if s == [] then []
    else if s[0] == c then []
    else [s[0]] + UpTo(s[1..], c)
  }

  /** The three properties of UpTo's contract pin its result down. */
  lemma UpToUnique(s: string, c: char, p: string)
    requires |p| <= |s| && p == s[..|p|]
    requires c !in p
    requires |p| < |s| ==> s[|p|] == c
    ensures UpTo(s, c) == p
  {
  }

  /** Cutting `s` at an occurrence of `c` (or at its end) does not change
      the text before the first `c`. */
  lemma UpToPrefix(s: string, c: char, j: nat)
    requires j <= |s|
    requires j < |s| ==> s[j] == c
    ensures UpTo(s[..j], c) == UpTo(s, c)
  {
  }

  /** Splitting on "/" and keeping the first piece is UpTo with '/'. */
  lemma SplitSlashHead(s: string)
    ensures Split(s, "/")[0] == UpTo(s, '/')
  {
  }

  /** For a separator that begins with '/', `s.split(sep)[1].split("/")[0]`
      is the text after the first `sep`, up to the next '/' or the end. */
  lemma SegmentAfter(s: string, sep: string)
    requires |sep| > 0 && sep[0] == '/'
    requires Contains(s, sep)
    ensures |Split(s, sep)| >= 2
    ensures Split(Split(s, sep)[1], "/")[0] == UpTo(After(s, sep), '/')
  {
    var i := Find(s, sep).value;
    var rest := After(s, sep);
    assert rest == s[i + |sep|..];
    SplitStep(s, sep, i);
    var piece := Split(rest, sep)[0];
    assert Split(s, sep)[1] == piece;
    SplitSlashHead(piece);
    if Contains(rest, sep) {
      var j := Find(rest, sep).value;
      OccurrenceStart(rest, sep, j);
      UpToPrefix(rest, '/', j);
    } else {
      UpToPrefix(rest, '/', |rest|);
      assert rest[..|rest|] == rest;
    }
  }

  lemma OccurrenceStart(s: string, t: string, k: nat)
    requires |t| > 0 && OccursAt(s, t, k)
    ensures s[k] == t[0]
  {
  }
}
