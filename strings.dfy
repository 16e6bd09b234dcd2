/** The JavaScript string operations the core relies on: `includes`,
    `indexOf`, `split(sep)[1]` and `toLowerCase`, over strings of code points. */
module Strings {
  import opened Wrappers

  /** `pat` occurs in `s` at index `i`. */
  predicate OccursAt(s: string, pat: string, i: int) {
    0 <= i && i + |pat| <= |s| && s[i..i + |pat|] == pat
  }

  /** `s.indexOf(pat, from)`: the first occurrence of `pat` at or after `from`. */
  function IndexOf(s: string, pat: string, from: nat): (r: Option<nat>)
    ensures r.Some? ==> from <= r.value && OccursAt(s, pat, r.value)
    ensures r.Some? ==> forall j :: from <= j < r.value ==> !OccursAt(s, pat, j)
    ensures r.None? ==> forall j :: from <= j ==> !OccursAt(s, pat, j)
    decreases |s| - from
  {
    if from + |pat| > |s| then None
    else if s[from..from + |pat|] == pat then Some(from)
    else IndexOf(s, pat, from + 1)
  }

  /** `s.includes(pat)`. */
  predicate Contains(s: string, pat: string)
  {
    IndexOf(s, pat, 0).Some?
  }

  lemma ContainsIff(s: string, pat: string)
    ensures Contains(s, pat) <==> exists i :: OccursAt(s, pat, i)
  {
    if Contains(s, pat) {
      assert OccursAt(s, pat, IndexOf(s, pat, 0).value);
    }
  }

  /** A string contains whatever was spliced into it. */
  lemma ContainsInfix(a: string, m: string, b: string)
    ensures Contains(a + m + b, m)
  {
    var s := a + m + b;
    assert s[|a|..|a| + |m|] == m;
    assert OccursAt(s, m, |a|);
    ContainsIff(s, m);
  }

  /** An occurrence inside a slice is an occurrence in the whole string. */
  lemma OccursInSlice(s: string, lo: nat, hi: nat, pat: string, k: int)
    requires lo <= hi <= |s|
    requires OccursAt(s[lo..hi], pat, k)
    ensures OccursAt(s, pat, lo + k)
  {
    forall t | 0 <= t < |pat|
      ensures s[lo + k..lo + k + |pat|][t] == pat[t]
    {
      assert s[lo..hi][k..k + |pat|][t] == pat[t];
    }
  }

  /** `s.split(sep)[1]`: the piece after the first `sep`, up to the next
      `sep` or the end; `None` stands for `undefined` (no `sep` in `s`). */
  function SecondPiece(s: string, sep: string): (r: Option<string>)
    requires |sep| > 0
    ensures r.Some? <==> Contains(s, sep)
    ensures r.Some? ==> !Contains(r.value, sep)
    ensures r.Some? ==> exists i :: FirstOccurrence(s, sep, i) && PieceAfter(s, sep, i, r.value)
  {
    match IndexOf(s, sep, 0)
    case None => None
    case Some(i) =>
      var start := i + |sep|;
      var piece := match IndexOf(s, sep, start)
        case None => s[start..]
        case Some(j) => s[start..j];
      assert FirstOccurrence(s, sep, i);
      NoOccurrenceInPiece(s, sep, start, piece);
      Some(piece)
  }

  /** `i` is where `sep` first occurs in `s`. */
  ghost predicate FirstOccurrence(s: string, sep: string, i: int) {
    OccursAt(s, sep, i) && forall j :: 0 <= j < i ==> !OccursAt(s, sep, j)
  }

  /** `piece` starts right after the occurrence of `sep` at `i` and runs to
      the next occurrence of `sep` or to the end of `s`. */
  ghost predicate PieceAfter(s: string, sep: string, i: int, piece: string) {
    var start := i + |sep|;
    && 0 <= start && start + |piece| <= |s| && s[start..start + |piece|] == piece
    && (start + |piece| == |s| || OccursAt(s, sep, start + |piece|))
    && forall j :: start <= j < start + |piece| ==> !OccursAt(s, sep, j)
  }

  lemma NoOccurrenceInPiece(s: string, sep: string, start: nat, piece: string)
    requires |sep| > 0 && start <= |s|
    requires match IndexOf(s, sep, start)
      case None => piece == s[start..]
      case Some(j) => piece == s[start..j]
    ensures !Contains(piece, sep)
  {
    ContainsIff(piece, sep);
    if Contains(piece, sep) {
      var k :| OccursAt(piece, sep, k);
      assert s[start..start + |piece|] == piece;
      OccursInSlice(s, start, start + |piece|, sep, k);
    }
  }

  /** `toLowerCase` on one code point, for ASCII, Latin-1 and the letters of
      the Vietnamese alphabet. */
  function LowerChar(c: char): char
  {
    if 'A' <= c <= 'Z' || ('\U{C0}' <= c <= '\U{DE}' && c != '\U{D7}') then
      (c as int + 32) as char
    else if c == '\U{102}' || c == '\U{110}' || c == '\U{128}' || c == '\U{168}'
         || c == '\U{1A0}' || c == '\U{1AF}' then
      (c as int + 1) as char
    else if '\U{1EA0}' <= c <= '\U{1EF8}' && (c as int) % 2 == 0 then
      (c as int + 1) as char
    else
      c
  }

  /** `s.toLowerCase()`, code point by code point. */
  function Lower(s: string): (r: string)
    ensures |r| == |s|
    ensures forall i :: 0 <= i < |s| ==> r[i] == LowerChar(s[i])
  {
    if s == [] then [] else [LowerChar(s[0])] + Lower(s[1..])
  }

  /** Lower-casing twice is lower-casing once. */
  lemma LowerIdempotent(s: string)
    ensures Lower(Lower(s)) == Lower(s)
  {
    forall i | 0 <= i < |s|
      ensures Lower(Lower(s))[i] == Lower(s)[i]
    {
      LowerCharIdempotent(s[i]);
    }
  }

  lemma LowerCharIdempotent(c: char)
    ensures LowerChar(LowerChar(c)) == LowerChar(c)
  {
  }
}
