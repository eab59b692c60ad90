/**
  The two string operations the configuration reader relies on, as Python
  defines them: `str.strip()` with no argument, and `str.split(sep, 1)`.
 */
module Text {
  import opened Wrappers

  /** Python's `str.isspace()` for a single character: the ASCII blanks and
      separators \x1c-\x1f together with the Unicode space characters. */
  predicate IsSpace(c: char) {
    || c == ' ' || c == '\t' || c == '\n' || c == '\r' || c == '\U{B}' || c == '\U{C}'
    || ('\U{1C}' <= c <= '\U{1F}')
    || c == '\U{85}' || c == '\U{A0}' || c == '\U{1680}'
    || ('\U{2000}' <= c <= '\U{200A}')
    || c == '\U{2028}' || c == '\U{2029}' || c == '\U{202F}' || c == '\U{205F}' || c == '\U{3000}'
  }

  /** Neither starts nor ends with whitespace. */
  predicate Stripped(s: string) {
    s == [] || (!IsSpace(s[0]) && !IsSpace(s[|s| - 1]))
  }

  /** The first index at or after `from` that does not hold whitespace, or
      `|s|` when there is none. */
  function SkipSpaceForward(s: string, from: nat): (r: nat)
    requires from <= |s|
    ensures from <= r <= |s|
    ensures forall i :: from <= i < r ==> IsSpace(s[i])
    ensures r < |s| ==> !IsSpace(s[r])
    decreases |s| - from
  {
    if from < |s| && IsSpace(s[from]) then SkipSpaceForward(s, from + 1) else from
  }

  /** The end of `s[lo..hi]` once trailing whitespace is dropped: everything
      from the result up to `hi` is whitespace, and the character before it,
      if it lies after `lo`, is not. */
  function SkipSpaceBackward(s: string, lo: nat, hi: nat): (r: nat)
    requires lo <= hi <= |s|
    ensures lo <= r <= hi
    ensures forall i :: r <= i < hi ==> IsSpace(s[i])
    ensures lo < r ==> !IsSpace(s[r - 1])
    decreases hi
  {
    if lo < hi && IsSpace(s[hi - 1]) then SkipSpaceBackward(s, lo, hi - 1) else hi
  }

  /** Python's `s.strip()`. */
  function Trim(s: string): (r: string)
    ensures |r| <= |s| && Stripped(r)
  {
    var lo := SkipSpaceForward(s, 0);
    s[lo..SkipSpaceBackward(s, lo, |s|)]
  }

  /** `s` is `Trim(s)` with whitespace only before and after it. */
  lemma TrimSurrounded(s: string)
    ensures var lo := SkipSpaceForward(s, 0);
            && lo + |Trim(s)| <= |s|
            && s[lo..lo + |Trim(s)|] == Trim(s)
            && (forall i :: 0 <= i < lo ==> IsSpace(s[i]))
            && (forall i :: lo + |Trim(s)| <= i < |s| ==> IsSpace(s[i]))
  {
  }

  /** Stripping never introduces a character. */
  lemma TrimKeepsAbsent(s: string, c: char)
    requires c !in s
    ensures c !in Trim(s)
  {
  }

  /** A string with no surrounding whitespace is left alone by `Trim`. */
  lemma TrimOfTrimmed(s: string)
    requires Stripped(s)
    ensures Trim(s) == s
  {
  }

  /** `Trim` is idempotent. */
  lemma TrimIdempotent(s: string)
    ensures Trim(Trim(s)) == Trim(s)
  {
    TrimOfTrimmed(Trim(s));
  }

  /** Index of the first occurrence of `c` in `s`, if any. */
  function FindFirst(s: string, c: char): (r: Option<nat>)
    ensures r.None? <==> c !in s
    ensures r.Some? ==> r.value < |s| && s[r.value] == c && c !in s[..r.value]
  {
    if s == [] then None
    else if s[0] == c then Some(0)
    else
      var rest := FindFirst(s[1..], c);
      if rest.None? then None
      else
        assert s[..rest.value + 1] == [s[0]] + s[1..][..rest.value];
        Some(rest.value + 1)
  }

  /** Python's `s.split(sep, 1)` seen through a two-way unpack: no pair when
      `sep` does not occur, otherwise the text before the first `sep` and
      everything after it (which may itself contain `sep`). */
  function SplitAtFirst(s: string, sep: char): (r: Option<(string, string)>)
    ensures r.None? <==> sep !in s
    ensures r.Some? ==> s == r.value.0 + [sep] + r.value.1 && sep !in r.value.0
  {
    match FindFirst(s, sep)
    case None => None
    case Some(i) =>
      assert s == s[..i] + [sep] + s[i + 1..];
      Some((s[..i], s[i + 1..]))
  }

  /** The split is unique: joining a separator-free head and any tail around
      `sep` and splitting again gives the two parts back. */
  lemma SplitAtFirstJoin(head: string, sep: char, tail: string)
    requires sep !in head
    ensures SplitAtFirst(head + [sep] + tail, sep) == Some((head, tail))
  {
    var s := head + [sep] + tail;
    var r := SplitAtFirst(s, sep);
    assert s[|head|] == sep;
    assert r.value.0 == head;
    assert r.value.1 == s[|head| + 1..] == tail;
  }
}
