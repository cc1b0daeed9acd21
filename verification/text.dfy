/**
  String helpers the event parser relies on: `str::trim` and
  `str::split_once`, over strings of Unicode scalar values.
 */
module Text {
  import opened Wrappers

  /** Rust's `char::is_whitespace`: the characters carrying the Unicode
      White_Space property. */
  predicate IsWhitespace(c: char) {
    || ('\t' <= c <= '\r')
    || c == ' '
    || c == '\U{85}'
    || c == '\U{A0}'
    || c == '\U{1680}'
    || ('\U{2000}' <= c <= '\U{200A}')
    || c == '\U{2028}'
    || c == '\U{2029}'
    || c == '\U{202F}'
    || c == '\U{205F}'
    || c == '\U{3000}'
  }

  ghost predicate AllWhitespace(s: string) {
    forall i | 0 <= i < |s| :: IsWhitespace(s[i])
  }

  /** Neither starts nor ends with whitespace. */
  ghost predicate IsTrimmed(s: string) {
    s == [] || (!IsWhitespace(s[0]) && !IsWhitespace(s[|s| - 1]))
  }

  /** Does not end with whitespace (the empty string qualifies). */
  ghost predicate EndsClean(s: string) {
    s == [] || !IsWhitespace(s[|s| - 1])
  }

  function TrimStart(s: string): string {
    if |s| > 0 && IsWhitespace(s[0]) then TrimStart(s[1..]) else s
  }

  function TrimEnd(s: string): string {
    if |s| > 0 && IsWhitespace(s[|s| - 1]) then TrimEnd(s[..|s| - 1]) else s
  }

  /** `TrimStart` drops the longest all-whitespace prefix. */
  lemma {:induction false} TrimStartSpec(s: string)
    ensures |TrimStart(s)| <= |s| && TrimStart(s) == s[|s| - |TrimStart(s)|..]
    ensures AllWhitespace(s[..|s| - |TrimStart(s)|])
    ensures TrimStart(s) == [] || !IsWhitespace(TrimStart(s)[0])
    decreases |s|
  {
    if |s| > 0 && IsWhitespace(s[0]) {
      TrimStartSpec(s[1..]);
    }
  }

  /** `TrimEnd` drops the longest all-whitespace suffix. */
  lemma {:induction false} TrimEndSpec(s: string)
    ensures |TrimEnd(s)| <= |s| && TrimEnd(s) == s[..|TrimEnd(s)|]
    ensures AllWhitespace(s[|TrimEnd(s)|..])
    ensures EndsClean(TrimEnd(s))
    decreases |s|
  {
    if |s| > 0 && IsWhitespace(s[|s| - 1]) {
      var init := s[..|s| - 1];
      TrimEndSpec(init);
      var n := |TrimEnd(init)|;
      assert s[n..] == init[n..] + [s[|s| - 1]];
      assert s[..n] == init[..n];
    }
  }

  /** `str::trim`: the slice of `s` left after removing whitespace at both ends. */
  function Trim(s: string): (r: string)
    ensures IsTrimmed(r)
  {
    TrimStartSpec(s);
    TrimEndSpec(TrimStart(s));
    TrimEnd(TrimStart(s))
  }

  /** What `Trim` removes is whitespace, on both sides of a contiguous slice. */
  lemma TrimSlice(s: string)
    ensures exists i | 0 <= i <= |s| - |Trim(s)| ::
              && Trim(s) == s[i..i + |Trim(s)|]
              && AllWhitespace(s[..i])
              && AllWhitespace(s[i + |Trim(s)|..])
  {
    TrimStartSpec(s);
    var t := TrimStart(s);
    TrimEndSpec(t);
    var r := TrimEnd(t);
    var i := |s| - |t|;
    assert t == s[i..];
    assert r == s[i..i + |r|];
    assert s[i + |r|..] == t[|r|..];
  }

  lemma TrimOfTrimmed(s: string)
    requires IsTrimmed(s)
    ensures Trim(s) == s
  {
  }

  lemma {:induction false} TrimStartWhitespacePrefix(pre: string, s: string)
    requires AllWhitespace(pre)
    ensures TrimStart(pre + s) == TrimStart(s)
    decreases |pre|
  {
    if pre != [] {
      assert (pre + s)[1..] == pre[1..] + s;
      TrimStartWhitespacePrefix(pre[1..], s);
    } else {
      assert pre + s == s;
    }
  }

  lemma {:induction false} TrimEndWhitespaceSuffix(s: string, post: string)
    requires AllWhitespace(post)
    ensures TrimEnd(s + post) == TrimEnd(s)
    decreases |post|
  {
    if post != [] {
      var n := |s + post|;
      assert (s + post)[..n - 1] == s + post[..|post| - 1];
      TrimEndWhitespaceSuffix(s, post[..|post| - 1]);
    } else {
      assert s + post == s;
    }
  }

  /** Trimming the front of `s + post` only looks into `post` when `s` is all whitespace. */
  lemma {:induction false} TrimStartAppend(s: string, post: string)
    requires AllWhitespace(post)
    ensures TrimStart(s) != [] ==> TrimStart(s + post) == TrimStart(s) + post
    ensures TrimStart(s) == [] ==> TrimStart(s + post) == []
    decreases |s|
  {
    if s == [] {
      assert s + post == post;
      TrimStartWhitespacePrefix(post, []);
      assert post + [] == post;
    } else if IsWhitespace(s[0]) {
      assert (s + post)[1..] == s[1..] + post;
      TrimStartAppend(s[1..], post);
    }
  }

  lemma TrimStartSurrounding(pre: string, s: string, post: string)
    requires AllWhitespace(pre) && AllWhitespace(post)
    ensures TrimStart(pre + s + post) == TrimStart(s + post)
  {
    assert pre + s + post == pre + (s + post);
    TrimStartWhitespacePrefix(pre, s + post);
  }

  /** Whitespace around a line does not change what `Trim` returns. */
  lemma TrimSurrounding(pre: string, s: string, post: string)
    requires AllWhitespace(pre) && AllWhitespace(post)
    ensures Trim(pre + s + post) == Trim(s)
  {
    TrimStartSurrounding(pre, s, post);
    TrimStartAppend(s, post);
    if TrimStart(s) != [] {
      TrimEndWhitespaceSuffix(TrimStart(s), post);
    }
  }

  /** `Trim` is the unique slice with whitespace-only margins that is itself trimmed. */
  lemma TrimUnique(s: string, i: nat, j: nat)
    requires i <= j <= |s|
    requires IsTrimmed(s[i..j])
    requires AllWhitespace(s[..i]) && AllWhitespace(s[j..])
    ensures Trim(s) == s[i..j]
  {
    assert s == s[..i] + s[i..j] + s[j..];
    TrimSurrounding(s[..i], s[i..j], s[j..]);
  }

  lemma TrimIdempotent(s: string)
    ensures Trim(Trim(s)) == Trim(s)
  {
    TrimOfTrimmed(Trim(s));
  }

  // ---------------------------------------------------------------------
  // split_once

  /** `sep` occurs in `s` starting at index `i`. */
  predicate OccursAt(s: string, sep: string, i: int) {
    0 <= i && i + |sep| <= |s| && s[i..i + |sep|] == sep
  }

  ghost predicate Contains(s: string, sep: string) {
    exists i | 0 <= i <= |s| :: OccursAt(s, sep, i)
  }

  /** `s` is `head + sep + tail` and `sep` starts nowhere before `|head|`. */
  ghost predicate IsFirstSplit(s: string, sep: string, head: string, tail: string) {
    && s == head + sep + tail
    && forall i | 0 <= i < |head| :: !OccursAt(s, sep, i)
  }

  /** The leftmost index at or after `from` where `sep` occurs. */
  function FindFrom(s: string, sep: string, from: nat): (r: Option<nat>)
    requires from <= |s|
    ensures r.Some? ==> from <= r.value && OccursAt(s, sep, r.value)
    decreases |s| - from
  {
    if OccursAt(s, sep, from) then Some(from)
    else if from == |s| then None
    else FindFrom(s, sep, from + 1)
  }

  lemma {:induction false} FindFromSpec(s: string, sep: string, from: nat)
    requires from <= |s|
    ensures FindFrom(s, sep, from).Some? ==>
              && from <= FindFrom(s, sep, from).value <= |s|
              && OccursAt(s, sep, FindFrom(s, sep, from).value)
              && forall i | from <= i < FindFrom(s, sep, from).value :: !OccursAt(s, sep, i)
    ensures FindFrom(s, sep, from).None? ==> forall i | from <= i <= |s| :: !OccursAt(s, sep, i)
    decreases |s| - from
  {
    if !OccursAt(s, sep, from) && from < |s| {
      FindFromSpec(s, sep, from + 1);
    }
  }

  /** `str::split_once`: split around the first occurrence of `sep`. */
  function SplitOnce(s: string, sep: string): Option<(string, string)> {
    match FindFrom(s, sep, 0)
    case None => None
    case Some(i) => Some((s[..i], s[i + |sep|..]))
  }

  /** `SplitOnce` splits at the first occurrence, and fails only when there is none. */
  lemma SplitOnceSpec(s: string, sep: string)
    ensures SplitOnce(s, sep).Some? ==> IsFirstSplit(s, sep, SplitOnce(s, sep).value.0, SplitOnce(s, sep).value.1)
    ensures SplitOnce(s, sep).None? <==> !Contains(s, sep)
  {
    FindFromSpec(s, sep, 0);
    var r := FindFrom(s, sep, 0);
    if r.Some? {
      var i := r.value;
      assert s == s[..i] + s[i..i + |sep|] + s[i + |sep|..];
      assert Contains(s, sep);
    }
  }

  /** A first split is exactly what `SplitOnce` returns. */
  lemma SplitOnceUnique(s: string, sep: string, head: string, tail: string)
    requires IsFirstSplit(s, sep, head, tail)
    ensures SplitOnce(s, sep) == Some((head, tail))
  {
    assert s[|head|..|head| + |sep|] == sep;
    assert OccursAt(s, sep, |head|);
    SplitOnceSpec(s, sep);
    FindFromSpec(s, sep, 0);
    var i := FindFrom(s, sep, 0).value;
    assert i == |head|;
    assert s[..i] == head;
    assert s[i + |sep|..] == tail;
  }

  /** With a one-character separator a first split is a split whose head lacks it. */
  lemma CharSplit(s: string, c: char, head: string, tail: string)
    ensures IsFirstSplit(s, [c], head, tail) <==> (s == head + [c] + tail && c !in head)
  {
    if s == head + [c] + tail {
      forall i | 0 <= i < |head|
        ensures OccursAt(s, [c], i) <==> head[i] == c
      {
        assert s[i..i + 1] == [s[i]];
      }
      if c in head {
        var k :| 0 <= k < |head| && head[k] == c;
        assert OccursAt(s, [c], k);
      }
    }
  }

  /** The two halves of a split at a character, and when there are none. */
  lemma CharSplitOnce(s: string, c: char)
    ensures SplitOnce(s, [c]).Some? ==>
              && s == SplitOnce(s, [c]).value.0 + [c] + SplitOnce(s, [c]).value.1
              && c !in SplitOnce(s, [c]).value.0
    ensures SplitOnce(s, [c]).None? <==> c !in s
  {
    SplitOnceSpec(s, [c]);
    CharSplitNone(s, c);
    if SplitOnce(s, [c]).Some? {
      CharSplit(s, c, SplitOnce(s, [c]).value.0, SplitOnce(s, [c]).value.1);
    }
  }

  /** Splitting at a character fails exactly when the character is absent. */
  lemma CharSplitNone(s: string, c: char)
    ensures SplitOnce(s, [c]).None? <==> c !in s
  {
    SplitOnceSpec(s, [c]);
    if c in s {
      var k :| 0 <= k < |s| && s[k] == c;
      assert s[k..k + 1] == [c];
      assert OccursAt(s, [c], k);
    } else {
      forall i | 0 <= i <= |s|
        ensures !OccursAt(s, [c], i)
      {
        if i < |s| {
          assert s[i..i + 1] == [s[i]];
        }
      }
    }
  }
}
