/**
 * The PHP string built-ins the SSO client relies on. A PHP string is a byte
 * string; here each `char` stands for one byte (see `IsByteString`).
 */
module Php {
  import opened Common

  /** Every char is a byte value, as in every PHP string. */
  predicate IsByteString(s: string) {
    forall i :: 0 <= i < |s| ==> s[i] as int < 256
  }

  // ---------------------------------------------------------------------------
  // explode / implode
  // ---------------------------------------------------------------------------

  /** `implode(sep, pieces)`. */
  function Implode(sep: char, pieces: seq<string>): string
    decreases |pieces|
  {
    if |pieces| == 0 then ""
    else if |pieces| == 1 then pieces[0]
    else pieces[0] + [sep] + Implode(sep, pieces[1..])
  }

  /** `explode(sep, s)`: the pieces of `s` between occurrences of `sep`; never empty. */
  function Explode(sep: char, s: string): (pieces: seq<string>)
    ensures |pieces| >= 1
    ensures forall i :: 0 <= i < |pieces| ==> sep !in pieces[i]
    decreases |s|
  {
    if |s| == 0 then [""]
    else
      var rest := Explode(sep, s[1..]);
      if s[0] == sep then [""] + rest
      else [[s[0]] + rest[0]] + rest[1..]
  }

  /** A string without the separator is a single piece. */
  lemma {:induction false} ExplodeWithoutSeparator(sep: char, s: string)
    requires sep !in s
    ensures Explode(sep, s) == [s]
    decreases |s|
  {
    if |s| > 0 {
      ExplodeWithoutSeparator(sep, s[1..]);
      assert [s[0]] + s[1..] == s;
    }
  }

  /** Exploding `a + sep + b` gives the pieces of `a` followed by the pieces of `b`. */
  lemma {:induction false} ExplodeConcat(sep: char, a: string, b: string)
    ensures Explode(sep, a + [sep] + b) == Explode(sep, a) + Explode(sep, b)
    decreases |a|
  {
    var s := a + [sep] + b;
    var pb := Explode(sep, b);
    if |a| == 0 {
      assert s[0] == sep && s[1..] == b;
    } else {
      var restA := Explode(sep, a[1..]);
      assert Explode(sep, s[1..]) == restA + pb by {
        assert s[1..] == a[1..] + [sep] + b;
        ExplodeConcat(sep, a[1..], b);
      }
      if a[0] != sep {
        PrependToFirst([a[0]], restA, pb);
      }
    }
  }

  /** Gluing a prefix onto the first piece commutes with appending more pieces. */
  lemma PrependToFirst(c: string, p: seq<string>, q: seq<string>)
    requires |p| >= 1
    ensures [c + (p + q)[0]] + (p + q)[1..] == ([c + p[0]] + p[1..]) + q
  {
    assert (p + q)[1..] == p[1..] + q;
  }

  /** Joining the pieces again gives back the exploded string. */
  lemma {:induction false} ImplodeExplode(sep: char, s: string)
    ensures Implode(sep, Explode(sep, s)) == s
    decreases |s|
  {
    if |s| > 0 {
      ImplodeExplode(sep, s[1..]);
      var rest := Explode(sep, s[1..]);
      if s[0] == sep {
        assert ([""] + rest)[1..] == rest;
      } else if |rest| > 1 {
        var pieces := [[s[0]] + rest[0]] + rest[1..];
        assert pieces[1..] == rest[1..];
      }
      assert [s[0]] + s[1..] == s;
    }
  }

  /** Exploding a join of separator-free pieces gives back the pieces. */
  lemma {:induction false} ExplodeImplode(sep: char, pieces: seq<string>)
    requires |pieces| >= 1
    requires forall i :: 0 <= i < |pieces| ==> sep !in pieces[i]
    ensures Explode(sep, Implode(sep, pieces)) == pieces
    decreases |pieces|
  {
    if |pieces| == 1 {
      ExplodeWithoutSeparator(sep, pieces[0]);
    } else {
      ExplodeImplode(sep, pieces[1..]);
      ExplodeConcat(sep, pieces[0], Implode(sep, pieces[1..]));
      ExplodeWithoutSeparator(sep, pieces[0]);
      assert [pieces[0]] + pieces[1..] == pieces;
    }
  }

  // ---------------------------------------------------------------------------
  // trim
  // ---------------------------------------------------------------------------

  /** The bytes `trim` strips by default: space, tab, LF, CR, NUL and vertical tab. */
  predicate IsTrimChar(c: char) {
    c == ' ' || c == '\t' || c == '\n' || c == '\r' || c == '\0' || c as int == 0x0B
  }

  /** The first offset at or after `i` that does not hold whitespace (or the end of `s`). */
  function TrimStart(s: string, i: nat): (a: nat)
    requires i <= |s|
    ensures i <= a <= |s|
    ensures forall k :: i <= k < a ==> IsTrimChar(s[k])
    ensures a == |s| || !IsTrimChar(s[a])
    decreases |s| - i
  {
    if i < |s| && IsTrimChar(s[i]) then TrimStart(s, i + 1) else i
  }

  /** The end of `s[lo..j]` once its trailing whitespace is cut off. */
  function TrimEnd(s: string, lo: nat, j: nat): (b: nat)
    requires lo <= j <= |s|
    ensures lo <= b <= j
    ensures forall k :: b <= k < j ==> IsTrimChar(s[k])
    ensures b == lo || !IsTrimChar(s[b - 1])
    decreases j
  {
    if j > lo && IsTrimChar(s[j - 1]) then TrimEnd(s, lo, j - 1) else j
  }

  /** `r` is the slice of `s` at offset `i`, with only whitespace before and after it. */
  predicate IsTrimmedAt(s: string, r: string, i: nat) {
    && i + |r| <= |s|
    && r == s[i..i + |r|]
    && (forall k :: 0 <= k < i ==> IsTrimChar(s[k]))
    && (forall k :: i + |r| <= k < |s| ==> IsTrimChar(s[k]))
  }

  /**
   * `trim(s)`: `s` with its run of leading and its run of trailing whitespace
   * removed; what remains neither starts nor ends with whitespace.
   */
  function Trim(s: string): (r: string)
    ensures r == [] || (!IsTrimChar(r[0]) && !IsTrimChar(r[|r| - 1]))
  {
    var a := TrimStart(s, 0);
    s[a..TrimEnd(s, a, |s|)]
  }

  /** The trim is a slice of `s` with nothing but whitespace around it. */
  lemma TrimSlice(s: string)
    ensures exists i :: IsTrimmedAt(s, Trim(s), i)
  {
    assert IsTrimmedAt(s, Trim(s), TrimStart(s, 0));
  }

  /** Trimming keeps only chars of the input. */
  lemma TrimKeepsChars(s: string, c: char)
    requires c in Trim(s)
    ensures c in s
  {
    TrimSlice(s);
    var i: nat :| IsTrimmedAt(s, Trim(s), i);
    var m :| 0 <= m < |Trim(s)| && Trim(s)[m] == c;
    assert Trim(s)[m] == s[i + m];
  }

  /** A string that neither starts nor ends with whitespace is its own trim. */
  lemma TrimUnchanged(s: string)
    requires s == [] || (!IsTrimChar(s[0]) && !IsTrimChar(s[|s| - 1]))
    ensures Trim(s) == s
  {
  }

  /** Whitespace before the text is skipped up to the text's first char. */
  lemma TrimStartOfPadded(s: string, pre: nat, i: nat)
    requires i <= pre < |s| && !IsTrimChar(s[pre])
    requires forall k :: 0 <= k < pre ==> IsTrimChar(s[k])
    ensures TrimStart(s, i) == pre
    decreases pre - i
  {
    if i < pre {
      TrimStartOfPadded(s, pre, i + 1);
    }
  }

  /** Whitespace after the text is cut back to the text's last char. */
  lemma TrimEndOfPadded(s: string, lo: nat, end: nat, j: nat)
    requires lo < end <= j <= |s| && !IsTrimChar(s[end - 1])
    requires forall k :: end <= k < |s| ==> IsTrimChar(s[k])
    ensures TrimEnd(s, lo, j) == end
    decreases j
  {
    if j > end {
      TrimEndOfPadded(s, lo, end, j - 1);
    }
  }

  /** Trimming a text padded with whitespace on both sides gives the text. */
  lemma TrimPadded(pre: string, m: string, post: string)
    requires forall k :: 0 <= k < |pre| ==> IsTrimChar(pre[k])
    requires forall k :: 0 <= k < |post| ==> IsTrimChar(post[k])
    requires m != [] && !IsTrimChar(m[0]) && !IsTrimChar(m[|m| - 1])
    ensures Trim(pre + m + post) == m
  {
    var s := pre + m + post;
    var end := |pre| + |m|;
    assert s[|pre|] == m[0] && s[end - 1] == m[|m| - 1];
    assert forall k :: 0 <= k < |pre| ==> s[k] == pre[k];
    assert forall k :: end <= k < |s| ==> s[k] == post[k - end];
    TrimStartOfPadded(s, |pre|, 0);
    TrimEndOfPadded(s, |pre|, end, |s|);
    assert s[|pre|..end] == m;
  }

  // ---------------------------------------------------------------------------
  // explode(sep, s, 2)
  // ---------------------------------------------------------------------------

  /**
   * `explode(sep, s, 2)`: None when `sep` does not occur (a single piece), else
   * the text before the first `sep` and the whole remainder after it.
   */
  function SplitFirst(s: string, sep: char): (r: Option<(string, string)>)
    ensures r.None? <==> sep !in s
    ensures r.Some? ==> sep !in r.value.0 && s == r.value.0 + [sep] + r.value.1
    decreases |s|
  {
    if |s| == 0 then None
    else if s[0] == sep then Some(("", s[1..]))
    else
      match SplitFirst(s[1..], sep)
      case None => None
      case Some(kv) => Some(([s[0]] + kv.0, kv.1))
  }

  /** The split is at the first separator: any later separator stays in the remainder. */
  lemma {:induction false} SplitFirstAt(s: string, sep: char, before: string, after: string)
    requires sep !in before && s == before + [sep] + after
    ensures SplitFirst(s, sep) == Some((before, after))
    decreases |before|
  {
    if before != [] {
      assert s[1..] == before[1..] + [sep] + after;
      SplitFirstAt(s[1..], sep, before[1..], after);
      assert [before[0]] + before[1..] == before;
    } else {
      assert s[1..] == after;
    }
  }

  // ---------------------------------------------------------------------------
  // strpos
  // ---------------------------------------------------------------------------

  /** `needle` occurs in `haystack` at offset `j`. */
  predicate OccursAt(haystack: string, needle: string, j: nat) {
    j + |needle| <= |haystack| && haystack[j..j + |needle|] == needle
  }

  /**
   * `strpos(haystack, needle)`: the first offset at which `needle` occurs in
   * `haystack` (an empty needle occurs at 0, as in PHP 8), or None for `false`.
   */

  function StrPos(haystack: string, needle: string): (r: Option<nat>)
    ensures r.Some? ==> OccursAt(haystack, needle, r.value)
    ensures r.Some? ==> forall j: nat :: j < r.value ==> !OccursAt(haystack, needle, j)
    ensures r.None? ==> forall j: nat :: !OccursAt(haystack, needle, j)
  {
    StrPosFrom(haystack, needle, 0)
  }

  function StrPosFrom(haystack: string, needle: string, from: nat): (r: Option<nat>)
    ensures r.Some? ==> from <= r.value && OccursAt(haystack, needle, r.value)
    ensures r.Some? ==> forall j: nat :: from <= j < r.value ==> !OccursAt(haystack, needle, j)
    ensures r.None? ==> forall j: nat :: from <= j ==> !OccursAt(haystack, needle, j)
    decreases |haystack| - from
  {
    if from + |needle| > |haystack| then None
    else if haystack[from..from + |needle|] == needle then Some(from)
    else
      assert needle != [];
      StrPosFrom(haystack, needle, from + 1)
  }

  // ---------------------------------------------------------------------------
  // strtok
  // ---------------------------------------------------------------------------

  /** The text of `s` before its first `delim` (all of `s` if there is none). */
  function TokenOf(s: string, delim: char): (r: string)
    ensures |r| <= |s| && r == s[..|r|] && delim !in r
    ensures |r| < |s| ==> s[|r|] == delim
    decreases |s|
  {
    if |s| == 0 || s[0] == delim then "" else [s[0]] + TokenOf(s[1..], delim)
  }

  /**
   * `strtok(s, delim)` on a fresh string: leading delimiters are skipped and
   * the text up to the next delimiter is returned; None stands for `false`
   * when nothing but delimiters remains.
   */
  function StrTok(s: string, delim: char): (r: Option<string>)
    ensures r.None? <==> forall i :: 0 <= i < |s| ==> s[i] == delim
    ensures r.Some? ==> r.value != "" && delim !in r.value
    ensures |s| > 0 && s[0] != delim ==> r == Some(TokenOf(s, delim))
    decreases |s|
  {
    if |s| == 0 then None
    else if s[0] == delim then StrTok(s[1..], delim)
    else Some(TokenOf(s, delim))
  }

  // ---------------------------------------------------------------------------
  // dirname
  // ---------------------------------------------------------------------------

  /** `s` without its trailing run of `c`. */
  function DropTrailing(s: string, c: char): (r: string)
    ensures |r| <= |s| && r == s[..|r|] && (r == [] || r[|r| - 1] != c)
    ensures forall i :: |r| <= i < |s| ==> s[i] == c
    decreases |s|
  {
    if |s| > 0 && s[|s| - 1] == c then DropTrailing(s[..|s| - 1], c) else s
  }

  /** `s` without its trailing run of chars other than `c`. */
  function DropTrailingOthers(s: string, c: char): (r: string)
    ensures |r| <= |s| && r == s[..|r|] && (r == [] || r[|r| - 1] == c)
    ensures forall i :: |r| <= i < |s| ==> s[i] != c
    decreases |s|
  {
    if |s| > 0 && s[|s| - 1] != c then DropTrailingOthers(s[..|s| - 1], c) else s
  }

  /** Every char of `s[i..j]` is a `/`. */
  predicate SlashesAt(s: string, i: nat, j: nat)
    requires i <= j <= |s|
  {
    forall k :: i <= k < j ==> s[k] == '/'
  }

  /** No char of `s[i..j]` is a `/`. */
  predicate SegmentAt(s: string, i: nat, j: nat)
    requires i <= j <= |s|
  {
    forall k :: i <= k < j ==> s[k] != '/'
  }

  /**
   * `dirname(path)` on a POSIX system: trailing slashes are stripped, then the
   * last segment, then the slashes before it. "" stays "", a path of one
   * segment without a root gives ".", and a rooted path of at most one
   * segment gives "/". Otherwise the result is a prefix of `path` followed
   * by slashes, the last (non-empty) segment and nothing but trailing
   * slashes (for "./x" that prefix is ".").
   */
  function Dirname(path: string): (r: string)
    ensures r == "" <==> path == ""
    ensures path != "" && '/' !in path ==> r == "."
    ensures path != "" && path[0] == '/' ==> r != "" && r[0] == '/'
    ensures r == "" || r == "." || r == "/" || (0 < |r| < |path| && r == path[..|r|] && r[|r| - 1] != '/' && path[|r|] == '/')
    ensures r != "" && r != "." && r != "/" ==>
      exists a, b :: |r| < a < b <= |path| && SlashesAt(path, |r|, a) && SegmentAt(path, a, b) && SlashesAt(path, b, |path|)
    ensures r == "/" ==>
      && path != "" && path[0] == '/'
      && exists a, b :: 0 < a <= b <= |path| && SlashesAt(path, 0, a) && SegmentAt(path, a, b) && SlashesAt(path, b, |path|)
    ensures r == "." ==>
      || (exists b :: 0 < b <= |path| && SegmentAt(path, 0, b) && SlashesAt(path, b, |path|))
      || (1 < |path| && path[0] == '.' &&
          exists a, b :: 1 < a < b <= |path| && SlashesAt(path, 1, a) && SegmentAt(path, a, b) && SlashesAt(path, b, |path|))
  {
    if path == "" then ""
    else
      var stripped := DropTrailing(path, '/');
      assert SlashesAt(path, |stripped|, |path|);
      if stripped == "" then
        assert SegmentAt(path, |path|, |path|) && SlashesAt(path, 0, |path|);
        "/"
      else
        var parent := DropTrailingOthers(stripped, '/');
        assert SegmentAt(path, |parent|, |stripped|) by {
          forall k | |parent| <= k < |stripped| ensures path[k] != '/' {
            assert path[k] == stripped[k];
          }
        }
        if parent == "" then
          "."
        else
          var dir := DropTrailing(parent, '/');
          assert stripped[|stripped| - 1] != '/' && parent[|parent| - 1] == '/';
          assert |parent| < |stripped|;
          assert SlashesAt(path, |dir|, |parent|) by {
            forall k | |dir| <= k < |parent| ensures path[k] == '/' {
              assert path[k] == parent[k];
            }
          }
          if dir == "" then
            "/"
          else
            assert path[|dir|] == parent[|dir|];
            assert |dir| < |parent|;
            dir
  }

  /**
   * The directory of a rooted path that does not end in `/`, with a `/`
   * appended, is the path up to its last segment: a run of slashes and that
   * segment follow it. When `dirname` gives "/" instead, the path is a run of
   * slashes and one segment.
   */
  lemma DirnameOfRootedFile(path: string)
    requires path != "" && path[0] == '/' && path[|path| - 1] != '/'
    ensures var d := Dirname(path) + "/";
      d != "//" ==>
        && |d| < |path| && d == path[..|d|]
        && exists a :: |d| <= a < |path| && SlashesAt(path, |d|, a) && SegmentAt(path, a, |path|)
    ensures Dirname(path) == "/" ==> exists a :: 0 < a < |path| && SlashesAt(path, 0, a) && SegmentAt(path, a, |path|)
  {
    var r := Dirname(path);
    if r != "/" {
      assert r + "/" == path[..|r| + 1];
      var a, b :| |r| < a < b <= |path| && SlashesAt(path, |r|, a) && SegmentAt(path, a, b) && SlashesAt(path, b, |path|);
      assert b == |path|;
      assert SlashesAt(path, |r| + 1, a);
    } else {
      var a, b :| 0 < a <= b <= |path| && SlashesAt(path, 0, a) && SegmentAt(path, a, b) && SlashesAt(path, b, |path|);
      assert b == |path|;
    }
  }

  /** "/a/b/c" loses exactly its last segment. */
  lemma DirnameOfNestedPath()
    ensures Dirname("/a/b/c") == "/a/b"
  {
    assert DropTrailing("/a/b/c", '/') == "/a/b/c";
    assert DropTrailingOthers("/a/b/", '/') == "/a/b/";
    assert DropTrailingOthers("/a/b/c", '/') == "/a/b/";
    assert DropTrailing("/a/b", '/') == "/a/b";
    assert DropTrailing("/a/b/", '/') == "/a/b";
  }

  // ---------------------------------------------------------------------------
  // strtoupper
  // ---------------------------------------------------------------------------

  /** ASCII upper case of one byte (`strtoupper` is locale-independent from PHP 8.2 on). */
  function UpperChar(c: char): char {
    if 'a' <= c <= 'z' then (c as int - 32) as char else c
  }

  /** `strtoupper(s)`: every ASCII lower-case letter replaced by its capital, nothing else touched. */
  function StrToUpper(s: string): (r: string)
    ensures |r| == |s|
    ensures forall i :: 0 <= i < |s| ==> !('a' <= r[i] <= 'z')
    ensures forall i :: 0 <= i < |s| && !('a' <= s[i] <= 'z') ==> r[i] == s[i]
    ensures forall i :: 0 <= i < |s| && 'a' <= s[i] <= 'z' ==> r[i] as int == s[i] as int - 32
    decreases |s|
  {
    if |s| == 0 then "" else [UpperChar(s[0])] + StrToUpper(s[1..])
  }

  // ---------------------------------------------------------------------------
  // in_array
  // ---------------------------------------------------------------------------

  /** `in_array(needle, haystack)`, compared as strings: a scan from the front. */
  function InArray(needle: string, haystack: seq<string>): (r: bool)
    ensures r <==> needle in haystack
    decreases |haystack|
  {
    if |haystack| == 0 then false
    else haystack[0] == needle || InArray(needle, haystack[1..])
  }
}
