/**
 Line framing on the read side: every line read up to and including its
 newline is trimmed of surrounding white space, and then of any trailing
 newlines, before it is decoded.
 */
module Framing {

  /** The characters with the Unicode White_Space property, which Rust's `char::is_whitespace` accepts. */
  predicate IsWhitespace(c: char)
  {
    || ('\U{9}' <= c <= '\U{D}')
    || c == ' '
    || c == '\U{85}'
    || c == '\U{A0}'
    || c == '\U{1680}'
    || ('\U{2000}' <= c <= '\U{200A}')
    || c == '\U{2028}'
    || c == '\U{2029}'
    || c == '\U{202F}'
    || c == '\U{205F}'
    || c == '\U{3000}'
  }

  /** Drops leading white space: the result is the suffix of `s` after the longest white-space prefix. */
  function TrimStart(s: string): (r: string)
    ensures |r| <= |s| && r == s[|s| - |r|..]
    ensures r == [] || !IsWhitespace(r[0])
    ensures forall k :: 0 <= k < |s| - |r| ==> IsWhitespace(s[k])
  {
    if s != [] && IsWhitespace(s[0]) then TrimStart(s[1..]) else s
  }

  /** Drops trailing white space: the result is the prefix of `s` before the longest white-space suffix. */
  function TrimEnd(s: string): (r: string)
    ensures |r| <= |s| && r == s[..|r|]
    ensures r == [] || !IsWhitespace(r[|r| - 1])
    ensures forall k :: |r| <= k < |s| ==> IsWhitespace(s[k])
  {
    if s != [] && IsWhitespace(s[|s| - 1]) then TrimEnd(s[..|s| - 1]) else s
  }

  /** Rust's `str::trim`. */
  function Trim(s: string): (r: string)
    ensures r == [] || (!IsWhitespace(r[0]) && !IsWhitespace(r[|r| - 1]))
  {
    TrimEnd(TrimStart(s))
  }

  /** Rust's `str::trim_end_matches('\n')`: drops every trailing newline. */
  function TrimEndNewlines(s: string): (r: string)
    ensures |r| <= |s| && r == s[..|r|]
    ensures r == [] || r[|r| - 1] != '\n'
    ensures forall k :: |r| <= k < |s| ==> s[k] == '\n'
  {
    if s != [] && s[|s| - 1] == '\n' then TrimEndNewlines(s[..|s| - 1]) else s
  }

  /** The text handed to the decoder for one line read from the socket. */
  function FrameText(line: string): (r: string)
    ensures |r| <= |line|
    ensures r == [] || (!IsWhitespace(r[0]) && !IsWhitespace(r[|r| - 1]))
  {
    TrimEndNewlines(Trim(line))
  }

  /** The trimmed text is a contiguous piece of the line with only white space cut on either side. */
  lemma TrimIsSlice(s: string)
    ensures exists i, j ::
              && 0 <= i <= j <= |s| && Trim(s) == s[i..j]
              && (forall k :: 0 <= k < i ==> IsWhitespace(s[k]))
              && (forall k :: j <= k < |s| ==> IsWhitespace(s[k]))
  {
    var i, j := TrimBounds(s);
  }

  /** Where the trimmed text lies in `s`: after `i` white-space characters and before `|s| - j` of them. */
  lemma TrimBounds(s: string) returns (i: nat, j: nat)
    ensures 0 <= i <= j <= |s| && Trim(s) == s[i..j]
    ensures forall k :: 0 <= k < i ==> IsWhitespace(s[k])
    ensures forall k :: j <= k < |s| ==> IsWhitespace(s[k])
  {
    var t := TrimStart(s);
    var e := TrimEnd(t);
    i := |s| - |t|;
    j := i + |e|;
    assert t == s[i..] && e == t[..|e|];
    forall k | j <= k < |s| ensures IsWhitespace(s[k]) {
      assert s[k] == t[k - i];
    }
  }

  /** Trimming twice is trimming once. */
  lemma TrimIdempotent(s: string)
    ensures Trim(Trim(s)) == Trim(s)
  {
  }

  /** Since a newline is white space, the `trim_end_matches('\n')` after `trim` never removes anything. */
  lemma FrameTextIsTrim(line: string)
    ensures FrameText(line) == Trim(line)
  {
    var t := Trim(line);
    assert IsWhitespace('\n');
    if t != [] {
      assert t[|t| - 1] != '\n';
    }
  }

  /** White space added around a line does not change what is decoded. */
  lemma {:induction false} FramePadding(pre: string, line: string, post: string)
    requires forall k :: 0 <= k < |pre| ==> IsWhitespace(pre[k])
    requires forall k :: 0 <= k < |post| ==> IsWhitespace(post[k])
    ensures FrameText(pre + line + post) == FrameText(line)
  {
    FrameTextIsTrim(pre + line + post);
    FrameTextIsTrim(line);
    assert pre + line + post == pre + (line + post);
    TrimStartPrefix(pre, line + post);
    TrimStartAppend(line, post);
    if TrimStart(line) != [] {
      TrimEndAppend(TrimStart(line), post);
    }
  }

  lemma {:induction false} AllWhitespaceTrimStart(s: string)
    requires forall k :: 0 <= k < |s| ==> IsWhitespace(s[k])
    ensures TrimStart(s) == []
    decreases |s|
  {
    if s != [] {
      AllWhitespaceTrimStart(s[1..]);
    }
  }

  lemma {:induction false} TrimStartPrefix(pre: string, s: string)
    requires forall k :: 0 <= k < |pre| ==> IsWhitespace(pre[k])
    ensures TrimStart(pre + s) == TrimStart(s)
    decreases |pre|
  {
    if pre != [] {
      assert (pre + s)[1..] == pre[1..] + s;
      TrimStartPrefix(pre[1..], s);
    } else {
      assert pre + s == s;
    }
  }

  lemma {:induction false} TrimStartAppend(s: string, post: string)
    requires forall k :: 0 <= k < |post| ==> IsWhitespace(post[k])
    ensures TrimStart(s) == [] ==> TrimStart(s + post) == []
    ensures TrimStart(s) != [] ==> TrimStart(s + post) == TrimStart(s) + post
    decreases |s|
  {
    if s == [] {
      assert s + post == post;
      AllWhitespaceTrimStart(post);
    } else if IsWhitespace(s[0]) {
      assert (s + post)[1..] == s[1..] + post;
      TrimStartAppend(s[1..], post);
    }
  }

  lemma {:induction false} TrimEndAppend(s: string, post: string)
    requires forall k :: 0 <= k < |post| ==> IsWhitespace(post[k])
    ensures TrimEnd(s + post) == TrimEnd(s)
    decreases |post|
  {
    if post == [] {
      assert s + post == s;
    } else {
      var p := post[..|post| - 1];
      assert (s + post)[..|s + post| - 1] == s + p;
      TrimEndAppend(s, p);
    }
  }
}
