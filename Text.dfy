/**
 * The pieces of Python's `str` behaviour that the service relies on:
 * `strip()`, `split(sep)`, `sep.join(...)`, the substring test `m in s`,
 * the text after the first or last separator, and ASCII `lower()`.
 * Strings are sequences of Unicode scalar values, as Python's `str` is.
 */
module Text {
  import opened Wrappers

  /** Python's `str.isspace()` for one character: the characters that a
      bare `strip()` removes. */
  predicate IsSpace(c: char) {
    ('\t' <= c <= '\r') || ('\U{1C}' <= c <= ' ') || c == '\U{85}' || c == '\U{A0}'
    || c == '\U{1680}' || ('\U{2000}' <= c <= '\U{200A}') || c == '\U{2028}' || c == '\U{2029}'
    || c == '\U{202F}' || c == '\U{205F}' || c == '\U{3000}'
  }

  /** Every character of `s` is whitespace. */
  predicate AllSpace(s: string) {
    forall k :: 0 <= k < |s| ==> IsSpace(s[k])
  }

  /** `r` sits at offset `i` of `s` with nothing but whitespace around it. */
  predicate Padded(s: string, r: string, i: nat) {
    i + |r| <= |s| && s[i..i + |r|] == r && AllSpace(s[..i]) && AllSpace(s[i + |r|..])
  }

  lemma PaddedCons(s: string, r: string, i: nat)
    requires |s| > 0 && IsSpace(s[0]) && Padded(s[1..], r, i)
    ensures Padded(s, r, i + 1)
  {
    assert s[i + 1..i + 1 + |r|] == s[1..][i..i + |r|];
    assert s[i + 1 + |r|..] == s[1..][i + |r|..];
    var front := s[..i + 1];
    forall k | 0 <= k < |front| ensures IsSpace(front[k]) {
      if k > 0 { assert front[k] == s[1..][..i][k - 1]; }
    }
  }

  lemma PaddedSnoc(s: string, r: string, i: nat)
    requires |s| > 0 && IsSpace(s[|s| - 1]) && Padded(s[..|s| - 1], r, i)
    ensures Padded(s, r, i)
  {
    var t := s[..|s| - 1];
    assert s[i..i + |r|] == t[i..i + |r|];
    assert s[..i] == t[..i];
    var back := s[i + |r|..];
    forall k | 0 <= k < |back| ensures IsSpace(back[k]) {
      if k < |t| - i - |r| { assert back[k] == t[i + |r|..][k]; }
    }
  }

  /** `s.strip()`: the text left between the leading and the trailing
      whitespace. Neither of its ends is whitespace. */
  function Strip(s: string): (r: string)
    ensures r == [] || (!IsSpace(r[0]) && !IsSpace(r[|r| - 1]))
  {
    if |s| > 0 && IsSpace(s[0]) then Strip(s[1..])
    else if |s| > 0 && IsSpace(s[|s| - 1]) then Strip(s[..|s| - 1])
    else s
  }

  /** What `strip()` leaves is a slice of the text with only whitespace cut
      on either side. */
  lemma {:induction false} StripPadded(s: string)
    ensures exists i: nat :: Padded(s, Strip(s), i)
  {
    var r := Strip(s);
    if |s| > 0 && IsSpace(s[0]) {
      StripPadded(s[1..]);
      var i: nat :| Padded(s[1..], r, i);
      PaddedCons(s, r, i);
    } else if |s| > 0 && IsSpace(s[|s| - 1]) {
      StripPadded(s[..|s| - 1]);
      var i: nat :| Padded(s[..|s| - 1], r, i);
      PaddedSnoc(s, r, i);
    } else {
      assert Padded(s, s, 0);
    }
  }

  /** `strip()` yields the empty string exactly on all-whitespace text. */
  lemma StripEmpty(s: string)
    ensures Strip(s) == [] <==> AllSpace(s)
  {
    var r := Strip(s);
    StripPadded(s);
    var i: nat :| Padded(s, r, i);
    if r == [] {
      forall k | 0 <= k < |s| ensures IsSpace(s[k]) {
        if k < i { assert s[k] == s[..i][k]; } else { assert s[k] == s[i..][k - i]; }
      }
    } else {
      assert r[0] == s[i];
    }
  }

  /** Stripping text that has no whitespace at either end changes nothing. */
  lemma StripUnpadded(s: string)
    requires s == [] || (!IsSpace(s[0]) && !IsSpace(s[|s| - 1]))
    ensures Strip(s) == s
  {
  }

  /** Stripping is idempotent. */
  lemma StripIdempotent(s: string)
    ensures Strip(Strip(s)) == Strip(s)
  {
    StripUnpadded(Strip(s));
  }

  /** One space in front of unpadded text is all that `strip()` removes. */
  lemma StripLeadingSpace(s: string)
    requires s == [] || (!IsSpace(s[0]) && !IsSpace(s[|s| - 1]))
    ensures Strip([' '] + s) == s
  {
    assert ([' '] + s)[1..] == s;
  }

  /** One space after unpadded text is all that `strip()` removes. */
  lemma StripTrailingSpace(s: string)
    requires s == [] || (!IsSpace(s[0]) && !IsSpace(s[|s| - 1]))
    ensures Strip(s + [' ']) == s
  {
    assert (s + [' '])[..|s|] == s;
  }

  /** `sep.join(parts)`. */
  function Join(parts: seq<string>, sep: string): string
  {
    if |parts| == 0 then ""
    else if |parts| == 1 then parts[0]
    else parts[0] + sep + Join(parts[1..], sep)
  }

  /** `s.split(sep)` for a one-character separator: the pieces between
      consecutive separators, always at least one, none holding `sep`. */
  function Split(s: string, sep: char): (r: seq<string>)
    ensures |r| >= 1
    ensures forall k :: 0 <= k < |r| ==> sep !in r[k]
  {
    if |s| == 0 then [""]
    else
      var rest := Split(s[1..], sep);
      if s[0] == sep then [""] + rest
      else [[s[0]] + rest[0]] + rest[1..]
  }

  /** A join starts with its first piece and ends with its last. */
  lemma JoinEnds(parts: seq<string>, sep: string)
    requires |parts| >= 1 && parts[0] != [] && parts[|parts| - 1] != []
    ensures var j := Join(parts, sep);
      |j| > 0 && j[0] == parts[0][0] && j[|j| - 1] == parts[|parts| - 1][|parts[|parts| - 1]| - 1]
  {
    JoinEndsLast(parts, sep);
  }

  /** A join of two or more pieces ends with its last piece. */
  lemma {:induction false} JoinEndsLast(parts: seq<string>, sep: string)
    requires |parts| >= 1 && parts[|parts| - 1] != []
    ensures var j := Join(parts, sep); |j| > 0 && j[|j| - 1] == parts[|parts| - 1][|parts[|parts| - 1]| - 1]
  {
    if |parts| > 1 {
      var rest := parts[1..];
      assert rest[|rest| - 1] == parts[|parts| - 1];
      JoinEndsLast(rest, sep);
    }
  }

  /** Text added to the last piece comes at the end of the join. */
  lemma {:induction false} JoinExtendLast(parts: seq<string>, sep: string, tail: string)
    requires |parts| >= 1
    ensures Join(parts[..|parts| - 1] + [parts[|parts| - 1] + tail], sep) == Join(parts, sep) + tail
  {
    if |parts| > 1 {
      var longer := parts[..|parts| - 1] + [parts[|parts| - 1] + tail];
      var rest := parts[1..];
      assert longer[0] == parts[0];
      assert longer[1..] == rest[..|rest| - 1] + [rest[|rest| - 1] + tail];
      JoinExtendLast(rest, sep, tail);
    }
  }

  /** Joining the pieces of a split with the separator gives back the text. */
  lemma {:induction false} JoinSplit(s: string, sep: char)
    ensures Join(Split(s, sep), [sep]) == s
  {
    if |s| > 0 {
      var rest := Split(s[1..], sep);
      JoinSplit(s[1..], sep);
      if s[0] == sep {
        assert ([""] + rest)[1..] == rest;
      } else {
        var r := [[s[0]] + rest[0]] + rest[1..];
        assert r[1..] == rest[1..];
        assert s == [s[0]] + s[1..];
      }
    }
  }

  /** Splitting the join of separator-free pieces gives back the pieces. */
  lemma {:induction false} SplitJoin(parts: seq<string>, sep: char)
    requires |parts| >= 1
    requires forall k :: 0 <= k < |parts| ==> sep !in parts[k]
    ensures Split(Join(parts, [sep]), sep) == parts
  {
    if |parts| == 1 {
      SplitFree(parts[0], sep);
      assert parts == [parts[0]];
    } else {
      SplitJoin(parts[1..], sep);
      SplitAround(parts[0], Join(parts[1..], [sep]), sep);
      assert Join(parts, [sep]) == parts[0] + [sep] + Join(parts[1..], [sep]);
      assert parts == [parts[0]] + parts[1..];
    }
  }

  /** A separator-free text splits into itself alone. */
  lemma {:induction false} SplitFree(s: string, sep: char)
    requires sep !in s
    ensures Split(s, sep) == [s]
  {
    if |s| > 0 {
      assert sep !in s[1..];
      SplitFree(s[1..], sep);
      assert [s[0]] + s[1..] == s;
    }
  }

  /** A separator-free head, then a separator, then a tail: the head is the
      first piece and the tail's pieces follow. */
  lemma {:induction false} SplitAround(head: string, tail: string, sep: char)
    requires sep !in head
    ensures Split(head + [sep] + tail, sep) == [head] + Split(tail, sep)
  {
    var s := head + [sep] + tail;
    if |head| == 0 {
      assert s[1..] == tail;
    } else {
      SplitAround(head[1..], tail, sep);
      assert s[1..] == head[1..] + [sep] + tail;
      assert [head[0]] + head[1..] == head;
    }
  }

  /** The lines of a model completion: `result.strip().split("\n")`. */
  function CompletionLines(completion: string): (lines: seq<string>)
    ensures |lines| >= 1
    ensures forall k :: 0 <= k < |lines| ==> '\n' !in lines[k]
  {
    Split(Strip(completion), '\n')
  }

  /** `m` occurs at the start of `s`. */
  predicate IsPrefix(m: string, s: string) {
    |m| <= |s| && s[..|m|] == m
  }

  /** Python's substring test `m in s`. */
  predicate Contains(s: string, m: string)
    decreases |s|
  {
    IsPrefix(m, s) || (|s| > 0 && Contains(s[1..], m))
  }

  /** A text in which the first character of `m` never occurs does not
      contain `m`. */
  lemma {:induction false} NotContainedWithoutHead(s: string, m: string)
    requires |m| > 0
    requires forall k :: 0 <= k < |s| ==> s[k] != m[0]
    ensures !Contains(s, m)
  {
    if |m| <= |s| {
      assert s[..|m|][0] == s[0];
    }
    if |s| > 0 {
      NotContainedWithoutHead(s[1..], m);
    }
  }

  /** A prefix in which the first character of `m` never occurs cannot hold
      the start of an occurrence of `m`. */
  lemma {:induction false} ContainsSkipsPrefix(p: string, s: string, m: string)
    requires |m| > 0
    requires forall k :: 0 <= k < |p| ==> p[k] != m[0]
    ensures Contains(p + s, m) == Contains(s, m)
  {
    if |p| > 0 {
      if |m| <= |p + s| {
        assert (p + s)[..|m|][0] == p[0];
      }
      assert (p + s)[1..] == p[1..] + s;
      ContainsSkipsPrefix(p[1..], s, m);
    } else {
      assert p + s == s;
    }
  }

  /** The position of the first `c` in `s`, if any. */
  function IndexOf(s: string, c: char): (r: Option<nat>)
    ensures r.None? <==> c !in s
    ensures r.Some? ==> r.value < |s| && s[r.value] == c && c !in s[..r.value]
  {
    if |s| == 0 then None
    else if s[0] == c then Some(0)
    else match IndexOf(s[1..], c)
      case None => None
      case Some(i) =>
        assert s[..i + 1] == [s[0]] + s[1..][..i];
        Some(i + 1)
  }

  /** The first `c` after a `c`-free prefix is the one right after it. */
  lemma IndexOfAfter(p: string, s: string, c: char)
    requires c !in p
    ensures IndexOf(p + [c] + s, c) == Some(|p|)
  {
    var t := p + [c] + s;
    assert t[|p|] == c;
    assert t[..|p|] == p;
  }

  /** `s.split(c, 1)[-1]`: the text after the first `c`, or all of `s`
      when it holds no `c`. */
  function AfterFirst(s: string, c: char): (r: string)
    ensures c !in s ==> r == s
    ensures c in s ==>
      |r| < |s| && r == s[|s| - |r|..] && s[|s| - |r| - 1] == c && c !in s[..|s| - |r| - 1]
  {
    match IndexOf(s, c)
    case None => s
    case Some(i) => s[i + 1..]
  }

  /** `s.split(c)[-1]`: the text after the last `c`, or all of `s` when it
      holds no `c`. */
  function AfterLast(s: string, c: char): (r: string)
    ensures c !in r
    ensures |r| <= |s| && r == s[|s| - |r|..]
    ensures c in s ==> |r| < |s| && s[|s| - |r| - 1] == c
    ensures c !in s ==> r == s
  {
    if c !in s then s
    else
      assert s == [s[0]] + s[1..];
      AfterLast(s[1..], c)
  }

  /** The text after the last `c` is the last piece of `s.split(c)`. */
  lemma {:induction false} AfterLastIsLastPiece(s: string, c: char)
    ensures var pieces := Split(s, c); AfterLast(s, c) == pieces[|pieces| - 1]
  {
    if |s| > 0 {
      AfterLastIsLastPiece(s[1..], c);
      if c !in s {
        SplitFree(s, c);
      } else if c !in s[1..] {
        assert s[0] == c;
        SplitFree(s[1..], c);
      } else {
        SplitCount(s[1..], c);
      }
    }
  }

  /** A text holding the separator splits into at least two pieces. */
  lemma {:induction false} SplitCount(s: string, c: char)
    requires c in s
    ensures |Split(s, c)| >= 2
  {
    if s[0] != c {
      SplitCount(s[1..], c);
    }
  }

  /** Whatever precedes a last `c`, the text after it is what remains. */
  lemma {:induction false} AfterLastOfTail(p: string, s: string, c: char)
    requires c !in s
    ensures AfterLast(p + [c] + s, c) == s
  {
    var t := p + [c] + s;
    assert t[|p|] == c;
    var r := AfterLast(t, c);
  }

  /** What follows the first `c` after a `c`-free prefix. */
  lemma AfterFirstOfTail(p: string, s: string, c: char)
    requires c !in p
    ensures AfterFirst(p + [c] + s, c) == s
  {
    var t := p + [c] + s;
    assert t[|p|] == c;
    var r := AfterFirst(t, c);
  }

  /** Python's `lower()` on one character, for the ASCII letters. */
  function LowerChar(c: char): char {
    if 'A' <= c <= 'Z' then (c as int - 'A' as int + 'a' as int) as char else c
  }

  /** Python's `lower()`, character by character, for the ASCII letters. */
  function Lower(s: string): string {
    seq(|s|, k requires 0 <= k < |s| => LowerChar(s[k]))
  }
}
