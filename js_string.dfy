/**
 * The JavaScript string operations the two services rely on, on `seq<char>`:
 * `startsWith`, `includes`, `split` by one character, `trim`, `slice` from an
 * index, `toLowerCase` and `replaceAll` of one character by another.
 */
module JsString {

  /** `s.startsWith(prefix)` */
  predicate StartsWith(s: string, prefix: string) {
    |prefix| <= |s| && s[..|prefix|] == prefix
  }

  /** `s.slice(start)` for a non-negative start: empty once start passes the end. */
  function Slice(s: string, start: nat): (r: string)
    ensures start <= |s| ==> r == s[start..]
    ensures start >= |s| ==> r == ""
  {
    if start <= |s| then s[start..] else ""
  }

  /** Index of the first occurrence of `c` in `s`. */
  function IndexOf(s: string, c: char): (i: nat)
    requires c in s
    ensures i < |s| && s[i] == c
    ensures c !in s[..i]
  {
    if s[0] == c then 0
    else
      var j := IndexOf(s[1..], c);
      assert s[..j + 1] == [s[0]] + s[1..][..j];
      j + 1
  }

  /** Concatenation of `parts` with `sep` between neighbours (`parts.join(sep)`). */
  function Join(parts: seq<string>, sep: char): string {
    if |parts| == 0 then ""
    else if |parts| == 1 then parts[0]
    else parts[0] + [sep] + Join(parts[1..], sep)
  }

  /**
   * `s.split(sep)` for a one-character separator: the maximal pieces of `s`
   * that hold no `sep`, in order. Joining them back gives `s`.
   */
  function Split(s: string, sep: char): (parts: seq<string>)
    ensures |parts| >= 1
    ensures (|parts| > 1) == (sep in s)
    ensures forall k :: 0 <= k < |parts| ==> sep !in parts[k]
    decreases |s|
  {
    if sep !in s then [s]
    else
      var i := IndexOf(s, sep);
      [s[..i]] + Split(s[i + 1..], sep)
  }

  /** Splitting loses nothing: joining the pieces with the separator gives the string back. */
  lemma {:induction false} SplitJoin(s: string, sep: char)
    ensures Join(Split(s, sep), sep) == s
    decreases |s|
  {
    if sep in s {
      var i := IndexOf(s, sep);
      SplitJoin(s[i + 1..], sep);
      assert s == s[..i] + [sep] + s[i + 1..];
    }
  }

  /**
   * What `const [left, right] = s.split(sep)` binds when `s` holds `sep`:
   * `left` is the text before the first `sep` and `right` the text after it,
   * up to the second `sep` or the end of `s`.
   */
  lemma {:induction false} SplitFirstTwo(s: string, sep: char)
    requires sep in s
    ensures |Split(s, sep)| >= 2
    ensures var left, right := Split(s, sep)[0], Split(s, sep)[1];
      && |left| + 1 + |right| <= |s|
      && s[..|left|] == left && s[|left|] == sep
      && s[|left| + 1..|left| + 1 + |right|] == right
      && (|left| + 1 + |right| == |s| || s[|left| + 1 + |right|] == sep)
  {
    var i := IndexOf(s, sep);
    var rest := s[i + 1..];
    var tail := Split(rest, sep);
    assert Split(s, sep) == [s[..i]] + tail;
    var right := tail[0];
    if sep in rest {
      var j := IndexOf(rest, sep);
      assert tail == [rest[..j]] + Split(rest[j + 1..], sep);
      assert right == rest[..j];
      assert s[i + 1 + j] == rest[j];
    } else {
      assert right == rest;
    }
    assert s[i + 1..i + 1 + |right|] == right;
  }

  /** The characters `String.prototype.trim` removes: ECMAScript WhiteSpace and LineTerminator. */
  predicate IsWhitespace(c: char) {
    || c == '\t' || c == '\n' || c == '\U{000B}' || c == '\U{000C}' || c == '\r' || c == ' '
    || c == '\U{00A0}' || c == '\U{1680}' || ('\U{2000}' <= c <= '\U{200A}')
    || c == '\U{2028}' || c == '\U{2029}' || c == '\U{202F}' || c == '\U{205F}'
    || c == '\U{3000}' || c == '\U{FEFF}'
  }

  /** `s` with its leading whitespace removed: a suffix of `s`. */
  function TrimStart(s: string): (r: string)
    ensures |r| <= |s| && r == s[|s| - |r|..]
    ensures forall i :: 0 <= i < |s| - |r| ==> IsWhitespace(s[i])
    ensures r == [] || !IsWhitespace(r[0])
  {
    if s != [] && IsWhitespace(s[0]) then TrimStart(s[1..]) else s
  }

  /** `s` with its trailing whitespace removed: a prefix of `s`. */
  function TrimEnd(s: string): (r: string)
    ensures |r| <= |s| && r == s[..|r|]
    ensures forall i :: |r| <= i < |s| ==> IsWhitespace(s[i])
    ensures r == [] || !IsWhitespace(r[|r| - 1])
  {
    if s != [] && IsWhitespace(s[|s| - 1]) then TrimEnd(s[..|s| - 1]) else s
  }

  /** `s.trim()` */
  function Trim(s: string): string {
    TrimEnd(TrimStart(s))
  }

  /**
   * `s.trim()` is the longest middle part of `s` that starts and ends with a
   * non-whitespace character: only whitespace is cut, from both ends.
   */
  lemma TrimIsMiddle(s: string)
    ensures var r, a := Trim(s), |s| - |TrimStart(s)|;
      a + |r| <= |s| && r == s[a..a + |r|]
    ensures var a := |s| - |TrimStart(s)|;
      forall i :: 0 <= i < a ==> IsWhitespace(s[i])
    ensures var r, a := Trim(s), |s| - |TrimStart(s)|;
      forall i :: a + |r| <= i < |s| ==> IsWhitespace(s[i])
    ensures var r := Trim(s);
      r == [] || (!IsWhitespace(r[0]) && !IsWhitespace(r[|r| - 1]))
  {
    TrimIsSlice(s);
    TrimCutsTail(s);
    TrimEndsSolid(s);
  }

  /** The trimmed text is the slice of `s` that starts where the leading whitespace ends. */
  lemma TrimIsSlice(s: string)
    ensures var r, a := Trim(s), |s| - |TrimStart(s)|;
      a + |r| <= |s| && r == s[a..a + |r|]
  {
    var t := TrimStart(s);
    var r := TrimEnd(t);
    SliceOfSlice(s, |s| - |t|, t, r);
  }

  /** A prefix of a suffix is a slice. */
  lemma SliceOfSlice(s: string, a: nat, t: string, r: string)
    requires a <= |s| && t == s[a..] && |r| <= |t| && r == t[..|r|]
    ensures a + |r| <= |s| && r == s[a..a + |r|]
  {
  }

  /** Everything after the trimmed slice is whitespace. */
  lemma TrimCutsTail(s: string)
    ensures var r, a := Trim(s), |s| - |TrimStart(s)|;
      forall i :: a + |r| <= i < |s| ==> IsWhitespace(s[i])
  {
    CutBothEnds(s, TrimStart(s), Trim(s));
  }

  /** The trimmed text neither starts nor ends with whitespace. */
  lemma TrimEndsSolid(s: string)
    ensures var r := Trim(s);
      r == [] || (!IsWhitespace(r[0]) && !IsWhitespace(r[|r| - 1]))
  {
    CutBothEnds(s, TrimStart(s), Trim(s));
  }

  /**
   * Cutting whitespace off the front of `s` (giving `t`) and then off the back
   * of `t` (giving `r`) leaves only whitespace after `r` in `s`, and `r` has a
   * solid first and last character.
   */
  lemma CutBothEnds(s: string, t: string, r: string)
    requires |t| <= |s| && t == s[|s| - |t|..]
    requires forall i :: 0 <= i < |s| - |t| ==> IsWhitespace(s[i])
    requires t == [] || !IsWhitespace(t[0])
    requires |r| <= |t| && r == t[..|r|]
    requires forall j :: |r| <= j < |t| ==> IsWhitespace(t[j])
    requires r == [] || !IsWhitespace(r[|r| - 1])
    ensures var a := |s| - |t|;
      && a + |r| <= |s|
      && (forall i :: a + |r| <= i < |s| ==> IsWhitespace(s[i]))
      && (r == [] || (!IsWhitespace(r[0]) && !IsWhitespace(r[|r| - 1])))
  {
    var a := |s| - |t|;
    forall i | a + |r| <= i < |s|
      ensures IsWhitespace(s[i])
    {
      assert s[i] == t[i - a];
    }
    if r != [] {
      assert r[0] == t[0];
    }
  }

  /** `s.trim()` leaves a trimmed string as it is. */
  lemma {:induction false} TrimIdempotent(s: string)
    ensures Trim(Trim(s)) == Trim(s)
  {
    var r := Trim(s);
    TrimIsMiddle(s);
    if r != [] {
      assert TrimStart(r) == r;
      assert TrimEnd(r) == r;
    }
  }

  /** Whitespace added in front of a string is cut by `trim` as well. */
  lemma {:induction false} TrimStartPadding(pad: string, s: string)
    requires forall i :: 0 <= i < |pad| ==> IsWhitespace(pad[i])
    ensures TrimStart(pad + s) == TrimStart(s)
  {
    if pad != [] {
      assert (pad + s)[0] == pad[0];
      assert (pad + s)[1..] == pad[1..] + s;
      TrimStartPadding(pad[1..], s);
    } else {
      assert pad + s == s;
    }
  }

  /** Whitespace added after a string is cut by `trim` as well. */
  lemma {:induction false} TrimEndPadding(s: string, pad: string)
    requires forall i :: 0 <= i < |pad| ==> IsWhitespace(pad[i])
    ensures TrimEnd(s + pad) == TrimEnd(s)
  {
    if pad != [] {
      var last := |pad| - 1;
      assert (s + pad)[|s + pad| - 1] == pad[last];
      assert (s + pad)[..|s + pad| - 1] == s + pad[..last];
      TrimEndPadding(s, pad[..last]);
    } else {
      assert s + pad == s;
    }
  }

  /** Leading whitespace never reaches the end of a trimmed start. */
  lemma {:induction false} TrimStartAppend(s: string, pad: string)
    ensures TrimStart(s + pad) == if TrimStart(s) == [] then TrimStart(pad) else TrimStart(s) + pad
  {
    if s != [] && IsWhitespace(s[0]) {
      assert (s + pad)[1..] == s[1..] + pad;
      TrimStartAppend(s[1..], pad);
    } else if s == [] {
      assert s + pad == pad;
    }
  }

  /** `trim` ignores whitespace padding on either side. */
  lemma TrimPadding(before: string, s: string, after: string)
    requires forall i :: 0 <= i < |before| ==> IsWhitespace(before[i])
    requires forall i :: 0 <= i < |after| ==> IsWhitespace(after[i])
    ensures Trim(before + s + after) == Trim(s)
  {
    assert before + s + after == before + (s + after);
    TrimStartPadding(before, s + after);
    TrimStartAppend(s, after);
    if TrimStart(s) == [] {
      TrimStartPadding(after, []);
      assert after + [] == after;
    } else {
      TrimEndPadding(TrimStart(s), after);
    }
  }

  /** `String.prototype.toLowerCase` on one character; only A–Z are mapped. */
  function LowerChar(c: char): char {
    if 'A' <= c <= 'Z' then (c as int + 32) as char else c
  }

  /** `s.toLowerCase()` */
  function ToLower(s: string): (r: string)
    ensures |r| == |s|
    ensures forall i :: 0 <= i < |s| ==> r[i] == LowerChar(s[i])
  {
    seq(|s|, i requires 0 <= i < |s| => LowerChar(s[i]))
  }

  /** `s.replaceAll(from, to)` for one-character `from` and `to`. */
  function ReplaceAll(s: string, from: char, to: char): (r: string)
    ensures |r| == |s|
    ensures forall i :: 0 <= i < |s| ==> r[i] == if s[i] == from then to else s[i]
  {
    seq(|s|, i requires 0 <= i < |s| => if s[i] == from then to else s[i])
  }

  /** Lower-casing never turns a character into whitespace or whitespace into something else. */
  lemma LowerKeepsWhitespace(c: char)
    ensures IsWhitespace(LowerChar(c)) == IsWhitespace(c)
  {
  }

  /** Lower-casing twice is lower-casing once. */
  lemma ToLowerIdempotent(s: string)
    ensures ToLower(ToLower(s)) == ToLower(s)
  {
  }

  /** Trimming and lower-casing commute. */
  lemma {:induction false} TrimStartToLower(s: string)
    ensures TrimStart(ToLower(s)) == ToLower(TrimStart(s))
  {
    if s != [] {
      LowerKeepsWhitespace(s[0]);
      assert ToLower(s)[1..] == ToLower(s[1..]);
      TrimStartToLower(s[1..]);
    }
  }

  /** Trimming and lower-casing commute. */
  lemma {:induction false} TrimEndToLower(s: string)
    ensures TrimEnd(ToLower(s)) == ToLower(TrimEnd(s))
  {
    if s != [] {
      LowerKeepsWhitespace(s[|s| - 1]);
      assert ToLower(s)[..|s| - 1] == ToLower(s[..|s| - 1]);
      TrimEndToLower(s[..|s| - 1]);
    }
  }

  /** Trimming and lower-casing commute. */
  lemma TrimToLower(s: string)
    ensures Trim(ToLower(s)) == ToLower(Trim(s))
  {
    TrimStartToLower(s);
    TrimEndToLower(TrimStart(s));
  }
}
