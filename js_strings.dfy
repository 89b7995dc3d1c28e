/**
 * The three JavaScript string primitives the bot and the server rely on:
 * `String.prototype.trim`, `String.prototype.split` with a one-character
 * separator, and `Array.prototype.join` with a one-character separator.
 */
module JsStrings {

  /**
   * The characters `trim` strips: the ECMAScript WhiteSpace and
   * LineTerminator code points (tab to carriage return, space, no-break
   * space, ogham space mark, the en quad to hair space block, line and
   * paragraph separators, narrow no-break space, medium mathematical space,
   * ideographic space and the byte order mark).
   */
  predicate IsJsWhitespace(c: char) {
    || c == ' ' || '\t' <= c <= '\r'
    || c == '\U{00A0}' || c == '\U{1680}'
    || '\U{2000}' <= c <= '\U{200A}'
    || c == '\U{2028}' || c == '\U{2029}' || c == '\U{202F}' || c == '\U{205F}'
    || c == '\U{3000}' || c == '\U{FEFF}'
  }

  /** Drops the leading whitespace: the result is a suffix of `s`. */
  function TrimStart(s: string): (r: string)
    ensures |r| <= |s| && r == s[|s| - |r|..]
    ensures r == [] || !IsJsWhitespace(r[0])
  {
    if |s| > 0 && IsJsWhitespace(s[0]) then TrimStart(s[1..]) else s
  }

  /** Drops the trailing whitespace: the result is a prefix of `s`. */
  function TrimEnd(s: string): (r: string)
    ensures |r| <= |s| && r == s[..|r|]
    ensures r == [] || !IsJsWhitespace(r[|r| - 1])
  {
    if |s| > 0 && IsJsWhitespace(s[|s| - 1]) then TrimEnd(s[..|s| - 1]) else s
  }

  /** `s.trim()`: the slice of `s` between its leading and its trailing whitespace. */
  function Trim(s: string): (r: string)
    ensures r == [] || (!IsJsWhitespace(r[0]) && !IsJsWhitespace(r[|r| - 1]))
    ensures var k := |s| - |TrimStart(s)|; k + |r| <= |s| && r == s[k..k + |r|]
  {
    var t := TrimStart(s);
    var r := TrimEnd(t);
    PrefixOfSuffix(s, t, r);
    assert r == [] || !IsJsWhitespace(r[0]);
    r
  }

  /** A prefix of a suffix of `s` is the slice of `s` where the suffix begins. */
  lemma PrefixOfSuffix(s: string, t: string, r: string)
    requires |t| <= |s| && t == s[|s| - |t|..]
    requires |r| <= |t| && r == t[..|r|]
    ensures var k := |s| - |t|; k + |r| <= |s| && r == s[k..k + |r|]
    ensures r == [] || r[0] == t[0]
  {
  }

  /** Only whitespace is cut from the start: the other characters are all kept, in order. */
  lemma {:induction false} TrimStartKeepsNonBlank(s: string)
    ensures NonBlank(TrimStart(s)) == NonBlank(s)
  {
    if |s| > 0 && IsJsWhitespace(s[0]) {
      TrimStartKeepsNonBlank(s[1..]);
    }
  }

  /** Only whitespace is cut from the end: the other characters are all kept, in order. */
  lemma {:induction false} TrimEndKeepsNonBlank(s: string)
    ensures NonBlank(TrimEnd(s)) == NonBlank(s)
  {
    if |s| > 0 && IsJsWhitespace(s[|s| - 1]) {
      var front := s[..|s| - 1];
      TrimEndKeepsNonBlank(front);
      assert s == front + [s[|s| - 1]];
      NonBlankAppend(front, [s[|s| - 1]]);
    }
  }

  /** `s.split(sep)`: the pieces between the occurrences of `sep`; never empty, `"".split(sep)` is `[""]`. */
  function Split(s: string, sep: char): (parts: seq<string>)
    ensures |parts| >= 1
    ensures forall i :: 0 <= i < |parts| ==> sep !in parts[i]
  {
    if |s| == 0 then [""]
    else
      var rest := Split(s[1..], sep);
      if s[0] == sep then [""] + rest
      else [[s[0]] + rest[0]] + rest[1..]
  }

  /** `parts.join(sep)`. */
  function Join(parts: seq<string>, sep: char): string
  {
    if |parts| == 0 then ""
    else if |parts| == 1 then parts[0]
    else parts[0] + [sep] + Join(parts[1..], sep)
  }

  /** Joining the pieces of a split with the same separator gives back the original string. */
  lemma {:induction false} JoinSplit(s: string, sep: char)
    ensures Join(Split(s, sep), sep) == s
  {
    if |s| > 0 {
      var rest := Split(s[1..], sep);
      JoinSplit(s[1..], sep);
      if s[0] == sep {
        assert Split(s, sep) == [""] + rest;
        assert Join([""] + rest, sep) == "" + [sep] + Join(rest, sep);
      } else {
        var parts := Split(s, sep);
        assert parts == [[s[0]] + rest[0]] + rest[1..];
        if |rest| == 1 {
          assert Join(parts, sep) == [s[0]] + rest[0];
        } else {
          assert Join(rest, sep) == rest[0] + [sep] + Join(rest[1..], sep);
          assert parts[1..] == rest[1..];
        }
      }
    }
  }

  /** Splitting the join of separator-free pieces gives back the pieces. */
  lemma {:induction false} SplitJoin(parts: seq<string>, sep: char)
    requires |parts| >= 1
    requires forall i :: 0 <= i < |parts| ==> sep !in parts[i]
    ensures Split(Join(parts, sep), sep) == parts
  {
    if |parts| == 1 {
      SplitOfPiece(parts[0], sep);
    } else {
      SplitJoin(parts[1..], sep);
      SplitAfterPiece(parts[0], Join(parts[1..], sep), sep);
      assert [parts[0]] + parts[1..] == parts;
    }
  }

  /** A string without the separator splits into itself alone. */
  lemma {:induction false} SplitOfPiece(p: string, sep: char)
    requires sep !in p
    ensures Split(p, sep) == [p]
  {
    if |p| > 0 {
      SplitOfPiece(p[1..], sep);
      assert [p[0]] + p[1..] == p;
    }
  }

  /** A separator-free piece followed by the separator contributes exactly that piece. */
  lemma {:induction false} SplitAfterPiece(p: string, rest: string, sep: char)
    requires sep !in p
    ensures Split(p + [sep] + rest, sep) == [p] + Split(rest, sep)
  {
    if |p| == 0 {
      assert p + [sep] + rest == [sep] + rest;
      assert ([sep] + rest)[1..] == rest;
    } else {
      SplitAfterPiece(p[1..], rest, sep);
      var s := p + [sep] + rest;
      assert s[0] == p[0];
      assert s[1..] == p[1..] + [sep] + rest;
      assert [p[0]] + p[1..] == p;
    }
  }

  /** `s.substring(start, end)`: both ends clamped to `[0, |s|]`, swapped when out of order. */
  function Substring(s: string, start: int, end: int): (r: string)
    ensures 0 <= start <= end <= |s| ==> r == s[start..end]
    ensures start < 0 && 0 <= end <= |s| ==> r == s[..end]
    ensures 0 <= start <= |s| < end ==> r == s[start..]
  {
    var a := if start < 0 then 0 else if start > |s| then |s| else start;
    var b := if end < 0 then 0 else if end > |s| then |s| else end;
    if a <= b then s[a..b] else s[b..a]
  }

  /** A split has one piece more than the string has separators. */
  lemma {:induction false} SplitCount(s: string, sep: char)
    ensures |Split(s, sep)| == multiset(s)[sep] + 1
  {
    if |s| > 0 {
      SplitCount(s[1..], sep);
      assert s == [s[0]] + s[1..];
      assert multiset(s) == multiset([s[0]]) + multiset(s[1..]);
    }
  }

  /** The join of at least three pieces, spelled out around its first two separators. */
  lemma JoinFirstTwo(parts: seq<string>, sep: char)
    requires |parts| >= 3
    ensures Join(parts, sep) == parts[0] + [sep] + parts[1] + [sep] + Join(parts[2..], sep)
  {
    assert parts[1..][1..] == parts[2..];
  }

  /** The characters of `s` that are not whitespace, in order. */
  function NonBlank(s: string): string
  {
    if |s| == 0 then ""
    else (if IsJsWhitespace(s[0]) then "" else [s[0]]) + NonBlank(s[1..])
  }

  lemma {:induction false} NonBlankAppend(a: string, b: string)
    ensures NonBlank(a + b) == NonBlank(a) + NonBlank(b)
  {
    if |a| > 0 {
      assert (a + b)[1..] == a[1..] + b;
      NonBlankAppend(a[1..], b);
    } else {
      assert a + b == b;
    }
  }

  /** Trimming removes whitespace only: every other character survives, in order. */
  lemma TrimKeepsNonBlank(s: string)
    ensures NonBlank(Trim(s)) == NonBlank(s)
  {
    TrimStartKeepsNonBlank(s);
    TrimEndKeepsNonBlank(TrimStart(s));
  }
}
