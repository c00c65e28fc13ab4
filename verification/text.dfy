/** The JavaScript string primitives the template relies on:
    `String.prototype.trim`, `startsWith`, and `split('\n')` / `join('\n')`. */
module Text {

  /** The characters `trim` removes: ECMAScript WhiteSpace (tab, vertical tab,
      form feed, space, no-break space, byte-order mark and every Unicode
      space separator) and LineTerminator (LF, CR, U+2028, U+2029). */
  predicate IsJsWhitespace(c: char) {
    || c == '\t' || c == '\n' || c == '\U{000B}' || c == '\U{000C}' || c == '\r'
    || c == ' ' || c == '\U{00A0}' || c == '\U{1680}'
    || ('\U{2000}' <= c <= '\U{200A}')
    || c == '\U{2028}' || c == '\U{2029}' || c == '\U{202F}' || c == '\U{205F}'
    || c == '\U{3000}' || c == '\U{FEFF}'
  }

  /** A string made of whitespace only (the empty string included). */
  predicate IsBlank(s: string) {
    forall i :: 0 <= i < |s| ==> IsJsWhitespace(s[i])
  }

  /** `s` with its leading whitespace removed. */
  function TrimStart(s: string): (r: string)
    ensures |r| <= |s| && r == s[|s| - |r|..]
    ensures forall i :: 0 <= i < |s| - |r| ==> IsJsWhitespace(s[i])
    ensures r != [] ==> !IsJsWhitespace(r[0])
  {
    if s != [] && IsJsWhitespace(s[0]) then TrimStart(s[1..]) else s
  }

  /** `s` with its trailing whitespace removed. */
  function TrimEnd(s: string): (r: string)
    ensures |r| <= |s| && r == s[..|r|]
    ensures forall i :: |r| <= i < |s| ==> IsJsWhitespace(s[i])
    ensures r != [] ==> !IsJsWhitespace(r[|r| - 1])
  {
    if s != [] && IsJsWhitespace(s[|s| - 1]) then TrimEnd(s[..|s| - 1]) else s
  }

  /** `s.trim()`: it never grows the string, and it is empty exactly when
      `s` consists of whitespace only. */
  function Trim(s: string): (r: string)
    ensures |r| <= |s|
    ensures r == "" <==> IsBlank(s)
  {
    var t := TrimStart(s);
    assert t != "" ==> TrimEnd(t) != "" && TrimEnd(t)[0] == s[|s| - |t|];
    TrimEnd(t)
  }

  /** A string that neither starts nor ends with whitespace is its own trim. */
  lemma TrimKeepsEdges(s: string)
    requires s != [] && !IsJsWhitespace(s[0]) && !IsJsWhitespace(s[|s| - 1])
    ensures Trim(s) == s
  {
  }

  /** `TrimStart` begins exactly where the leading whitespace ends. */
  lemma {:induction false} TrimStartAt(s: string, k: nat)
    requires k < |s| && !IsJsWhitespace(s[k])
    requires forall i :: 0 <= i < k ==> IsJsWhitespace(s[i])
    ensures TrimStart(s) == s[k..]
    decreases k
  {
    if k > 0 {
      assert IsJsWhitespace(s[0]);
      var t := s[1..];
      assert forall i :: 0 <= i < k - 1 ==> t[i] == s[i + 1];
      TrimStartAt(t, k - 1);
      assert t[k - 1..] == s[k..];
    }
  }

  /** `TrimEnd` keeps every position up to the last visible character. */
  lemma TrimEndKeeps(t: string, j: nat)
    requires j < |t| && !IsJsWhitespace(t[j])
    ensures j < |TrimEnd(t)| && TrimEnd(t) == t[..|TrimEnd(t)|]
  {
  }

  /** `trim` removes the leading, then the trailing whitespace. */
  lemma TrimBothEnds(s: string)
    ensures Trim(s) == TrimEnd(TrimStart(s))
  {
  }

  /** `s.startsWith(p)`. */
  predicate StartsWith(s: string, p: string) {
    |p| <= |s| && s[..|p|] == p
  }

  /** No line-feed character occurs in `s`. */
  predicate NoNewline(s: string) {
    forall i :: 0 <= i < |s| ==> s[i] != '\n'
  }

  /** `s.split('\n')`: the maximal line-feed-free pieces, in order. Like
      JavaScript, the empty string splits into one empty piece and a
      trailing line feed yields a trailing empty piece. */
  function Split(s: string): (lines: seq<string>)
    ensures |lines| >= 1
    ensures forall i :: 0 <= i < |lines| ==> NoNewline(lines[i])
  {
    if s == [] then [""]
    else
      var rest := Split(s[1..]);
      if s[0] == '\n' then [""] + rest
      else [[s[0]] + rest[0]] + rest[1..]
  }

  /** `lines.join('\n')`. */
  function Join(lines: seq<string>): string
    requires |lines| >= 1
  {
    if |lines| == 1 then lines[0] else lines[0] + "\n" + Join(lines[1..])
  }

  /** Splitting and re-joining gives the string back. */
  lemma {:induction false} JoinSplit(s: string)
    ensures Join(Split(s)) == s
  {
    if s != [] {
      JoinSplit(s[1..]);
      var rest := Split(s[1..]);
      if s[0] == '\n' {
        assert Split(s)[1..] == rest;
      } else if |rest| == 1 {
        assert s == [s[0]] + s[1..];
      } else {
        assert Split(s)[1..] == rest[1..];
        assert s == [s[0]] + (rest[0] + "\n" + Join(rest[1..]));
      }
    }
  }

  /** A line-feed-free prefix glues onto the first piece of the rest. */
  lemma {:induction false} SplitPrefix(line: string, tail: string)
    requires NoNewline(line)
    ensures Split(line + tail) == [line + Split(tail)[0]] + Split(tail)[1..]
  {
    if line != [] {
      assert (line + tail)[1..] == line[1..] + tail;
      SplitPrefix(line[1..], tail);
      assert line + Split(tail)[0] == [line[0]] + (line[1..] + Split(tail)[0]);
    } else {
      assert line + tail == tail;
      assert line + Split(tail)[0] == Split(tail)[0];
      assert Split(tail) == [Split(tail)[0]] + Split(tail)[1..];
    }
  }

  /** Joining line-feed-free lines and splitting again gives the lines back. */
  lemma {:induction false} SplitJoin(lines: seq<string>)
    requires |lines| >= 1
    requires forall i :: 0 <= i < |lines| ==> NoNewline(lines[i])
    ensures Split(Join(lines)) == lines
  {
    if |lines| == 1 {
      SplitPrefix(lines[0], "");
      assert lines[0] + "" == lines[0];
    } else {
      SplitJoin(lines[1..]);
      var tail := "\n" + Join(lines[1..]);
      SplitPrefix(lines[0], tail);
      assert tail[1..] == Join(lines[1..]);
      assert Split(tail) == [""] + lines[1..];
      assert lines[0] + tail == lines[0] + "\n" + Join(lines[1..]);
      assert lines[0] + "" == lines[0];
    }
  }
}
