/** The Minimal template's `renderMarkdown`: split the text at line feeds,
    in each line replace every `**…**` pair by `<strong>…</strong>` (the
    global, lazy regular expression `\*\*(.*?)\*\*`), then wrap a line whose
    trimmed form starts with "- " in `<li>…</li>`, and join the lines again.
    No HTML escaping is performed. */
module Markdown {
  import opened Optional
  import opened Text

  /** A `**` starts at position `k` of `s`. */
  predicate PairAt(s: string, k: int) {
    0 <= k && k + 1 < |s| && s[k] == '*' && s[k + 1] == '*'
  }

  /** No `**` occurs anywhere in `s`. */
  predicate NoPair(s: string) {
    forall k :: 0 <= k < |s| ==> !PairAt(s, k)
  }

  /** The characters the regular-expression `.` does not match. */
  predicate IsRegexLineTerminator(c: char) {
    c == '\n' || c == '\r' || c == '\U{2028}' || c == '\U{2029}'
  }

  /** `j` is where the lazy `(.*?)\*\*` that starts at `k` closes: the first
      `**` at or after `k`, with no line terminator before it. */
  ghost predicate ClosesAt(s: string, k: int, j: int) {
    && 0 <= k <= j
    && PairAt(s, j)
    && forall t :: k <= t < j ==> !PairAt(s, t) && !IsRegexLineTerminator(s[t])
  }

  /** The closing `**` of a bold run whose content starts at `k`, if any. */
  function FindClose(s: string, k: nat): (r: Option<nat>)
    requires k <= |s|
    ensures r.Some? ==> ClosesAt(s, k, r.value)
    ensures r.None? ==> forall j :: !ClosesAt(s, k, j)
    decreases |s| - k
  {
    if k + 2 > |s| then None
    else if PairAt(s, k) then Some(k)
    else if IsRegexLineTerminator(s[k]) then None
    else
      assert forall j :: ClosesAt(s, k, j) ==> ClosesAt(s, k + 1, j);
      FindClose(s, k + 1)
  }

  /** At most one position closes a bold run: the lazy match is unique. */
  lemma ClosesAtUnique(s: string, k: int, j1: int, j2: int)
    requires ClosesAt(s, k, j1) && ClosesAt(s, k, j2)
    ensures j1 == j2
  {
  }

  /** The global, lazy bold replacement of one line: scanning left
      to right, an opening `**` with a closing one is replaced together with
      its content; an opening `**` without one is kept and scanning resumes
      one character later. */
  function Bold(s: string): (r: string)
    ensures NoNewline(s) ==> NoNewline(r)
    decreases |s|
  {
    if |s| < 2 then s
    else if PairAt(s, 0) then
      match FindClose(s, 2)
      case Some(j) => "<strong>" + s[2..j] + "</strong>" + Bold(s[j + 2..])
      case None => [s[0]] + Bold(s[1..])
    else [s[0]] + Bold(s[1..])
  }

  /** A line with no `**` is left alone by the bold rule. */
  lemma {:induction false} BoldNoPair(s: string)
    requires NoPair(s)
    ensures Bold(s) == s
    decreases |s|
  {
    if |s| >= 2 {
      assert !PairAt(s, 0);
      assert NoPair(s[1..]) by {
        forall k | 0 <= k < |s[1..]| ensures !PairAt(s[1..], k) {
          assert !PairAt(s, k + 1);
        }
      }
      BoldNoPair(s[1..]);
      assert s == [s[0]] + s[1..];
    }
  }

  /** The first `**` pair is rewritten with the shortest content, and the
      rest of the line is processed independently. */
  lemma BoldFirstPair(content: string, rest: string)
    requires forall t :: 0 <= t < |content| ==> !IsRegexLineTerminator(content[t])
    requires forall t :: 0 <= t < |content| ==> !PairAt(content + "**", t)
    ensures Bold("**" + content + "**" + rest)
         == "<strong>" + content + "</strong>" + Bold(rest)
  {
    var s := "**" + content + "**" + rest;
    var j := |content| + 2;
    assert PairAt(s, 0);
    assert PairAt(s, j);
    forall t | 2 <= t < j ensures !PairAt(s, t) && !IsRegexLineTerminator(s[t]) {
      assert s[t] == (content + "**")[t - 2];
      assert s[t + 1] == (content + "**")[t - 1];
      assert !PairAt(content + "**", t - 2);
    }
    assert ClosesAt(s, 2, j);
    var c := FindClose(s, 2);
    assert c.Some? && ClosesAt(s, 2, c.value);
    ClosesAtUnique(s, 2, c.value, j);
    assert s[2..j] == content;
    assert s[j + 2..] == rest;
  }

  /** One scanning step of the bold rule over a character that does not
      open a bold run. */
  lemma BoldStep(s: string)
    requires s != [] && !PairAt(s, 0)
    ensures Bold(s) == [s[0]] + Bold(s[1..])
  {
    if |s| < 2 {
      assert s[1..] == [];
      assert s == [s[0]];
    }
  }

  lemma UnconsAppend(xs: string, ys: string)
    requires xs != []
    ensures xs + ys == [xs[0]] + (xs[1..] + ys)
  {
    assert xs == [xs[0]] + xs[1..];
  }

  /** A character other than `*` passes through the bold rule. */
  lemma BoldCons(c: char, rest: string)
    requires c != '*'
    ensures Bold([c] + rest) == [c] + Bold(rest)
  {
    var s := [c] + rest;
    assert s[1..] == rest;
    BoldStep(s);
  }

  /** Text before any `*` passes through unchanged, so the bold rule acts on
      each run independently of a plain prefix. */
  lemma {:induction false} BoldPlainPrefix(plain: string, rest: string)
    requires forall t :: 0 <= t < |plain| ==> plain[t] != '*'
    ensures Bold(plain + rest) == plain + Bold(rest)
    decreases |plain|
  {
    if plain != [] {
      var tail := plain[1..];
      UnconsAppend(plain, rest);
      BoldCons(plain[0], tail + rest);
      assert forall t :: 0 <= t < |tail| ==> tail[t] == plain[t + 1];
      BoldPlainPrefix(tail, rest);
      UnconsAppend(plain, Bold(rest));
    } else {
      assert plain + rest == rest;
    }
  }

  /** A line ending in an unmatched `**` keeps it: with no pair before, no
      bold run can close. */
  lemma {:induction false} BoldUnmatchedTail(s: string)
    requires NoPair(s)
    ensures Bold(s + "**") == s + "**"
    decreases |s|
  {
    var u := s + "**";
    if s == [] {
      assert u == "**";
      assert FindClose(u, 2) == None;
    } else {
      assert NoPair(s[1..]) by {
        forall k | 0 <= k < |s[1..]| ensures !PairAt(s[1..], k) {
          assert !PairAt(s, k + 1);
        }
      }
      BoldUnmatchedTail(s[1..]);
      assert u[1..] == s[1..] + "**";
      if PairAt(u, 0) {
        // the opener is the last character of `s` followed by the appended pair
        assert |s| >= 2 ==> PairAt(s, 0);
        assert |s| == 1;
        assert FindClose(u, 2) == None by {
          forall j ensures !ClosesAt(u, 2, j) {
            assert !PairAt(u, j) || j < 2;
          }
        }
      }
      assert Bold(u) == [u[0]] + Bold(u[1..]);
      assert s == [s[0]] + s[1..];
    }
  }

  /** The per-line rule: bold first, then the bullet test on the bolded
      line; a bullet drops the first two characters of the untrimmed line. */
  function RenderLine(line: string): (r: string)
    ensures NoNewline(line) ==> NoNewline(r)
  {
    var b := Bold(line);
    if StartsWith(Trim(b), "- ") then
      assert |Trim(b)| <= |b|;
      ItemNoNewline(b);
      "<li>" + b[2..] + "</li>"
    else b
  }

  lemma ItemNoNewline(b: string)
    requires |b| >= 2
    ensures NoNewline(b) ==> NoNewline("<li>" + b[2..] + "</li>")
  {
  }

  /** `renderMarkdown(text)`: the empty (or absent) text renders as "",
      anything else line by line. */
  function RenderMarkdown(text: string): string {
    if text == "" then ""
    else
      var lines := Split(text);
      Join(seq(|lines|, i requires 0 <= i < |lines| => RenderLine(lines[i])))
  }

  /** The line-wise transform, as a sequence map. */
  function RenderLines(lines: seq<string>): (out: seq<string>)
    ensures |out| == |lines|
  {
    seq(|lines|, i requires 0 <= i < |lines| => RenderLine(lines[i]))
  }

  /** Empty text renders as the empty string. */
  lemma RenderMarkdownEmpty()
    ensures RenderMarkdown("") == ""
  {
  }

  /** `renderMarkdown` is line-wise: splitting its output at line feeds gives
      exactly the rendered input lines, so the number of lines is kept and
      line `i` of the output depends on line `i` of the input only. */
  lemma LineWise(text: string)
    ensures Split(RenderMarkdown(text)) == RenderLines(Split(text))
    ensures |Split(RenderMarkdown(text))| == |Split(text)|
  {
    var lines := Split(text);
    var out := RenderLines(lines);
    if text != "" {
      assert RenderMarkdown(text) == Join(out);
      SplitJoin(out);
    } else {
      assert lines == [""];
      assert RenderLine("") == "";
      assert out == [""];
    }
  }

  /** Text without a line feed is rendered as one line. */
  lemma OneLine(text: string)
    requires text != "" && NoNewline(text)
    ensures RenderMarkdown(text) == RenderLine(text)
  {
    SplitJoin([text]);
    assert Split(text) == [text];
    var out := seq(1, i requires 0 <= i < 1 => RenderLine([text][i]));
    assert out == [RenderLine(text)];
  }

  /** The converse of `BulletLine`: a line whose bold rendering, trimmed,
      does not start with "- " is rendered as that bold rendering alone. */
  lemma NonBulletLine(line: string)
    ensures !StartsWith(Trim(Bold(line)), "- ") ==> RenderLine(line) == Bold(line)
  {
  }

  /** A line with no `**` whose trimmed form does not start with "- " is
      unchanged. */
  lemma PlainLineUnchanged(line: string)
    requires NoPair(line)
    requires !StartsWith(Trim(line), "- ")
    ensures RenderLine(line) == line
  {
    BoldNoPair(line);
  }

  /** The bold rule never blanks out a line with a visible character: it
      copies characters, or replaces a run by `<strong>` markup. */
  lemma {:induction false} BoldKeepsVisible(s: string)
    requires !IsBlank(s)
    ensures !IsBlank(Bold(s))
    decreases |s|
  {
    var b := Bold(s);
    if |s| < 2 {
    } else if PairAt(s, 0) && FindClose(s, 2).Some? {
      var j := FindClose(s, 2).value;
      assert b == "<strong>" + s[2..j] + "</strong>" + Bold(s[j + 2..]);
      assert b[0] == '<';
    } else {
      assert b == [s[0]] + Bold(s[1..]);
      if IsJsWhitespace(s[0]) {
        var i :| 0 <= i < |s| && !IsJsWhitespace(s[i]);
        assert s[1..][i - 1] == s[i];
        BoldKeepsVisible(s[1..]);
        var x := Bold(s[1..]);
        var t :| 0 <= t < |x| && !IsJsWhitespace(x[t]);
        assert b[t + 1] == x[t];
      } else {
        assert b[0] == s[0];
      }
    }
  }

  /** A line that passes the bullet test is `k` whitespace characters, then
      "- ", then text with a visible character. */
  lemma BulletShape(line: string) returns (k: nat)
    requires StartsWith(Trim(line), "- ")
    ensures k + 2 < |line|
    ensures IsBlank(line[..k])
    ensures line[k] == '-' && line[k + 1] == ' '
    ensures !IsBlank(line[k + 2..])
  {
    var t, e;
    k, t, e := TrimParts(line);
    DashSpaceAt(line, k, t, e);
  }

  /** `s` split as blank text up to `k`, then `t`, the rest, whose trailing
      trim `e` is the trim of `s`. */
  lemma TrimParts(s: string) returns (k: nat, t: string, e: string)
    ensures k <= |s| && t == s[k..] && IsBlank(s[..k])
    ensures |e| <= |t| && e == t[..|e|]
    ensures e != [] ==> !IsJsWhitespace(e[|e| - 1])
    ensures e == Trim(s)
  {
    t := TrimStart(s);
    k := |s| - |t|;
    e := TrimEnd(t);
    TrimStartSplit(s);
    TrimBothEnds(s);
  }

  /** `line` is blank up to `k` and continues with `t`, whose trailing trim
      `e` starts with "- ": so "- " sits at `k` with visible text after it. */
  lemma DashSpaceAt(line: string, k: nat, t: string, e: string)
    requires k <= |line| && t == line[k..] && IsBlank(line[..k])
    requires StartsWith(e, "- ") && |e| <= |t| && e == t[..|e|]
    requires e != [] ==> !IsJsWhitespace(e[|e| - 1])
    ensures k + 2 < |line|
    ensures IsBlank(line[..k])
    ensures line[k] == '-' && line[k + 1] == ' '
    ensures !IsBlank(line[k + 2..])
  {
    DashSpaceTail(t, e);
    assert line[k + 2..] == t[2..];
  }

  /** When the trailing trim of `t` starts with "- ", so does `t`, and
      something visible follows: the trim never ends on the space. */
  lemma DashSpaceTail(t: string, e: string)
    requires StartsWith(e, "- ") && |e| <= |t| && e == t[..|e|]
    requires e != [] ==> !IsJsWhitespace(e[|e| - 1])
    ensures |t| > 2 && t[0] == '-' && t[1] == ' ' && !IsBlank(t[2..])
  {
    assert e[0] == '-' && e[1] == ' ';
    assert |e| != 2;
    assert t[2..][|e| - 3] == e[|e| - 1];
  }

  /** A string is its leading whitespace followed by its `TrimStart`. */
  lemma TrimStartSplit(s: string)
    ensures IsBlank(s[..|s| - |TrimStart(s)|])
    ensures s[|s| - |TrimStart(s)|..] == TrimStart(s)
  {
    BlankHead(s, |s| - |TrimStart(s)|);
  }

  lemma BlankHead(s: string, k: nat)
    requires k <= |s|
    requires forall i :: 0 <= i < k ==> IsJsWhitespace(s[i])
    ensures IsBlank(s[..k])
  {
    assert forall i :: 0 <= i < k ==> s[..k][i] == s[i];
  }

  /** A line whose trimmed form starts with "- " becomes a list item holding
      the bold rendering of the line minus its first two characters. Those
      two characters are "-" or white space, all in the Basic Multilingual
      Plane, so dropping them drops two UTF-16 code units too. */
  lemma BulletLine(line: string)
    requires StartsWith(Trim(line), "- ")
    ensures |line| >= 2
    ensures forall i :: 0 <= i < 2 ==> (line[i] == '-' || IsJsWhitespace(line[i])) && line[i] <= '\U{FFFF}'
    ensures RenderLine(line) == "<li>" + Bold(line[2..]) + "</li>"
  {
    var k := BulletShape(line);
    BulletHead(line, k);
    BoldKeepsBullet(line, k);
    RenderBullet(line);
  }

  /** After the bold rule, an indented "- " line still passes the bullet
      test, and its bolded form minus two characters is the bold rendering of
      the line minus two characters. */
  lemma BoldKeepsBullet(line: string, k: nat)
    requires k + 2 < |line| && IsBlank(line[..k])
    requires line[k] == '-' && line[k + 1] == ' '
    requires !IsBlank(line[k + 2..])
    ensures StartsWith(Trim(Bold(line)), "- ")
    ensures |Bold(line)| >= 2 && Bold(line)[2..] == Bold(line[2..])
  {
    var rest := line[k + 2..];
    var p := line[..k + 2];
    IndentHasNoStar(line, k);
    BulletBold(line, k + 2);
    BoldKeepsVisible(rest);
    var x := Bold(rest);
    var j :| 0 <= j < |x| && !IsJsWhitespace(x[j]);
    assert p[..k] == line[..k];
    StillBullet(p, x, k, j);
  }

  /** The bullet branch of the per-line rule. */
  lemma RenderBullet(line: string)
    requires StartsWith(Trim(Bold(line)), "- ")
    requires |Bold(line)| >= 2 && Bold(line)[2..] == Bold(line[2..])
    ensures RenderLine(line) == "<li>" + Bold(line[2..]) + "</li>"
  {
  }

  /** The first two characters of an indented "- " are "-" or white space,
      none of them outside the Basic Multilingual Plane. */
  lemma BulletHead(line: string, k: nat)
    requires k + 2 <= |line| && IsBlank(line[..k])
    requires line[k] == '-' && line[k + 1] == ' '
    ensures forall i :: 0 <= i < 2 ==> (line[i] == '-' || IsJsWhitespace(line[i])) && line[i] <= '\U{FFFF}'
  {
    forall i | 0 <= i < 2
      ensures (line[i] == '-' || IsJsWhitespace(line[i])) && line[i] <= '\U{FFFF}'
    {
      if i < k {
        assert IsJsWhitespace(line[..k][i]);
      }
    }
  }

  /** The indentation and the "- " of a bullet line hold no `*`. */
  lemma IndentHasNoStar(line: string, k: nat)
    requires k + 2 <= |line| && IsBlank(line[..k])
    requires line[k] == '-' && line[k + 1] == ' '
    ensures forall t :: 0 <= t < k + 2 ==> line[t] != '*'
  {
    forall t | 0 <= t < k + 2 ensures line[t] != '*' {
      if t < k {
        assert IsJsWhitespace(line[..k][t]);
      }
    }
  }

  /** A `*`-free head of `line` passes through the bold rule. */
  lemma PlainHead(line: string, n: nat)
    requires n <= |line|
    requires forall t :: 0 <= t < n ==> line[t] != '*'
    ensures Bold(line) == line[..n] + Bold(line[n..])
  {
    var p := line[..n];
    assert line == p + line[n..];
    BoldPlainPrefix(p, line[n..]);
  }

  /** Dropping two characters from `p + x` when `p` has at least two. */
  lemma DropTwo(p: string, x: string, a: string, b: string)
    requires |p| >= 2 && a == p + x && b == p[2..] + x
    ensures a[2..] == b
  {
  }

  lemma SliceAfterTwo(line: string, n: nat)
    requires 2 <= n <= |line|
    ensures line[2..][..n - 2] == line[..n][2..]
    ensures line[2..][n - 2..] == line[n..]
    ensures forall t :: 0 <= t < n - 2 ==> line[2..][t] == line[t + 2]
  {
  }

  /** The bold rule copies a `*`-free head of at least two characters, so
      it commutes with dropping the first two. */
  lemma BulletBold(line: string, n: nat)
    requires 2 <= n <= |line|
    requires forall t :: 0 <= t < n ==> line[t] != '*'
    ensures Bold(line) == line[..n] + Bold(line[n..])
    ensures Bold(line)[2..] == Bold(line[2..])
  {
    PlainHead(line, n);
    SliceAfterTwo(line, n);
    PlainHead(line[2..], n - 2);
    DropTwo(line[..n], Bold(line[n..]), Bold(line), Bold(line[2..]));
  }

  /** Indentation, "- ", then text with a visible character: the trimmed
      form starts with "- ". */
  lemma StillBullet(p: string, x: string, k: nat, j: nat)
    requires |p| == k + 2 && j < |x| && IsBlank(p[..k])
    requires p[k] == '-' && p[k + 1] == ' '
    requires !IsJsWhitespace(x[j])
    ensures StartsWith(Trim(p + x), "- ")
  {
    var b := p + x;
    assert forall i :: 0 <= i < k ==> b[i] == p[..k][i];
    TrimStartAt(b, k);
    var tb := b[k..];
    assert tb[0] == '-' && tb[1] == ' ' && tb[2 + j] == x[j];
    DashSpaceKept(tb, j);
    TrimBothEnds(b);
    DashSpaceStarts(Trim(b));
  }

  lemma DashSpaceKept(tb: string, j: nat)
    requires 2 + j < |tb| && tb[0] == '-' && tb[1] == ' ' && !IsJsWhitespace(tb[2 + j])
    ensures |TrimEnd(tb)| >= 2 && TrimEnd(tb)[0] == '-' && TrimEnd(tb)[1] == ' '
  {
    TrimEndKeeps(tb, 2 + j);
  }

  lemma DashSpaceStarts(e: string)
    requires |e| >= 2 && e[0] == '-' && e[1] == ' '
    ensures StartsWith(e, "- ")
  {
  }

  /** The bold rule runs before the bullet rule: a bullet whose text is bold
      becomes a list item holding the `<strong>` element. */
  lemma BoldInsideBullet(content: string)
    requires forall t :: 0 <= t < |content| ==> !IsRegexLineTerminator(content[t]) && content[t] != '*'
    ensures RenderLine("- " + ("**" + content + "**"))
         == "<li>" + ("<strong>" + content + "</strong>") + "</li>"
  {
    var b := "- " + ("<strong>" + content + "</strong>");
    BoldOfBulletRun(content);
    assert b[0] == '-' && b[|b| - 1] == '>';
    TrimKeepsEdges(b);
    assert StartsWith(Trim(b), "- ");
    assert b[2..] == "<strong>" + content + "</strong>";
  }

  lemma BoldOfBulletRun(content: string)
    requires forall t :: 0 <= t < |content| ==> !IsRegexLineTerminator(content[t]) && content[t] != '*'
    ensures Bold("- " + ("**" + content + "**")) == "- " + ("<strong>" + content + "</strong>")
  {
    var dash := "- ";
    assert forall t :: 0 <= t < |dash| ==> dash[t] != '*';
    BoldPlainThenRun(dash, content);
  }

  /** A plain prefix followed by one bold run. */
  lemma BoldPlainThenRun(plain: string, content: string)
    requires forall t :: 0 <= t < |plain| ==> plain[t] != '*'
    requires forall t :: 0 <= t < |content| ==> !IsRegexLineTerminator(content[t]) && content[t] != '*'
    ensures Bold(plain + ("**" + content + "**")) == plain + ("<strong>" + content + "</strong>")
  {
    var run := "**" + content + "**";
    assert run + "" == run;
    forall t | 0 <= t < |content| ensures !PairAt(content + "**", t) {
      assert (content + "**")[t] == content[t];
    }
    BoldFirstPair(content, "");
    assert Bold(run) == "<strong>" + content + "</strong>";
    BoldPlainPrefix(plain, run);
  }
}
