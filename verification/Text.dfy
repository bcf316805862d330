/** Lines, indentation and blanks of a text, as Go's strings package sees them. */
module Text {

  predicate Clean(line: string) {
    '\n' !in line
  }

  predicate AllClean(lines: seq<string>) {
    forall i | 0 <= i < |lines| :: Clean(lines[i])
  }

  /** strings.Split(s, "\n") */
  function Split(s: string): (lines: seq<string>)
    ensures lines != []
  {
    if s == [] then [[]]
    else
      var rest := Split(s[1..]);
      if s[0] == '\n' then [[]] + rest else [[s[0]] + rest[0]] + rest[1..]
  }

  /** strings.Join(lines, "\n") */
  function Join(lines: seq<string>): string {
    if lines == [] then []
    else if |lines| == 1 then lines[0]
    else lines[0] + (['\n'] + Join(lines[1..]))
  }

  lemma {:induction false} SplitClean(s: string)
    ensures AllClean(Split(s))
  {
    if s != [] {
      SplitClean(s[1..]);
      assert Clean(Split(s[1..])[0]);
    }
  }

  lemma {:induction false} SplitAfterLine(line: string, s: string)
    requires Clean(line)
    ensures Split(line + s) == [line + Split(s)[0]] + Split(s)[1..]
  {
    if line == [] {
      assert line + s == s && line + Split(s)[0] == Split(s)[0];
    } else {
      assert (line + s)[1..] == line[1..] + s;
      assert line[0] in line;
      SplitAfterLine(line[1..], s);
      assert [line[0]] + (line[1..] + Split(s)[0]) == line + Split(s)[0];
    }
  }

  /** Splitting undoes joining. */
  lemma {:induction false} SplitJoin(lines: seq<string>)
    requires lines != [] && AllClean(lines)
    ensures Split(Join(lines)) == lines
  {
    if |lines| == 1 {
      SplitAfterLine(lines[0], []);
      assert lines[0] + [] == lines[0];
    } else {
      var rest := Join(lines[1..]);
      SplitJoin(lines[1..]);
      SplitAfterLine(lines[0], ['\n'] + rest);
      assert (['\n'] + rest)[1..] == rest;
      var tail := Split(['\n'] + rest);
      assert tail == [[]] + lines[1..];
      assert lines[0] + tail[0] == lines[0] && tail[1..] == lines[1..];
    }
  }

  lemma PrependChar(c: char, a: string, b: string)
    ensures [c] + a + b == [c] + (a + b)
  {
  }

  lemma JoinHead(c: char, lines: seq<string>)
    requires lines != []
    ensures Join([[c] + lines[0]] + lines[1..]) == [c] + Join(lines)
  {
    var longer := [[c] + lines[0]] + lines[1..];
    assert longer[0] == [c] + lines[0] && longer[1..] == lines[1..];
    if |lines| > 1 {
      PrependChar(c, lines[0], ['\n'] + Join(lines[1..]));
    }
  }

  /** Joining undoes splitting, on every text. */
  lemma {:induction false} JoinSplit(s: string)
    ensures Join(Split(s)) == s
  {
    if s != [] {
      var rest := Split(s[1..]);
      JoinSplit(s[1..]);
      if s[0] == '\n' {
        assert ([[]] + rest)[1..] == rest;
        assert [] + (['\n'] + s[1..]) == s;
      } else {
        JoinHead(s[0], rest);
        assert [s[0]] + s[1..] == s;
      }
    }
  }

  // ---- blanks ---------------------------------------------------------------------------------------

  /** unicode.IsSpace */
  predicate IsSpace(c: char) {
    c == ' ' || '\t' <= c <= '\r' || c == '\U{85}' || c == '\U{A0}' || c == '\U{1680}' || '\U{2000}' <= c <= '\U{200A}'
      || c == '\U{2028}' || c == '\U{2029}' || c == '\U{202F}' || c == '\U{205F}' || c == '\U{3000}'
  }

  function TrimLeft(s: string): string {
    if s != [] && IsSpace(s[0]) then TrimLeft(s[1..]) else s
  }

  function TrimRight(s: string): (r: string)
    ensures r <= s && (s != [] && !IsSpace(s[0]) ==> r != [])
  {
    if s != [] && IsSpace(s[|s| - 1]) then TrimRight(s[..|s| - 1]) else s
  }

  function TrimSpace(s: string): string {
    TrimRight(TrimLeft(s))
  }

  predicate AllSpace(s: string) {
    forall i | 0 <= i < |s| :: IsSpace(s[i])
  }

  lemma {:induction false} TrimLeftExactly(s: string)
    ensures TrimLeft(s) == [] || !IsSpace(TrimLeft(s)[0])
    ensures |TrimLeft(s)| <= |s| && s[|s| - |TrimLeft(s)|..] == TrimLeft(s) && AllSpace(s[..|s| - |TrimLeft(s)|])
  {
    if s != [] && IsSpace(s[0]) {
      TrimLeftExactly(s[1..]);
      var n := |s| - |TrimLeft(s)|;
      assert s[n..] == s[1..][n - 1..] && s[..n] == [s[0]] + s[1..][..n - 1];
    }
  }

  lemma {:induction false} TrimRightExactly(s: string)
    ensures TrimRight(s) == [] || !IsSpace(TrimRight(s)[|TrimRight(s)| - 1])
    ensures AllSpace(s[|TrimRight(s)|..])
  {
    if s != [] && IsSpace(s[|s| - 1]) {
      TrimRightExactly(s[..|s| - 1]);
      var n := |TrimRight(s)|;
      assert s[n..] == s[..|s| - 1][n..] + [s[|s| - 1]];
    }
  }

  /** Trimming takes the blanks off both ends and nothing else. */
  lemma TrimSpaceExactly(s: string) returns (before: string, after: string)
    ensures s == before + TrimSpace(s) + after && AllSpace(before) && AllSpace(after)
    ensures TrimSpace(s) == [] || (!IsSpace(TrimSpace(s)[0]) && !IsSpace(TrimSpace(s)[|TrimSpace(s)| - 1]))
  {
    TrimLeftExactly(s);
    TrimRightExactly(TrimLeft(s));
    before, after := s[..|s| - |TrimLeft(s)|], TrimLeft(s)[|TrimSpace(s)|..];
  }

  /** The blanks of the Latin-1 range and of the general punctuation block, one by one. */
  lemma SpacesExactly(c: char)
    ensures c < '\U{100}' ==> (IsSpace(c) <==> c in {'\t', '\n', '\U{0b}', '\U{0c}', '\r', ' ', '\U{85}', '\U{a0}'})
    ensures '\U{2000}' <= c < '\U{2100}' ==> (IsSpace(c) <==> c <= '\U{200a}' || c in {'\U{2028}', '\U{2029}', '\U{202f}', '\U{205f}'})
  {
  }

  /** strings.HasPrefix */
  predicate HasPrefix(s: string, p: string) {
    p == [] || (s != [] && s[0] == p[0] && HasPrefix(s[1..], p[1..]))
  }

  lemma {:induction false} HasPrefixExactly(s: string, p: string)
    ensures HasPrefix(s, p) <==> p <= s
  {
    if p != [] && s != [] && s[0] == p[0] {
      HasPrefixExactly(s[1..], p[1..]);
      assert p <= s <==> p[1..] <= s[1..] by {
        assert p == [p[0]] + p[1..] && s == [s[0]] + s[1..];
      }
    }
  }

  predicate Blank(line: string) {
    TrimSpace(line) == []
  }

  /** leadingSpaces: ASCII spaces only */
  function LeadingSpaces(s: string): nat {
    if s != [] && s[0] == ' ' then 1 + LeadingSpaces(s[1..]) else 0
  }

  /** strings.Repeat(" ", n) */
  function Pad(n: nat): (r: string)
    ensures |r| == n && Clean(r)
  {
    seq(n, i => ' ')
  }

  /** A line that starts with `text` at column `n`. */
  lemma {:induction false} Indented(n: nat, text: string)
    requires text != [] && !IsSpace(text[0])
    ensures TrimLeft(Pad(n) + text) == text && LeadingSpaces(Pad(n) + text) == n
  {
    if n == 0 {
      assert Pad(0) + text == text;
    } else {
      Indented(n - 1, text);
      assert (Pad(n) + text)[1..] == Pad(n - 1) + text;
    }
  }
}
