/** Surrounding white space, as Go's strings.TrimSpace removes it. */
module WhiteSpace {

  predicate IsSpace(c: char) {
    || c in {'\t', '\n', '\U{B}', '\U{C}', '\r', ' ', '\U{85}', '\U{A0}', '\U{1680}'}
    || '\U{2000}' <= c <= '\U{200A}'
    || c in {'\U{2028}', '\U{2029}', '\U{202F}', '\U{205F}', '\U{3000}'}
  }

  function TrimLeft(s: string): string {
    if s != "" && IsSpace(s[0]) then TrimLeft(s[1..]) else s
  }

  function TrimRight(s: string): string {
    if s != "" && IsSpace(s[|s| - 1]) then TrimRight(s[..|s| - 1]) else s
  }

  function Trim(s: string): string {
    TrimRight(TrimLeft(s))
  }

  predicate Trimmed(s: string) {
    s != "" ==> !IsSpace(s[0]) && !IsSpace(s[|s| - 1])
  }

  lemma {:induction false} TrimRightKeepsFront(s: string)
    requires s != "" ==> !IsSpace(s[0])
    ensures Trimmed(TrimRight(s))
    decreases |s|
  {
    if s != "" && IsSpace(s[|s| - 1]) {
      TrimRightKeepsFront(s[..|s| - 1]);
    }
  }

  lemma {:induction false} TrimLeftIsClean(s: string)
    ensures TrimLeft(s) != "" ==> !IsSpace(TrimLeft(s)[0])
    decreases |s|
  {
    if s != "" && IsSpace(s[0]) {
      TrimLeftIsClean(s[1..]);
    }
  }

  lemma TrimIsTrimmed(s: string)
    ensures Trimmed(Trim(s))
  {
    TrimLeftIsClean(s);
    TrimRightKeepsFront(TrimLeft(s));
  }

  /** Trimming what is trimmed, with or without one newline behind it. */
  lemma TrimOfTrimmed(s: string)
    requires Trimmed(s)
    ensures Trim(s) == s && Trim(s + "\n") == s
  {
    if s == "" {
      assert s + "\n" == "\n" && TrimLeft("\n") == TrimLeft("");
    } else {
      assert (s + "\n")[..|s|] == s;
    }
  }
}

/** Splitting text at newlines, as Go's strings.Split(content, "\n"). */
module TextLines {

  function Lines(content: string): (lines: seq<string>)
    ensures lines != []
  {
    if content == "" then [""]
    else
      var rest := Lines(content[1..]);
      if content[0] == '\n' then [""] + rest else [[content[0]] + rest[0]] + rest[1..]
  }

  function Rejoined(lines: seq<string>): string {
    if lines == [] then "" else lines[0] + "\n" + Rejoined(lines[1..])
  }

  lemma RejoinedCons(line: string, rest: seq<string>)
    ensures Rejoined([line] + rest) == line + "\n" + Rejoined(rest)
  {
    assert ([line] + rest)[1..] == rest;
  }

  lemma {:induction false} RejoinedLines(content: string)
    ensures Rejoined(Lines(content)) == content + "\n"
    decreases |content|
  {
    if content == "" {
      RejoinedCons("", []);
    } else {
      var c, rest := [content[0]], Lines(content[1..]);
      RejoinedLines(content[1..]);
      assert content == c + content[1..];
      if c == "\n" {
        RejoinedCons("", rest);
      } else {
        RejoinedCons(rest[0], rest[1..]);
        RejoinedCons(c + rest[0], rest[1..]);
        assert rest == [rest[0]] + rest[1..];
        var tail := Rejoined(rest[1..]);
        assert c + rest[0] + "\n" + tail == c + (rest[0] + "\n" + tail);
        assert content + "\n" == c + (content[1..] + "\n");
      }
    }
  }

  lemma {:induction false} LinesAppend(a: string, b: string)
    ensures Lines(a + "\n" + b) == Lines(a) + Lines(b)
    decreases |a|
  {
    if a == "" {
      assert a + "\n" + b == "\n" + b && ("\n" + b)[1..] == b;
    } else {
      assert (a + "\n" + b)[1..] == a[1..] + "\n" + b;
      LinesAppend(a[1..], b);
    }
  }

  lemma {:induction false} OneLine(s: string)
    requires '\n' !in s
    ensures Lines(s) == [s]
    decreases |s|
  {
    if s != "" {
      OneLine(s[1..]);
      assert [s[0]] + s[1..] == s;
    }
  }

  // ----- line ends of two characters

  function ReplaceCrLf(s: string): string {
    if s == "" then ""
    else if |s| > 1 && s[0] == '\r' && s[1] == '\n' then "\n" + ReplaceCrLf(s[2..])
    else [s[0]] + ReplaceCrLf(s[1..])
  }

  predicate NoCrLf(s: string) {
    forall i :: 0 <= i < |s| - 1 ==> !(s[i] == '\r' && s[i + 1] == '\n')
  }

  /** The text as a tool that ends lines with CRLF saves it. */
  function WithCrLf(s: string): string {
    if s == "" then "" else (if s[0] == '\n' then "\r\n" else [s[0]]) + WithCrLf(s[1..])
  }

  lemma NoCrLfRest(s: string)
    requires s != "" && NoCrLf(s)
    ensures NoCrLf(s[1..]) && (|s| > 1 ==> !(s[0] == '\r' && s[1] == '\n'))
  {
    forall i | 0 <= i < |s[1..]| - 1 ensures !(s[1..][i] == '\r' && s[1..][i + 1] == '\n') {
      assert s[1..][i] == s[i + 1] && s[1..][i + 1] == s[i + 2];
    }
  }

  lemma NoCrLfAppend(a: string, b: string)
    requires NoCrLf(a) && NoCrLf(b) && (a != "" && b != "" ==> a[|a| - 1] != '\r' || b[0] != '\n')
    ensures NoCrLf(a + b)
  {
  }

  lemma {:induction false} ReplaceNothing(s: string)
    requires NoCrLf(s)
    ensures ReplaceCrLf(s) == s
    decreases |s|
  {
    if s != "" {
      NoCrLfRest(s);
      ReplaceNothing(s[1..]);
    }
  }

  /** Reading back what such a tool saved. */
  lemma {:induction false} ReplaceOfWith(s: string)
    requires NoCrLf(s)
    ensures ReplaceCrLf(WithCrLf(s)) == s
    decreases |s|
  {
    if s != "" {
      var rest := WithCrLf(s[1..]);
      NoCrLfRest(s);
      ReplaceOfWith(s[1..]);
      if s[0] == '\n' {
        assert ("\r\n" + rest)[2..] == rest;
      } else {
        assert ([s[0]] + rest)[1..] == rest;
        if s[0] == '\r' && |s| > 1 {
          assert rest[0] == s[1];
        }
      }
    }
  }
}
