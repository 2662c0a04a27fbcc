// String searching and trimming shared by the journal and snapshot codecs.
module Text {

  predicate IsBlank(c: char) {
    c == ' ' || c == '\t' || c == '\r' || c == '\n'
  }

  // find_first_not_of and find_last_not_of over blanks.
  function TrimLeft(s: string): string {
    if s != "" && IsBlank(s[0]) then TrimLeft(s[1..]) else s
  }

  function TrimRight(s: string): string {
    if s != "" && IsBlank(s[|s| - 1]) then TrimRight(s[..|s| - 1]) else s
  }

  function Trim(s: string): string {
    TrimRight(TrimLeft(s))
  }

  // The position of the first c at or after `from`, or the length.
  function Find(s: string, c: char, from: nat): (at: nat)
    requires from <= |s|
    ensures from <= at <= |s|
    ensures at < |s| ==> s[at] == c
    ensures forall k :: from <= k < at ==> s[k] != c
    decreases |s| - from
  {
    if from == |s| || s[from] == c then from else Find(s, c, from + 1)
  }

  lemma FindIs(s: string, c: char, from: nat, at: nat)
    requires from <= at <= |s|
    requires at < |s| ==> s[at] == c
    requires forall k :: from <= k < at ==> s[k] != c
    ensures Find(s, c, from) == at
  {
  }

  lemma TrimNothing(s: string)
    requires forall c :: c in s ==> !IsBlank(c)
    ensures Trim(s) == s
  {
    if s != "" {
      assert s[0] in s && s[|s| - 1] in s;
    }
  }

  // A line, its end, and what follows.
  function Line(line: string, rest: string): string {
    line + "\n" + rest
  }

  // The first line of what is still unread, and what remains after it.
  function SplitLine(unread: string): (r: (string, string))
    ensures |r.1| <= |unread|
  {
    var at := Find(unread, '\n', 0);
    if at == |unread| then (unread, "") else (unread[..at], unread[at + 1..])
  }

  lemma SplitPrinted(line: string, rest: string)
    requires '\n' !in line
    ensures SplitLine(Line(line, rest)) == (line, rest)
  {
    var text := Line(line, rest);
    FindIs(text, '\n', 0, |line|);
    assert text[..|line|] == line && text[|line| + 1..] == rest;
  }

  lemma TrimSolid(s: string)
    requires s != "" && !IsBlank(s[0]) && !IsBlank(s[|s| - 1])
    ensures Trim(s) == s
  {
  }

  lemma {:induction false} TrimRightIsPrefix(s: string)
    ensures |TrimRight(s)| <= |s| && TrimRight(s) == s[..|TrimRight(s)|]
    ensures s != "" && !IsBlank(s[0]) ==> TrimRight(s) != ""
  {
    if s != "" && IsBlank(s[|s| - 1]) {
      TrimRightIsPrefix(s[..|s| - 1]);
    }
  }

  lemma TrimIsPrefix(s: string)
    requires s != "" && !IsBlank(s[0])
    ensures 0 < |Trim(s)| <= |s| && Trim(s) == s[..|Trim(s)|]
  {
    TrimRightIsPrefix(s);
  }
}
