/** user/grep.c: the matcher against the meaning of patterns, and the reading of lines from a buffer. */
module Grep {

  // ----- what a pattern means

  /** One character (`.` is any), or any number of them. */
  datatype Item = One(c: char) | Star(c: char)

  /** A pattern: its items, and whether a final `$` ties it to the end of the text. */
  datatype Regex = Regex(items: seq<Item>, end: bool)

  /** `x*` binds before anything else; `$` is special only at the end; `^` here is an ordinary character. */
  function Parse(re: string): (r: Regex)
    decreases |re|
  {
    if re == "" then Regex([], false)
    else if |re| >= 2 && re[1] == '*' then
      var r := Parse(re[2..]);
      Regex([Star(re[0])] + r.items, r.end)
    else if re == "$" then Regex([], true)
    else
      var r := Parse(re[1..]);
      Regex([One(re[0])] + r.items, r.end)
  }

  predicate Fits(c: char, x: char) {
    c == '.' || c == x
  }

  /** The text is exactly what the items describe, one after the other. */
  ghost predicate Describes(items: seq<Item>, s: string)
    decreases |items|
  {
    if items == [] then s == ""
    else match items[0]
      case One(c) => s != "" && Fits(c, s[0]) && Describes(items[1..], s[1..])
      case Star(c) => exists k ::
          0 <= k <= |s| && Describes(items[1..], s[k..]) && forall i :: 0 <= i < k ==> Fits(c, s[i])
  }

  /** Some beginning of the text satisfies the pattern; all of it, if the pattern ends with `$`. */
  ghost predicate Begins(r: Regex, text: string) {
    exists n :: 0 <= n <= |text| && Describes(r.items, text[..n]) && (r.end ==> n == |text|)
  }

  /** Some substring satisfies the pattern; one at the start, if the pattern begins with `^`. */
  ghost predicate Contains(re: string, text: string) {
    if re != "" && re[0] == '^' then Begins(Parse(re[1..]), text)
    else exists i :: 0 <= i <= |text| && Begins(Parse(re), text[i..])
  }

  // ----- one item at a time

  lemma BeginsNothing(end: bool, text: string)
    ensures Begins(Regex([], end), text) <==> !end || text == ""
  {
    assert text[..0] == "";
    if !end || text == "" {
      assert Describes([], text[..0]);
    }
  }

  lemma BeginsOne(c: char, rest: Regex, text: string)
    ensures Begins(Regex([One(c)] + rest.items, rest.end), text) <==>
              text != "" && Fits(c, text[0]) && Begins(rest, text[1..])
  {
    var items := [One(c)] + rest.items;
    assert items[1..] == rest.items;
    if Begins(Regex(items, rest.end), text) {
      var n :| 0 <= n <= |text| && Describes(items, text[..n]) && (rest.end ==> n == |text|);
      assert text[..n][1..] == text[1..][..n - 1];
    }
    if text != "" && Fits(c, text[0]) && Begins(rest, text[1..]) {
      var n :| 0 <= n <= |text[1..]| && Describes(rest.items, text[1..][..n]) && (rest.end ==> n == |text[1..]|);
      assert text[..n + 1][1..] == text[1..][..n];
      assert Describes(items, text[..n + 1]);
    }
  }

  lemma BeginsStar(c: char, rest: Regex, text: string)
    ensures Begins(Regex([Star(c)] + rest.items, rest.end), text) <==>
            exists k :: 0 <= k <= |text| && Begins(rest, text[k..]) && forall i :: 0 <= i < k ==> Fits(c, text[i])
  {
    var items := [Star(c)] + rest.items;
    assert items[1..] == rest.items;
    if Begins(Regex(items, rest.end), text) {
      var n :| 0 <= n <= |text| && Describes(items, text[..n]) && (rest.end ==> n == |text|);
      var s := text[..n];
      var k :| 0 <= k <= |s| && Describes(rest.items, s[k..]) && forall i :: 0 <= i < k ==> Fits(c, s[i]);
      assert s[k..] == text[k..][..n - k];
      assert forall i :: 0 <= i < k ==> Fits(c, text[i]) by {
        assert forall i :: 0 <= i < k ==> text[i] == s[i];
      }
      assert Begins(rest, text[k..]);
    }
    if exists k :: 0 <= k <= |text| && Begins(rest, text[k..]) && forall i :: 0 <= i < k ==> Fits(c, text[i]) {
      var k :| 0 <= k <= |text| && Begins(rest, text[k..]) && forall i :: 0 <= i < k ==> Fits(c, text[i]);
      var n :| 0 <= n <= |text[k..]| && Describes(rest.items, text[k..][..n]) && (rest.end ==> n == |text[k..]|);
      var s := text[..k + n];
      assert s[k..] == text[k..][..n];
      assert Describes(items, s);
    }
  }

  // ----- the matcher

  /** matchhere */
  method MatchHere(re: string, text: string) returns (r: bool)
    ensures r == Begins(Parse(re), text)
    decreases |re|, 0
  {
    if re == "" {
      BeginsNothing(false, text);
      return true;
    }
    if |re| >= 2 && re[1] == '*' {
      BeginsStar(re[0], Parse(re[2..]), text);
      r := MatchStar(re[0], re[2..], text);
      return;
    }
    if re == "$" {
      BeginsNothing(true, text);
      return text == "";
    }
    BeginsOne(re[0], Parse(re[1..]), text);
    if text != "" && (re[0] == '.' || re[0] == text[0]) {
      r := MatchHere(re[1..], text[1..]);
      return;
    }
    return false;
  }

  /** matchstar */
  method MatchStar(c: char, re: string, text: string) returns (r: bool)
    ensures r == exists k ::
              0 <= k <= |text| && Begins(Parse(re), text[k..]) && forall i :: 0 <= i < k ==> Fits(c, text[i])
    decreases |re|, 1
  {
    var k := 0;
    while true
      invariant 0 <= k <= |text| && forall i :: 0 <= i < k ==> Fits(c, text[i])
      invariant forall j :: 0 <= j < k ==> !Begins(Parse(re), text[j..])
      decreases |text| - k
    {
      var b := MatchHere(re, text[k..]);
      if b {
        return true;
      }
      if k == |text| || !(text[k] == c || c == '.') {
        return false;
      }
      k := k + 1;
    }
  }

  /** match */
  method Match(re: string, text: string) returns (r: bool)
    ensures r == Contains(re, text)
  {
    if re != "" && re[0] == '^' {
      r := MatchHere(re[1..], text);
      return;
    }
    var i := 0;
    while true
      invariant 0 <= i <= |text| && forall j :: 0 <= j < i ==> !Begins(Parse(re), text[j..])
      decreases |text| - i
    {
      var b := MatchHere(re, text[i..]);
      if b {
        return true;
      }
      if i == |text| {
        return false;
      }
      i := i + 1;
    }
  }

  // ----- lines

  const SIZE: int := 1024

  /** The position of the first `c` at or after `p`, or the length. */
  function Index(s: string, c: char, p: nat): (k: nat)
    requires p <= |s|
    ensures p <= k <= |s| && (k < |s| ==> s[k] == c) && forall i :: p <= i < k ==> s[i] != c
    decreases |s| - p
  {
    if p == |s| || s[p] == c then p else Index(s, c, p + 1)
  }

  /** A C string ends at its first NUL. */
  function BeforeNul(s: string): (t: string) {
    s[..Index(s, '\0', 0)]
  }

  /** What grep should print: the matching lines in order, each with its newline, up to the first line that
      does not fit into the buffer. */
  ghost function Matching(re: string, s: string): (out: string)
    decreases |s|
  {
    var k := Index(s, '\n', 0);
    if k == |s| || k + 1 > SIZE - 1 then ""
    else (if Contains(re, s[..k]) then s[..k + 1] else "") + Matching(re, s[k + 1..])
  }

  /** The first `c` does not depend on what follows it. */
  lemma IndexIs(s: string, c: char, k: nat)
    requires k < |s| && s[k] == c && forall i :: 0 <= i < k ==> s[i] != c
    ensures Index(s, c, 0) == k
  {
  }

  /** strchr(p, '\n'): it stops at a NUL. */
  method FindNewline(buf: array<char>, p: int, m: int) returns (q: int)
    requires 0 <= p <= m < buf.Length && buf[m] == '\0'
    ensures q != -1 ==> p <= q < m && buf[q] == '\n' && forall i :: p <= i < q ==> buf[i] != '\n' && buf[i] != '\0'
    ensures q == -1 ==> '\n' !in BeforeNul(buf[p..m])
  {
    q := p;
    while buf[q] != '\0'
      invariant p <= q <= m && forall i :: p <= i < q ==> buf[i] != '\n' && buf[i] != '\0'
      decreases m - q
    {
      if buf[q] == '\n' {
        return;
      }
      q := q + 1;
    }
    assert forall i :: 0 <= i < q - p ==> buf[p..m][i] == buf[p + i];
    if q < m {
      assert buf[p..m][q - p] == '\0';
    }
    q := -1;
  }

  lemma MatchingStep(re: string, s: string, k: nat, rest: string)
    requires k < |s| && s[k] == '\n' && (forall i :: 0 <= i < k ==> s[i] != '\n' && s[i] != '\0') && k + 1 <= SIZE - 1
    ensures Matching(re, BeforeNul(s + rest)) == (if Contains(re, s[..k]) then s[..k + 1] else "")
            + Matching(re, BeforeNul(s[k + 1..] + rest))
  {
    var u, v := s + rest, s[k + 1..] + rest;
    assert u == s[..k + 1] + v;
    AfterPrefix(s[..k + 1], v);
    var t := BeforeNul(u);
    IndexIs(t, '\n', k);
    assert t[..k] == s[..k] && t[..k + 1] == s[..k + 1] && t[k + 1..] == BeforeNul(v);
  }

  lemma AfterPrefix(s: string, t: string)
    requires '\0' !in s
    ensures BeforeNul(s + t) == s + BeforeNul(t)
  {
    var u, k := s + t, Index(t, '\0', 0);
    if k < |t| {
      IndexIs(u, '\0', |s| + k);
    }
    assert Index(u, '\0', 0) == |s| + k;
  }

  /** One line of the inner loop: cut it off with a NUL, and print it if it matches. */
  method OneLine(re: string, buf: array<char>, p: int, q: int, m: int) returns (line: string)
    requires 0 <= p <= q < m < buf.Length && buf[q] == '\n'
    modifies buf
    ensures buf[q + 1..m] == old(buf[q + 1..m]) && buf[m] == old(buf[m])
    ensures line == if Contains(re, old(buf[p..q])) then old(buf[p..q + 1]) else ""
  {
    var text := buf[p..q];
    buf[q] := '\0';
    var b := Match(re, text);
    line := "";
    if b {
      buf[q] := '\n';
      line := buf[p..q + 1];
    }
  }

  /** The line from p to q, in a buffer that holds `t`. */
  lemma ScanStep(re: string, t: string, p: int, q: int, m: int, rest: string)
    requires 0 <= p <= q < m <= |t| && m <= SIZE - 1 && t[q] == '\n'
    requires forall i :: p <= i < q ==> t[i] != '\n' && t[i] != '\0'
    ensures Matching(re, BeforeNul(t[p..m] + rest))
            == (if Contains(re, t[p..q]) then t[p..q + 1] else "") + Matching(re, BeforeNul(t[q + 1..m] + rest))
  {
    hide Matching, Contains, BeforeNul;
    var s := t[p..m];
    MatchingStep(re, s, q - p, rest);
    assert s[..q - p] == t[p..q];
    assert s[..q - p + 1] == t[p..q + 1];
    assert s[q - p + 1..] == t[q + 1..m];
  }

  /** grep's inner loop: print the matching lines among the first m characters of the buffer, up to a NUL. */
  method ScanLines(re: string, buf: array<char>, m: int, ghost rest: string) returns (out: string, p: int)
    requires buf.Length == SIZE && 0 <= m <= SIZE - 1 && buf[m] == '\0'
    modifies buf
    ensures 0 <= p <= m && '\n' !in BeforeNul(buf[p..m])
    ensures out + Matching(re, BeforeNul(buf[p..m] + rest)) == Matching(re, BeforeNul(old(buf[..m]) + rest))
  {
    hide Matching, Contains, BeforeNul;
    out, p := "", 0;
    assert buf[0..m] == buf[..m];
    while true
      invariant 0 <= p <= m && buf[m] == '\0'
      invariant out + Matching(re, BeforeNul(buf[p..m] + rest)) == Matching(re, BeforeNul(old(buf[..m]) + rest))
      decreases m - p
    {
      var q := FindNewline(buf, p, m);
      if q == -1 {
        break;
      }
      ScanStep(re, buf[..], p, q, m, rest);
      var line := OneLine(re, buf, p, q, m);
      ghost var next := Matching(re, BeforeNul(buf[q + 1..m] + rest));
      assert (out + line) + next == out + (line + next);
      out := out + line;
      p := q + 1;
    }
  }

  /** Without a newline before the first NUL, or in a buffer-full, nothing more is printed. */
  lemma MatchingNone(re: string, s: string, rest: string)
    requires '\n' !in BeforeNul(s) && (rest == "" || |s| >= SIZE - 1)
    ensures Matching(re, BeforeNul(s + rest)) == ""
  {
    var k := Index(s, '\0', 0);
    if k < |s| {
      IndexIs(s + rest, '\0', k);
      assert BeforeNul(s + rest) == s[..k];
    } else {
      AfterPrefix(s, rest);
      assert s[..k] == s;
    }
  }

  /** grep: whatever sizes the reads have, exactly the matching lines before the first NUL are printed. */
  method Search(re: string, input: string) returns (out: string)
    ensures out == Matching(re, BeforeNul(input))
  {
    hide Matching, BeforeNul;
    var buf := new char[SIZE];
    var rest := input;
    out := "";
    var m := 0;
    assert buf[..0] + rest == input;
    NothingYet();
    while true
      invariant 0 <= m <= SIZE - 1 && out + Matching(re, BeforeNul(buf[..m] + rest)) == Matching(re, BeforeNul(input))
      invariant '\n' !in BeforeNul(buf[..m])
      decreases |rest|
    {
      var room := SIZE - m - 1;
      if room == 0 || rest == "" {
        break;
      }
      var n :| 1 <= n <= room && n <= |rest|;
      ghost var was := buf[..m];
      Fill(buf, m, rest[..n]);
      m := m + n;
      ghost var filled := buf[..m];
      buf[m] := '\0';
      assert buf[..m] == filled;
      assert was + rest == (was + rest[..n]) + rest[n..];
      rest := rest[n..];
      var more, p := ScanLines(re, buf, m, rest);
      ghost var kept := buf[p..m];
      assert (out + more) + Matching(re, BeforeNul(kept + rest)) == out + (more + Matching(re, BeforeNul(kept + rest)));
      out := out + more;
      MoveDown(buf, p, m);
      m := m - p;
    }
    MatchingNone(re, buf[..m], rest);
  }

  lemma NothingYet()
    ensures BeforeNul("") == ""
  {
  }

  /** read(fd, buf + m, ...) */
  method Fill(buf: array<char>, m: int, bytes: string)
    requires 0 <= m && m + |bytes| <= buf.Length
    modifies buf
    ensures buf[..m + |bytes|] == old(buf[..m]) + bytes
  {
    var i := 0;
    while i < |bytes|
      invariant 0 <= i <= |bytes| && buf[..m] == old(buf[..m]) && buf[m..m + i] == bytes[..i]
    {
      buf[m + i] := bytes[i];
      i := i + 1;
    }
    assert buf[..m + |bytes|] == buf[..m] + buf[m..m + |bytes|];
  }

  /** memmove(buf, p, m - p) */
  method MoveDown(buf: array<char>, p: int, m: int)
    requires 0 <= p <= m <= buf.Length
    modifies buf
    ensures buf[..m - p] == old(buf[p..m])
  {
    var i := 0;
    while i < m - p
      invariant 0 <= i <= m - p && forall j :: p + i <= j < m ==> buf[j] == old(buf[j])
      invariant forall j :: 0 <= j < i ==> buf[j] == old(buf[p..m])[j]
    {
      assert old(buf[p..m])[i] == old(buf[p + i]);
      buf[i] := buf[p + i];
      i := i + 1;
    }
  }

  // ----- the same by lines

  /** The newline-terminated lines of a text, without their newlines. */
  function Lines(s: string): (r: seq<string>)
    decreases |s|
  {
    var k := Index(s, '\n', 0);
    if k == |s| then [] else [s[..k]] + Lines(s[k + 1..])
  }

  function Joined(lines: seq<string>): (s: string) {
    if lines == [] then "" else lines[0] + "\n" + Joined(lines[1..])
  }

  /** A text made of lines, and of a rest without a newline, has those lines. */
  lemma {:induction false} LinesOf(lines: seq<string>, rest: string)
    requires '\n' !in rest && forall i :: 0 <= i < |lines| ==> '\n' !in lines[i]
    ensures Lines(Joined(lines) + rest) == lines
    decreases |lines|
  {
    var s := Joined(lines) + rest;
    if lines == [] {
      assert s == rest;
    } else {
      var k := |lines[0]|;
      assert s == lines[0] + "\n" + (Joined(lines[1..]) + rest);
      IndexIs(s, '\n', k);
      assert s[..k] == lines[0] && s[k + 1..] == Joined(lines[1..]) + rest;
      LinesOf(lines[1..], rest);
    }
  }

  ghost function Printed(re: string, lines: seq<string>): (out: string) {
    if lines == [] then "" else (if Contains(re, lines[0]) then lines[0] + "\n" else "") + Printed(re, lines[1..])
  }

  /** The lines before the first one that does not fit into the buffer. */
  function Fitting(lines: seq<string>): (r: seq<string>) {
    if lines == [] || |lines[0]| + 1 > SIZE - 1 then [] else [lines[0]] + Fitting(lines[1..])
  }

  lemma {:induction false} FittingAll(lines: seq<string>)
    requires forall i :: 0 <= i < |lines| ==> |lines[i]| + 1 <= SIZE - 1
    ensures Fitting(lines) == lines
  {
    if lines != [] {
      FittingAll(lines[1..]);
    }
  }

  lemma LinesStep(s: string)
    requires Index(s, '\n', 0) < |s|
    ensures var k := Index(s, '\n', 0); Lines(s) != [] && Lines(s)[0] == s[..k] && Lines(s)[1..] == Lines(s[k + 1..])
  {
  }

  /** grep prints exactly the matching lines before the first overlong one, in order; if no line is longer
      than 1023 bytes with its newline, exactly the matching lines. */
  lemma {:induction false} PrintsMatchingLines(re: string, s: string)
    ensures Matching(re, s) == Printed(re, Fitting(Lines(s)))
    ensures (forall i :: 0 <= i < |Lines(s)| ==> |Lines(s)[i]| + 1 <= 1023) ==>
              Matching(re, s) == Printed(re, Lines(s))
    decreases |s|
  {
    hide Contains, Index;
    var k := Index(s, '\n', 0);
    if k < |s| {
      PrintsMatchingLines(re, s[k + 1..]);
      LinesStep(s);
      assert s[..k + 1] == s[..k] + "\n";
      if k + 1 <= SIZE - 1 {
        var f := Fitting(Lines(s));
        assert f[1..] == Fitting(Lines(s)[1..]);
      }
    }
    if forall i :: 0 <= i < |Lines(s)| ==> |Lines(s)[i]| + 1 <= 1023 {
      FittingAll(Lines(s));
    }
  }
}
