/** What the tokens of a text are, independent of how they are found: the text is the tokens written one after the
    other, with blanks before, between and after them as one likes, but for two words, or `>` and what would make
    it `>>`, which need a blank between them. */
module ShellLex {
  import opened ShellGrammar

  lemma Characters(c: char)
    ensures Blank(c) <==> c in " \t\r\n\U{000B}"
    ensures Symbol(c) <==> c in "<|>&;()"
  {
  }

  datatype Piece = Piece(blanks: string, token: Token)

  function Spell(ps: seq<Piece>, tail: string): (s: string) {
    if ps == [] then tail else ps[0].blanks + (Text(ps[0].token) + Spell(ps[1..], tail))
  }

  function TokensOf(ps: seq<Piece>): (ts: seq<Token>) {
    if ps == [] then [] else [ps[0].token] + TokensOf(ps[1..])
  }

  predicate AllBlank(s: string) {
    forall i :: 0 <= i < |s| ==> Blank(s[i])
  }

  predicate Solid(t: Token) {
    match t
    case Sym(c) => Symbol(c)
    case Twice => true
    case Word(w) => w != "" && forall i :: 0 <= i < |w| ==> !Blank(w[i]) && !Symbol(w[i])
  }

  /** Written without a blank, these would be read as something else. */
  predicate RunTogether(a: Token, b: Token) {
    (a.Word? && b.Word?) || (a == Sym('>') && (b == Sym('>') || b == Twice))
  }

  predicate Spelled(ps: seq<Piece>, tail: string) {
    if ps == [] then AllBlank(tail) else
      && AllBlank(ps[0].blanks) && Solid(ps[0].token) && Spelled(ps[1..], tail)
      && (|ps| > 1 && RunTogether(ps[0].token, ps[1].token) ==> ps[1].blanks != "")
  }

  lemma {:induction false} SkipBlanks(b: string, s: string)
    requires AllBlank(b)
    ensures Lex(b + s) == Lex(s)
    decreases |b|
  {
    if b == "" {
      assert b + s == s;
    } else {
      assert (b + s)[0] == b[0] && (b + s)[1..] == b[1..] + s;
      SkipBlanks(b[1..], s);
    }
  }

  /** How a spelled text may begin. */
  lemma Begins(ps: seq<Piece>, tail: string)
    requires Spelled(ps, tail)
    ensures var s := Spell(ps, tail);
            && (s == "" || Blank(s[0]) || (ps != [] && ps[0].blanks == "" && s[0] == Text(ps[0].token)[0]))
            && (ps != [] && ps[0].blanks == "" ==> s != "" && s[0] == Text(ps[0].token)[0])
  {
    if ps != [] {
      var s := Spell(ps, tail);
      if ps[0].blanks != "" {
        assert s[0] == ps[0].blanks[0];
      } else {
        assert s == Text(ps[0].token) + Spell(ps[1..], tail);
      }
    }
  }

  /** What may follow a token without a blank. */
  predicate Stops(t: Token, s: string) {
    || s == ""
    || (t.Word? && (Blank(s[0]) || Symbol(s[0])))
    || (t == Sym('>') && s[0] != '>')
    || (!t.Word? && t != Sym('>'))
  }

  lemma ReadToken(t: Token, s: string)
    requires Solid(t) && Stops(t, s)
    ensures Lex(Text(t) + s) == [t] + Lex(s)
  {
    var all, n := Text(t) + s, |Text(t)|;
    assert all[n..] == s && all[..n] == Text(t);
    match t
    case Word(w) =>
      assert forall j :: 0 <= j < n ==> all[j] == w[j];
      WordEndIs(all, 1, n);
    case Sym(c) => assert all[0] == c && all[1..] == s;
    case Twice => assert all[0] == '>' && all[1] == '>' && all[2..] == s;
  }

  lemma NextStops(ps: seq<Piece>, tail: string)
    requires ps != [] && Spelled(ps, tail)
    ensures Stops(ps[0].token, Spell(ps[1..], tail))
  {
    Begins(ps[1..], tail);
  }

  lemma {:induction false} SpellingIsRead(ps: seq<Piece>, tail: string)
    requires Spelled(ps, tail)
    ensures Lex(Spell(ps, tail)) == TokensOf(ps)
  {
    hide Lex, Stops, Solid;
    if ps == [] {
      SkipBlanks(tail, "");
      assert tail + "" == tail;
      NoText();
    } else {
      NextStops(ps, tail);
      ReadToken(ps[0].token, Spell(ps[1..], tail));
      SkipBlanks(ps[0].blanks, Text(ps[0].token) + Spell(ps[1..], tail));
      SpellingIsRead(ps[1..], tail);
    }
  }

  lemma NoText()
    ensures Lex("") == []
  {
  }

  // ----- every text is spelled in this way

  lemma MoreBlanks(c: char, ps: seq<Piece>, tail: string) returns (qs: seq<Piece>, tail': string)
    requires Blank(c) && Spelled(ps, tail)
    ensures Spelled(qs, tail') && Spell(qs, tail') == [c] + Spell(ps, tail) && TokensOf(qs) == TokensOf(ps)
  {
    if ps == [] {
      qs, tail' := [], [c] + tail;
    } else {
      qs, tail' := [Piece([c] + ps[0].blanks, ps[0].token)] + ps[1..], tail;
      BlankFirst(c, ps, tail);
    }
  }

  lemma BlankFirst(c: char, ps: seq<Piece>, tail: string)
    requires Blank(c) && Spelled(ps, tail) && ps != []
    ensures var qs := [Piece([c] + ps[0].blanks, ps[0].token)] + ps[1..];
            Spelled(qs, tail) && Spell(qs, tail) == [c] + Spell(ps, tail) && TokensOf(qs) == TokensOf(ps)
  {
    hide Text, Solid, RunTogether, Blank;
    var qs := [Piece([c] + ps[0].blanks, ps[0].token)] + ps[1..];
    assert qs[1..] == ps[1..] && qs[0] == Piece([c] + ps[0].blanks, ps[0].token);
    Prefixed(c, ps[0].blanks, Text(ps[0].token) + Spell(ps[1..], tail));
  }

  lemma Prefixed(c: char, b: string, s: string)
    ensures ([c] + b) + s == [c] + (b + s)
  {
  }

  lemma MoreToken(t: Token, ps: seq<Piece>, tail: string)
    requires Solid(t) && Spelled(ps, tail) && Stops(t, Spell(ps, tail))
    ensures var qs := [Piece("", t)] + ps;
            Spelled(qs, tail) && Spell(qs, tail) == Text(t) + Spell(ps, tail) && TokensOf(qs) == [t] + TokensOf(ps)
  {
    var qs := [Piece("", t)] + ps;
    assert qs[1..] == ps;
    Begins(ps, tail);
    if ps != [] && RunTogether(t, ps[0].token) && ps[0].blanks == "" {
      Clash(t, ps, tail);
    }
  }

  lemma Clash(t: Token, ps: seq<Piece>, tail: string)
    requires Solid(t) && Spelled(ps, tail) && ps != [] && RunTogether(t, ps[0].token) && ps[0].blanks == ""
    ensures !Stops(t, Spell(ps, tail))
  {
    Begins(ps, tail);
  }

  /** The first token of a text. */
  lemma FirstToken(s: string) returns (t: Token, rest: string)
    requires s != "" && !Blank(s[0])
    ensures Solid(t) && s == Text(t) + rest && Stops(t, rest) && Lex(s) == [t] + Lex(rest) && |rest| < |s|
  {
    if s[0] == '>' && |s| >= 2 && s[1] == '>' {
      t, rest := Twice, s[2..];
      assert s == ">>" + s[2..];
    } else if Symbol(s[0]) {
      t, rest := Sym(s[0]), s[1..];
      assert s == [s[0]] + s[1..];
    } else {
      var k := WordEnd(s, 1);
      t, rest := Word(s[..k]), s[k..];
      assert s == s[..k] + s[k..];
    }
  }

  lemma {:induction false} TextIsSpelled(s: string) returns (ps: seq<Piece>, tail: string)
    ensures Spelled(ps, tail) && Spell(ps, tail) == s && TokensOf(ps) == Lex(s)
    decreases |s|
  {
    if s == "" {
      ps, tail := [], "";
    } else if Blank(s[0]) {
      ps, tail := TextIsSpelled(s[1..]);
      ps, tail := MoreBlanks(s[0], ps, tail);
      assert s == [s[0]] + s[1..];
    } else {
      var t, rest := FirstToken(s);
      ps, tail := TextIsSpelled(rest);
      MoreToken(t, ps, tail);
      ps := [Piece("", t)] + ps;
    }
  }

  ghost predicate Spells(s: string, ts: seq<Token>) {
    exists ps, tail :: Spelled(ps, tail) && Spell(ps, tail) == s && TokensOf(ps) == ts
  }

  /** The tokens of a text are these exactly if the text spells them. */
  lemma {:induction false} LexIsSpelling(s: string, ts: seq<Token>)
    ensures Lex(s) == ts <==> Spells(s, ts)
  {
    hide Lex, Spelled, Spell;
    if Lex(s) == ts {
      var ps, tail := TextIsSpelled(s);
    }
    if ps, tail :| Spelled(ps, tail) && Spell(ps, tail) == s && TokensOf(ps) == ts {
      SpellingIsRead(ps, tail);
    }
  }
}
