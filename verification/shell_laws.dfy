/** The language of user/sh.c as a grammar, independent of how it is parsed: a line is pipelines separated by `;`,
    each with any number of `&`; a pipeline is elements separated by `|`; an element is words and redirections in any
    order, or a line in parentheses with redirections after it. The parser accepts exactly these, and gives each the
    tree that it means. */
module ShellLaws {
  import opened ShellGrammar

  datatype Redirection = Redirection(kind: Kind, file: string)

  datatype Item = Arg(w: string) | To(r: Redirection)

  datatype Elem = Simple(items: seq<Item>) | Group(line: Line, tail: seq<Redirection>)

  datatype Pipeline = One(e: Elem) | More(e: Elem, p: Pipeline)

  datatype Line = End(p: Pipeline, backs: nat) | Then(p: Pipeline, backs: nat, l: Line)

  // ----- the tokens of each

  function RedirectionTokens(r: Redirection): (ts: seq<Token>) {
    [match r.kind case In => Sym('<') case Out => Sym('>') case Append => Twice, Word(r.file)]
  }

  function TailTokens(rs: seq<Redirection>): (ts: seq<Token>) {
    if rs == [] then [] else RedirectionTokens(rs[0]) + TailTokens(rs[1..])
  }

  function ItemTokens(i: Item): (ts: seq<Token>) {
    match i case Arg(w) => [Word(w)] case To(r) => RedirectionTokens(r)
  }

  function ItemsTokens(items: seq<Item>): (ts: seq<Token>) {
    if items == [] then [] else ItemTokens(items[0]) + ItemsTokens(items[1..])
  }

  function ElemTokens(e: Elem): (ts: seq<Token>) {
    match e
    case Simple(items) => ItemsTokens(items)
    case Group(l, tail) => [Sym('(')] + LineTokens(l) + [Sym(')')] + TailTokens(tail)
  }

  function PipelineTokens(p: Pipeline): (ts: seq<Token>) {
    match p
    case One(e) => ElemTokens(e)
    case More(e, q) => ElemTokens(e) + [Sym('|')] + PipelineTokens(q)
  }

  function Ands(n: nat): (ts: seq<Token>) {
    if n == 0 then [] else [Sym('&')] + Ands(n - 1)
  }

  function LineTokens(l: Line): (ts: seq<Token>) {
    match l
    case End(p, n) => PipelineTokens(p) + Ands(n)
    case Then(p, n, m) => PipelineTokens(p) + Ands(n) + [Sym(';')] + LineTokens(m)
  }

  // ----- what each means

  function WordsOf(items: seq<Item>): (ws: seq<string>) {
    if items == [] then [] else (if items[0].Arg? then [items[0].w] else []) + WordsOf(items[1..])
  }

  function RedirsOf(items: seq<Item>): (rs: seq<Redirection>) {
    if items == [] then [] else (if items[0].To? then [items[0].r] else []) + RedirsOf(items[1..])
  }

  /** A command inside redirections, the first of them innermost. */
  function Wrap(t: Tree, rs: seq<Redirection>): (r: Tree)
    decreases |rs|
  {
    if rs == [] then t else Wrap(Redir(t, rs[0].file, rs[0].kind), rs[1..])
  }

  function Backed(t: Tree, n: nat): (r: Tree)
    decreases n
  {
    if n == 0 then t else Backed(Back(t), n - 1)
  }

  function Meaning(e: Elem): (t: Tree) {
    match e
    case Simple(items) => Wrap(Exec(WordsOf(items)), RedirsOf(items))
    case Group(l, tail) => Wrap(LineMeaning(l), tail)
  }

  function PipelineMeaning(p: Pipeline): (t: Tree) {
    match p
    case One(e) => Meaning(e)
    case More(e, q) => Pipe(Meaning(e), PipelineMeaning(q))
  }

  function LineMeaning(l: Line): (t: Tree) {
    match l
    case End(p, n) => Backed(PipelineMeaning(p), n)
    case Then(p, n, m) => List(Backed(PipelineMeaning(p), n), LineMeaning(m))
  }

  // ----- which are allowed

  predicate Allowed(e: Elem) {
    match e
    case Simple(items) => |WordsOf(items)| < MAXARGS
    case Group(l, tail) => LineAllowed(l)
  }

  predicate PipelineAllowed(p: Pipeline) {
    match p
    case One(e) => Allowed(e)
    case More(e, q) => Allowed(e) && PipelineAllowed(q)
  }

  predicate LineAllowed(l: Line) {
    match l
    case End(p, _) => PipelineAllowed(p)
    case Then(p, _, m) => PipelineAllowed(p) && LineAllowed(m)
  }

  // ----- every allowed line is parsed to what it means

  /** The next token is one of these symbols, if there is one. */
  predicate Next(rest: seq<Token>, cs: string) {
    rest == [] || (rest[0].Sym? && rest[0].c in cs)
  }

  /** The loop of parseexec: redirections, then words with redirections after them. */
  function ParseItems(t: Tree, n: int, ts: seq<Token>): (r: Parsed) {
    match ParseRedirs(t, ts)
    case Panic => Panic
    case Ok(c, rest) => ParseArgs(c, n, rest)
  }

  /** A word is added inside the redirections read so far. */
  lemma {:induction false} AddInside(t: Tree, rs: seq<Redirection>, w: string)
    requires t.Exec? || t.Redir?
    ensures AddArg(Wrap(t, rs), w) == Wrap(AddArg(t, w), rs)
    decreases |rs|
  {
    if rs != [] {
      AddInside(Redir(t, rs[0].file, rs[0].kind), rs[1..], w);
    }
  }

  lemma {:induction false} WrapMore(t: Tree, rs: seq<Redirection>, more: seq<Redirection>)
    ensures Wrap(Wrap(t, rs), more) == Wrap(t, rs + more)
    decreases |rs|
  {
    if rs == [] {
      assert rs + more == more;
    } else {
      WrapMore(Redir(t, rs[0].file, rs[0].kind), rs[1..], more);
      assert (rs + more)[1..] == rs[1..] + more;
    }
  }

  lemma Assoc<T>(x: seq<T>, y: seq<T>, z: seq<T>)
    ensures x + (y + z) == (x + y) + z
  {
  }

  /** One redirection is read. */
  lemma RedirRead(t: Tree, r: Redirection, more: seq<Token>)
    ensures ParseRedirs(t, RedirectionTokens(r) + more) == ParseRedirs(Redir(t, r.file, r.kind), more)
  {
    var ts := RedirectionTokens(r) + more;
    assert ts[2..] == more && ts[1] == Word(r.file);
  }

  /** A word is read. */
  lemma ArgRead(t: Tree, n: int, w: string, more: seq<Token>)
    requires n + 1 < MAXARGS
    ensures ParseItems(t, n, [Word(w)] + more) == ParseItems(AddArg(t, w), n + 1, more)
  {
    var ts := [Word(w)] + more;
    assert ts[1..] == more && ts[0] == Word(w);
  }

  lemma ItemsEnd(t: Tree, n: int, rest: seq<Token>)
    requires Next(rest, "|)&;")
    ensures ParseItems(t, n, rest) == Ok(t, rest)
  {
  }

  lemma {:induction false} ItemsParsed(ws: seq<string>, rs: seq<Redirection>, items: seq<Item>, rest: seq<Token>)
    requires |ws| + |WordsOf(items)| < MAXARGS && Next(rest, "|)&;")
    ensures ParseItems(Wrap(Exec(ws), rs), |ws|, ItemsTokens(items) + rest)
            == Ok(Wrap(Exec(ws + WordsOf(items)), rs + RedirsOf(items)), rest)
    decreases |items|
  {
    hide ParseItems, AddArg, Wrap, Next;
    if items == [] {
      ItemsEnd(Wrap(Exec(ws), rs), |ws|, rest);
      assert ws + [] == ws && rs + [] == rs && [] + rest == rest;
    } else {
      var more := ItemsTokens(items[1..]) + rest;
      assert ItemsTokens(items) + rest == ItemTokens(items[0]) + more;
      if items[0].Arg? {
        ItemsArg(ws, rs, items[0].w, more);
        ItemsParsed(ws + [items[0].w], rs, items[1..], rest);
        assert ws + [items[0].w] + WordsOf(items[1..]) == ws + WordsOf(items);
        assert RedirsOf(items) == RedirsOf(items[1..]);
      } else {
        ItemsTo(ws, rs, items[0].r, more);
        ItemsParsed(ws, rs + [items[0].r], items[1..], rest);
        assert rs + [items[0].r] + RedirsOf(items[1..]) == rs + RedirsOf(items);
        assert WordsOf(items) == WordsOf(items[1..]);
      }
    }
  }

  lemma ItemsArg(ws: seq<string>, rs: seq<Redirection>, w: string, more: seq<Token>)
    requires |ws| + 1 < MAXARGS
    ensures ParseItems(Wrap(Exec(ws), rs), |ws|, ItemTokens(Arg(w)) + more)
            == ParseItems(Wrap(Exec(ws + [w]), rs), |ws + [w]|, more)
  {
    hide ParseItems, Wrap;
    ArgRead(Wrap(Exec(ws), rs), |ws|, w, more);
    AddInside(Exec(ws), rs, w);
  }

  lemma ItemsTo(ws: seq<string>, rs: seq<Redirection>, r: Redirection, more: seq<Token>)
    ensures ParseItems(Wrap(Exec(ws), rs), |ws|, ItemTokens(To(r)) + more)
            == ParseItems(Wrap(Exec(ws), rs + [r]), |ws|, more)
  {
    hide ParseRedirs;
    RedirRead(Wrap(Exec(ws), rs), r, more);
    WrapMore(Exec(ws), rs, [r]);
    WrapOne(Wrap(Exec(ws), rs), r);
  }

  lemma WrapOne(t: Tree, r: Redirection)
    ensures Wrap(t, [r]) == Redir(t, r.file, r.kind)
  {
    assert [r][1..] == [];
  }

  lemma {:induction false} TailParsed(t: Tree, tail: seq<Redirection>, rest: seq<Token>)
    requires Next(rest, "|)&;")
    ensures ParseRedirs(t, TailTokens(tail) + rest) == Ok(Wrap(t, tail), rest)
    decreases |tail|
  {
    if tail == [] {
      assert [] + rest == rest;
    } else {
      var more := TailTokens(tail[1..]) + rest;
      assert TailTokens(tail) + rest == RedirectionTokens(tail[0]) + more;
      RedirRead(t, tail[0], more);
      TailParsed(Redir(t, tail[0].file, tail[0].kind), tail[1..], rest);
    }
  }

  lemma {:induction false} AndsParsed(t: Tree, n: nat, rest: seq<Token>)
    requires Next(rest, ");")
    ensures ParseBacks(t, Ands(n) + rest) == Ok(Backed(t, n), rest)
    decreases n
  {
    var ts := Ands(n) + rest;
    if n == 0 {
      assert ts == rest;
    } else {
      assert ts[0] == Sym('&') && ts[1..] == Ands(n - 1) + rest;
      AndsParsed(Back(t), n - 1, rest);
    }
  }

  /** A simple command: all its words in order, inside all its redirections, the first one innermost. */
  lemma {:induction false} SimpleParsed(items: seq<Item>, rest: seq<Token>)
    requires |WordsOf(items)| < MAXARGS && Next(rest, "|)&;")
    ensures ParseExec(ItemsTokens(items) + rest) == Ok(Wrap(Exec(WordsOf(items)), RedirsOf(items)), rest)
  {
    hide Wrap, ParseArgs, ParseRedirs;
    var ts := ItemsTokens(items) + rest;
    ItemsParsed([], [], items, rest);
    WrapNone(Exec([]));
    assert [] + WordsOf(items) == WordsOf(items) && [] + RedirsOf(items) == RedirsOf(items);
    assert !Starts(ts, "(") by {
      if items == [] {
        assert ts == rest;
      } else {
        assert ts[0] == ItemTokens(items[0])[0];
      }
    }
  }

  lemma WrapNone(t: Tree)
    ensures Wrap(t, []) == t
  {
  }

  lemma {:induction false} ElemParsed(e: Elem, rest: seq<Token>)
    requires Allowed(e) && Next(rest, "|)&;")
    ensures ParseExec(ElemTokens(e) + rest) == Ok(Meaning(e), rest)
    decreases e, 0
  {
    hide ParseExec, ParseLine, ParseRedirs, Wrap;
    match e
    case Simple(items) => SimpleParsed(items, rest);
    case Group(l, tail) =>
      var more := TailTokens(tail) + rest;
      LineParsed(l, [Sym(')')] + more);
      GroupRead(LineTokens(l), LineMeaning(l), more);
      TailParsed(LineMeaning(l), tail, rest);
      assert ElemTokens(e) + rest == [Sym('(')] + LineTokens(l) + [Sym(')')] + more;
  }

  /** A group is read up to its closing parenthesis, and then its redirections. */
  lemma GroupRead(ts: seq<Token>, t: Tree, more: seq<Token>)
    requires ParseLine(ts + ([Sym(')')] + more)) == Ok(t, [Sym(')')] + more)
    ensures ParseExec([Sym('(')] + ts + [Sym(')')] + more) == ParseRedirs(t, more)
  {
    var all := [Sym('(')] + ts + [Sym(')')] + more;
    assert all[0] == Sym('(') && all[1..] == ts + ([Sym(')')] + more);
    assert ([Sym(')')] + more)[1..] == more;
  }

  lemma {:induction false} PipelineParsed(p: Pipeline, rest: seq<Token>)
    requires PipelineAllowed(p) && Next(rest, ")&;")
    ensures ParsePipe(PipelineTokens(p) + rest) == Ok(PipelineMeaning(p), rest)
    decreases p, 0
  {
    hide ParseExec;
    match p
    case One(e) => ElemParsed(e, rest);
    case More(e, q) =>
      var more := PipelineTokens(q) + rest;
      ElemParsed(e, [Sym('|')] + more);
      PipelineParsed(q, rest);
      assert ([Sym('|')] + more)[1..] == more;
      Assoc(ElemTokens(e), [Sym('|')], PipelineTokens(q));
      assert PipelineTokens(p) + rest == ElemTokens(e) + ([Sym('|')] + more);
  }

  lemma LineRead(ts: seq<Token>, c: Tree, n: nat, rest: seq<Token>)
    requires ParsePipe(ts) == Ok(c, Ands(n) + rest) && Next(rest, ");")
    ensures Starts(rest, ";") ==>
              ParseLine(ts) == match ParseLine(rest[1..]) case Panic => Panic case Ok(d, r) => Ok(List(Backed(c, n), d),
                    r)
    ensures !Starts(rest, ";") ==> ParseLine(ts) == Ok(Backed(c, n), rest)
  {
    hide ParsePipe, ParseBacks;
    AndsParsed(c, n, rest);
  }

  lemma {:induction false} LineParsed(l: Line, rest: seq<Token>)
    requires LineAllowed(l) && Next(rest, ")")
    ensures ParseLine(LineTokens(l) + rest) == Ok(LineMeaning(l), rest)
    decreases l, 0
  {
    hide ParsePipe, ParseLine, PipelineTokens, PipelineMeaning, Backed;
    var p, n := l.p, l.backs;
    if l.End? {
      EndNext(n, rest);
      PipelineParsed(p, Ands(n) + rest);
      assert LineTokens(l) + rest == PipelineTokens(p) + (Ands(n) + rest);
      LineRead(LineTokens(l) + rest, PipelineMeaning(p), n, rest);
    } else {
      var more := LineTokens(l.l) + rest;
      EndNext(n, [Sym(';')] + more);
      PipelineParsed(p, Ands(n) + ([Sym(';')] + more));
      Assoc(PipelineTokens(p) + Ands(n), [Sym(';')], LineTokens(l.l));
      assert LineTokens(l) + rest == PipelineTokens(p) + (Ands(n) + ([Sym(';')] + more));
      LineRead(LineTokens(l) + rest, PipelineMeaning(p), n, [Sym(';')] + more);
      assert ([Sym(';')] + more)[1..] == more;
      LineParsed(l.l, rest);
    }
  }

  lemma EndNext(n: nat, rest: seq<Token>)
    requires Next(rest, ");")
    ensures Next(Ands(n) + rest, ")&;")
  {
    assert n == 0 ==> Ands(n) + rest == rest;
  }

  // ----- and nothing else is parsed

  lemma OneRedirection(t: Tree, ts: seq<Token>)
    requires Starts(ts, "<>") && ParseRedirs(t, ts).Ok?
    ensures |ts| >= 2 && ts[1].Word?
    ensures var r := Redirection(KindOf(ts[0]), ts[1].text);
            ts == RedirectionTokens(r) + ts[2..] && ParseRedirs(t, ts) == ParseRedirs(Redir(t, r.file, r.kind), ts[2..])
  {
    var r := Redirection(KindOf(ts[0]), ts[1].text);
    assert ts[0] == RedirectionTokens(r)[0];
    assert ts == [ts[0], ts[1]] + ts[2..];
  }

  lemma {:induction false} TailFound(t: Tree, ts: seq<Token>) returns (tail: seq<Redirection>)
    requires ParseRedirs(t, ts).Ok?
    ensures ts == TailTokens(tail) + ParseRedirs(t, ts).rest && ParseRedirs(t, ts).tree == Wrap(t, tail)
    decreases |ts|
  {
    hide RedirectionTokens, KindOf;
    if Starts(ts, "<>") {
      OneRedirection(t, ts);
      var r := Redirection(KindOf(ts[0]), ts[1].text);
      var more := TailFound(Redir(t, r.file, r.kind), ts[2..]);
      tail := [r] + more;
      assert tail[1..] == more && tail[0] == r;
      Assoc(RedirectionTokens(r), TailTokens(more), ParseRedirs(t, ts).rest);
    } else {
      tail := [];
    }
  }

  lemma OneWord(t: Tree, n: int, ts: seq<Token>)
    requires !Starts(ts, "<>") && !(Starts(ts, "|)&;") || ts == []) && ParseItems(t, n, ts).Ok?
    ensures ts[0].Word? && n + 1 < MAXARGS && ts == [Word(ts[0].text)] + ts[1..]
    ensures ParseItems(t, n, ts) == ParseItems(AddArg(t, ts[0].text), n + 1, ts[1..])
  {
  }

  lemma {:induction false} ItemsFound(ws: seq<string>, rs: seq<Redirection>, ts: seq<Token>) returns (items: seq<Item>)
    requires |ws| < MAXARGS && ParseItems(Wrap(Exec(ws), rs), |ws|, ts).Ok?
    ensures var r := ParseItems(Wrap(Exec(ws), rs), |ws|, ts);
            && ts == ItemsTokens(items) + r.rest && |ws| + |WordsOf(items)| < MAXARGS
            && r.tree == Wrap(Exec(ws + WordsOf(items)), rs + RedirsOf(items))
    decreases |ts|
  {
    hide ParseItems, AddArg, Wrap, ParseRedirs;
    var t := Wrap(Exec(ws), rs);
    var r := ParseItems(t, |ws|, ts);
    if Starts(ts, "<>") {
      RedirsThenItems(t, |ws|, ts);
      OneRedirection(t, ts);
      var d := Redirection(KindOf(ts[0]), ts[1].text);
      ItemsTo(ws, rs, d, ts[2..]);
      var more := ItemsFound(ws, rs + [d], ts[2..]);
      items := [To(d)] + more;
      assert items[1..] == more;
      Assoc(RedirectionTokens(d), ItemsTokens(more), r.rest);
      assert WordsOf(items) == WordsOf(more) && rs + [d] + RedirsOf(more) == rs + RedirsOf(items);
    } else if Starts(ts, "|)&;") || ts == [] {
      items := [];
      ItemsEnd(t, |ws|, ts);
      assert ws + [] == ws && rs + [] == rs;
    } else {
      OneWord(t, |ws|, ts);
      var w := ts[0].text;
      ItemsArg(ws, rs, w, ts[1..]);
      var more := ItemsFound(ws + [w], rs, ts[1..]);
      items := [Arg(w)] + more;
      assert items[1..] == more;
      Assoc([Word(w)], ItemsTokens(more), r.rest);
      assert RedirsOf(items) == RedirsOf(more) && ws + [w] + WordsOf(more) == ws + WordsOf(items);
    }
  }

  lemma RedirsThenItems(t: Tree, n: int, ts: seq<Token>)
    requires ParseItems(t, n, ts).Ok?
    ensures ParseRedirs(t, ts).Ok?
  {
  }

  lemma ExecIsItems(ts: seq<Token>)
    requires !Starts(ts, "(")
    ensures ParseExec(ts) == ParseItems(Exec([]), 0, ts)
  {
  }

  lemma {:induction false} ElemFound(ts: seq<Token>) returns (e: Elem)
    requires ParseExec(ts).Ok?
    ensures Allowed(e) && ts == ElemTokens(e) + ParseExec(ts).rest && ParseExec(ts).tree == Meaning(e)
    decreases |ts|, 0
  {
    hide ParseExec, ParseLine, ParseRedirs, Wrap;
    var r := ParseExec(ts);
    if Starts(ts, "(") {
      GroupSteps(ts);
      var inner := ParseLine(ts[1..]);
      var l := LineFound(ts[1..]);
      var tail := TailFound(inner.tree, inner.rest[1..]);
      e := Group(l, tail);
      assert ts == [Sym('(')] + ts[1..];
      assert inner.rest == [Sym(')')] + inner.rest[1..];
      assert ts == ElemTokens(e) + r.rest;
    } else {
      ExecIsItems(ts);
      WrapNone(Exec([]));
      var items := ItemsFound([], [], ts);
      e := Simple(items);
      assert [] + WordsOf(items) == WordsOf(items) && [] + RedirsOf(items) == RedirsOf(items);
    }
  }

  lemma GroupSteps(ts: seq<Token>)
    requires Starts(ts, "(") && ParseExec(ts).Ok?
    ensures ts[0] == Sym('(') && ParseLine(ts[1..]).Ok? && ParseLine(ts[1..]).rest != []
    ensures ParseLine(ts[1..]).rest[0] == Sym(')')
    ensures ParseExec(ts) == ParseRedirs(ParseLine(ts[1..]).tree, ParseLine(ts[1..]).rest[1..])
  {
  }

  lemma {:induction false} PipelineFound(ts: seq<Token>) returns (p: Pipeline)
    requires ParsePipe(ts).Ok?
    ensures PipelineAllowed(p) && ts == PipelineTokens(p) + ParsePipe(ts).rest
            && ParsePipe(ts).tree == PipelineMeaning(p)
    decreases |ts|, 1
  {
    hide ParseExec;
    var first := ParseExec(ts);
    var e := ElemFound(ts);
    if Starts(first.rest, "|") {
      var q := PipelineFound(first.rest[1..]);
      p := More(e, q);
      assert first.rest == [Sym('|')] + first.rest[1..];
      assert ts == PipelineTokens(p) + ParsePipe(ts).rest;
    } else {
      p := One(e);
    }
  }

  lemma {:induction false} AndsFound(t: Tree, ts: seq<Token>) returns (n: nat)
    ensures ts == Ands(n) + ParseBacks(t, ts).rest && ParseBacks(t, ts).tree == Backed(t, n)
    decreases |ts|
  {
    if Starts(ts, "&") {
      var k := AndsFound(Back(t), ts[1..]);
      n := k + 1;
      assert ts == [Sym('&')] + ts[1..];
      assert Ands(n) == [Sym('&')] + Ands(k);
    } else {
      n := 0;
    }
  }

  lemma {:induction false} LineFound(ts: seq<Token>) returns (l: Line)
    requires ParseLine(ts).Ok?
    ensures LineAllowed(l) && ts == LineTokens(l) + ParseLine(ts).rest && ParseLine(ts).tree == LineMeaning(l)
    decreases |ts|, 2
  {
    hide ParsePipe, ParseBacks;
    var first := ParsePipe(ts);
    var p := PipelineFound(ts);
    var n := AndsFound(first.tree, first.rest);
    var b := ParseBacks(first.tree, first.rest);
    if Starts(b.rest, ";") {
      var m := LineFound(b.rest[1..]);
      l := Then(p, n, m);
      assert b.rest == [Sym(';')] + b.rest[1..];
      assert ts == LineTokens(l) + ParseLine(ts).rest;
    } else {
      l := End(p, n);
      assert ts == LineTokens(l) + b.rest;
    }
  }

  /** The parser and the grammar agree: a sequence of tokens is parsed to a tree exactly if it is a line that is
      allowed and means that tree. */
  lemma {:induction false} ParserIsGrammar(ts: seq<Token>, t: Tree)
    ensures ParseCmd(ts) == Ok(t, []) <==> exists l :: LineAllowed(l) && LineTokens(l) == ts && LineMeaning(l) == t
  {
    hide ParseLine;
    if ParseCmd(ts) == Ok(t, []) {
      var l := LineFound(ts);
      assert LineTokens(l) + [] == LineTokens(l);
    }
    if l :| LineAllowed(l) && LineTokens(l) == ts && LineMeaning(l) == t {
      LineParsed(l, []);
      assert LineTokens(l) + [] == LineTokens(l);
    }
  }

  // ----- commands without parentheses, written out

  function Args(ws: seq<string>): (items: seq<Item>) {
    if ws == [] then [] else [Arg(ws[0])] + Args(ws[1..])
  }

  lemma {:induction false} ArgsAreWords(ws: seq<string>)
    ensures ItemsTokens(Args(ws)) == Words(ws) && WordsOf(Args(ws)) == ws && RedirsOf(Args(ws)) == []
  {
    if ws != [] {
      ArgsAreWords(ws[1..]);
      assert Args(ws)[1..] == Args(ws[1..]);
    }
  }

  lemma {:induction false} TokensAppend(a: seq<Item>, b: seq<Item>)
    ensures ItemsTokens(a + b) == ItemsTokens(a) + ItemsTokens(b)
  {
    hide ItemTokens;
    if a == [] {
      assert a + b == b;
    } else {
      TokensAppend(a[1..], b);
      assert (a + b)[1..] == a[1..] + b && (a + b)[0] == a[0];
      Assoc(ItemTokens(a[0]), ItemsTokens(a[1..]), ItemsTokens(b));
    }
  }

  lemma {:induction false} WordsAppend(a: seq<Item>, b: seq<Item>)
    ensures WordsOf(a + b) == WordsOf(a) + WordsOf(b)
  {
    if a == [] {
      assert a + b == b;
    } else {
      WordsAppend(a[1..], b);
      assert (a + b)[1..] == a[1..] + b && (a + b)[0] == a[0];
      Assoc(if a[0].Arg? then [a[0].w] else [], WordsOf(a[1..]), WordsOf(b));
    }
  }

  lemma {:induction false} RedirsAppend(a: seq<Item>, b: seq<Item>)
    ensures RedirsOf(a + b) == RedirsOf(a) + RedirsOf(b)
  {
    if a == [] {
      assert a + b == b;
    } else {
      RedirsAppend(a[1..], b);
      assert (a + b)[1..] == a[1..] + b && (a + b)[0] == a[0];
      Assoc(if a[0].To? then [a[0].r] else [], RedirsOf(a[1..]), RedirsOf(b));
    }
  }

  lemma ItemsAppend(a: seq<Item>, b: seq<Item>)
    ensures ItemsTokens(a + b) == ItemsTokens(a) + ItemsTokens(b)
    ensures WordsOf(a + b) == WordsOf(a) + WordsOf(b) && RedirsOf(a + b) == RedirsOf(a) + RedirsOf(b)
  {
    TokensAppend(a, b);
    WordsAppend(a, b);
    RedirsAppend(a, b);
  }

  lemma OneItem(r: Redirection)
    ensures ItemsTokens([To(r)]) == RedirectionTokens(r) && WordsOf([To(r)]) == [] && RedirsOf([To(r)]) == [r]
  {
    assert [To(r)][1..] == [];
  }

  /** `a > f b >> g c` in any arrangement: two redirections among the words of a command wrap the whole command, the
      first inside the second; the words keep their order. */
  lemma {:induction false} RedirectedCommand(a: seq<string>, f: string, b: seq<string>, g: string, c: seq<string>)
    requires |a| + |b| + |c| < 10
    ensures ParseCmd(Words(a) + [Sym('>'), Word(f)] + Words(b) + [Twice, Word(g)] + Words(c))
            == Ok(Redir(Redir(Exec(a + b + c), f, Out), g, Append), [])
    ensures ParseCmd(Words(a) + [Sym('<'), Word(f)] + Words(b) + [Sym('>'), Word(g)] + Words(c))
            == Ok(Redir(Redir(Exec(a + b + c), f, In), g, Out), [])
  {
    hide ParseCmd;
    TwoRedirections(a, Redirection(Out, f), b, Redirection(Append, g), c);
    TwoRedirections(a, Redirection(In, f), b, Redirection(Out, g), c);
  }

  lemma TwoRedirections(a: seq<string>, r: Redirection, b: seq<string>, q: Redirection, c: seq<string>)
    requires |a| + |b| + |c| < MAXARGS
    ensures ParseCmd(Words(a) + RedirectionTokens(r) + Words(b) + RedirectionTokens(q) + Words(c))
            == Ok(Redir(Redir(Exec(a + b + c), r.file, r.kind), q.file, q.kind), [])
  {
    hide ParseCmd, ItemsTokens, WordsOf, RedirsOf, Args, Wrap, RedirectionTokens, LineTokens, LineMeaning, LineAllowed;
    var items := TwoAmong(a, r, b, q, c);
    SimpleLine(items);
    WrapTwo(Exec(a + b + c), r, q);
  }

  lemma TwoAmong(a: seq<string>, r: Redirection, b: seq<string>, q: Redirection, c: seq<string>)
    returns (items: seq<Item>)
    ensures ItemsTokens(items) == Words(a) + RedirectionTokens(r) + Words(b) + RedirectionTokens(q) + Words(c)
    ensures WordsOf(items) == a + b + c && RedirsOf(items) == [r, q]
  {
    hide ItemsTokens, WordsOf, RedirsOf, Args, Words, RedirectionTokens;
    ArgsAreWords(a);
    ArgsAreWords(b);
    ArgsAreWords(c);
    OneItem(r);
    OneItem(q);
    var i2 := Args(a) + [To(r)];
    ItemsAppend(Args(a), [To(r)]);
    var i3 := i2 + Args(b);
    ItemsAppend(i2, Args(b));
    var i4 := i3 + [To(q)];
    ItemsAppend(i3, [To(q)]);
    items := i4 + Args(c);
    ItemsAppend(i4, Args(c));
  }

  /** A line that is one simple command. */
  lemma SimpleLine(items: seq<Item>)
    requires |WordsOf(items)| < MAXARGS
    ensures ParseCmd(ItemsTokens(items)) == Ok(Wrap(Exec(WordsOf(items)), RedirsOf(items)), [])
  {
    hide ParseLine, ItemsTokens, WordsOf, RedirsOf, Wrap;
    var e := Simple(items);
    OneIs(e);
    EndIs(One(e), 0);
    LineParsed(End(One(e), 0), []);
    assert ItemsTokens(items) + [] == ItemsTokens(items);
  }

  lemma OneIs(e: Elem)
    ensures PipelineAllowed(One(e)) == Allowed(e) && PipelineTokens(One(e)) == ElemTokens(e)
            && PipelineMeaning(One(e)) == Meaning(e)
  {
  }

  lemma MoreIs(e: Elem, p: Pipeline)
    ensures PipelineAllowed(More(e, p)) == (Allowed(e) && PipelineAllowed(p))
    ensures PipelineTokens(More(e, p)) == ElemTokens(e) + [Sym('|')] + PipelineTokens(p)
    ensures PipelineMeaning(More(e, p)) == Pipe(Meaning(e), PipelineMeaning(p))
  {
  }

  lemma EndIs(p: Pipeline, n: nat)
    ensures LineAllowed(End(p, n)) == PipelineAllowed(p)
    ensures LineTokens(End(p, n)) == PipelineTokens(p) + Ands(n)
            && LineMeaning(End(p, n)) == Backed(PipelineMeaning(p), n)
    ensures n == 0 ==> LineTokens(End(p, n)) == PipelineTokens(p) && LineMeaning(End(p, n)) == PipelineMeaning(p)
    ensures n == 1 ==> Ands(n) == [Sym('&')] && LineMeaning(End(p, n)) == Back(PipelineMeaning(p))
  {
  }

  lemma ThenIs(p: Pipeline, n: nat, l: Line)
    ensures LineAllowed(Then(p, n, l)) == (PipelineAllowed(p) && LineAllowed(l))
    ensures LineTokens(Then(p, n, l)) == PipelineTokens(p) + Ands(n) + [Sym(';')] + LineTokens(l)
    ensures LineMeaning(Then(p, n, l)) == List(Backed(PipelineMeaning(p), n), LineMeaning(l))
    ensures n == 0 ==> Ands(n) == [] && Backed(PipelineMeaning(p), n) == PipelineMeaning(p)
    ensures n == 1 ==> Ands(n) == [Sym('&')] && Backed(PipelineMeaning(p), n) == Back(PipelineMeaning(p))
  {
  }

  lemma CmdIs(l: Line)
    requires LineAllowed(l)
    ensures ParseCmd(LineTokens(l)) == Ok(LineMeaning(l), [])
  {
    hide ParseLine, LineAllowed, LineTokens, LineMeaning;
    LineParsed(l, []);
    assert LineTokens(l) + [] == LineTokens(l);
  }

  lemma WrapTwo(t: Tree, r: Redirection, q: Redirection)
    ensures Wrap(t, [r, q]) == Redir(Redir(t, r.file, r.kind), q.file, q.kind)
  {
    WrapOne(Redir(t, r.file, r.kind), q);
    assert [r, q][1..] == [q];
  }

  function Plainly(ws: seq<string>): (e: Elem) {
    Simple(Args(ws))
  }

  lemma PlainlyIs(ws: seq<string>)
    requires |ws| < 10
    ensures Allowed(Plainly(ws)) && ElemTokens(Plainly(ws)) == Words(ws) && Meaning(Plainly(ws)) == Exec(ws)
    ensures PipelineAllowed(One(Plainly(ws))) && PipelineTokens(One(Plainly(ws))) == Words(ws)
    ensures PipelineMeaning(One(Plainly(ws))) == Exec(ws)
  {
    hide Words, Args, WordsOf, RedirsOf, ItemsTokens;
    ArgsAreWords(ws);
    OneIs(Plainly(ws));
  }

  /** `a | b | c` groups to the right. */
  lemma {:induction false} PipedCommands(a: seq<string>, b: seq<string>, c: seq<string>)
    requires |a| < 10 && |b| < 10 && |c| < 10
    ensures ParseCmd(Words(a) + [Sym('|')] + Words(b) + [Sym('|')] + Words(c))
            == Ok(Pipe(Exec(a), Pipe(Exec(b), Exec(c))), [])
  {
    hide *;
    PlainlyIs(a);
    PlainlyIs(b);
    PlainlyIs(c);
    var p := More(Plainly(b), One(Plainly(c)));
    MoreIs(Plainly(b), One(Plainly(c)));
    var q := More(Plainly(a), p);
    MoreIs(Plainly(a), p);
    EndIs(q, 0);
    CmdIs(End(q, 0));
    assert LineTokens(End(q, 0)) == Words(a) + [Sym('|')] + Words(b) + [Sym('|')] + Words(c);
  }

  /** `a ; b & ; c &` groups to the right, and `&` belongs to the command before it. */
  lemma {:induction false} ListedCommands(a: seq<string>, b: seq<string>, c: seq<string>)
    requires |a| < 10 && |b| < 10 && |c| < 10
    ensures ParseCmd(Words(a) + [Sym(';')] + Words(b) + [Sym('&'), Sym(';')] + Words(c) + [Sym('&')])
            == Ok(List(Exec(a), List(Back(Exec(b)), Back(Exec(c)))), [])
  {
    hide *;
    PlainlyIs(a);
    PlainlyIs(b);
    PlainlyIs(c);
    var l1 := End(One(Plainly(c)), 1);
    EndIs(One(Plainly(c)), 1);
    var l2 := Then(One(Plainly(b)), 1, l1);
    ThenIs(One(Plainly(b)), 1, l1);
    var l3 := Then(One(Plainly(a)), 0, l2);
    ThenIs(One(Plainly(a)), 0, l2);
    CmdIs(l3);
    assert LineTokens(l3) == Words(a) + [Sym(';')] + Words(b) + [Sym('&'), Sym(';')] + Words(c) + [Sym('&')];
  }

  /** `a | b ; c`: a pipe binds closer than a list. */
  lemma {:induction false} PipeInList(a: seq<string>, b: seq<string>, c: seq<string>)
    requires |a| < 10 && |b| < 10 && |c| < 10
    ensures ParseCmd(Words(a) + [Sym('|')] + Words(b) + [Sym(';')] + Words(c))
            == Ok(List(Pipe(Exec(a), Exec(b)), Exec(c)), [])
  {
    hide *;
    PlainlyIs(a);
    PlainlyIs(b);
    PlainlyIs(c);
    var p := More(Plainly(a), One(Plainly(b)));
    MoreIs(Plainly(a), One(Plainly(b)));
    var l := End(One(Plainly(c)), 0);
    EndIs(One(Plainly(c)), 0);
    ThenIs(p, 0, l);
    CmdIs(Then(p, 0, l));
    assert LineTokens(Then(p, 0, l)) == Words(a) + [Sym('|')] + Words(b) + [Sym(';')] + Words(c);
  }

  /** `( a ; b ) > f`: the whole group is redirected. */
  lemma {:induction false} RedirectedGroup(a: seq<string>, b: seq<string>, f: string)
    requires |a| < 10 && |b| < 10
    ensures ParseCmd([Sym('(')] + Words(a) + [Sym(';')] + Words(b) + [Sym(')'), Sym('>'), Word(f)])
            == Ok(Redir(List(Exec(a), Exec(b)), f, Out), [])
  {
    hide *;
    PlainlyIs(a);
    PlainlyIs(b);
    EndIs(One(Plainly(b)), 0);
    var l := Then(One(Plainly(a)), 0, End(One(Plainly(b)), 0));
    ThenIs(One(Plainly(a)), 0, End(One(Plainly(b)), 0));
    var r := Redirection(Out, f);
    GroupIs(l, r);
    OneIs(Group(l, [r]));
    var m := End(One(Group(l, [r])), 0);
    EndIs(One(Group(l, [r])), 0);
    CmdIs(m);
    assert LineTokens(l) == Words(a) + [Sym(';')] + Words(b);
    assert LineTokens(m) == [Sym('(')] + Words(a) + [Sym(';')] + Words(b) + [Sym(')'), Sym('>'), Word(f)];
  }

  lemma GroupIs(l: Line, r: Redirection)
    ensures Allowed(Group(l, [r])) == LineAllowed(l) && Meaning(Group(l, [r])) == Redir(LineMeaning(l), r.file, r.kind)
    ensures ElemTokens(Group(l, [r])) == [Sym('(')] + LineTokens(l) + [Sym(')')] + RedirectionTokens(r)
    ensures r.kind.Out? ==> RedirectionTokens(r) == [Sym('>'), Word(r.file)]
  {
    WrapOne(LineMeaning(l), r);
    assert [r][1..] == [];
    assert TailTokens([r]) == RedirectionTokens(r);
  }

  /** Ten words are too many. */
  lemma {:induction false} TooManyWords(ws: seq<string>)
    requires |ws| >= 10
    ensures ParseCmd(Words(ws)).Panic?
  {
    hide ParseLine, ParseCmd;
    if ParseCmd(Words(ws)).Ok? {
      CmdUsesAll(Words(ws));
      var t := ParseCmd(Words(ws)).tree;
      ParserIsGrammar(Words(ws), t);
      var l :| LineAllowed(l) && LineTokens(l) == Words(ws) && LineMeaning(l) == t;
      OnlyWords(l, ws);
    }
  }

  lemma CmdUsesAll(ts: seq<Token>)
    requires ParseCmd(ts).Ok?
    ensures ParseCmd(ts) == Ok(ParseCmd(ts).tree, [])
  {
  }

  lemma {:induction false} WordsAt(ws: seq<string>, i: nat)
    requires i < |ws|
    ensures Words(ws)[i] == Word(ws[i])
  {
    if i > 0 {
      WordsAt(ws[1..], i - 1);
    }
  }

  lemma {:induction false} ItemsWords(items: seq<Item>, ws: seq<string>)
    requires ItemsTokens(items) == Words(ws)
    ensures WordsOf(items) == ws
    decreases |items|
  {
    if items != [] {
      assert ItemsTokens(items)[0] == ItemTokens(items[0])[0];
      if ws != [] {
        assert ItemsTokens(items[1..]) == Words(ws)[1..] == Words(ws[1..]) by {
          assert ItemTokens(items[0]) == [Word(ws[0])];
          assert ItemsTokens(items)[1..] == ItemsTokens(items[1..]);
        }
        ItemsWords(items[1..], ws[1..]);
      }
    } else {
      assert |Words(ws)| == 0;
    }
  }

  ghost predicate HasSymbol(ts: seq<Token>) {
    exists i :: 0 <= i < |ts| && ts[i].Sym?
  }

  /** A line without symbols is one simple command. */
  lemma SymbolOrSimple(l: Line)
    ensures HasSymbol(LineTokens(l)) || (l.End? && l.backs == 0 && l.p.One? && l.p.e.Simple?)
  {
    var ts, n := LineTokens(l), |PipelineTokens(l.p)|;
    if l.Then? {
      assert ts[n + |Ands(l.backs)|] == Sym(';');
    } else if l.backs > 0 {
      assert ts[n] == Sym('&');
    } else if l.p.More? {
      EndIs(l.p, 0);
      assert ts[|ElemTokens(l.p.e)|] == Sym('|');
    } else if l.p.e.Group? {
      EndIs(l.p, 0);
      assert ts[0] == Sym('(');
    }
  }

  lemma OnlyWords(l: Line, ws: seq<string>)
    requires LineAllowed(l) && LineTokens(l) == Words(ws)
    ensures |ws| < MAXARGS
  {
    var ts := LineTokens(l);
    forall i | 0 <= i < |ts| ensures ts[i].Word? {
      WordsAt(ws, i);
    }
    SymbolOrSimple(l);
    EndIs(l.p, 0);
    OneIs(l.p.e);
    ItemsWords(l.p.e.items, ws);
  }
}
