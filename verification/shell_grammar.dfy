/** The shell's command language: tokens, the grammar of user/sh.c over them, and the round trip from
    trees to text and back. */
module ShellGrammar {
  const MAXARGS: int := 10

  datatype Kind = In | Out | Append    // <, >, >>

  /** A command, with the texts of its words. */
  datatype Tree =
    | Exec(args: seq<string>)
    | Redir(cmd: Tree, file: string, kind: Kind)
    | Pipe(left: Tree, right: Tree)
    | List(left: Tree, right: Tree)
    | Back(cmd: Tree)

  datatype Token = Sym(c: char) | Twice | Word(text: string)    // Twice is >>

  datatype Parsed = Ok(tree: Tree, rest: seq<Token>) | Panic

  // ----- characters

  predicate Blank(c: char) {
    c == ' ' || c == '\t' || c == '\r' || c == '\n' || c == '\U{000B}'
  }

  predicate Symbol(c: char) {
    c == '<' || c == '|' || c == '>' || c == '&' || c == ';' || c == '(' || c == ')'
  }

  predicate Plain(c: char) {
    !Blank(c) && !Symbol(c) && c != '\0'
  }

  // ----- tokens of a text

  /** The end of the plain characters from position i on. */
  function WordEnd(s: string, i: nat): (k: nat)
    requires i <= |s|
    ensures i <= k <= |s| && (forall j :: i <= j < k ==> !Blank(s[j]) && !Symbol(s[j]))
            && (k < |s| ==> Blank(s[k]) || Symbol(s[k]))
    decreases |s| - i
  {
    if i < |s| && !Blank(s[i]) && !Symbol(s[i]) then WordEnd(s, i + 1) else i
  }

  function Lex(s: string): (ts: seq<Token>)
    decreases |s|
  {
    if s == "" then []
    else if Blank(s[0]) then Lex(s[1..])
    else if s[0] == '>' && |s| >= 2 && s[1] == '>' then [Twice] + Lex(s[2..])
    else if Symbol(s[0]) then [Sym(s[0])] + Lex(s[1..])
    else [Word(s[..WordEnd(s, 1)])] + Lex(s[WordEnd(s, 1)..])
  }

  // ----- the grammar

  predicate Starts(ts: seq<Token>, toks: string) {
    ts != [] && ((ts[0].Sym? && ts[0].c in toks) || (ts[0].Twice? && '>' in toks))
  }

  function KindOf(t: Token): (k: Kind) {
    if t == Sym('<') then In else if t == Twice then Append else Out
  }

  /** Redirections, the first one innermost. */
  function ParseRedirs(cmd: Tree, ts: seq<Token>): (r: Parsed)
    ensures r.Ok? ==> |r.rest| <= |ts|
    decreases |ts|
  {
    if !Starts(ts, "<>") then Ok(cmd, ts)
    else if |ts| < 2 || !ts[1].Word? then Panic
    else ParseRedirs(Redir(cmd, ts[1].text, KindOf(ts[0])), ts[2..])
  }

  /** Another argument for the command inside the redirections. */
  function AddArg(t: Tree, w: string): (r: Tree) {
    match t
    case Redir(c, f, k) => Redir(AddArg(c, w), f, k)
    case Exec(args) => Exec(args + [w])
    case _ => t
  }

  /** Words and redirections in any order; n words have been read. */
  function ParseArgs(cmd: Tree, n: int, ts: seq<Token>): (r: Parsed)
    ensures r.Ok? ==> |r.rest| <= |ts|
    decreases |ts|
  {
    if Starts(ts, "|)&;") || ts == [] then Ok(cmd, ts)
    else if !ts[0].Word? || n + 1 >= MAXARGS then Panic
    else
      match ParseRedirs(AddArg(cmd, ts[0].text), ts[1..])
      case Panic => Panic
      case Ok(c, rest) => ParseArgs(c, n + 1, rest)
  }

  function ParseExec(ts: seq<Token>): (r: Parsed)
    ensures r.Ok? ==> |r.rest| <= |ts|
    decreases |ts|, 1
  {
    if Starts(ts, "(") then ParseBlock(ts)
    else
      match ParseRedirs(Exec([]), ts)
      case Panic => Panic
      case Ok(c, rest) => ParseArgs(c, 0, rest)
  }

  function ParseBlock(ts: seq<Token>): (r: Parsed)
    requires Starts(ts, "(")
    ensures r.Ok? ==> |r.rest| < |ts|
    decreases |ts|, 0
  {
    match ParseLine(ts[1..])
    case Panic => Panic
    case Ok(c, rest) => if !Starts(rest, ")") then Panic else ParseRedirs(c, rest[1..])
  }

  function ParsePipe(ts: seq<Token>): (r: Parsed)
    ensures r.Ok? ==> |r.rest| <= |ts|
    decreases |ts|, 2
  {
    match ParseExec(ts)
    case Panic => Panic
    case Ok(c, rest) =>
      if !Starts(rest, "|") then Ok(c, rest) else
        match ParsePipe(rest[1..])
        case Panic => Panic
        case Ok(d, rest') => Ok(Pipe(c, d), rest')
  }

  function ParseBacks(cmd: Tree, ts: seq<Token>): (r: Parsed)
    ensures r.Ok? && |r.rest| <= |ts|
    decreases |ts|
  {
    if Starts(ts, "&") then ParseBacks(Back(cmd), ts[1..]) else Ok(cmd, ts)
  }

  function ParseLine(ts: seq<Token>): (r: Parsed)
    ensures r.Ok? ==> |r.rest| <= |ts|
    decreases |ts|, 3
  {
    match ParsePipe(ts)
    case Panic => Panic
    case Ok(c, rest) =>
      var b := ParseBacks(c, rest);
      if !Starts(b.rest, ";") then b else
        match ParseLine(b.rest[1..])
        case Panic => Panic
        case Ok(d, rest') => Ok(List(b.tree, d), rest')
  }

  /** The whole text must be used. */
  function ParseCmd(ts: seq<Token>): (r: Parsed) {
    match ParseLine(ts)
    case Panic => Panic
    case Ok(c, rest) => if rest == [] then Ok(c, []) else Panic
  }

  // ----- printing

  function OpToken(k: Kind): (t: Token) {
    match k case In => Sym('<') case Out => Sym('>') case Append => Twice
  }

  function Words(args: seq<string>): (ts: seq<Token>)
    ensures |ts| == |args|
  {
    if args == [] then [] else [Word(args[0])] + Words(args[1..])
  }

  function Paren(ts: seq<Token>): (r: seq<Token>) {
    [Sym('(')] + ts + [Sym(')')]
  }

  /** A command with every part in parentheses. */
  function Tokens(t: Tree): (ts: seq<Token>) {
    match t
    case Exec(args) => Words(args)
    case Redir(c, f, k) => Paren(Tokens(c)) + [OpToken(k), Word(f)]
    case Pipe(l, r) => Paren(Tokens(l)) + [Sym('|')] + Paren(Tokens(r))
    case List(l, r) => Paren(Tokens(l)) + [Sym(';')] + Paren(Tokens(r))
    case Back(c) => Paren(Tokens(c)) + [Sym('&')]
  }

  function Text(t: Token): (s: string) {
    match t case Sym(c) => [c] case Twice => ">>" case Word(w) => w
  }

  function Show(ts: seq<Token>): (s: string) {
    if ts == [] then "" else Text(ts[0]) + " " + Show(ts[1..])
  }

  function Print(t: Tree): (s: string) {
    Show(Tokens(t))
  }

  // ----- what can be printed

  predicate GoodWord(w: string) {
    w != "" && forall i :: 0 <= i < |w| ==> Plain(w[i])
  }

  predicate Good(t: Tree) {
    match t
    case Exec(args) => |args| < MAXARGS && forall i :: 0 <= i < |args| ==> GoodWord(args[i])
    case Redir(c, f, _) => Good(c) && GoodWord(f)
    case Pipe(l, r) => Good(l) && Good(r)
    case List(l, r) => Good(l) && Good(r)
    case Back(c) => Good(c)
  }

  predicate GoodToken(t: Token) {
    match t case Sym(c) => Symbol(c) case Twice => true case Word(w) => GoodWord(w)
  }

  // ----- reading back what was printed

  /** Where a parenthesised command may end. */
  predicate Closed(rest: seq<Token>) {
    rest == [] || rest[0] == Sym(')')
  }

  lemma {:induction false} ArgsBack(done: seq<string>, args: seq<string>, rest: seq<Token>)
    requires Closed(rest) && |done| + |args| < MAXARGS
    ensures ParseArgs(Exec(done), |done|, Words(args) + rest) == Ok(Exec(done + args), rest)
    decreases |args|
  {
    var ts := Words(args) + rest;
    if args == [] {
      assert ts == rest && done + args == done;
    } else {
      assert ts[0] == Word(args[0]) && ts[1..] == Words(args[1..]) + rest;
      assert !Starts(ts[1..], "<>") by {
        assert args[1..] != [] ==> ts[1..][0] == Word(args[1]);
        assert args[1..] == [] ==> ts[1..] == rest;
      }
      ArgsBack(done + [args[0]], args[1..], rest);
      assert done + [args[0]] + args[1..] == done + args;
    }
  }

  /** A block is read up to its closing parenthesis, and then its redirections. */
  lemma BlockBack(ts: seq<Token>, t: Tree, more: seq<Token>)
    requires ParseLine(ts + ([Sym(')')] + more)) == Ok(t, [Sym(')')] + more)
    ensures ParseExec(Paren(ts) + more) == ParseRedirs(t, more)
  {
    var all := Paren(ts) + more;
    assert all[1..] == ts + ([Sym(')')] + more);
    assert ([Sym(')')] + more)[1..] == more;
  }

  lemma NoRedirs(t: Tree, more: seq<Token>)
    requires more == [] || (more[0].Sym? && more[0].c in "|);&")
    ensures ParseRedirs(t, more) == Ok(t, more)
  {
  }

  lemma RedirBack(c: Tree, f: string, k: Kind, rest: seq<Token>)
    requires Closed(rest)
    ensures ParseRedirs(c, [OpToken(k), Word(f)] + rest) == Ok(Redir(c, f, k), rest)
  {
    var more := [OpToken(k), Word(f)] + rest;
    assert more[2..] == rest && more[0] == OpToken(k) && more[1] == Word(f);
    NoRedirs(Redir(c, f, k), rest);
  }

  /** A line that is one block. */
  lemma AloneBack(ts: seq<Token>, t: Tree, rest: seq<Token>)
    requires ParseExec(ts) == Ok(t, rest) && Closed(rest)
    ensures ParsePipe(ts) == Ok(t, rest) && ParseLine(ts) == Ok(t, rest)
  {
  }

  lemma PipeBack(ts: seq<Token>, l: Tree, second: seq<Token>, r: Tree, rest: seq<Token>)
    requires ParseExec(ts) == Ok(l, [Sym('|')] + second) && ParsePipe(second) == Ok(r, rest) && Closed(rest)
    ensures ParseLine(ts) == Ok(Pipe(l, r), rest)
  {
    assert ([Sym('|')] + second)[1..] == second;
  }

  lemma ListBack(ts: seq<Token>, l: Tree, second: seq<Token>, r: Tree, rest: seq<Token>)
    requires ParseExec(ts) == Ok(l, [Sym(';')] + second) && ParseLine(second) == Ok(r, rest)
    ensures ParseLine(ts) == Ok(List(l, r), rest)
  {
    assert ([Sym(';')] + second)[1..] == second;
  }

  lemma BackBack(ts: seq<Token>, c: Tree, rest: seq<Token>)
    requires ParseExec(ts) == Ok(c, [Sym('&')] + rest) && Closed(rest)
    ensures ParseLine(ts) == Ok(Back(c), rest)
  {
    assert ([Sym('&')] + rest)[1..] == rest;
    assert ParseBacks(Back(c), rest) == Ok(Back(c), rest);
  }

  lemma Regroup(a: seq<Token>, b: seq<Token>, c: seq<Token>, d: seq<Token>)
    ensures a + b + c + d == a + (b + (c + d)) && a + b + d == a + (b + d)
  {
  }

  /** Every good tree is read back from its tokens, and what follows it is left. */
  lemma {:induction false} TreeBack(t: Tree, rest: seq<Token>)
    requires Good(t) && Closed(rest)
    ensures ParseLine(Tokens(t) + rest) == Ok(t, rest)
    decreases t, 0
  {
    hide ParseLine, ParsePipe, ParseExec, ParseRedirs, Paren;
    match t
    case Exec(args) => ExecBack(args, rest);
    case Redir(c, f, k) =>
      var more := [OpToken(k), Word(f)] + rest;
      TreeBack(c, [Sym(')')] + more);
      BlockBack(Tokens(c), c, more);
      RedirBack(c, f, k, rest);
      Regroup(Paren(Tokens(c)), [OpToken(k), Word(f)], [], rest);
      AloneBack(Tokens(t) + rest, t, rest);
    case Pipe(l, r) =>
      var second := Paren(Tokens(r)) + rest;
      BlockOnly(l, [Sym('|')] + second);
      BlockOnly(r, rest);
      AloneBack(second, r, rest);
      Regroup(Paren(Tokens(l)), [Sym('|')], Paren(Tokens(r)), rest);
      PipeBack(Tokens(t) + rest, l, second, r, rest);
    case List(l, r) =>
      var second := Paren(Tokens(r)) + rest;
      BlockOnly(l, [Sym(';')] + second);
      BlockOnly(r, rest);
      AloneBack(second, r, rest);
      Regroup(Paren(Tokens(l)), [Sym(';')], Paren(Tokens(r)), rest);
      ListBack(Tokens(t) + rest, l, second, r, rest);
    case Back(c) =>
      BlockOnly(c, [Sym('&')] + rest);
      Regroup(Paren(Tokens(c)), [Sym('&')], [], rest);
      BackBack(Tokens(t) + rest, c, rest);
  }

  lemma {:induction false} BlockOnly(t: Tree, more: seq<Token>)
    requires Good(t) && (more == [] || (more[0].Sym? && more[0].c in "|);&"))
    ensures ParseExec(Paren(Tokens(t)) + more) == Ok(t, more)
    decreases t, 1
  {
    TreeBack(t, [Sym(')')] + more);
    BlockBack(Tokens(t), t, more);
    NoRedirs(t, more);
  }

  lemma ExecBack(args: seq<string>, rest: seq<Token>)
    requires Good(Exec(args)) && Closed(rest)
    ensures ParseLine(Words(args) + rest) == Ok(Exec(args), rest)
  {
    var ts := Words(args) + rest;
    assert args != [] ==> ts[0] == Word(args[0]);
    assert args == [] ==> ts == rest;
    ArgsBack([], args, rest);
    assert [] + args == args;
    NoRedirs(Exec([]), rest);
    assert ParseRedirs(Exec([]), ts) == Ok(Exec([]), ts);
    assert ParseExec(ts) == Ok(Exec(args), rest);
  }

  // ----- and from the printed text

  lemma WordEndIs(s: string, i: nat, k: nat)
    requires i <= k <= |s| && (forall j :: i <= j < k ==> !Blank(s[j]) && !Symbol(s[j]))
             && (k < |s| ==> Blank(s[k]) || Symbol(s[k]))
    ensures WordEnd(s, i) == k
  {
  }

  lemma LexToken(t: Token, rest: string)
    requires GoodToken(t)
    ensures Lex(Text(t) + " " + rest) == [t] + Lex(rest)
  {
    var s := Text(t) + " " + rest;
    var n := |Text(t)|;
    assert s[n..] == " " + rest && s[n] == ' ';
    assert (" " + rest)[1..] == rest;
    assert Lex(" " + rest) == Lex(rest);
    if t.Word? {
      assert forall j :: 0 <= j < n ==> s[j] == t.text[j];
      WordEndIs(s, 1, n);
      assert s[..n] == t.text;
    } else if t.Sym? {
      assert s[1..] == " " + rest;
    } else {
      assert s[2..] == " " + rest;
    }
  }

  lemma {:induction false} LexShow(ts: seq<Token>)
    requires forall i :: 0 <= i < |ts| ==> GoodToken(ts[i])
    ensures Lex(Show(ts)) == ts
  {
    if ts != [] {
      LexToken(ts[0], Show(ts[1..]));
      LexShow(ts[1..]);
    }
  }

  lemma {:induction false} TokensGood(t: Tree)
    requires Good(t)
    ensures forall i :: 0 <= i < |Tokens(t)| ==> GoodToken(Tokens(t)[i])
  {
    hide Words, GoodWord;
    match t
    case Exec(args) => WordsGood(args);
    case Redir(c, f, k) => TokensGood(c);
    case Pipe(l, r) => TokensGood(l); TokensGood(r);
    case List(l, r) => TokensGood(l); TokensGood(r);
    case Back(c) => TokensGood(c);
  }

  lemma {:induction false} WordsGood(args: seq<string>)
    requires forall i :: 0 <= i < |args| ==> GoodWord(args[i])
    ensures forall i :: 0 <= i < |args| ==> GoodToken(Words(args)[i])
  {
    if args != [] {
      WordsGood(args[1..]);
    }
  }

  /** The round trip: every tree with non-empty symbol-free words and fewer than MAXARGS arguments is read
      back from its printed text, and all of the text is used. */
  lemma {:induction false} RoundTrip(t: Tree)
    requires Good(t)
    ensures ParseCmd(Lex(Print(t))) == Ok(t, [])
  {
    TokensGood(t);
    LexShow(Tokens(t));
    TreeBack(t, []);
    assert Tokens(t) + [] == Tokens(t);
  }
}
