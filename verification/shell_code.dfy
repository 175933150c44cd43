/** user/sh.c: the parser as it moves its cursor over the command line, and nulterminate. */
module ShellCode {
  import opened ShellGrammar
  import ShellLaws
  import ShellLex

  /** A word in the command line: its start and the position after its end. */
  datatype Span = Span(q: int, eq: int)

  datatype Cmd =
    | ExecCmd(argv: seq<Span>)
    | RedirCmd(cmd: Cmd, file: Span, mode: int, fd: int)
    | PipeCmd(left: Cmd, right: Cmd)
    | ListCmd(left: Cmd, right: Cmd)
    | BackCmd(cmd: Cmd)

  /** A parser's result, or a panic. */
  datatype Result = Some(cmd: Cmd) | Failed

  const O_RDONLY: int := 0x000
  const O_WRONLY: int := 0x001
  const O_CREATE: int := 0x200
  const O_TRUNC: int := 0x400

  function Mode(k: Kind): (m: int) {
    match k case In => O_RDONLY case Out => O_WRONLY + O_CREATE + O_TRUNC case Append => O_WRONLY + O_CREATE
  }

  function Fd(k: Kind): (fd: int) {
    if k.In? then 0 else 1
  }

  /** A span that is a whole word of the command line. */
  predicate IsWord(s: string, w: Span) {
    && 0 <= w.q < w.eq <= |s| && (forall i :: w.q <= i < w.eq ==> Plain(s[i]))
    && (w.eq < |s| ==> !Plain(s[w.eq]))
  }

  /** The command's spans are words, and its redirections are of the three kinds. */
  predicate Shaped(s: string, c: Cmd) {
    match c
    case ExecCmd(argv) => forall i :: 0 <= i < |argv| ==> IsWord(s, argv[i])
    case RedirCmd(d, f, m, fd) => Shaped(s, d) && IsWord(s, f) && exists k: Kind :: m == Mode(k) && fd == Fd(k)
    case PipeCmd(l, r) => Shaped(s, l) && Shaped(s, r)
    case ListCmd(l, r) => Shaped(s, l) && Shaped(s, r)
    case BackCmd(d) => Shaped(s, d)
  }

  function Texts(s: string, argv: seq<Span>): (r: seq<string>)
    requires forall i :: 0 <= i < |argv| ==> IsWord(s, argv[i])
    ensures |r| == |argv|
  {
    if argv == [] then [] else
      var w := argv[|argv| - 1];
      assert IsWord(s, w);
      Texts(s, argv[..|argv| - 1]) + [s[w.q..w.eq]]
  }

  /** The command with the texts of its words. */
  function Meaning(s: string, c: Cmd): (t: Tree)
    requires Shaped(s, c)
  {
    match c
    case ExecCmd(argv) => Exec(Texts(s, argv))
    case RedirCmd(d, f, m, fd) => Redir(Meaning(s, d), s[f.q..f.eq], if m == Mode(In) then In
                                        else if m == Mode(Out) then Out else Append)
    case PipeCmd(l, r) => Pipe(Meaning(s, l), Meaning(s, r))
    case ListCmd(l, r) => List(Meaning(s, l), Meaning(s, r))
    case BackCmd(d) => Back(Meaning(s, d))
  }

  /** cmd->argv[argc] = q: the execcmd below the redirections gets another argument. */
  function WithArg(c: Cmd, w: Span): (r: Cmd) {
    match c
    case RedirCmd(d, f, m, fd) => RedirCmd(WithArg(d, w), f, m, fd)
    case ExecCmd(argv) => ExecCmd(argv + [w])
    case _ => c
  }

  lemma {:induction false} WithArgMeans(s: string, c: Cmd, w: Span)
    requires Shaped(s, c) && IsWord(s, w)
    ensures Shaped(s, WithArg(c, w)) && Meaning(s, WithArg(c, w)) == AddArg(Meaning(s, c), s[w.q..w.eq])
  {
    match c
    case RedirCmd(d, f, m, fd) => WithArgMeans(s, d, w);
    case ExecCmd(argv) => assert (argv + [w])[..|argv|] == argv;
    case _ =>
  }

  predicate NulFree(s: string) {
    forall i :: 0 <= i < |s| ==> s[i] != '\0'
  }

  // ----- tokens from a position on

  lemma LexBlank(s: string, p: nat)
    requires p < |s| && Blank(s[p])
    ensures Lex(s[p..]) == Lex(s[p + 1..])
  {
    assert s[p..][1..] == s[p + 1..];
  }

  lemma LexSymbol(s: string, p: nat)
    requires p < |s| && Symbol(s[p])
    ensures s[p] == '>' && p + 1 < |s| && s[p + 1] == '>' ==> Lex(s[p..]) == [Twice] + Lex(s[p + 2..])
    ensures !(s[p] == '>' && p + 1 < |s| && s[p + 1] == '>') ==> Lex(s[p..]) == [Sym(s[p])] + Lex(s[p + 1..])
  {
    assert s[p..][1..] == s[p + 1..];
    assert p + 1 < |s| ==> s[p..][1] == s[p + 1] && s[p..][2..] == s[p + 2..];
  }

  lemma LexWord(s: string, p: nat, k: nat)
    requires p < k <= |s| && (forall i :: p <= i < k ==> !Blank(s[i]) && !Symbol(s[i]))
             && (k < |s| ==> Blank(s[k]) || Symbol(s[k]))
    ensures Lex(s[p..]) == [Word(s[p..k])] + Lex(s[k..])
  {
    var t := s[p..];
    assert forall i :: 0 <= i < |t| ==> t[i] == s[p + i];
    WordEndIs(t, 1, k - p);
    assert t[..k - p] == s[p..k] && t[k - p..] == s[k..];
  }

  function Code(t: Token): (c: char) {
    match t case Sym(c) => c case Twice => '+' case Word(_) => 'a'
  }

  class Parser {
    const s: string
    var pos: nat

    constructor (line: string)
      requires NulFree(line)
      ensures s == line && pos == 0 && Ok()
    {
      s, pos := line, 0;
    }

    ghost predicate Ok()
      reads this
    {
      pos <= |s| && NulFree(s)
    }

    /** The tokens that are still to be read. */
    ghost function Left(): (ts: seq<Token>)
      requires Ok()
      reads this
    {
      Lex(s[pos..])
    }

    /** Move over blanks. */
    method Skip()
      requires Ok()
      modifies this`pos
      ensures Ok() && old(pos) <= pos && Left() == old(Left()) && (pos < |s| ==> !Blank(s[pos]))
    {
      while pos < |s| && Blank(s[pos])
        invariant Ok() && old(pos) <= pos && Left() == old(Left())
      {
        LexBlank(s, pos);
        pos := pos + 1;
      }
    }

    /** gettoken */
    method GetToken() returns (tok: char, w: Span)
      requires Ok()
      modifies this`pos
      ensures Ok()
      ensures old(Left()) == [] ==> tok == '\0' && Left() == []
      ensures old(Left()) != [] ==>
                tok == Code(old(Left())[0]) && Left() == old(Left())[1..] && tok != '\0'
                    && (tok == 'a' <==> old(Left())[0].Word?)
      ensures old(Left()) != [] && old(Left())[0].Word? ==> IsWord(s, w) && s[w.q..w.eq] == old(Left())[0].text
    {
      hide Lex;
      Skip();
      var q := pos;
      if pos == |s| {
        LexNothing(s);
        return '\0', Span(q, pos);
      }
      tok := s[pos];
      if Symbol(tok) {
        LexSymbol(s, pos);
        pos := pos + 1;
        if tok == '>' && pos < |s| && s[pos] == '>' {
          tok := '+';
          pos := pos + 1;
        }
      } else {
        tok := 'a';
        ScanWord();
      }
      w := Span(q, pos);
      Skip();
    }

    /** gettoken's loop over the characters of a word. */
    method ScanWord()
      requires Ok() && pos < |s| && !Blank(s[pos]) && !Symbol(s[pos])
      modifies this`pos
      ensures Ok() && old(pos) < pos && IsWord(s, Span(old(pos), pos))
      ensures old(Left()) == [Word(s[old(pos)..pos])] + Left()
    {
      hide Lex;
      while pos < |s| && !Blank(s[pos]) && !Symbol(s[pos])
        invariant old(pos) <= pos <= |s| && forall i :: old(pos) <= i < pos ==> !Blank(s[i]) && !Symbol(s[i])
      {
        pos := pos + 1;
      }
      LexWord(s, old(pos), pos);
    }

    /** peek: whether the next token begins with one of these characters. */
    method Peek(toks: string) returns (b: bool)
      requires Ok() && forall i :: 0 <= i < |toks| ==> Symbol(toks[i])
      modifies this`pos
      ensures Ok() && Left() == old(Left()) && b == Starts(Left(), toks)
      ensures pos == |s| <==> Left() == []
    {
      Skip();
      b := pos < |s| && s[pos] in toks;
      if pos < |s| {
        if Symbol(s[pos]) {
          LexSymbol(s, pos);
        } else {
          WordFollows(s, pos);
        }
      }
    }

    /** parseredirs */
    method Redirs(cmd: Cmd) returns (r: Result)
      requires Ok() && Shaped(s, cmd)
      modifies this`pos
      ensures Ok() && Agrees(s, r, ParseRedirs(Meaning(s, cmd), old(Left())), Left())
    {
      hide Lex, Shaped, Meaning;
      ghost var spec := ParseRedirs(Meaning(s, cmd), Left());
      var c := cmd;
      while true
        invariant Ok() && Shaped(s, c) && ParseRedirs(Meaning(s, c), Left()) == spec
        decreases |Left()|
      {
        var more := Peek("<>");
        if !more {
          return Some(c);
        }
        ghost var ts := Left();
        var tok, _ := GetToken();
        var tok2, w := GetToken();
        if tok2 != 'a' {
          return Failed;
        }
        RedirMeans(s, c, w, KindOf(ts[0]));
        if tok == '<' {
          c := RedirCmd(c, w, O_RDONLY, 0);
        } else if tok == '>' {
          c := RedirCmd(c, w, O_WRONLY + O_CREATE + O_TRUNC, 1);
        } else {
          c := RedirCmd(c, w, O_WRONLY + O_CREATE, 1);
        }
        assert ts[2..] == Left();
      }
    }

    /** parseexec's loop over words and redirections. */
    method Args(cmd: Cmd) returns (r: Result)
      requires Ok() && Shaped(s, cmd)
      modifies this`pos
      ensures Ok() && Agrees(s, r, ParseArgs(Meaning(s, cmd), 0, old(Left())), Left())
    {
      hide Lex, Shaped, Meaning, ParseRedirs;
      ghost var spec := ParseArgs(Meaning(s, cmd), 0, Left());
      var ret, argc := cmd, 0;
      while true
        invariant Ok() && Shaped(s, ret) && ParseArgs(Meaning(s, ret), argc, Left()) == spec
        decreases |Left()|
      {
        var stop := Peek("|)&;");
        if stop {
          return Some(ret);
        }
        ghost var ts := Left();
        var tok, w := GetToken();
        if tok == '\0' {
          return Some(ret);
        }
        if tok != 'a' {
          return Failed;
        }
        WithArgMeans(s, ret, w);
        ret := WithArg(ret, w);
        argc := argc + 1;
        if argc >= MAXARGS {
          return Failed;
        }
        var next := Redirs(ret);
        if next.Failed? {
          return Failed;
        }
        ret := next.cmd;
      }
    }

    /** parseexec */
    method ExecLine() returns (r: Result)
      requires Ok()
      modifies this`pos
      ensures Ok() && Agrees(s, r, ParseExec(old(Left())), Left())
      decreases |Left()|, 1
    {
      hide Lex, ParseRedirs, ParseArgs, ParseBlock;
      var open := Peek("(");
      if open {
        r := Block();
        return;
      }
      assert Meaning(s, ExecCmd([])) == Exec([]);
      r := Redirs(ExecCmd([]));
      if r.Some? {
        r := Args(r.cmd);
      }
    }

    /** parseblock; its first panic is not reached. */
    method Block() returns (r: Result)
      requires Ok() && Starts(Left(), "(")
      modifies this`pos
      ensures Ok() && Agrees(s, r, ParseBlock(old(Left())), Left())
      decreases |Left()|, 0
    {
      hide Lex, ParseRedirs, ParseLine;
      var _, _ := GetToken();
      r := Line();
      if r.Failed? {
        return;
      }
      var close := Peek(")");
      if !close {
        return Failed;
      }
      var _, _ := GetToken();
      r := Redirs(r.cmd);
    }

    /** parsepipe */
    method PipeLine() returns (r: Result)
      requires Ok()
      modifies this`pos
      ensures Ok() && Agrees(s, r, ParsePipe(old(Left())), Left())
      decreases |Left()|, 2
    {
      hide Lex, ParseExec;
      r := ExecLine();
      if r.Failed? {
        return;
      }
      var more := Peek("|");
      if more {
        var _, _ := GetToken();
        var right := PipeLine();
        r := if right.Failed? then Failed else Some(PipeCmd(r.cmd, right.cmd));
      }
    }

    /** parseline */
    method Line() returns (r: Result)
      requires Ok()
      modifies this`pos
      ensures Ok() && Agrees(s, r, ParseLine(old(Left())), Left())
      decreases |Left()|, 3
    {
      hide Lex, ParsePipe;
      r := PipeLine();
      if r.Failed? {
        return;
      }
      var c := Backs(r.cmd);
      r := Some(c);
      var more := Peek(";");
      if more {
        var _, _ := GetToken();
        var right := Line();
        r := if right.Failed? then Failed else Some(ListCmd(c, right.cmd));
      }
    }

    /** parseline's loop over `&`. */
    method Backs(cmd: Cmd) returns (c: Cmd)
      requires Ok() && Shaped(s, cmd)
      modifies this`pos
      ensures Ok() && Agrees(s, Some(c), ParseBacks(Meaning(s, cmd), old(Left())), Left())
    {
      hide Lex;
      ghost var spec := ParseBacks(Meaning(s, cmd), Left());
      c := cmd;
      while true
        invariant Ok() && Shaped(s, c) && ParseBacks(Meaning(s, c), Left()) == spec
        decreases |Left()|
      {
        var more := Peek("&");
        if !more {
          return;
        }
        var _, _ := GetToken();
        c := BackCmd(c);
      }
    }

    /** parsecmd, except for nulterminate: the grammar decides on every text, and the whole text is used. */
    method Command() returns (r: Result)
      requires Ok() && pos == 0
      modifies this`pos
      ensures Ok() && Agrees(s, r, ParseCmd(Lex(s)), Left())
    {
      hide Lex, ParseLine;
      assert s[0..] == s;
      r := Line();
      if r.Failed? {
        return;
      }
      var _ := Peek("");
      if pos != |s| {
        return Failed;
      }
    }
  }

  // ----- nulterminate

  function ArgEnds(argv: seq<Span>): (r: set<int>) {
    set i | 0 <= i < |argv| :: argv[i].eq
  }

  /** The positions after the words of a command. */
  function Ends(c: Cmd): (r: set<int>) {
    match c
    case ExecCmd(argv) => ArgEnds(argv)
    case RedirCmd(d, f, _, _) => Ends(d) + {f.eq}
    case PipeCmd(l, r) => Ends(l) + Ends(r)
    case ListCmd(l, r) => Ends(l) + Ends(r)
    case BackCmd(d) => Ends(d)
  }

  /** nulterminate: exactly those positions become NUL. */
  method NulTerminate(ghost s: string, buf: array<char>, c: Cmd)
    requires Shaped(s, c) && buf.Length == |s| + 1
    modifies buf
    ensures forall k :: 0 <= k < buf.Length ==> buf[k] == if k in Ends(c) then '\0' else old(buf[k])
    decreases c
  {
    match c
    case ExecCmd(argv) =>
      var i := 0;
      while i < |argv|
        invariant 0 <= i <= |argv|
        invariant forall k :: 0 <= k < buf.Length ==> buf[k] == if k in ArgEnds(argv[..i]) then '\0' else old(buf[k])
      {
        assert IsWord(s, argv[i]);
        ArgEndsNext(argv, i);
        buf[argv[i].eq] := '\0';
        i := i + 1;
      }
      assert argv[..i] == argv;
    case RedirCmd(d, f, _, _) =>
      NulTerminate(s, buf, d);
      buf[f.eq] := '\0';
    case PipeCmd(l, r) =>
      NulTerminate(s, buf, l);
      NulTerminate(s, buf, r);
    case ListCmd(l, r) =>
      NulTerminate(s, buf, l);
      NulTerminate(s, buf, r);
    case BackCmd(d) =>
      NulTerminate(s, buf, d);
  }

  lemma ArgEndsNext(argv: seq<Span>, i: nat)
    requires i < |argv|
    ensures ArgEnds(argv[..i + 1]) == ArgEnds(argv[..i]) + {argv[i].eq}
  {
    assert argv[..i + 1] == argv[..i] + [argv[i]];
    forall e | e in ArgEnds(argv[..i]) + {argv[i].eq} ensures e in ArgEnds(argv[..i + 1]) {
      if e == argv[i].eq {
        assert argv[..i + 1][i].eq == e;
      } else {
        var j :| 0 <= j < i && argv[..i][j].eq == e;
        assert argv[..i + 1][j].eq == e;
      }
    }
  }

  /** The words of a command. */
  ghost predicate HasWord(c: Cmd, w: Span) {
    match c
    case ExecCmd(argv) => w in argv
    case RedirCmd(d, f, _, _) => HasWord(d, w) || w == f
    case PipeCmd(l, r) => HasWord(l, w) || HasWord(r, w)
    case ListCmd(l, r) => HasWord(l, w) || HasWord(r, w)
    case BackCmd(d) => HasWord(d, w)
  }

  /** Every end is the end of the line or a character that is in no word. */
  lemma {:induction false} EndsAreOutside(s: string, c: Cmd)
    requires Shaped(s, c)
    ensures forall e :: e in Ends(c) ==> 0 < e <= |s| && (e < |s| ==> !Plain(s[e]))
  {
    match c
    case ExecCmd(argv) =>
      forall e | e in ArgEnds(argv) ensures 0 < e <= |s| && (e < |s| ==> !Plain(s[e])) {
        var i :| 0 <= i < |argv| && argv[i].eq == e;
        assert IsWord(s, argv[i]);
      }
    case RedirCmd(d, f, _, _) => EndsAreOutside(s, d);
    case PipeCmd(l, r) => EndsAreOutside(s, l); EndsAreOutside(s, r);
    case ListCmd(l, r) => EndsAreOutside(s, l); EndsAreOutside(s, r);
    case BackCmd(d) => EndsAreOutside(s, d);
  }

  lemma {:induction false} WordsEndThere(s: string, c: Cmd, w: Span)
    requires Shaped(s, c) && HasWord(c, w)
    ensures IsWord(s, w) && w.eq in Ends(c)
  {
    match c
    case ExecCmd(argv) =>
      var i :| 0 <= i < |argv| && argv[i] == w;
      assert IsWord(s, argv[i]) && argv[i].eq in ArgEnds(argv);
    case RedirCmd(d, f, _, _) => if w != f { WordsEndThere(s, d, w); }
    case PipeCmd(l, r) => if HasWord(l, w) { WordsEndThere(s, l, w); } else { WordsEndThere(s, r, w); }
    case ListCmd(l, r) => if HasWord(l, w) { WordsEndThere(s, l, w); } else { WordsEndThere(s, r, w); }
    case BackCmd(d) => WordsEndThere(s, d, w);
  }

  /** A C string: the characters from p up to the first NUL. */
  predicate ReadsAs(buf: string, p: int, text: string) {
    && 0 <= p && p + |text| < |buf| && buf[p..p + |text|] == text && buf[p + |text|] == '\0'
    && forall i :: 0 <= i < |text| ==> text[i] != '\0'
  }

  /** After nulterminate every argument and file name reads as exactly its token. */
  lemma {:induction false} WordsRead(s: string, c: Cmd, w: Span, buf: string)
    requires Shaped(s, c) && HasWord(c, w) && |buf| == |s| + 1
    requires forall k :: 0 <= k < |buf| ==> buf[k] == if k in Ends(c) then '\0' else (s + "\0")[k]
    ensures IsWord(s, w) && ReadsAs(buf, w.q, s[w.q..w.eq])
  {
    WordsEndThere(s, c, w);
    EndsAreOutside(s, c);
    forall i | w.q <= i < w.eq ensures buf[i] == s[i] {
      assert Plain(s[i]);
    }
    assert buf[w.q..w.eq] == s[w.q..w.eq];
  }

  /** The text is a line of the language, with blanks between its tokens as one likes. */
  ghost predicate IsLine(s: string, l: ShellLaws.Line) {
    ShellLaws.LineAllowed(l) && ShellLex.Spells(s, ShellLaws.LineTokens(l))
  }

  lemma IsLineTokens(s: string, l: ShellLaws.Line)
    ensures IsLine(s, l) <==> ShellLaws.LineAllowed(l) && ShellLaws.LineTokens(l) == Lex(s)
  {
    ShellLex.LexIsSpelling(s, ShellLaws.LineTokens(l));
  }

  /** The parser on the text is the language: it accepts the lines, and each for what it means. */
  lemma LineRead(s: string, r: Result)
    requires Agrees(s, r, ParseCmd(Lex(s)), [])
    ensures forall l :: IsLine(s, l) ==> r.Some? && Meaning(s, r.cmd) == ShellLaws.LineMeaning(l)
    ensures r.Some? ==> exists l :: IsLine(s, l)
  {
    hide Lex, IsLine, Meaning, Shaped, ParseCmd;
    forall l | IsLine(s, l) ensures r.Some? && Meaning(s, r.cmd) == ShellLaws.LineMeaning(l) {
      IsLineTokens(s, l);
      ShellLaws.ParserIsGrammar(Lex(s), ShellLaws.LineMeaning(l));
    }
    if r.Some? {
      var t := ParseCmd(Lex(s)).tree;
      ShellLaws.ParserIsGrammar(Lex(s), t);
      var l :| ShellLaws.LineAllowed(l) && ShellLaws.LineTokens(l) == Lex(s) && ShellLaws.LineMeaning(l) == t;
      IsLineTokens(s, l);
    }
  }

  /** parsecmd: it panics exactly if the text is no line of the language, and otherwise gives what that means,
      as the grammar does. The printed form of a tree gives back that tree, and every word of the result reads as
      exactly its token. */
  method ParseCommand(line: string) returns (r: Result, buf: array<char>)
    requires NulFree(line)
    ensures Agrees(line, r, ParseCmd(Lex(line)), [])
    ensures forall l :: IsLine(line, l) ==> r.Some? && Meaning(line, r.cmd) == ShellLaws.LineMeaning(l)
    ensures r.Some? ==> exists l :: IsLine(line, l)
    ensures forall t :: Good(t) && line == Print(t) ==> r.Some? && Meaning(line, r.cmd) == t
    ensures r.Some? ==> forall w :: HasWord(r.cmd, w) ==> IsWord(line, w) && ReadsAs(buf[..], w.q, line[w.q..w.eq])
  {
    hide Lex, ParseLine, IsLine;
    buf := new char[|line| + 1](i => if 0 <= i < |line| then line[i] else '\0');
    var p := new Parser(line);
    r := p.Command();
    LineRead(line, r);
    forall t | Good(t) && line == Print(t) ensures r.Some? && Meaning(line, r.cmd) == t {
      RoundTrip(t);
    }
    if r.Some? {
      assert buf[..] == line + "\0";
      NulTerminate(line, buf, r.cmd);
      forall w | HasWord(r.cmd, w) ensures IsWord(line, w) && ReadsAs(buf[..], w.q, line[w.q..w.eq]) {
        WordsRead(line, r.cmd, w, buf[..]);
      }
    }
  }

  /** A parser's result against the grammar: a panic for a panic, else the same tree and the same rest. */
  ghost predicate Agrees(s: string, r: Result, spec: Parsed, left: seq<Token>) {
    match spec
    case Panic => r.Failed?
    case Ok(t, rest) => r.Some? && Shaped(s, r.cmd) && Meaning(s, r.cmd) == t && left == rest
  }

  lemma RedirMeans(s: string, c: Cmd, w: Span, k: Kind)
    requires Shaped(s, c) && IsWord(s, w)
    ensures Shaped(s, RedirCmd(c, w, Mode(k), Fd(k)))
    ensures Meaning(s, RedirCmd(c, w, Mode(k), Fd(k))) == Redir(Meaning(s, c), s[w.q..w.eq], k)
  {
  }

  /** `<` opens the file for reading as descriptor 0; `>` and `>>` open it for writing as descriptor 1, made if it
      is not there, and only `>` empties it. */
  lemma {:induction false} RedirectionOpens(s: string, c: Cmd)
    requires Shaped(s, c) && c.RedirCmd?
    ensures Meaning(s, c).Redir?
    ensures match Meaning(s, c).kind
            case In => c.mode == 0x000 && c.fd == 0
            case Out => c.mode == 0x001 + 0x200 + 0x400 && c.fd == 1
            case Append => c.mode == 0x001 + 0x200 && c.fd == 1
  {
    var k: Kind :| c.mode == Mode(k) && c.fd == Fd(k);
    assert k == Meaning(s, c).kind;
  }

  lemma LexNothing(s: string)
    ensures Lex(s[|s|..]) == []
  {
  }

  lemma WordFollows(s: string, p: nat)
    requires p < |s| && !Blank(s[p]) && !Symbol(s[p])
    ensures Lex(s[p..]) != [] && Lex(s[p..])[0].Word?
  {
    assert s[p..][0] == s[p];
  }
}
