/** The command language of sh.c: the grammar its parse functions encode, the parser as functions on
    token strings, and the proof that the parser accepts exactly the grammar. */
module ShellGrammar {

  /** gettoken's tokens: a word is the span [q, eq) of the line, '+' stands for >>. */
  datatype Token = Word(q: int, eq: int) | Sym(c: char)

  datatype Cmd =
    | Exec(argv: seq<Token>)
    | Redir(cmd: Cmd, file: Token, mode: int, fd: int)
    | Pipe(left: Cmd, right: Cmd)
    | List(left: Cmd, right: Cmd)
    | Back(cmd: Cmd)

  const MAXARGS := 10
  const O_RDONLY := 0x000
  const O_WRONLY := 0x001
  const O_CREATE := 0x200

  datatype Error = MissingFile | NoBlock | MissingParen | Syntax | TooManyArgs | Leftovers

  predicate At(ts: seq<Token>, cs: string) { ts != [] && ts[0].Sym? && ts[0].c in cs }

  // ----- the grammar -----

  datatype Line = Line(first: Pipeline, amps: nat, rest: LineTail)
  datatype LineTail = EndLine | Semi(line: Line)
  datatype Pipeline = Pipeline(first: Command, rest: PipeTail)
  datatype PipeTail = EndPipe | Bar(pipe: Pipeline)
  datatype Command = Simple(pre: seq<Redirect>, args: seq<Arg>) | Block(line: Line, redirs: seq<Redirect>)
  datatype Arg = Arg(word: Token, redirs: seq<Redirect>)
  datatype Redirect = Redirect(op: char, file: Token)

  predicate RedirectOk(r: Redirect) { r.op in "<>+" && r.file.Word? }

  predicate RedirectsOk(rs: seq<Redirect>) { forall i | 0 <= i < |rs| :: RedirectOk(rs[i]) }

  predicate ArgOk(a: Arg) { a.word.Word? && RedirectsOk(a.redirs) }

  predicate LineOk(t: Line) { PipelineOk(t.first) && (t.rest.Semi? ==> LineOk(t.rest.line)) }

  predicate PipelineOk(t: Pipeline) { CommandOk(t.first) && (t.rest.Bar? ==> PipelineOk(t.rest.pipe)) }

  predicate CommandOk(t: Command) {
    match t
    case Simple(pre, args) => RedirectsOk(pre) && |args| < MAXARGS && forall i | 0 <= i < |args| :: ArgOk(args[i])
    case Block(line, redirs) => LineOk(line) && RedirectsOk(redirs)
  }

  // ----- what a tree spells -----

  function Amps(n: nat): seq<Token> { if n == 0 then [] else [Sym('&')] + Amps(n - 1) }

  function SpellRedirects(rs: seq<Redirect>): seq<Token> {
    if rs == [] then [] else [Sym(rs[0].op), rs[0].file] + SpellRedirects(rs[1..])
  }

  function SpellArgs(args: seq<Arg>): seq<Token> {
    if args == [] then [] else [args[0].word] + SpellRedirects(args[0].redirs) + SpellArgs(args[1..])
  }

  function SpellLine(t: Line): seq<Token> {
    SpellPipeline(t.first) + Amps(t.amps) + (if t.rest.Semi? then [Sym(';')] + SpellLine(t.rest.line) else [])
  }

  function SpellPipeline(t: Pipeline): seq<Token> {
    SpellCommand(t.first) + (if t.rest.Bar? then [Sym('|')] + SpellPipeline(t.rest.pipe) else [])
  }

  function SpellCommand(t: Command): seq<Token> {
    match t
    case Simple(pre, args) => SpellRedirects(pre) + SpellArgs(args)
    case Block(line, redirs) => [Sym('(')] + SpellLine(line) + [Sym(')')] + SpellRedirects(redirs)
  }

  // ----- what a tree means -----

  function Backs(c: Cmd, n: nat): Cmd
    decreases n
  {
    if n == 0 then c else Backs(Back(c), n - 1)
  }

  function Redirected(c: Cmd, r: Redirect): Cmd {
    if r.op == '<' then Redir(c, r.file, O_RDONLY, 0) else Redir(c, r.file, O_WRONLY + O_CREATE, 1)
  }

  /** Later redirections are outermost. */
  function Wrap(c: Cmd, rs: seq<Redirect>): Cmd
    decreases |rs|
  {
    if rs == [] then c else Wrap(Redirected(c, rs[0]), rs[1..])
  }

  function Words(args: seq<Arg>): seq<Token> { if args == [] then [] else [args[0].word] + Words(args[1..]) }

  function Redirects(args: seq<Arg>): seq<Redirect> { if args == [] then [] else args[0].redirs + Redirects(args[1..]) }

  function LineMeans(t: Line): Cmd {
    var c := Backs(PipelineMeans(t.first), t.amps);
    if t.rest.Semi? then List(c, LineMeans(t.rest.line)) else c
  }

  function PipelineMeans(t: Pipeline): Cmd {
    if t.rest.Bar? then Pipe(CommandMeans(t.first), PipelineMeans(t.rest.pipe)) else CommandMeans(t.first)
  }

  /** A simple command has its words as arguments, in order, inside all its redirections, wherever
      among the words they stand. */
  function CommandMeans(t: Command): Cmd {
    match t
    case Simple(pre, args) => Wrap(Exec(Words(args)), pre + Redirects(args))
    case Block(line, redirs) => Wrap(LineMeans(line), redirs)
  }

  // ----- the parser -----

  datatype Parse = Ok(cmd: Cmd, rest: seq<Token>) | Err(e: Error)

  /** cmd->argv[argc] = q, in the exec node inside the redirections around it. */
  function AddArg(c: Cmd, w: Token): Cmd {
    match c
    case Redir(d, f, m, n) => Redir(AddArg(d, w), f, m, n)
    case Exec(argv) => Exec(argv + [w])
    case _ => c
  }

  function ParseLine(ts: seq<Token>): (r: Parse)
    ensures r.Ok? ==> |r.rest| <= |ts|
    decreases |ts|, 4
  {
    var p := ParsePipe(ts);
    if p.Err? then p
    else
      var a := ParseAmps(p.cmd, p.rest);
      if !At(a.rest, ";") then a
      else
        var l := ParseLine(a.rest[1..]);
        if l.Err? then l else Ok(List(a.cmd, l.cmd), l.rest)
  }

  function ParseAmps(c: Cmd, ts: seq<Token>): (r: Parse)
    ensures r.Ok? && |r.rest| <= |ts| && !At(r.rest, "&")
    decreases |ts|
  {
    if At(ts, "&") then ParseAmps(Back(c), ts[1..]) else Ok(c, ts)
  }

  function ParsePipe(ts: seq<Token>): (r: Parse)
    ensures r.Ok? ==> |r.rest| <= |ts|
    decreases |ts|, 3
  {
    var e := ParseExec(ts);
    if e.Err? || !At(e.rest, "|") then e
    else
      var p := ParsePipe(e.rest[1..]);
      if p.Err? then p else Ok(Pipe(e.cmd, p.cmd), p.rest)
  }

  function ParseRedirs(c: Cmd, ts: seq<Token>): (r: Parse)
    ensures r.Ok? ==> |r.rest| <= |ts| && !At(r.rest, "<>+")
    decreases |ts|
  {
    if !At(ts, "<>+") then Ok(c, ts)
    else if |ts| < 2 || !ts[1].Word? then Err(MissingFile)
    else ParseRedirs(Redirected(c, Redirect(ts[0].c, ts[1])), ts[2..])
  }

  function ParseBlock(ts: seq<Token>): (r: Parse)
    ensures r.Ok? ==> |r.rest| <= |ts|
    decreases |ts|, 1
  {
    if !At(ts, "(") then Err(NoBlock)
    else
      var l := ParseLine(ts[1..]);
      if l.Err? then l
      else if !At(l.rest, ")") then Err(MissingParen)
      else ParseRedirs(l.cmd, l.rest[1..])
  }

  function ParseExec(ts: seq<Token>): (r: Parse)
    ensures r.Ok? ==> |r.rest| <= |ts|
    decreases |ts|, 2
  {
    if At(ts, "(") then ParseBlock(ts)
    else
      var p := ParseRedirs(Exec([]), ts);
      if p.Err? then p else ParseArgs(p.cmd, 0, p.rest)
  }

  /** The loop of parseexec with argc arguments so far. */
  function ParseArgs(c: Cmd, argc: nat, ts: seq<Token>): (r: Parse)
    ensures r.Ok? ==> |r.rest| <= |ts|
    decreases |ts|, 0
  {
    if ts == [] || At(ts, "|)&;") then Ok(c, ts)
    else if !ts[0].Word? then Err(Syntax)
    else if argc + 1 >= MAXARGS then Err(TooManyArgs)
    else
      var p := ParseRedirs(AddArg(c, ts[0]), ts[1..]);
      if p.Err? then p else ParseArgs(p.cmd, argc + 1, p.rest)
  }

  function ParseCmd(ts: seq<Token>): Parse {
    var l := ParseLine(ts);
    if l.Ok? && l.rest != [] then Err(Leftovers) else l
  }

  // ----- every accepted line is in the grammar -----

  lemma {:induction false} AddArgWrap(c: Cmd, rs: seq<Redirect>, w: Token)
    ensures AddArg(Wrap(c, rs), w) == Wrap(AddArg(c, w), rs)
    decreases |rs|
  {
    if rs != [] { AddArgWrap(Redirected(c, rs[0]), rs[1..], w); }
  }

  lemma {:induction false} WrapTwice(c: Cmd, a: seq<Redirect>, b: seq<Redirect>)
    ensures Wrap(Wrap(c, a), b) == Wrap(c, a + b)
    decreases |a|
  {
    if a == [] {
      assert a + b == b;
    } else {
      WrapTwice(Redirected(c, a[0]), a[1..], b);
      assert (a + b)[1..] == a[1..] + b;
    }
  }

  /** One round of parseredirs. */
  lemma RedirsRound(c: Cmd, ts: seq<Token>)
    requires At(ts, "<>+") && ParseRedirs(c, ts).Ok?
    ensures |ts| >= 2 && RedirectOk(Redirect(ts[0].c, ts[1]))
    ensures ParseRedirs(c, ts) == ParseRedirs(Redirected(c, Redirect(ts[0].c, ts[1])), ts[2..])
  {
  }

  lemma RedirsStop(c: Cmd, ts: seq<Token>)
    requires !At(ts, "<>+")
    ensures ParseRedirs(c, ts) == Ok(c, ts)
  {
  }

  lemma SplitRedirect(r: Redirect, more: seq<Redirect>, c: Cmd)
    ensures SpellRedirects([r] + more) == [Sym(r.op), r.file] + SpellRedirects(more)
    ensures Wrap(c, [r] + more) == Wrap(Redirected(c, r), more)
  {
  }

  lemma NoRedirects(c: Cmd)
    ensures SpellRedirects([]) == [] && Wrap(c, []) == c
  {
  }

  lemma {:induction false} RedirsSound(c: Cmd, ts: seq<Token>) returns (rs: seq<Redirect>)
    requires ParseRedirs(c, ts).Ok?
    ensures RedirectsOk(rs) && SpellRedirects(rs) + ParseRedirs(c, ts).rest == ts
    ensures ParseRedirs(c, ts).cmd == Wrap(c, rs)
    decreases |ts|
  {
    hide ParseRedirs, SpellRedirects, Wrap, Redirected, RedirectOk;
    if At(ts, "<>+") {
      RedirsRound(c, ts);
      var r := Redirect(ts[0].c, ts[1]);
      var more := RedirsSound(Redirected(c, r), ts[2..]);
      rs := [r] + more;
      SplitRedirect(r, more, c);
      Assoc([Sym(r.op), r.file], SpellRedirects(more), ParseRedirs(c, ts).rest);
      assert ts == [ts[0], ts[1]] + ts[2..];
    } else {
      RedirsStop(c, ts);
      NoRedirects(c);
      rs := [];
    }
  }

  lemma Assoc<T>(a: seq<T>, b: seq<T>, c: seq<T>)
    ensures (a + b) + c == a + (b + c)
  {
  }

  lemma SplitArg(a: Arg, more: seq<Arg>)
    ensures SpellArgs([a] + more) == [a.word] + (SpellRedirects(a.redirs) + SpellArgs(more))
    ensures Words([a] + more) == [a.word] + Words(more) && Redirects([a] + more) == a.redirs + Redirects(more)
  {
  }

  /** One round of parseexec's loop. */
  lemma ArgsRound(c: Cmd, argc: nat, ts: seq<Token>)
    requires ts != [] && ts[0].Word? && argc + 1 < MAXARGS
    ensures var p := ParseRedirs(AddArg(c, ts[0]), ts[1..]);
      ParseArgs(c, argc, ts) == if p.Err? then p else ParseArgs(p.cmd, argc + 1, p.rest)
  {
  }

  lemma ArgsStop(c: Cmd, argc: nat, ts: seq<Token>)
    ensures ts == [] || At(ts, "|)&;") ==> ParseArgs(c, argc, ts) == Ok(c, ts)
    ensures ParseArgs(c, argc, ts).Ok? && ts != [] && !At(ts, "|)&;") ==> ts[0].Word? && argc + 1 < MAXARGS
  {
  }

  /** What a round adds to the words and redirections read so far. */
  lemma ArgsMove(words: seq<Token>, rs: seq<Redirect>, a: Arg, more: seq<Arg>)
    ensures (words + [a.word]) + Words(more) == words + Words([a] + more)
    ensures (rs + a.redirs) + Redirects(more) == rs + Redirects([a] + more)
    ensures Wrap(AddArg(Wrap(Exec(words), rs), a.word), a.redirs) == Wrap(Exec(words + [a.word]), rs + a.redirs)
  {
    SplitArg(a, more);
    Assoc(words, [a.word], Words(more));
    Assoc(rs, a.redirs, Redirects(more));
    AddArgWrap(Exec(words), rs, a.word);
    WrapTwice(Exec(words + [a.word]), rs, a.redirs);
  }

  lemma {:induction false} ArgsSound(words: seq<Token>, rs: seq<Redirect>, ts: seq<Token>) returns (args: seq<Arg>)
    requires ParseArgs(Wrap(Exec(words), rs), |words|, ts).Ok? && |words| < MAXARGS
    ensures (forall i | 0 <= i < |args| :: ArgOk(args[i])) && |words| + |args| < MAXARGS
    ensures var p := ParseArgs(Wrap(Exec(words), rs), |words|, ts);
      SpellArgs(args) + p.rest == ts && p.cmd == Wrap(Exec(words + Words(args)), rs + Redirects(args))
    decreases |ts|
  {
    hide Wrap, AddArg, ParseArgs, ParseRedirs, SpellArgs, SpellRedirects, Words, Redirects;
    var c := Wrap(Exec(words), rs);
    var rest := ParseArgs(c, |words|, ts).rest;
    ArgsStop(c, |words|, ts);
    if ts == [] || At(ts, "|)&;") {
      args := [];
      NoArgs();
      assert words + [] == words && rs + [] == rs;
    } else {
      ArgsRound(c, |words|, ts);
      var p := ParseRedirs(AddArg(c, ts[0]), ts[1..]);
      var after := RedirsSound(AddArg(c, ts[0]), ts[1..]);
      var a := Arg(ts[0], after);
      ArgsMove(words, rs, a, []);
      var more := ArgsSound(words + [ts[0]], rs + after, p.rest);
      args := [a] + more;
      ArgsMove(words, rs, a, more);
      SplitArg(a, more);
      Assoc([a.word], SpellRedirects(after) + SpellArgs(more), rest);
      Assoc(SpellRedirects(after), SpellArgs(more), rest);
      assert ts == [ts[0]] + ts[1..];
      assert ArgOk(a);
    }
  }

  lemma NoArgs()
    ensures SpellArgs([]) == [] && Words([]) == [] && Redirects([]) == []
  {
  }

  lemma {:induction false} AmpsSound(c: Cmd, ts: seq<Token>) returns (n: nat)
    ensures Amps(n) + ParseAmps(c, ts).rest == ts && ParseAmps(c, ts).cmd == Backs(c, n)
    decreases |ts|
  {
    n := 0;
    if At(ts, "&") {
      var k := AmpsSound(Back(c), ts[1..]);
      n := k + 1;
      assert ts == [ts[0]] + ts[1..];
    }
  }

  lemma {:induction false} CommandSound(ts: seq<Token>) returns (t: Command)
    requires ParseExec(ts).Ok?
    ensures CommandOk(t) && SpellCommand(t) + ParseExec(ts).rest == ts && CommandMeans(t) == ParseExec(ts).cmd
    decreases |ts|, 1
  {
    hide Wrap, ParseArgs, ParseRedirs, SpellArgs, SpellRedirects, Words, Redirects, ParseLine, SpellLine, LineMeans,
      LineOk;
    var rest := ParseExec(ts).rest;
    if At(ts, "(") {
      var l := ParseLine(ts[1..]);
      var line := LineSound(ts[1..]);
      var rs := RedirsSound(l.cmd, l.rest[1..]);
      t := Block(line, rs);
      BlockSpells(line, rs, rest);
      assert ts == [ts[0]] + ts[1..] && l.rest == [l.rest[0]] + l.rest[1..];
    } else {
      var p := ParseRedirs(Exec([]), ts);
      var pre := RedirsSound(Exec([]), ts);
      var args := ArgsSound([], pre, p.rest);
      t := Simple(pre, args);
      assert [] + Words(args) == Words(args);
      Assoc(SpellRedirects(pre), SpellArgs(args), rest);
    }
  }

  lemma BlockSpells(line: Line, rs: seq<Redirect>, rest: seq<Token>)
    ensures SpellCommand(Block(line, rs)) + rest ==
      [Sym('(')] + (SpellLine(line) + ([Sym(')')] + (SpellRedirects(rs) + rest)))
  {
  }

  lemma {:induction false} PipelineSound(ts: seq<Token>) returns (t: Pipeline)
    requires ParsePipe(ts).Ok?
    ensures PipelineOk(t) && SpellPipeline(t) + ParsePipe(ts).rest == ts && PipelineMeans(t) == ParsePipe(ts).cmd
    decreases |ts|, 2
  {
    hide ParseExec, SpellCommand, CommandMeans, CommandOk;
    var e := ParseExec(ts);
    var c := CommandSound(ts);
    if At(e.rest, "|") {
      var p := PipelineSound(e.rest[1..]);
      t := Pipeline(c, Bar(p));
      assert e.rest == [Sym('|')] + e.rest[1..];
      Assoc(SpellCommand(c), [Sym('|')] + SpellPipeline(p), ParsePipe(ts).rest);
      Assoc([Sym('|')], SpellPipeline(p), ParsePipe(ts).rest);
    } else {
      t := Pipeline(c, EndPipe);
      assert SpellPipeline(t) == SpellCommand(c);
    }
  }

  lemma {:induction false} LineSound(ts: seq<Token>) returns (t: Line)
    requires ParseLine(ts).Ok?
    ensures LineOk(t) && SpellLine(t) + ParseLine(ts).rest == ts && LineMeans(t) == ParseLine(ts).cmd
    decreases |ts|, 3
  {
    hide ParsePipe, SpellPipeline, PipelineMeans, PipelineOk, Amps, Backs, ParseAmps;
    var rest := ParseLine(ts).rest;
    var p := ParsePipe(ts);
    var first := PipelineSound(ts);
    var n := AmpsSound(p.cmd, p.rest);
    var a := ParseAmps(p.cmd, p.rest);
    if At(a.rest, ";") {
      var l := LineSound(a.rest[1..]);
      t := Line(first, n, Semi(l));
      assert a.rest == [Sym(';')] + a.rest[1..];
      Assoc(SpellPipeline(first) + Amps(n), [Sym(';')] + SpellLine(l), rest);
      Assoc([Sym(';')], SpellLine(l), rest);
      Assoc(SpellPipeline(first), Amps(n), a.rest);
    } else {
      t := Line(first, n, EndLine);
      assert SpellLine(t) == SpellPipeline(first) + Amps(n);
      Assoc(SpellPipeline(first), Amps(n), rest);
    }
  }

  // ----- every line of the grammar is accepted -----

  lemma {:induction false} RedirsComplete(c: Cmd, rs: seq<Redirect>, rest: seq<Token>)
    requires RedirectsOk(rs) && !At(rest, "<>+")
    ensures ParseRedirs(c, SpellRedirects(rs) + rest) == Ok(Wrap(c, rs), rest)
    decreases |rs|
  {
    hide ParseRedirs, SpellRedirects, Wrap, Redirected, At;
    NoRedirects(c);
    if rs == [] {
      assert [] + rest == rest;
      RedirsStop(c, rest);
    } else {
      var r, more := rs[0], rs[1..];
      assert rs == [r] + more && RedirectOk(r);
      SplitRedirect(r, more, c);
      Assoc([Sym(r.op), r.file], SpellRedirects(more), rest);
      RedirsComplete(Redirected(c, r), more, rest);
      RedirsUnfold(c, r, SpellRedirects(more) + rest);
    }
  }

  lemma RedirsUnfold(c: Cmd, r: Redirect, ts: seq<Token>)
    requires RedirectOk(r)
    ensures ParseRedirs(c, [Sym(r.op), r.file] + ts) == ParseRedirs(Redirected(c, r), ts)
  {
  }

  lemma {:induction false} ArgsComplete(words: seq<Token>, rs: seq<Redirect>, args: seq<Arg>, rest: seq<Token>)
    requires rest == [] || At(rest, "|)&;")
    requires (forall i | 0 <= i < |args| :: ArgOk(args[i])) && |words| + |args| < MAXARGS
    ensures ParseArgs(Wrap(Exec(words), rs), |words|, SpellArgs(args) + rest) ==
      Ok(Wrap(Exec(words + Words(args)), rs + Redirects(args)), rest)
    decreases |args|
  {
    hide Wrap, AddArg, ParseArgs, ParseRedirs, SpellArgs, SpellRedirects, Words, Redirects;
    var c := Wrap(Exec(words), rs);
    NoArgs();
    if args == [] {
      assert [] + rest == rest && words + [] == words && rs + [] == rs;
      ArgsStop(c, |words|, rest);
    } else {
      var a, more := args[0], args[1..];
      var after := SpellArgs(more) + rest;
      var ts := SpellArgs(args) + rest;
      assert args == [a] + more && ArgOk(a);
      SplitArg(a, more);
      Assoc([a.word], SpellRedirects(a.redirs) + SpellArgs(more), rest);
      Assoc(SpellRedirects(a.redirs), SpellArgs(more), rest);
      assert ts == [a.word] + (SpellRedirects(a.redirs) + after);
      assert ts[0] == a.word && ts[1..] == SpellRedirects(a.redirs) + after;
      AfterArgs(more, rest);
      RedirsComplete(AddArg(c, a.word), a.redirs, after);
      ArgsRound(c, |words|, ts);
      ArgsMove(words, rs, a, more);
      ArgsComplete(words + [a.word], rs + a.redirs, more, rest);
    }
  }

  /** What can follow a redirection in a simple command. */
  lemma AfterArgs(args: seq<Arg>, rest: seq<Token>)
    requires (rest == [] || At(rest, "|)&;")) && forall i | 0 <= i < |args| :: ArgOk(args[i])
    ensures !At(SpellArgs(args) + rest, "<>+") && !At(SpellArgs(args) + rest, "(")
  {
    if args != [] {
      assert ArgOk(args[0]);
      assert SpellArgs(args)[0] == args[0].word;
    } else {
      assert SpellArgs(args) + rest == rest;
      OneOf(rest, "|)&;", "<>+(");
    }
  }

  lemma OneOf(ts: seq<Token>, cs: string, ds: string)
    requires forall c | c in cs :: c !in ds
    ensures At(ts, cs) ==> !At(ts, ds)
  {
  }

  lemma {:induction false} AmpsComplete(c: Cmd, n: nat, rest: seq<Token>)
    requires !At(rest, "&")
    ensures ParseAmps(c, Amps(n) + rest) == Ok(Backs(c, n), rest)
    decreases n
  {
    if n == 0 {
      assert Amps(n) + rest == rest;
    } else {
      assert (Amps(n) + rest)[1..] == Amps(n - 1) + rest;
      AmpsComplete(Back(c), n - 1, rest);
    }
  }

  lemma {:induction false} CommandComplete(t: Command, rest: seq<Token>)
    requires CommandOk(t) && (rest == [] || At(rest, "|)&;"))
    ensures ParseExec(SpellCommand(t) + rest) == Ok(CommandMeans(t), rest)
    decreases t
  {
    hide Wrap, ParseArgs, ParseRedirs, SpellArgs, SpellRedirects, Words, Redirects, ParseLine, SpellLine, LineMeans,
      LineOk;
    var ts := SpellCommand(t) + rest;
    match t {
      case Simple(pre, args) => {
        var after := SpellArgs(args) + rest;
        Assoc(SpellRedirects(pre), SpellArgs(args), rest);
        AfterArgs(args, rest);
        NoParen(pre, after);
        RedirsComplete(Exec([]), pre, after);
        ArgsComplete([], pre, args, rest);
        assert [] + Words(args) == Words(args);
      }
      case Block(line, rs) => {
        var inner := [Sym(')')] + (SpellRedirects(rs) + rest);
        BlockSpells(line, rs, rest);
        assert ts[1..] == SpellLine(line) + inner;
        LineComplete(line, inner);
        assert inner[1..] == SpellRedirects(rs) + rest;
        RedirsComplete(LineMeans(line), rs, rest);
      }
    }
  }

  lemma NoParen(rs: seq<Redirect>, rest: seq<Token>)
    requires RedirectsOk(rs) && !At(rest, "(")
    ensures !At(SpellRedirects(rs) + rest, "(")
  {
  }

  lemma {:induction false} PipelineComplete(t: Pipeline, rest: seq<Token>)
    requires PipelineOk(t) && (rest == [] || At(rest, ")&;"))
    ensures ParsePipe(SpellPipeline(t) + rest) == Ok(PipelineMeans(t), rest)
    decreases t
  {
    hide ParseExec, SpellCommand, CommandMeans, CommandOk;
    var ts := SpellPipeline(t) + rest;
    if t.rest.Bar? {
      var after := [Sym('|')] + (SpellPipeline(t.rest.pipe) + rest);
      assert ts == SpellCommand(t.first) + after;
      CommandComplete(t.first, after);
      assert after[1..] == SpellPipeline(t.rest.pipe) + rest;
      PipelineComplete(t.rest.pipe, rest);
    } else {
      assert ts == SpellCommand(t.first) + rest;
      CommandComplete(t.first, rest);
    }
  }

  lemma {:induction false} LineComplete(t: Line, rest: seq<Token>)
    requires LineOk(t) && (rest == [] || At(rest, ")"))
    ensures ParseLine(SpellLine(t) + rest) == Ok(LineMeans(t), rest)
    decreases t
  {
    hide ParsePipe, SpellPipeline, PipelineMeans, PipelineOk, Backs, ParseAmps;
    var ts := SpellLine(t) + rest;
    var tail := if t.rest.Semi? then [Sym(';')] + (SpellLine(t.rest.line) + rest) else rest;
    var after := Amps(t.amps) + tail;
    assert ts == SpellPipeline(t.first) + after;
    assert after == [] || At(after, ")&;") by { if t.amps == 0 { assert after == tail; } }
    PipelineComplete(t.first, after);
    AmpsComplete(PipelineMeans(t.first), t.amps, tail);
    if t.rest.Semi? {
      assert tail[1..] == SpellLine(t.rest.line) + rest;
      LineComplete(t.rest.line, rest);
    }
  }

  /** The parser succeeds with c on exactly the token strings of the grammar that mean c. */
  lemma ParserIsGrammar(ts: seq<Token>, c: Cmd)
    ensures ParseCmd(ts) == Ok(c, []) <==> exists t :: LineOk(t) && SpellLine(t) == ts && LineMeans(t) == c
  {
    if ParseCmd(ts) == Ok(c, []) {
      var t := LineSound(ts);
      assert SpellLine(t) + [] == SpellLine(t);
    }
    forall t | LineOk(t) && SpellLine(t) == ts && LineMeans(t) == c
      ensures ParseCmd(ts) == Ok(c, [])
    {
      LineComplete(t, []);
      assert SpellLine(t) + [] == SpellLine(t);
    }
  }

  /** A token string has at most one meaning. */
  lemma Unambiguous(t: Line, u: Line)
    requires LineOk(t) && LineOk(u) && SpellLine(t) == SpellLine(u)
    ensures LineMeans(t) == LineMeans(u)
  {
    ParserIsGrammar(SpellLine(t), LineMeans(t));
    ParserIsGrammar(SpellLine(t), LineMeans(u));
  }

  // ----- two kinds of line, in numbers -----

  /** `<` opens its file for reading as descriptor 0; `>` and `>>` alike for writing, created if need
      be and not truncated, as descriptor 1. */
  lemma RedirectionMeans(c: Cmd, op: char, file: Token, ts: seq<Token>)
    requires op in "<>+" && file.Word? && !At(ts, "<>+")
    ensures ParseRedirs(c, [Sym(op), file] + ts) ==
      Ok(Redir(c, file, if op == '<' then 0 else 0x201, if op == '<' then 0 else 1), ts)
  {
    var all := [Sym(op), file] + ts;
    assert all[2..] == ts;
    RedirsStop(Redirected(c, Redirect(op, file)), ts);
  }

  /** A line of words alone is one command with them as its arguments, as long as there are fewer than
      ten. */
  lemma WordsAlone(ws: seq<Token>)
    requires forall i | 0 <= i < |ws| :: ws[i].Word?
    ensures ParseCmd(ws) == if |ws| < 10 then Ok(Exec(ws), []) else Err(TooManyArgs)
  {
    hide ParseArgs;
    RedirsStop(Exec([]), ws);
    WordArgs([], ws);
    assert [] + ws == ws;
    assert ParsePipe(ws) == ParseExec(ws) == ParseArgs(Exec([]), 0, ws);
    assert ParseAmps(Exec(ws), []) == Ok(Exec(ws), []);
    assert ParseLine(ws) == ParsePipe(ws);
  }

  lemma {:induction false} WordArgs(argv: seq<Token>, ws: seq<Token>)
    requires |argv| < 10 && forall i | 0 <= i < |ws| :: ws[i].Word?
    ensures ParseArgs(Exec(argv), |argv|, ws) ==
      if |argv| + |ws| < 10 then Ok(Exec(argv + ws), []) else Err(TooManyArgs)
    decreases |ws|
  {
    if ws == [] {
      assert argv + ws == argv;
    } else if |argv| + 1 < 10 {
      RedirsStop(Exec(argv + [ws[0]]), ws[1..]);
      WordArgs(argv + [ws[0]], ws[1..]);
      assert argv + [ws[0]] + ws[1..] == argv + ws;
    }
  }

  // ----- every command can be typed -----

  /** The commands that have a spelling: words for strings, fewer than ten arguments, and the two ways
      to open a file. */
  predicate Typable(c: Cmd) {
    match c
    case Exec(argv) => |argv| < 10 && forall i | 0 <= i < |argv| :: argv[i].Word?
    case Redir(d, file, mode, fd) => Typable(d) && file.Word? && ((mode == 0 && fd == 0) || (mode == 0x201 && fd == 1))
    case Pipe(l, r) => Typable(l) && Typable(r)
    case List(l, r) => Typable(l) && Typable(r)
    case Back(d) => Typable(d)
  }

  function Typed(c: Cmd): seq<Token> {
    match c
    case Exec(argv) => argv
    case Redir(d, file, mode, fd) => [Sym('(')] + Typed(d) + [Sym(')'), Sym(if fd == 0 then '<' else '>'), file]
    case Pipe(l, r) => [Sym('(')] + Typed(l) + [Sym(')'), Sym('|'), Sym('(')] + Typed(r) + [Sym(')')]
    case List(l, r) => [Sym('(')] + Typed(l) + [Sym(')'), Sym(';'), Sym('(')] + Typed(r) + [Sym(')')]
    case Back(d) => [Sym('(')] + Typed(d) + [Sym(')'), Sym('&')]
  }

  function Alone(c: Command): Line { Line(Pipeline(c, EndPipe), 0, EndLine) }

  function Tree(c: Cmd): Line {
    match c
    case Exec(argv) => Alone(Simple([], ArgsOf(argv)))
    case Redir(d, file, mode, fd) => Alone(Block(Tree(d), [Redirect(if fd == 0 then '<' else '>', file)]))
    case Pipe(l, r) => Line(Pipeline(Block(Tree(l), []), Bar(Pipeline(Block(Tree(r), []), EndPipe))), 0, EndLine)
    case List(l, r) => Line(Pipeline(Block(Tree(l), []), EndPipe), 0, Semi(Alone(Block(Tree(r), []))))
    case Back(d) => Line(Pipeline(Block(Tree(d), []), EndPipe), 1, EndLine)
  }

  function ArgsOf(argv: seq<Token>): (r: seq<Arg>)
    ensures |r| == |argv| && forall i | 0 <= i < |argv| :: r[i] == Arg(argv[i], [])
  {
    if argv == [] then [] else [Arg(argv[0], [])] + ArgsOf(argv[1..])
  }

  lemma {:induction false} ArgsOfSpell(argv: seq<Token>)
    ensures SpellArgs(ArgsOf(argv)) == argv && Words(ArgsOf(argv)) == argv && Redirects(ArgsOf(argv)) == []
    decreases |argv|
  {
    if argv != [] {
      ArgsOfSpell(argv[1..]);
      assert ArgsOf(argv)[1..] == ArgsOf(argv[1..]);
      assert argv == [argv[0]] + argv[1..];
    }
  }

  lemma AloneIs(c: Command)
    ensures LineOk(Alone(c)) == CommandOk(c) && SpellLine(Alone(c)) == SpellCommand(c)
    ensures LineMeans(Alone(c)) == CommandMeans(c)
  {
    var p := Pipeline(c, EndPipe);
    assert SpellPipeline(p) == SpellCommand(c) && PipelineMeans(p) == CommandMeans(c) && PipelineOk(p) == CommandOk(c);
  }

  lemma BlockIs(line: Line)
    requires LineOk(line)
    ensures var b := Block(line, []);
      CommandOk(b) && SpellCommand(b) == [Sym('(')] + SpellLine(line) + [Sym(')')] && CommandMeans(b) == LineMeans(line)
  {
  }

  lemma {:induction false} TreeIs(c: Cmd)
    requires Typable(c)
    ensures LineOk(Tree(c)) && SpellLine(Tree(c)) == Typed(c) && LineMeans(Tree(c)) == c
    decreases c
  {
    hide LineOk, SpellLine, LineMeans;
    match c {
      case Exec(argv) => ExecIs(argv);
      case Redir(d, file, mode, fd) =>
        TreeIs(d);
        RedirIs(Tree(d), Redirect(if fd == 0 then '<' else '>', file));
      case Pipe(l, r) =>
        TreeIs(l);
        TreeIs(r);
        PipeIs(Tree(l), Tree(r));
      case List(l, r) =>
        TreeIs(l);
        TreeIs(r);
        ListIs(Tree(l), Tree(r));
      case Back(d) =>
        TreeIs(d);
        BackIs(Tree(d));
    }
  }

  lemma ExecIs(argv: seq<Token>)
    requires |argv| < 10 && forall i | 0 <= i < |argv| :: argv[i].Word?
    ensures var t := Alone(Simple([], ArgsOf(argv))); LineOk(t) && SpellLine(t) == argv && LineMeans(t) == Exec(argv)
  {
    hide LineOk, SpellLine, LineMeans;
    AloneIs(Simple([], ArgsOf(argv)));
    ArgsOfSpell(argv);
    NoRedirects(Exec(argv));
    assert [] + argv == argv;
  }

  lemma RedirIs(line: Line, r: Redirect)
    requires LineOk(line) && RedirectOk(r)
    ensures var t := Alone(Block(line, [r]));
      && LineOk(t) && LineMeans(t) == Redirected(LineMeans(line), r)
      && SpellLine(t) == [Sym('(')] + SpellLine(line) + [Sym(')'), Sym(r.op), r.file]
  {
    hide LineOk, SpellLine, LineMeans;
    AloneIs(Block(line, [r]));
    SplitRedirect(r, [], LineMeans(line));
    NoRedirects(Redirected(LineMeans(line), r));
    assert [r] + [] == [r];
  }

  lemma BackIs(line: Line)
    requires LineOk(line)
    ensures var t := Line(Pipeline(Block(line, []), EndPipe), 1, EndLine);
      && LineOk(t) && LineMeans(t) == Back(LineMeans(line))
      && SpellLine(t) == [Sym('(')] + SpellLine(line) + [Sym(')'), Sym('&')]
  {
    BlockIs(line);
    var p := Pipeline(Block(line, []), EndPipe);
    assert SpellPipeline(p) == SpellCommand(Block(line, [])) && PipelineOk(p) && PipelineMeans(p) == LineMeans(line);
    hide SpellPipeline, PipelineMeans, PipelineOk, SpellCommand, CommandMeans, CommandOk;
    assert Amps(1) == [Sym('&')] + Amps(0);
    assert Backs(LineMeans(line), 1) == Backs(Back(LineMeans(line)), 0);
  }

  lemma PipeIs(l: Line, r: Line)
    requires LineOk(l) && LineOk(r)
    ensures var t := Line(Pipeline(Block(l, []), Bar(Pipeline(Block(r, []), EndPipe))), 0, EndLine);
      && LineOk(t) && LineMeans(t) == Pipe(LineMeans(l), LineMeans(r))
      && SpellLine(t) == [Sym('(')] + SpellLine(l) + [Sym(')'), Sym('|'), Sym('(')] + SpellLine(r) + [Sym(')')]
  {
    hide LineOk, SpellCommand, CommandMeans;
    BlockIs(l);
    BlockIs(r);
    var q := Pipeline(Block(r, []), EndPipe);
    var p := Pipeline(Block(l, []), Bar(q));
    assert SpellPipeline(q) == SpellCommand(Block(r, [])) && PipelineOk(q);
    assert SpellPipeline(p) == SpellCommand(Block(l, [])) + ([Sym('|')] + SpellPipeline(q)) && PipelineOk(p);
    LineOfPipe(p);
  }

  lemma LineOfPipe(p: Pipeline)
    requires PipelineOk(p)
    ensures var t := Line(p, 0, EndLine);
      LineOk(t) && SpellLine(t) == SpellPipeline(p) && LineMeans(t) == PipelineMeans(p)
  {
  }

  lemma ListIs(l: Line, r: Line)
    requires LineOk(l) && LineOk(r)
    ensures var t := Line(Pipeline(Block(l, []), EndPipe), 0, Semi(Alone(Block(r, []))));
      && LineOk(t) && LineMeans(t) == List(LineMeans(l), LineMeans(r))
      && SpellLine(t) == [Sym('(')] + SpellLine(l) + [Sym(')'), Sym(';'), Sym('(')] + SpellLine(r) + [Sym(')')]
  {
    hide SpellCommand, CommandMeans, CommandOk;
    BlockIs(l);
    BlockIs(r);
    AloneIs(Block(r, []));
    var p := Pipeline(Block(l, []), EndPipe);
    assert SpellPipeline(p) == SpellCommand(Block(l, [])) && PipelineOk(p) && PipelineMeans(p) == LineMeans(l);
    LineOfList(p, Alone(Block(r, [])));
  }

  lemma LineOfList(p: Pipeline, r: Line)
    requires PipelineOk(p) && LineOk(r)
    ensures var t := Line(p, 0, Semi(r));
      LineOk(t) && SpellLine(t) == SpellPipeline(p) + ([Sym(';')] + SpellLine(r))
      && LineMeans(t) == List(PipelineMeans(p), LineMeans(r))
  {
  }

  /** Whatever command is typed with parentheses around its parts is the command that is parsed. */
  lemma TypedIsParsed(c: Cmd)
    requires Typable(c)
    ensures ParseCmd(Typed(c)) == Ok(c, [])
  {
    TreeIs(c);
    ParserIsGrammar(Typed(c), c);
  }
}
