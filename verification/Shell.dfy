/** sh.c on characters: the tokenizer with its cursor, the recursive descent parser, and
    nulterminate, which cuts the line into C strings by writing NULs into it. */
module Shell {
  import opened ShellGrammar
  import G = ShellGrammar

  const NUL: char := '\0'

  predicate IsWs(c: char) { c == ' ' || c == '\t' || c == '\r' || c == '\n' || c == 11 as char }

  predicate IsSym(c: char) { c == '<' || c == '|' || c == '>' || c == '&' || c == ';' || c == '(' || c == ')' }

  predicate IsWordChar(c: char) { !IsWs(c) && !IsSym(c) }

  // ----- the token string of a line -----

  function SkipWs(t: seq<char>, i: nat): (j: nat)
    requires i <= |t|
    ensures i <= j <= |t| && (forall k | i <= k < j :: IsWs(t[k])) && (j < |t| ==> !IsWs(t[j]))
    decreases |t| - i
  {
    if i < |t| && IsWs(t[i]) then SkipWs(t, i + 1) else i
  }

  function WordEnd(t: seq<char>, i: nat): (j: nat)
    requires i <= |t|
    ensures i <= j <= |t| && (forall k | i <= k < j :: IsWordChar(t[k])) && (j < |t| ==> !IsWordChar(t[j]))
    ensures i < |t| && IsWordChar(t[i]) ==> i < j
    decreases |t| - i
  {
    if i < |t| && IsWordChar(t[i]) then WordEnd(t, i + 1) else i
  }

  /** Where the token that starts at j ends, and what it is. */
  function TokenEnd(t: seq<char>, j: nat): (e: nat)
    requires j < |t| && !IsWs(t[j])
    ensures j < e <= |t|
  {
    if t[j] == '>' && j + 1 < |t| && t[j + 1] == '>' then j + 2
    else if IsSym(t[j]) then j + 1
    else WordEnd(t, j)
  }

  function TokenAt(t: seq<char>, j: nat): Token
    requires j < |t| && !IsWs(t[j])
  {
    if !IsSym(t[j]) then Word(j, WordEnd(t, j))
    else if TokenEnd(t, j) == j + 2 then Sym('+')
    else Sym(t[j])
  }

  function Tokens(t: seq<char>, i: nat): seq<Token>
    requires i <= |t|
    decreases |t| - i
  {
    var j := SkipWs(t, i);
    if j == |t| then [] else [TokenAt(t, j)] + Tokens(t, TokenEnd(t, j))
  }

  lemma TokensSkip(t: seq<char>, i: nat, k: nat)
    requires i <= |t| && i <= k <= SkipWs(t, i)
    ensures k <= |t| && SkipWs(t, k) == SkipWs(t, i) && Tokens(t, k) == Tokens(t, i)
  {
  }

  lemma FirstToken(t: seq<char>, i: nat)
    requires i <= |t|
    ensures var j := SkipWs(t, i); Tokens(t, i) == if j == |t| then [] else [TokenAt(t, j)] + Tokens(t, TokenEnd(t, j))
  {
  }

  /** A word is a non-empty stretch of word characters with none after it. */
  ghost predicate WordOk(t: seq<char>, w: Token) {
    w.Word? && 0 <= w.q < w.eq <= |t| && (forall k | w.q <= k < w.eq :: IsWordChar(t[k]))
      && (w.eq < |t| ==> !IsWordChar(t[w.eq]))
  }

  lemma {:induction false} TokensAreWords(t: seq<char>, i: nat)
    requires i <= |t|
    ensures forall k | 0 <= k < |Tokens(t, i)| && Tokens(t, i)[k].Word? :: WordOk(t, Tokens(t, i)[k])
    decreases |t| - i
  {
    var j := SkipWs(t, i);
    if j < |t| { TokensAreWords(t, TokenEnd(t, j)); }
  }

  // ----- what a token string spells -----

  const BLANKS: string := " \t\r\n\U{0B}"
  const SYMBOLS: string := "<|>&;()"

  ghost predicate AllBlank(t: seq<char>, i: nat, j: nat)
    requires i <= j <= |t|
  {
    forall k | i <= k < j :: t[k] in BLANKS
  }

  /** Token w is what stands in t from j to e: ">>", a symbol that is not the first half of one, or a
      word with no blank or symbol in it that one of those, or the end, follows. */
  ghost predicate Stands(t: seq<char>, j: nat, e: nat, w: Token)
    requires j <= e <= |t|
  {
    match w
    case Word(q, eq) =>
      && q == j < e == eq && (forall k | j <= k < e :: t[k] !in BLANKS && t[k] !in SYMBOLS)
      && (e < |t| ==> t[e] in BLANKS || t[e] in SYMBOLS)
    case Sym(c) =>
      if c == '+' then t[j..e] == ">>"
      else c in SYMBOLS && t[j..e] == [c] && (c == '>' && e < |t| ==> t[e] != '>')
  }

  /** From i on the line is the tokens ts in order, with blanks before, between and after them. */
  ghost predicate Spells(t: seq<char>, i: nat, ts: seq<Token>)
    requires i <= |t|
    decreases |ts|
  {
    if ts == [] then AllBlank(t, i, |t|)
    else
      exists j: nat, e: nat ::
        i <= j <= e <= |t| && AllBlank(t, i, j) && Stands(t, j, e, ts[0]) && Spells(t, e, ts[1..])
  }

  /** The tokens of a line spell it. */
  lemma {:induction false} TokensSpell(t: seq<char>, i: nat)
    requires i <= |t|
    ensures Spells(t, i, Tokens(t, i))
    decreases |t| - i
  {
    var j := SkipWs(t, i);
    BlanksAre(t, i, j);
    if j < |t| {
      var e := TokenEnd(t, j);
      TokensSpell(t, e);
      TokenStands(t, j);
      assert Tokens(t, i)[1..] == Tokens(t, e);
    }
  }

  lemma BlanksAre(t: seq<char>, i: nat, j: nat)
    requires i <= j <= |t| && forall k | i <= k < j :: IsWs(t[k])
    ensures AllBlank(t, i, j)
  {
  }

  lemma TokenStands(t: seq<char>, j: nat)
    requires j < |t| && !IsWs(t[j])
    ensures Stands(t, j, TokenEnd(t, j), TokenAt(t, j))
  {
    var e := TokenEnd(t, j);
    if TokenAt(t, j) == Sym('+') { assert t[j..e] == [t[j], t[j + 1]]; }
    if IsSym(t[j]) && e == j + 1 { assert t[j..e] == [t[j]]; }
  }

  /** And no other token string does. */
  lemma {:induction false} SpellingUnique(t: seq<char>, i: nat, a: seq<Token>, b: seq<Token>)
    requires i <= |t| && Spells(t, i, a) && Spells(t, i, b)
    ensures a == b
    decreases |a|
  {
    if a != [] && b != [] {
      var j, e :| i <= j <= e <= |t| && AllBlank(t, i, j) && Stands(t, j, e, a[0]) && Spells(t, e, a[1..]);
      var k, f :| i <= k <= f <= |t| && AllBlank(t, i, k) && Stands(t, k, f, b[0]) && Spells(t, f, b[1..]);
      Starts(t, j, e, a[0]);
      Starts(t, k, f, b[0]);
      assert j == k;
      OneStands(t, j, e, a[0], f, b[0]);
      SpellingUnique(t, e, a[1..], b[1..]);
      assert a == [a[0]] + a[1..] && b == [b[0]] + b[1..];
    } else if a != [] {
      var j, e :| i <= j <= e <= |t| && AllBlank(t, i, j) && Stands(t, j, e, a[0]) && Spells(t, e, a[1..]);
      Starts(t, j, e, a[0]);
    } else if b != [] {
      var k, f :| i <= k <= f <= |t| && AllBlank(t, i, k) && Stands(t, k, f, b[0]) && Spells(t, f, b[1..]);
      Starts(t, k, f, b[0]);
    }
  }

  lemma Starts(t: seq<char>, j: nat, e: nat, w: Token)
    requires j <= e <= |t| && Stands(t, j, e, w)
    ensures j < e && t[j] !in BLANKS
  {
    if w.Sym? { assert t[j] == t[j..e][0]; }
  }

  lemma OneStands(t: seq<char>, j: nat, e: nat, v: Token, f: nat, w: Token)
    requires j <= e <= |t| && j <= f <= |t| && Stands(t, j, e, v) && Stands(t, j, f, w)
    ensures e == f && v == w
  {
    Starts(t, j, e, v);
    Starts(t, j, f, w);
    if v.Sym? { assert t[j] == t[j..e][0] && (e == j + 2 ==> t[j + 1] == t[j..e][1]); }
    if w.Sym? { assert t[j] == t[j..f][0] && (f == j + 2 ==> t[j + 1] == t[j..f][1]); }
  }

  /** peek looks at one character; it asks about the next token. */
  lemma PeekMeans(t: seq<char>, i: nat, cs: string)
    requires i <= |t| && forall c | c in cs :: IsSym(c) && c != '>'
    ensures SkipWs(t, i) < |t| && t[SkipWs(t, i)] in cs <==> At(Tokens(t, i), cs)
  {
  }

  lemma PeekRedirs(t: seq<char>, i: nat)
    requires i <= |t|
    ensures SkipWs(t, i) < |t| && t[SkipWs(t, i)] in "<>" <==> At(Tokens(t, i), "<>+")
  {
  }

  // ----- the words of a command -----

  function WordSet(ws: seq<Token>): set<Token> { set w | w in ws }

  /** The argv and file strings of a command. */
  function Strings(c: Cmd): set<Token> {
    match c
    case Exec(argv) => WordSet(argv)
    case Redir(d, file, m, n) => Strings(d) + {file}
    case Pipe(l, r) => Strings(l) + Strings(r)
    case List(l, r) => Strings(l) + Strings(r)
    case Back(d) => Strings(d)
  }

  function WordsIn(ts: seq<Token>): set<Token> { set w | w in ts && w.Word? }

  lemma WordsJoin(a: seq<Token>, b: seq<Token>)
    ensures WordsIn(a + b) == WordsIn(a) + WordsIn(b)
  {
  }

  function Files(rs: seq<Redirect>): set<Token> { set i | 0 <= i < |rs| :: rs[i].file }

  lemma {:induction false} WrapStrings(c: Cmd, rs: seq<Redirect>)
    ensures Strings(Wrap(c, rs)) == Strings(c) + Files(rs)
    decreases |rs|
  {
    if rs != [] {
      WrapStrings(Redirected(c, rs[0]), rs[1..]);
      FilesJoin([rs[0]], rs[1..]);
      assert rs == [rs[0]] + rs[1..];
      assert Files([rs[0]]) == {rs[0].file} by { assert rs[0].file == [rs[0]][0].file; }
    }
  }

  lemma FilesJoin(a: seq<Redirect>, b: seq<Redirect>)
    ensures Files(a + b) == Files(a) + Files(b)
  {
    forall w | w in Files(a) + Files(b)
      ensures w in Files(a + b)
    {
      if w in Files(a) {
        var i :| 0 <= i < |a| && a[i].file == w;
        assert (a + b)[i].file == w;
      } else {
        var i :| 0 <= i < |b| && b[i].file == w;
        assert (a + b)[|a| + i].file == w;
      }
    }
  }

  lemma {:induction false} RedirectWords(rs: seq<Redirect>)
    requires RedirectsOk(rs)
    ensures WordsIn(SpellRedirects(rs)) == Files(rs)
    decreases |rs|
  {
    if rs != [] {
      assert RedirectOk(rs[0]);
      RedirectWords(rs[1..]);
      WordsJoin([Sym(rs[0].op), rs[0].file], SpellRedirects(rs[1..]));
      FilesJoin([rs[0]], rs[1..]);
      assert rs == [rs[0]] + rs[1..];
      assert Files([rs[0]]) == {rs[0].file} by { assert rs[0].file == [rs[0]][0].file; }
    }
  }

  lemma {:induction false} ArgWords(args: seq<Arg>)
    requires forall i | 0 <= i < |args| :: ArgOk(args[i])
    ensures WordsIn(SpellArgs(args)) == WordSet(Words(args)) + Files(Redirects(args))
    decreases |args|
  {
    if args != [] {
      assert ArgOk(args[0]);
      ArgWords(args[1..]);
      RedirectWords(args[0].redirs);
      WordsJoin([args[0].word], SpellRedirects(args[0].redirs));
      WordsJoin([args[0].word] + SpellRedirects(args[0].redirs), SpellArgs(args[1..]));
      FilesJoin(args[0].redirs, Redirects(args[1..]));
    }
  }

  lemma {:induction false} AmpsWords(c: Cmd, n: nat)
    ensures WordsIn(Amps(n)) == {} && Strings(Backs(c, n)) == Strings(c)
    decreases n
  {
    if n > 0 { AmpsWords(Back(c), n - 1); }
  }

  lemma {:induction false} CommandWords(t: Command)
    requires CommandOk(t)
    ensures Strings(CommandMeans(t)) == WordsIn(SpellCommand(t))
    decreases t
  {
    hide Wrap, SpellLine, LineMeans, LineOk, SpellRedirects, SpellArgs, Redirects, Words, Files;
    match t {
      case Simple(pre, args) => {
        WrapStrings(Exec(Words(args)), pre + Redirects(args));
        FilesJoin(pre, Redirects(args));
        RedirectWords(pre);
        ArgWords(args);
        WordsJoin(SpellRedirects(pre), SpellArgs(args));
      }
      case Block(line, rs) => {
        WrapStrings(LineMeans(line), rs);
        LineWords(line);
        RedirectWords(rs);
        WordsJoin([Sym('(')], SpellLine(line));
        WordsJoin([Sym('(')] + SpellLine(line), [Sym(')')]);
        WordsJoin([Sym('(')] + SpellLine(line) + [Sym(')')], SpellRedirects(rs));
      }
    }
  }

  lemma {:induction false} PipelineWords(t: Pipeline)
    requires PipelineOk(t)
    ensures Strings(PipelineMeans(t)) == WordsIn(SpellPipeline(t))
    decreases t
  {
    hide SpellCommand, CommandMeans, CommandOk;
    CommandWords(t.first);
    if t.rest.Bar? {
      PipelineWords(t.rest.pipe);
      WordsJoin([Sym('|')], SpellPipeline(t.rest.pipe));
      WordsJoin(SpellCommand(t.first), [Sym('|')] + SpellPipeline(t.rest.pipe));
    } else {
      assert SpellPipeline(t) == SpellCommand(t.first);
    }
  }

  lemma {:induction false} LineWords(t: Line)
    requires LineOk(t)
    ensures Strings(LineMeans(t)) == WordsIn(SpellLine(t))
    decreases t
  {
    hide SpellPipeline, PipelineMeans, PipelineOk, Amps, Backs;
    PipelineWords(t.first);
    AmpsWords(PipelineMeans(t.first), t.amps);
    WordsJoin(SpellPipeline(t.first), Amps(t.amps));
    if t.rest.Semi? {
      LineWords(t.rest.line);
      WordsJoin([Sym(';')], SpellLine(t.rest.line));
      WordsJoin(SpellPipeline(t.first) + Amps(t.amps), [Sym(';')] + SpellLine(t.rest.line));
    } else {
      assert SpellLine(t) == SpellPipeline(t.first) + Amps(t.amps);
    }
  }

  /** A parsed command uses every word of the line, and nothing else. */
  lemma EveryWordUsed(ts: seq<Token>)
    requires ParseCmd(ts).Ok?
    ensures Strings(ParseCmd(ts).cmd) == WordsIn(ts)
  {
    var t := LineSound(ts);
    assert SpellLine(t) + [] == SpellLine(t);
    LineWords(t);
  }

  // ----- nulterminate -----

  ghost function Ends(c: Cmd): set<int> { set w | w in Strings(c) && w.Word? :: w.eq }

  /** A NUL at the end of any word is inside no other: every string still reads as its token. */
  ghost predicate ReadsBack(t: seq<char>, u: seq<char>, w: Token) {
    && w.Word? && 0 <= w.q < w.eq <= |t| < |u| && u[w.q..w.eq] == t[w.q..w.eq] && u[w.eq] == NUL
    && (forall k | w.q <= k < w.eq :: u[k] != NUL)
  }

  lemma NulsFallBetweenWords(t: seq<char>, u: seq<char>, c: Cmd)
    requires |u| > |t| && forall k | 0 <= k < |t| :: t[k] != NUL
    requires forall w | w in Strings(c) :: WordOk(t, w)
    requires forall k | 0 <= k <= |t| :: u[k] == if k in Ends(c) then NUL else if k < |t| then t[k] else u[k]
    ensures forall w | w in Strings(c) :: ReadsBack(t, u, w)
  {
  }

  // ----- the parser on characters -----

  datatype Result = Parsed(cmd: Cmd) | Panic(e: Error)

  /** A method ends as the function on token strings says, with its cursor at what that leaves. */
  ghost predicate Agrees(r: Result, p: Parse, ts: seq<Token>) {
    match p
    case Ok(c, rest) => r == Parsed(c) && ts == rest
    case Err(e) => r == Panic(e)
  }

  class Parser {
    const buf: array<char>
    const es: int
    var ps: int

    ghost predicate Valid()
      reads this, buf
    {
      0 <= ps <= es < buf.Length && buf[es] == NUL && forall k | 0 <= k < es :: buf[k] != NUL
    }

    ghost function Text(): seq<char>
      reads this, buf
      requires 0 <= es <= buf.Length
    {
      buf[..es]
    }

    /** The tokens from the cursor on. */
    ghost function Ahead(): seq<Token>
      reads this, buf
      requires Valid()
    {
      Tokens(Text(), ps)
    }

    constructor (buf: array<char>, es: int)
      requires 0 <= es < buf.Length && buf[es] == NUL && forall k | 0 <= k < es :: buf[k] != NUL
      ensures Valid() && this.buf == buf && this.es == es && ps == 0
    {
      this.buf, this.es, ps := buf, es, 0;
    }

    /** Moves the cursor over white space. */
    method Skip(from: int) returns (s: int)
      requires Valid() && 0 <= from <= es
      ensures s == SkipWs(Text(), from)
    {
      s := from;
      while s < es && IsWs(buf[s])
        invariant from <= s <= es && forall k | from <= k < s :: IsWs(Text()[k])
      {
        s := s + 1;
      }
      SkipsTo(Text(), from, s);
    }

    /** ret is 'a' for a word, 0 at the end of the line, the symbol otherwise. */
    method Gettoken() returns (ret: char, q: int, eq: int)
      requires Valid()
      modifies this`ps
      ensures Valid()
      ensures old(Ahead()) == [] ==> ret == NUL && Ahead() == []
      ensures old(Ahead()) != [] ==> Ahead() == old(Ahead())[1..] && ret != NUL
      ensures old(Ahead()) != [] ==> old(Ahead())[0] == if ret == 'a' then Word(q, eq) else Sym(ret)
    {
      hide Tokens, SkipWs, WordEnd;
      ghost var t := Text();
      FirstToken(t, ps);
      var s := Skip(ps);
      q := s;
      ret := buf[s];
      if ret == NUL {
      } else if ret == '|' || ret == '(' || ret == ')' || ret == ';' || ret == '&' || ret == '<' {
        s := s + 1;
      } else if ret == '>' {
        s := s + 1;
        if buf[s] == '>' {
          ret := '+';
          s := s + 1;
        }
      } else {
        ret := 'a';
        while s < es && !IsWs(buf[s]) && !IsSym(buf[s])
          invariant q <= s <= es && forall k | q <= k < s :: IsWordChar(t[k])
        {
          s := s + 1;
        }
        WordEndsAt(t, q, s);
      }
      eq := s;
      assert q < es ==> eq == TokenEnd(t, q);
      ps := Skip(s);
      TokensSkip(t, s, ps);
      FirstToken(t, s);
    }

    /** Is the next character one of cs? */
    method Peek(cs: string) returns (b: bool)
      requires Valid()
      modifies this`ps
      ensures Valid() && Ahead() == old(Ahead())
      ensures ps == SkipWs(Text(), old(ps)) && (b <==> ps < es && buf[ps] in cs)
      ensures (forall c | c in cs :: IsSym(c) && c != '>') ==> (b <==> At(Ahead(), cs))
      ensures cs == "<>" ==> (b <==> At(Ahead(), "<>+"))
    {
      ghost var t := Text();
      var s := Skip(ps);
      TokensSkip(t, ps, s);
      ghost var from := ps;
      ps := s;
      b := buf[s] != NUL && buf[s] in cs;
      if forall c | c in cs :: IsSym(c) && c != '>' { PeekMeans(t, from, cs); }
      if cs == "<>" { PeekRedirs(t, from); }
    }

    method ParseLine() returns (r: Result)
      requires Valid()
      modifies this`ps
      ensures Valid() && Agrees(r, G.ParseLine(old(Ahead())), Ahead())
      decreases |Ahead()|, 4
    {
      hide Tokens, SkipWs, TokenAt, TokenEnd, WordEnd, G.ParsePipe;
      ghost var ts := Ahead();
      r := ParsePipe();
      if r.Panic? { return; }
      var cmd := r.cmd;
      ghost var a := G.ParseAmps(cmd, Ahead());
      var b := Peek("&");
      while b
        invariant Valid() && G.ParseAmps(cmd, Ahead()) == a && |Ahead()| <= |ts| && (b <==> At(Ahead(), "&"))
        decreases |Ahead()|
      {
        var ret, q, eq := Gettoken();
        cmd := Back(cmd);
        b := Peek("&");
      }
      var semi := Peek(";");
      if semi {
        var ret, q, eq := Gettoken();
        var rest := ParseLine();
        if rest.Panic? { return rest; }
        cmd := List(cmd, rest.cmd);
      }
      return Parsed(cmd);
    }

    method ParsePipe() returns (r: Result)
      requires Valid()
      modifies this`ps
      ensures Valid() && Agrees(r, G.ParsePipe(old(Ahead())), Ahead())
      decreases |Ahead()|, 3
    {
      hide Tokens, SkipWs, TokenAt, TokenEnd, WordEnd, G.ParseExec;
      r := ParseExec();
      if r.Panic? { return; }
      var cmd := r.cmd;
      var bar := Peek("|");
      if bar {
        var ret, q, eq := Gettoken();
        var right := ParsePipe();
        if right.Panic? { return right; }
        cmd := Pipe(cmd, right.cmd);
      }
      return Parsed(cmd);
    }

    method ParseRedirs(c: Cmd) returns (r: Result)
      requires Valid()
      modifies this`ps
      ensures Valid() && Agrees(r, G.ParseRedirs(c, old(Ahead())), Ahead())
    {
      hide Tokens, SkipWs, TokenAt, TokenEnd, WordEnd;
      var cmd := c;
      ghost var p := G.ParseRedirs(c, Ahead());
      var b := Peek("<>");
      while b
        invariant Valid() && G.ParseRedirs(cmd, Ahead()) == p && (b <==> At(Ahead(), "<>+"))
        decreases |Ahead()|
      {
        var tok, q0, eq0 := Gettoken();
        var ret, q, eq := Gettoken();
        if ret != 'a' { return Panic(MissingFile); }
        if tok == '<' {
          cmd := Redir(cmd, Word(q, eq), O_RDONLY, 0);
        } else if tok == '>' {
          cmd := Redir(cmd, Word(q, eq), O_WRONLY + O_CREATE, 1);
        } else if tok == '+' {
          cmd := Redir(cmd, Word(q, eq), O_WRONLY + O_CREATE, 1);
        }
        b := Peek("<>");
      }
      return Parsed(cmd);
    }

    method ParseBlock() returns (r: Result)
      requires Valid()
      modifies this`ps
      ensures Valid() && Agrees(r, G.ParseBlock(old(Ahead())), Ahead())
      decreases |Ahead()|, 1
    {
      hide Tokens, SkipWs, TokenAt, TokenEnd, WordEnd, G.ParseLine, G.ParseRedirs;
      var open := Peek("(");
      if !open { return Panic(NoBlock); }
      var ret, q, eq := Gettoken();
      r := ParseLine();
      if r.Panic? { return; }
      var close := Peek(")");
      if !close { return Panic(MissingParen); }
      ret, q, eq := Gettoken();
      r := ParseRedirs(r.cmd);
    }

    method ParseExec() returns (r: Result)
      requires Valid()
      modifies this`ps
      ensures Valid() && Agrees(r, G.ParseExec(old(Ahead())), Ahead())
      decreases |Ahead()|, 2
    {
      hide Tokens, SkipWs, TokenAt, TokenEnd, WordEnd, G.ParseBlock, G.ParseRedirs, AddArg;
      var open := Peek("(");
      if open {
        r := ParseBlock();
        return;
      }
      r := ParseRedirs(Exec([]));
      if r.Panic? { return; }
      var ret := r.cmd;
      var argc := 0;
      ghost var p := G.ParseArgs(ret, argc, Ahead());
      var stop := Peek("|)&;");
      while !stop
        invariant Valid() && 0 <= argc < MAXARGS && G.ParseArgs(ret, argc, Ahead()) == p
          && (stop <==> At(Ahead(), "|)&;"))
        decreases |Ahead()|
      {
        var tok, q, eq := Gettoken();
        if tok == NUL { break; }
        if tok != 'a' { return Panic(Syntax); }
        ret := AddArg(ret, Word(q, eq));
        argc := argc + 1;
        if argc >= MAXARGS { return Panic(TooManyArgs); }
        r := ParseRedirs(ret);
        if r.Panic? { return; }
        ret := r.cmd;
        stop := Peek("|)&;");
      }
      return Parsed(ret);
    }
  }

  lemma {:induction false} SkipsTo(t: seq<char>, i: nat, s: nat)
    requires i <= s <= |t| && (forall k | i <= k < s :: IsWs(t[k])) && (s < |t| ==> !IsWs(t[s]))
    ensures s == SkipWs(t, i)
  {
  }

  lemma {:induction false} WordEndsAt(t: seq<char>, i: nat, s: nat)
    requires i <= s <= |t| && (forall k | i <= k < s :: IsWordChar(t[k])) && (s < |t| ==> !IsWordChar(t[s]))
    ensures s == WordEnd(t, i)
  {
  }

  method Nulterminate(buf: array<char>, cmd: Cmd)
    requires forall w | w in Strings(cmd) :: w.Word? && 0 <= w.eq < buf.Length
    modifies buf
    ensures forall k | 0 <= k < buf.Length :: buf[k] == if k in Ends(cmd) then NUL else old(buf[k])
    decreases cmd
  {
    match cmd {
      case Exec(argv) =>
        for i := 0 to |argv|
          invariant forall k | 0 <= k < buf.Length ::
            buf[k] == if exists j :: 0 <= j < i && argv[j].eq == k then NUL else old(buf[k])
        {
          assert argv[i] in Strings(cmd);
          buf[argv[i].eq] := NUL;
        }
        ExecEnds(argv);
      case Redir(sub, file, mode, fd) =>
        Nulterminate(buf, sub);
        buf[file.eq] := NUL;
      case Pipe(left, right) =>
        Nulterminate(buf, left);
        Nulterminate(buf, right);
      case List(left, right) =>
        Nulterminate(buf, left);
        Nulterminate(buf, right);
      case Back(sub) =>
        Nulterminate(buf, sub);
    }
  }

  lemma ExecEnds(argv: seq<Token>)
    requires forall w | w in argv :: w.Word?
    ensures forall k :: k in Ends(Exec(argv)) <==> exists j :: 0 <= j < |argv| && argv[j].eq == k
  {
  }

  /** strlen. */
  method Strlen(buf: array<char>) returns (n: int)
    requires exists k :: 0 <= k < buf.Length && buf[k] == NUL
    ensures 0 <= n < buf.Length && buf[n] == NUL && forall k | 0 <= k < n :: buf[k] != NUL
  {
    n := 0;
    while buf[n] != NUL
      invariant 0 <= n < buf.Length && forall k | 0 <= k < n :: buf[k] != NUL
      decreases buf.Length - n
    {
      n := n + 1;
    }
  }

  /** parsecmd: the one command the line spells, with every string of it cut out of the line, or a
      panic with the line untouched. */
  method Parsecmd(buf: array<char>) returns (r: Result, n: int)
    requires exists k :: 0 <= k < buf.Length && buf[k] == NUL
    modifies buf
    ensures 0 <= n < buf.Length && old(buf[n]) == NUL && forall k | 0 <= k < n :: old(buf[k]) != NUL
    ensures Spells(old(buf[..n]), 0, Tokens(old(buf[..n]), 0))
    ensures Agrees(r, ParseCmd(Tokens(old(buf[..n]), 0)), [])
    ensures r.Panic? ==> buf[..] == old(buf[..])
    ensures r.Parsed? ==> forall w | w in Strings(r.cmd) :: ReadsBack(old(buf[..n]), buf[..], w)
    ensures r.Parsed? ==> Strings(r.cmd) == WordsIn(Tokens(old(buf[..n]), 0))
  {
    n := Strlen(buf);
    ghost var t := buf[..n];
    TokensSpell(t, 0);
    var p := new Parser(buf, n);
    r := p.ParseLine();
    if r.Panic? { return; }
    var b := p.Peek("");
    if p.ps != n { return Panic(Leftovers), n; }
    EveryWordUsed(Tokens(t, 0));
    TokensAreWords(t, 0);
    var cmd := r.cmd;
    forall w | w in Strings(cmd)
      ensures WordOk(t, w)
    {
    }
    Nulterminate(buf, cmd);
    NulsFallBetweenWords(t, buf[..], cmd);
  }
}
