/** The shell's command language: trees, tokens, the grammar as a parser of tokens, and
    the canonical spelling of a tree. */
module Grammar {
  import opened Wrappers

  const MAXARGS := 10

  /** A command over words of type W. The mode of a redirection is '<', '>' or, for >>,
      '+'. */
  datatype Cmd<W> =
    | Exec(argv: seq<W>)
    | Redir(cmd: Cmd<W>, mode: char, file: W)
    | Pipe(left: Cmd<W>, right: Cmd<W>)
    | List(left: Cmd<W>, right: Cmd<W>)
    | Back(cmd: Cmd<W>)

  datatype Tok = Sym(c: char) | Word(w: string)

  datatype Redirection<W> = Redirection(mode: char, file: W)

  /** A command inside its redirections, the first one innermost. */
  function Wrap<W>(c: Cmd<W>, rs: seq<Redirection<W>>): Cmd<W> {
    if rs == [] then c else Redir(Wrap(c, rs[..|rs| - 1]), rs[|rs| - 1].mode, rs[|rs| - 1].file)
  }

  lemma WrapMore<W>(c: Cmd<W>, rs: seq<Redirection<W>>, r: Redirection<W>)
    ensures Wrap(c, rs + [r]) == Redir(Wrap(c, rs), r.mode, r.file)
  {
    assert (rs + [r])[..|rs|] == rs;
  }

  // ---------- grammar ----------

  /** The next token is this symbol. */
  predicate At(toks: seq<Tok>, c: char) {
    toks != [] && toks[0] == Sym(c)
  }

  predicate AtRedir(toks: seq<Tok>) {
    At(toks, '<') || At(toks, '>') || At(toks, '+')
  }

  /** A simple command ends here. */
  predicate Stops(toks: seq<Tok>) {
    toks == [] || At(toks, '|') || At(toks, ')') || At(toks, '&') || At(toks, ';')
  }

  function Redirs(rs: seq<Redirection<string>>, toks: seq<Tok>): (r: Option<(seq<Redirection<string>>, seq<Tok>)>)
    ensures r.Some? ==> |r.value.1| <= |toks|
    decreases |toks|
  {
    if !AtRedir(toks) then Some((rs, toks))
    else if |toks| < 2 || !toks[1].Word? then None
    else Redirs(rs + [Redirection(toks[0].c, toks[1].w)], toks[2..])
  }

  /** The words of a simple command and the redirections among them. */
  function Args(args: seq<string>, rs: seq<Redirection<string>>, toks: seq<Tok>)
    : (r: Option<(seq<string>, seq<Redirection<string>>, seq<Tok>)>)
    ensures r.Some? ==> |r.value.2| <= |toks|
    decreases |toks|
  {
    if Stops(toks) then Some((args, rs, toks))
    else if !toks[0].Word? || |args| + 1 >= MAXARGS then None
    else match Redirs(rs, toks[1..])
      case None => None
      case Some((rs', rest)) => Args(args + [toks[0].w], rs', rest)
  }

  function Simple(toks: seq<Tok>): (r: Option<(Cmd<string>, seq<Tok>)>)
    ensures r.Some? ==> |r.value.1| <= |toks|
  {
    match Redirs([], toks)
    case None => None
    case Some((rs, rest)) =>
      match Args([], rs, rest)
      case None => None
      case Some((args, rs', rest')) => Some((Wrap(Exec(args), rs'), rest'))
  }

  function Block(toks: seq<Tok>): (r: Option<(Cmd<string>, seq<Tok>)>)
    requires At(toks, '(')
    ensures r.Some? ==> |r.value.1| < |toks|
    decreases |toks|, 0
  {
    match Line(toks[1..])
    case None => None
    case Some((c, rest)) =>
      if !At(rest, ')') then None
      else match Redirs([], rest[1..])
        case None => None
        case Some((rs, rest')) => Some((Wrap(c, rs), rest'))
  }

  function Pipeline(toks: seq<Tok>): (r: Option<(Cmd<string>, seq<Tok>)>)
    ensures r.Some? ==> |r.value.1| <= |toks|
    decreases |toks|, 1
  {
    match if At(toks, '(') then Block(toks) else Simple(toks)
    case None => None
    case Some((c, rest)) =>
      if !At(rest, '|') then Some((c, rest))
      else match Pipeline(rest[1..])
        case None => None
        case Some((d, rest')) => Some((Pipe(c, d), rest'))
  }

  function Backs(c: Cmd<string>, toks: seq<Tok>): (r: (Cmd<string>, seq<Tok>))
    ensures |r.1| <= |toks|
    decreases |toks|
  {
    if At(toks, '&') then Backs(Back(c), toks[1..]) else (c, toks)
  }

  function Line(toks: seq<Tok>): (r: Option<(Cmd<string>, seq<Tok>)>)
    ensures r.Some? ==> |r.value.1| <= |toks|
    decreases |toks|, 2
  {
    match Pipeline(toks)
    case None => None
    case Some((c, rest)) =>
      var (d, rest') := Backs(c, rest);
      if !At(rest', ';') then Some((d, rest'))
      else match Line(rest'[1..])
        case None => None
        case Some((e, rest'')) => Some((List(d, e), rest''))
  }

  /** A whole input: a line and nothing after it. */
  function Parse(toks: seq<Tok>): Option<Cmd<string>> {
    match Line(toks)
    case None => None
    case Some((c, rest)) => if rest == [] then Some(c) else None
  }

  // ---------- canonical tokens ----------

  /** Redirections on the outside of a command, innermost first, and what they enclose. */
  function Core(c: Cmd<string>): Cmd<string> {
    if c.Redir? then Core(c.cmd) else c
  }

  function Outer(c: Cmd<string>): seq<Redirection<string>> {
    if c.Redir? then Outer(c.cmd) + [Redirection(c.mode, c.file)] else []
  }

  lemma {:induction false} WrapOuter(c: Cmd<string>)
    ensures Wrap(Core(c), Outer(c)) == c
  {
    if c.Redir? {
      WrapOuter(c.cmd);
      WrapMore(Core(c), Outer(c.cmd), Redirection(c.mode, c.file));
    }
  }

  function RedirToks(rs: seq<Redirection<string>>): seq<Tok> {
    if rs == [] then [] else [Sym(rs[0].mode), Word(rs[0].file)] + RedirToks(rs[1..])
  }

  function Words(args: seq<string>): seq<Tok> {
    if args == [] then [] else [Word(args[0])] + Words(args[1..])
  }

  function Size(c: Cmd<string>): nat {
    match c
    case Exec(_) => 1
    case Redir(d, _, _) => 1 + Size(d)
    case Pipe(l, r) => 1 + Size(l) + Size(r)
    case List(l, r) => 1 + Size(l) + Size(r)
    case Back(d) => 1 + Size(d)
  }

  lemma CoreSize(c: Cmd<string>)
    ensures !Core(c).Redir? && if c.Redir? then Size(Core(c)) < Size(c) else Core(c) == c
  {
  }

  /** The order in which the four spellings of one command use each other: it begins
      after the one that goes on to smaller commands. */
  function Rank(c: Cmd<string>, level: nat): nat {
    var low := match c
      case Exec(_) => 0
      case Redir(_, _, _) => 0
      case Pipe(_, _) => 1
      case Back(_) => 2
      case List(_, _) => 3;
    (level + 4 - low) % 4
  }

  /** A command in the place of one part of a pipeline: a simple command as it is, and
      anything else in parentheses. */
  function ExecToks(c: Cmd<string>): seq<Tok>
    decreases Size(c), Rank(c, 0)
  {
    CoreSize(c);
    if Core(c).Exec? then Words(Core(c).argv) + RedirToks(Outer(c))
    else [Sym('(')] + LineToks(Core(c)) + [Sym(')')] + RedirToks(Outer(c))
  }

  function PipeToks(c: Cmd<string>): seq<Tok>
    decreases Size(c), Rank(c, 1)
  {
    if c.Pipe? then ExecToks(c.left) + [Sym('|')] + PipeToks(c.right) else ExecToks(c)
  }

  function BackToks(c: Cmd<string>): seq<Tok>
    decreases Size(c), Rank(c, 2)
  {
    if c.Back? then BackToks(c.cmd) + [Sym('&')] else PipeToks(c)
  }

  function LineToks(c: Cmd<string>): seq<Tok>
    decreases Size(c), Rank(c, 3)
  {
    if c.List? then BackToks(c.left) + [Sym(';')] + LineToks(c.right) else BackToks(c)
  }

  // ---------- round trip over tokens ----------

  predicate PlainMode(c: char) {
    c == '<' || c == '>' || c == '+'
  }

  /** What limits a tree: nine words to a simple command, and redirections of the three
      kinds. */
  predicate Fine(c: Cmd<string>) {
    match c
    case Exec(argv) => |argv| < MAXARGS
    case Redir(d, mode, _) => Fine(d) && PlainMode(mode)
    case Pipe(l, r) => Fine(l) && Fine(r)
    case List(l, r) => Fine(l) && Fine(r)
    case Back(d) => Fine(d)
  }

  predicate FineRedirs(rs: seq<Redirection<string>>) {
    forall k :: 0 <= k < |rs| ==> PlainMode(rs[k].mode)
  }

  lemma FineCore(c: Cmd<string>)
    requires Fine(c)
    ensures Fine(Core(c)) && FineRedirs(Outer(c))
  {
  }

  lemma {:induction false} RedirsBack(acc: seq<Redirection<string>>, rs: seq<Redirection<string>>, rest: seq<Tok>)
    requires FineRedirs(rs) && !AtRedir(rest)
    ensures Redirs(acc, RedirToks(rs) + rest) == Some((acc + rs, rest))
    decreases rs
  {
    if rs == [] {
      assert RedirToks(rs) + rest == rest && acc + rs == acc;
    } else {
      var toks := RedirToks(rs) + rest;
      assert toks == [Sym(rs[0].mode), Word(rs[0].file)] + (RedirToks(rs[1..]) + rest);
      assert toks[2..] == RedirToks(rs[1..]) + rest;
      RedirsBack(acc + [rs[0]], rs[1..], rest);
      assert acc + [rs[0]] + rs[1..] == acc + rs;
    }
  }

  lemma ArgsStep(acc: seq<string>, rs: seq<Redirection<string>>, w: string, more: seq<Tok>)
    requires |acc| + 1 < MAXARGS && Redirs(rs, more).Some?
    ensures Args(acc, rs, [Word(w)] + more) == Args(acc + [w], Redirs(rs, more).value.0, Redirs(rs, more).value.1)
  {
    hide Redirs;
    var toks := [Word(w)] + more;
    assert toks[0] == Word(w) && toks[1..] == more;
  }

  lemma RedirsNone(rs: seq<Redirection<string>>, w: string, more: seq<Tok>)
    ensures Redirs(rs, [Word(w)] + more) == Some((rs, [Word(w)] + more))
  {
  }

  lemma WordsCons(args: seq<string>, tail: seq<Tok>)
    requires args != []
    ensures Words(args) + tail == [Word(args[0])] + (Words(args[1..]) + tail)
  {
  }

  lemma WordsNone(tail: seq<Tok>)
    ensures Words([]) + tail == tail
  {
  }

  lemma {:induction false} ArgsBack(acc: seq<string>, args: seq<string>, tail: seq<Tok>, rs: seq<Redirection<string>>,
      rest: seq<Tok>)
    requires args != [] && |acc| + |args| < MAXARGS && Redirs([], tail) == Some((rs, rest)) && Stops(rest)
    ensures Args(acc, [], Words(args) + tail) == Some((acc + args, rs, rest))
    decreases |args|
  {
    hide Redirs, Args, Words, Stops;
    var w, others := args[0], args[1..];
    var more := Words(others) + tail;
    WordsCons(args, tail);
    assert acc + args == acc + [w] + others;
    if others == [] {
      WordsNone(tail);
      assert more == tail && acc + args == acc + [w];
      ArgsStep(acc, [], w, more);
      ArgsEnd(acc + [w], rs, rest);
    } else {
      WordsCons(others, tail);
      RedirsNone([], others[0], Words(others[1..]) + tail);
      ArgsStep(acc, [], w, more);
      ArgsBack(acc + [w], others, tail, rs, rest);
    }
  }

  lemma ArgsEnd(acc: seq<string>, rs: seq<Redirection<string>>, rest: seq<Tok>)
    requires Stops(rest)
    ensures Args(acc, rs, rest) == Some((acc, rs, rest))
  {
  }

  lemma SimpleBack(args: seq<string>, rs: seq<Redirection<string>>, rest: seq<Tok>)
    requires |args| < MAXARGS && FineRedirs(rs) && Stops(rest)
    ensures
      var toks := Words(args) + (RedirToks(rs) + rest);
      Simple(toks) == Some((Wrap(Exec(args), rs), rest)) && !At(toks, '(')
  {
    var tail := RedirToks(rs) + rest;
    var toks := Words(args) + tail;
    RedirsBack([], rs, rest);
    assert [] + rs == rs;
    if args == [] {
      assert toks == tail;
      NotOpen(rs, rest);
    } else {
      assert toks[0] == Word(args[0]);
      ArgsBack([], args, tail, rs, rest);
      assert [] + args == args;
    }
  }

  lemma NotOpen(rs: seq<Redirection<string>>, rest: seq<Tok>)
    requires FineRedirs(rs) && Stops(rest)
    ensures !At(RedirToks(rs) + rest, '(')
  {
    if rs == [] {
      assert RedirToks(rs) + rest == rest;
    }
  }

  lemma BlockBack(core: Cmd<string>, toks: seq<Tok>, rs: seq<Redirection<string>>, rest: seq<Tok>)
    requires At(toks, '(') && FineRedirs(rs) && Stops(rest)
    requires Line(toks[1..]) == Some((core, [Sym(')')] + (RedirToks(rs) + rest)))
    ensures Block(toks) == Some((Wrap(core, rs), rest))
  {
    hide Line;
    var after := [Sym(')')] + (RedirToks(rs) + rest);
    assert after[1..] == RedirToks(rs) + rest;
    RedirsBack([], rs, rest);
    assert [] + rs == rs;
  }

  /** The four spellings read back. What may follow is what ends such a part. */
  lemma {:induction false} ExecBack(c: Cmd<string>, rest: seq<Tok>)
    requires Fine(c) && Stops(rest)
    ensures
      var toks := ExecToks(c) + rest;
      (if At(toks, '(') then Block(toks) else Simple(toks)) == Some((c, rest))
    decreases Size(c), Rank(c, 0)
  {
    hide Block, Simple, Redirs, Line;
    CoreSize(c);
    FineCore(c);
    WrapOuter(c);
    var core, rs := Core(c), Outer(c);
    var tail := RedirToks(rs) + rest;
    var toks := ExecToks(c) + rest;
    if core.Exec? {
      assert toks == Words(core.argv) + tail;
      SimpleBack(core.argv, rs, rest);
    } else {
      var after := [Sym(')')] + tail;
      assert toks == [Sym('(')] + (LineToks(core) + after);
      assert toks[1..] == LineToks(core) + after;
      LineBack(core, after);
      BlockBack(core, toks, rs, rest);
    }
  }

  lemma {:induction false} PipeBack(c: Cmd<string>, rest: seq<Tok>)
    requires Fine(c) && Stops(rest) && !At(rest, '|')
    ensures Pipeline(PipeToks(c) + rest) == Some((c, rest))
    decreases Size(c), Rank(c, 1)
  {
    hide Block, Simple, ExecToks;
    if c.Pipe? {
      var after := [Sym('|')] + (PipeToks(c.right) + rest);
      assert PipeToks(c) + rest == ExecToks(c.left) + after;
      ExecBack(c.left, after);
      assert after[1..] == PipeToks(c.right) + rest;
      PipeBack(c.right, rest);
    } else {
      ExecBack(c, rest);
    }
  }

  lemma {:induction false} BackBack(c: Cmd<string>, rest: seq<Tok>)
    requires Fine(c) && Stops(rest) && !At(rest, '|')
    ensures
      var r := Pipeline(BackToks(c) + rest);
      r.Some? && Backs(r.value.0, r.value.1) == Backs(c, rest)
    decreases Size(c), Rank(c, 2)
  {
    hide Pipeline, PipeToks;
    if c.Back? {
      var after := [Sym('&')] + rest;
      assert BackToks(c) + rest == BackToks(c.cmd) + after;
      BackBack(c.cmd, after);
      assert after[1..] == rest;
    } else {
      PipeBack(c, rest);
    }
  }

  lemma {:induction false} LineBack(c: Cmd<string>, rest: seq<Tok>)
    requires Fine(c) && (rest == [] || At(rest, ')'))
    ensures Line(LineToks(c) + rest) == Some((c, rest))
    decreases Size(c), Rank(c, 3)
  {
    hide Pipeline, BackToks;
    if c.List? {
      var after := [Sym(';')] + (LineToks(c.right) + rest);
      assert LineToks(c) + rest == BackToks(c.left) + after;
      BackBack(c.left, after);
      assert after[1..] == LineToks(c.right) + rest;
      LineBack(c.right, rest);
    } else {
      BackBack(c, rest);
    }
  }

  /** Parsing the canonical tokens of a tree gives back the tree. */
  lemma ParseBack(c: Cmd<string>)
    requires Fine(c)
    ensures Parse(LineToks(c)) == Some(c)
  {
    LineBack(c, []);
    assert LineToks(c) + [] == LineToks(c);
  }
}
