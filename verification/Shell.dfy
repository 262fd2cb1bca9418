/** The shell's parser: a cursor over the input buffer, recursive descent, and the pass
    that ends every word with a NUL in the buffer itself. */
module Shell {
  import opened Wrappers
  import opened Grammar

  // ---------- characters and tokens of a text ----------

  predicate Space(c: char) {
    c == ' ' || c == '\t' || c == '\r' || c == '\n' || c == '\U{000B}'
  }

  predicate Symbol(c: char) {
    c == '<' || c == '|' || c == '>' || c == '&' || c == ';' || c == '(' || c == ')'
  }

  predicate WordChar(c: char) {
    !Space(c) && !Symbol(c) && c != '\0'
  }

  function Skip(s: string, i: nat): (k: nat)
    requires i <= |s|
    ensures i <= k <= |s| && (k < |s| ==> !Space(s[k])) && forall m :: i <= m < k ==> Space(s[m])
    decreases |s| - i
  {
    if i < |s| && Space(s[i]) then Skip(s, i + 1) else i
  }

  function End(s: string, i: nat): (e: nat)
    requires i <= |s|
    ensures i <= e <= |s| && (e < |s| ==> Space(s[e]) || Symbol(s[e]))
    ensures forall m :: i <= m < e ==> !Space(s[m]) && !Symbol(s[m])
    decreases |s| - i
  {
    if i < |s| && !Space(s[i]) && !Symbol(s[i]) then End(s, i + 1) else i
  }

  /** The tokens from i on. The symbol '+' stands for >>. */
  function Lex(s: string, i: nat): seq<Tok>
    requires i <= |s|
    decreases |s| - i
  {
    var k := Skip(s, i);
    if k == |s| then []
    else if s[k] == '>' && k + 1 < |s| && s[k + 1] == '>' then [Sym('+')] + Lex(s, k + 2)
    else if Symbol(s[k]) then [Sym(s[k])] + Lex(s, k + 1)
    else
      var e := End(s, k);
      [Word(s[k..e])] + Lex(s, e)
  }

  lemma LexSkip(s: string, i: nat)
    requires i <= |s|
    ensures Lex(s, Skip(s, i)) == Lex(s, i)
  {
    assert Skip(s, Skip(s, i)) == Skip(s, i);
  }

  // ---------- words in place ----------

  datatype Span = Span(q: nat, eq: nat)

  function Text(s: string, w: Span): string {
    if w.q <= w.eq <= |s| then s[w.q..w.eq] else ""
  }

  /** A word of s, as long as it can be. */
  predicate WordAt(s: string, w: Span) {
    && w.q < w.eq <= |s| && (forall m :: w.q <= m < w.eq ==> WordChar(s[m]))
    && (w.eq < |s| ==> !WordChar(s[w.eq]))
  }

  function Texts(s: string, ws: seq<Span>): seq<string> {
    seq(|ws|, k requires 0 <= k < |ws| => Text(s, ws[k]))
  }

  function RedirTexts(s: string, rs: seq<Redirection<Span>>): seq<Redirection<string>> {
    seq(|rs|, k requires 0 <= k < |rs| => Redirection(rs[k].mode, Text(s, rs[k].file)))
  }

  /** The tree with the text of its words. */
  function CmdText(s: string, c: Cmd<Span>): Cmd<string> {
    match c
    case Exec(argv) => Exec(Texts(s, argv))
    case Redir(d, mode, file) => Redir(CmdText(s, d), mode, Text(s, file))
    case Pipe(l, r) => Pipe(CmdText(s, l), CmdText(s, r))
    case List(l, r) => List(CmdText(s, l), CmdText(s, r))
    case Back(d) => Back(CmdText(s, d))
  }

  function Spans(c: Cmd<Span>): set<Span> {
    match c
    case Exec(argv) => set w | w in argv
    case Redir(d, _, file) => Spans(d) + {file}
    case Pipe(l, r) => Spans(l) + Spans(r)
    case List(l, r) => Spans(l) + Spans(r)
    case Back(d) => Spans(d)
  }

  ghost predicate AllWords(s: string, ws: set<Span>) {
    forall w :: w in ws ==> WordAt(s, w)
  }

  function FileSpans(rs: seq<Redirection<Span>>): set<Span> {
    set r | r in rs :: r.file
  }

  lemma {:induction false} WrapText(s: string, c: Cmd<Span>, rs: seq<Redirection<Span>>)
    ensures CmdText(s, Wrap(c, rs)) == Wrap(CmdText(s, c), RedirTexts(s, rs))
    decreases rs
  {
    if rs != [] {
      WrapText(s, c, rs[..|rs| - 1]);
      assert RedirTexts(s, rs)[..|rs| - 1] == RedirTexts(s, rs[..|rs| - 1]);
    }
  }

  lemma {:induction false} WrapSpans(c: Cmd<Span>, rs: seq<Redirection<Span>>)
    ensures forall w :: w in Spans(Wrap(c, rs)) ==> w in Spans(c) || w in FileSpans(rs)
    decreases rs
  {
    if rs != [] {
      WrapSpans(c, rs[..|rs| - 1]);
      assert rs[|rs| - 1] in rs;
      assert forall r :: r in rs[..|rs| - 1] ==> r in rs;
    }
  }

  lemma TextsMore(s: string, ws: seq<Span>, w: Span)
    ensures Texts(s, ws + [w]) == Texts(s, ws) + [Text(s, w)]
  {
  }

  lemma RedirTextsMore(s: string, rs: seq<Redirection<Span>>, r: Redirection<Span>)
    ensures RedirTexts(s, rs + [r]) == RedirTexts(s, rs) + [Redirection(r.mode, Text(s, r.file))]
    ensures FileSpans(rs + [r]) == FileSpans(rs) + {r.file}
  {
    assert forall x :: x in rs + [r] <==> x in rs || x == r;
    forall w | w in FileSpans(rs) + {r.file} ensures w in FileSpans(rs + [r]) {
      if w == r.file {
        assert r in rs + [r];
      } else {
        var x :| x in rs && x.file == w;
        assert x in rs + [r];
      }
    }
  }

  // ---------- the parser ----------

  /** The character a symbol token begins with. */
  function First(c: char): char {
    if c == '+' then '>' else c
  }

  /** The next token begins with one of these characters. */
  predicate Begins(toks: seq<Tok>, cs: string) {
    toks != [] && toks[0].Sym? && First(toks[0].c) in cs
  }

  class Parser {
    const buf: array<char>
    const n: nat           // strlen of the input; es is buf + n
    var ps: nat
    ghost const text: string

    /** The buffer still holds the input. */
    ghost predicate Reading()
      reads this, buf
    {
      && buf.Length == n + 1 && |text| == n && ps <= n && buf[n] == '\0'
      && forall i :: 0 <= i < n ==> buf[i] == text[i] != '\0'
    }

    ghost function Rest(): seq<Tok>
      reads this
    {
      if ps <= |text| then Lex(text, ps) else []
    }

    constructor (buf: array<char>, n: nat)
      requires buf.Length == n + 1 && buf[n] == '\0' && forall i :: 0 <= i < n ==> buf[i] != '\0'
      ensures Reading() && this.buf == buf && ps == 0 && text == buf[..n]
    {
      this.buf, this.n, ps, text := buf, n, 0, buf[..n];
    }

    /** peek: leaves white space behind and looks at the next character. The symbols
        asked for are never white space or word characters. */
    method Peek(cs: string) returns (b: bool)
      requires Reading() && forall c :: c in cs ==> Symbol(c)
      modifies this`ps
      ensures Reading() && Rest() == old(Rest()) && (b <==> Begins(Rest(), cs))
      ensures Rest() == [] <==> ps == n
    {
      hide Lex;
      ghost var i := ps;
      SkipBlanks();
      LexHead(text, ps);
      b := buf[ps] != '\0' && buf[ps] in cs;
    }

    method SkipBlanks()
      requires Reading()
      modifies this`ps
      ensures Reading() && ps == Skip(text, old(ps)) && Rest() == old(Rest())
    {
      hide Lex;
      LexSkip(text, ps);
      while ps < n && Space(buf[ps])
        invariant Reading() && Skip(text, ps) == Skip(text, old(ps))
        decreases n - ps
      {
        ps := ps + 1;
      }
    }

    method ScanWord()
      requires Reading()
      modifies this`ps
      ensures Reading() && ps == End(text, old(ps))
    {
      while ps < n && !Space(buf[ps]) && !Symbol(buf[ps])
        invariant Reading() && End(text, ps) == End(text, old(ps))
        decreases n - ps
      {
        ps := ps + 1;
      }
    }

    /** gettoken: 0 at the end of the input, 'a' for the word from q to eq, and otherwise
        the symbol. */
    method Gettoken() returns (tok: char, w: Span)
      requires Reading()
      modifies this`ps
      ensures Reading()
      ensures old(Rest()) == [] ==> tok == '\0' && Rest() == []
      ensures old(Rest()) != [] ==> Rest() == old(Rest())[1..]
      ensures old(Rest()) != [] && old(Rest())[0].Sym? ==> tok == old(Rest())[0].c && tok != 'a' && tok != '\0'
      ensures old(Rest()) != [] && old(Rest())[0].Word? ==>
                tok == 'a' && WordAt(text, w) && Text(text, w) == old(Rest())[0].w
    {
      hide Lex, WordAt, Text, Skip, End;
      SkipBlanks();
      LexHead(text, ps);
      var q := ps;
      tok := buf[ps];
      if tok == '\0' {
      } else if tok == '>' {
        ps := ps + 1;
        if buf[ps] == '>' {
          tok := '+';
          ps := ps + 1;
        }
      } else if Symbol(tok) {
        ps := ps + 1;
      } else {
        tok := 'a';
        ScanWord();
      }
      w := Span(q, ps);
      SkipBlanks();
    }

    /** parseredirs, with the redirections so far in a list. */
    method ParseRedirs(before: seq<Redirection<Span>>) returns (r: Option<seq<Redirection<Span>>>)
      requires Reading() && AllWords(text, FileSpans(before))
      modifies this`ps
      ensures Reading() && |Rest()| <= |old(Rest())|
      ensures r.None? <==> Redirs(RedirTexts(text, before), old(Rest())).None?
      ensures r.Some? ==>
                && Redirs(RedirTexts(text, before), old(Rest())) == Some((RedirTexts(text, r.value), Rest()))
                && AllWords(text, FileSpans(r.value))
    {
      hide Lex, AllWords, FileSpans, RedirTexts, WordAt;
      var rs := before;
      var more := Peek("<>");
      BeginsRedir(Rest());
      while more
        invariant Reading() && (more <==> AtRedir(Rest())) && |Rest()| <= |old(Rest())|
        invariant Redirs(RedirTexts(text, rs), Rest()) == Redirs(RedirTexts(text, before), old(Rest()))
        invariant AllWords(text, FileSpans(rs))
        decreases |Rest()|
      {
        var tok, w := Gettoken();
        var tok2, file := Gettoken();
        if tok2 != 'a' {
          return None;
        }
        RedirTextsMore(text, rs, Redirection(tok, file));
        AllWordsMore(text, FileSpans(rs), file);
        rs := rs + [Redirection(tok, file)];
        more := Peek("<>");
        BeginsRedir(Rest());
      }
      return Some(rs);
    }

    /** The words of parseexec, after the first redirections. */
    method ParseArgs(before: seq<Redirection<Span>>) returns (r: Option<Cmd<Span>>)
      requires Reading() && AllWords(text, FileSpans(before))
      modifies this`ps
      ensures Reading() && |Rest()| <= |old(Rest())|
      ensures
        var spec := Args([], RedirTexts(text, before), old(Rest()));
        if r.None? then spec.None?
        else spec.Some? && CmdText(text, r.value) == Wrap(Exec(spec.value.0), spec.value.1) && Rest() == spec.value.2
             && AllWords(text, Spans(r.value))
    {
      hide Lex, AllWords, FileSpans, RedirTexts, WordAt, Wrap, Redirs, Texts;
      var argv: seq<Span>, rs := [], before;
      NoTexts(text);
      var done := Peek("|)&;");
      BeginsStop(Rest());
      while !done
        invariant Reading() && |Rest()| <= |old(Rest())| && |argv| < MAXARGS
        invariant (done <==> Stops(Rest()) && Rest() != [])
        invariant Args(Texts(text, argv), RedirTexts(text, rs), Rest())
                  == Args([], RedirTexts(text, before), old(Rest()))
        invariant AllWords(text, FileSpans(rs)) && AllWords(text, Members(argv)) && |Texts(text, argv)| == |argv|
        decreases |Rest()|
      {
        ghost var rest := Rest();
        var tok, w := Gettoken();
        if tok == '\0' {
          break;
        }
        if tok != 'a' {
          return None;
        }
        TextsMore(text, argv, w);
        AllWordsMore(text, Members(argv), w);
        MembersMore(argv, w);
        argv := argv + [w];
        if |argv| >= MAXARGS {
          return None;
        }
        var redirs := ParseRedirs(rs);
        if redirs.None? {
          return None;
        }
        rs := redirs.value;
        done := Peek("|)&;");
        BeginsStop(Rest());
      }
      WrapText(text, Exec(argv), rs);
      WrapWords(text, argv, rs);
      return Some(Wrap(Exec(argv), rs));
    }

    /** r is what the grammar makes of the tokens before: the same tree and rest, with
        every word in its place, or a panic where the grammar has no tree. */
    ghost predicate Agrees(spec: Option<(Cmd<string>, seq<Tok>)>, r: Option<Cmd<Span>>)
      reads this
    {
      if r.None? then spec.None?
      else spec == Some((CmdText(text, r.value), Rest())) && AllWords(text, Spans(r.value))
    }

    method ParseExec() returns (r: Option<Cmd<Span>>)
      requires Reading()
      modifies this`ps
      ensures Reading() && |Rest()| <= |old(Rest())|
      ensures Agrees(if At(old(Rest()), '(') then Block(old(Rest())) else Simple(old(Rest())), r)
      decreases |Rest()|, 1
    {
      hide Lex, AllWords, FileSpans, RedirTexts, WordAt, Wrap, Redirs, Args, Line;
      var open := Peek("(");
      BeginsOne(Rest(), '(');
      if open {
        r := ParseBlock();
        return;
      }
      NoTexts(text);
      var rs := ParseRedirs([]);
      if rs.None? {
        return None;
      }
      r := ParseArgs(rs.value);
    }

    method ParseBlock() returns (r: Option<Cmd<Span>>)
      requires Reading() && At(Rest(), '(')
      modifies this`ps
      ensures Reading() && |Rest()| <= |old(Rest())| && Agrees(Block(old(Rest())), r)
      decreases |Rest()|, 0
    {
      hide Lex, AllWords, FileSpans, RedirTexts, WordAt, Wrap, Redirs, Line, CmdText, Spans;
      var tok, w := Gettoken();
      var line := ParseLine();
      if line.None? {
        return None;
      }
      var close := Peek(")");
      BeginsOne(Rest(), ')');
      if !close {
        return None;
      }
      tok, w := Gettoken();
      NoTexts(text);
      var rs := ParseRedirs([]);
      if rs.None? {
        return None;
      }
      WrapText(text, line.value, rs.value);
      WrapAllWords(text, line.value, rs.value);
      return Some(Wrap(line.value, rs.value));
    }

    method ParsePipe() returns (r: Option<Cmd<Span>>)
      requires Reading()
      modifies this`ps
      ensures Reading() && |Rest()| <= |old(Rest())| && Agrees(Pipeline(old(Rest())), r)
      decreases |Rest()|, 2
    {
      hide Lex, AllWords, WordAt, Block, Simple;
      r := ParseExec();
      if r.None? {
        return;
      }
      var more := Peek("|");
      BeginsOne(Rest(), '|');
      if more {
        var tok, w := Gettoken();
        var right := ParsePipe();
        if right.None? {
          return None;
        }
        BothWords(text, Spans(r.value), Spans(right.value));
        r := Some(Pipe(r.value, right.value));
      }
    }

    method ParseLine() returns (r: Option<Cmd<Span>>)
      requires Reading()
      modifies this`ps
      ensures Reading() && |Rest()| <= |old(Rest())| && Agrees(Line(old(Rest())), r)
      decreases |Rest()|, 3
    {
      hide Lex, AllWords, WordAt, Pipeline;
      r := ParsePipe();
      if r.None? {
        return;
      }
      var cmd := r.value;
      ghost var first := (CmdText(text, cmd), Rest());
      var more := Peek("&");
      BeginsOne(Rest(), '&');
      while more
        invariant Reading() && |Rest()| <= |old(Rest())| && (more <==> At(Rest(), '&')) && AllWords(text, Spans(cmd))
        invariant Backs(CmdText(text, cmd), Rest()) == Backs(first.0, first.1)
        decreases |Rest()|
      {
        var tok, w := Gettoken();
        cmd := Back(cmd);
        more := Peek("&");
        BeginsOne(Rest(), '&');
      }
      more := Peek(";");
      BeginsOne(Rest(), ';');
      if more {
        var tok, w := Gettoken();
        var right := ParseLine();
        if right.None? {
          return None;
        }
        BothWords(text, Spans(cmd), Spans(right.value));
        cmd := List(cmd, right.value);
      }
      return Some(cmd);
    }

    /** nulterminate: a NUL after every word of the tree. */
    method NulTerminate(c: Cmd<Span>)
      requires buf.Length == n + 1 && forall w :: w in Spans(c) ==> w.eq <= n
      modifies buf
      ensures forall i :: 0 <= i <= n ==> buf[i] == if Ends(Spans(c), i) then '\0' else old(buf[i])
      decreases c
    {
      match c
      case Exec(argv) =>
        var k := 0;
        while k < |argv|
          invariant 0 <= k <= |argv|
          invariant forall i :: 0 <= i <= n ==> buf[i] == if Ends(Members(argv[..k]), i) then '\0' else old(buf[i])
        {
          assert argv[k] in Spans(c);
          MembersMore(argv[..k], argv[k]);
          assert argv[..k + 1] == argv[..k] + [argv[k]];
          buf[argv[k].eq] := '\0';
          k := k + 1;
        }
        assert argv[..k] == argv && Spans(c) == Members(argv);
      case Redir(d, _, file) =>
        NulTerminate(d);
        buf[file.eq] := '\0';
      case Pipe(l, r) =>
        NulTerminate(l);
        NulTerminate(r);
      case List(l, r) =>
        NulTerminate(l);
        NulTerminate(r);
      case Back(d) =>
        NulTerminate(d);
    }

    /** parsecmd: the tree of the whole input, whose words can then be read in the buffer
        as C strings; a panic exactly where the grammar has no tree. */
    method ParseCmd() returns (r: Option<Cmd<Span>>)
      requires Reading() && ps == 0
      modifies this`ps, buf
      ensures r.None? <==> Parse(Lex(text, 0)).None?
      ensures r.Some? ==> Parse(Lex(text, 0)) == Some(CmdText(text, r.value))
      ensures r.Some? ==> forall w :: w in Spans(r.value) ==> CString(buf[..], w.q) == Text(text, w) != ""
    {
      hide Lex, Line, WordAt, CString;
      r := ParseLine();
      if r.None? {
        return;
      }
      var none := Peek("");
      if ps != n {
        return None;
      }
      WordsInside(text, Spans(r.value));
      NulTerminate(r.value);
      forall w | w in Spans(r.value) ensures CString(buf[..], w.q) == Text(text, w) != "" {
        ReadsBack(text, buf[..], Spans(r.value), w);
      }
    }
  }

  /** What the first character at i, after white space, says of the tokens. */
  lemma LexHead(s: string, i: nat)
    requires i <= |s| && Skip(s, i) == i && forall m :: 0 <= m < |s| ==> s[m] != '\0'
    ensures Lex(s, i) == [] <==> i == |s|
    ensures i < |s| && s[i] == '>' && i + 1 < |s| && s[i + 1] == '>' ==> Lex(s, i) == [Sym('+')] + Lex(s, i + 2)
    ensures i < |s| && Symbol(s[i]) && !(s[i] == '>' && i + 1 < |s| && s[i + 1] == '>') ==>
              Lex(s, i) == [Sym(s[i])] + Lex(s, i + 1)
    ensures i < |s| && !Symbol(s[i]) ==>
              var w := Span(i, End(s, i));
              Lex(s, i) == [Word(Text(s, w))] + Lex(s, w.eq) && WordAt(s, w)
  {
  }

  function Members(ws: seq<Span>): set<Span> {
    set w | w in ws
  }

  lemma MembersMore(ws: seq<Span>, w: Span)
    ensures Members(ws + [w]) == Members(ws) + {w}
  {
  }

  lemma AllWordsMore(s: string, ws: set<Span>, w: Span)
    requires AllWords(s, ws) && WordAt(s, w)
    ensures AllWords(s, ws + {w})
  {
  }

  lemma NoTexts(s: string)
    ensures Texts(s, []) == [] && AllWords(s, Members([])) && RedirTexts(s, []) == [] && AllWords(s, FileSpans([]))
  {
  }

  lemma WrapWords(s: string, argv: seq<Span>, rs: seq<Redirection<Span>>)
    requires AllWords(s, Members(argv)) && AllWords(s, FileSpans(rs))
    ensures AllWords(s, Spans(Wrap(Exec(argv), rs)))
  {
    WrapSpans(Exec(argv), rs);
    assert Spans(Exec(argv)) == Members(argv);
  }

  lemma BeginsRedir(toks: seq<Tok>)
    ensures Begins(toks, "<>") <==> AtRedir(toks)
  {
  }

  lemma BeginsStop(toks: seq<Tok>)
    ensures Begins(toks, "|)&;") <==> Stops(toks) && toks != []
  {
  }

  lemma BeginsOne(toks: seq<Tok>, c: char)
    requires Symbol(c) && c != '>'
    ensures Begins(toks, [c]) <==> At(toks, c)
  {
  }

  lemma BothWords(s: string, a: set<Span>, b: set<Span>)
    requires AllWords(s, a) && AllWords(s, b)
    ensures AllWords(s, a + b)
  {
  }

  lemma WrapAllWords(s: string, c: Cmd<Span>, rs: seq<Redirection<Span>>)
    requires AllWords(s, Spans(c)) && AllWords(s, FileSpans(rs))
    ensures AllWords(s, Spans(Wrap(c, rs)))
  {
    WrapSpans(c, rs);
  }

  lemma WordsInside(s: string, ws: set<Span>)
    requires AllWords(s, ws)
    ensures forall w :: w in ws ==> w.eq <= |s|
  {
  }

  /** One of the words ends at i. */
  ghost predicate Ends(ws: set<Span>, i: nat) {
    exists w :: w in ws && w.eq == i
  }

  /** The string a C program reads at q. */
  function CString(b: seq<char>, q: nat): string
    decreases |b| - q
  {
    if q >= |b| || b[q] == '\0' then "" else [b[q]] + CString(b, q + 1)
  }

  lemma {:induction false} CStringIs(b: seq<char>, q: nat, w: string)
    requires q + |w| < |b| && b[q..q + |w|] == w && b[q + |w|] == '\0' && forall m :: 0 <= m < |w| ==> w[m] != '\0'
    ensures CString(b, q) == w
    decreases |w|
  {
    if w != "" {
      assert b[q] == w[0] && b[q + 1..q + 1 + |w[1..]|] == w[1..];
      CStringIs(b, q + 1, w[1..]);
    }
  }

  lemma NoEndInside(s: string, ws: set<Span>, w: Span, m: nat)
    requires AllWords(s, ws) && WordAt(s, w) && w.q <= m < w.eq
    ensures !Ends(ws, m)
  {
    assert WordChar(s[m]);
  }

  /** No NUL lands inside a word: words end where there is no word character. */
  lemma ReadsBack(s: string, b: seq<char>, ws: set<Span>, w: Span)
    requires |b| == |s| + 1 && AllWords(s, ws) && w in ws
    requires forall i :: 0 <= i <= |s| ==> b[i] == if Ends(ws, i) then '\0' else if i < |s| then s[i] else '\0'
    ensures CString(b, w.q) == Text(s, w) != ""
  {
    assert WordAt(s, w);
    forall m | w.q <= m < w.eq ensures !Ends(ws, m) {
      NoEndInside(s, ws, w, m);
    }
    assert b[w.q..w.eq] == s[w.q..w.eq];
    assert Ends(ws, w.eq);
    CStringIs(b, w.q, Text(s, w));
  }

  // ---------- round trip over characters ----------

  /** How a token is written. */
  function Spelling(t: Tok): string {
    match t
    case Sym(c) => if c == '+' then ">>" else [c]
    case Word(w) => w
  }

  /** Tokens in writing, with a space after each. */
  function Spell(toks: seq<Tok>): string {
    if toks == [] then "" else Spelling(toks[0]) + " " + Spell(toks[1..])
  }

  /** A word that the shell can take for one. */
  predicate PlainWord(w: string) {
    w != "" && forall m :: 0 <= m < |w| ==> WordChar(w[m])
  }

  predicate Spelled(t: Tok) {
    match t
    case Sym(c) => Symbol(c) || c == '+'
    case Word(w) => PlainWord(w)
  }

  /** Only the leading character decides how far white space goes. */
  lemma SkipNone(s: string, i: nat)
    requires i < |s| && !Space(s[i])
    ensures Skip(s, i) == i
  {
  }

  lemma LexSpace(s: string, i: nat)
    requires i < |s| && Space(s[i])
    ensures Lex(s, i) == Lex(s, i + 1)
  {
    assert Skip(s, i) == Skip(s, i + 1);
  }

  lemma EndIs(s: string, i: nat, e: nat)
    requires i <= e < |s| && (forall m :: i <= m < e ==> WordChar(s[m])) && Space(s[e])
    ensures End(s, i) == e
    decreases e - i
  {
    if i < e {
      assert WordChar(s[i]);
      EndIs(s, i + 1, e);
    }
  }

  /** One token and its space are read as that token. */
  lemma LexOne(s: string, i: nat, t: Tok)
    requires Spelled(t) && i + |Spelling(t)| < |s| && s[i..i + |Spelling(t)|] == Spelling(t)
    requires s[i + |Spelling(t)|] == ' '
    ensures Lex(s, i) == [t] + Lex(s, i + |Spelling(t)| + 1)
  {
    hide Lex, End, Skip;
    var w := Spelling(t);
    var e := i + |w|;
    assert forall m :: i <= m < e ==> s[m] == w[m - i];
    assert s[i] == w[0];
    SkipNone(s, i);
    LexSpace(s, e);
    match t {
      case Word(_) =>
        EndIs(s, i, e);
        LexWord(s, i);
      case Sym(c) =>
        if c == '+' {
          assert s[i + 1] == w[1];
          LexAppend(s, i);
        } else {
          LexSymbol(s, i);
        }
    }
  }

  lemma LexWord(s: string, i: nat)
    requires i < |s| && Skip(s, i) == i && WordChar(s[i])
    ensures Lex(s, i) == [Word(s[i..End(s, i)])] + Lex(s, End(s, i))
  {
  }

  lemma LexAppend(s: string, i: nat)
    requires i + 1 < |s| && Skip(s, i) == i && s[i] == '>' && s[i + 1] == '>'
    ensures Lex(s, i) == [Sym('+')] + Lex(s, i + 2)
  {
  }

  lemma LexSymbol(s: string, i: nat)
    requires i + 1 < |s| && Skip(s, i) == i && Symbol(s[i]) && s[i + 1] != '>'
    ensures Lex(s, i) == [Sym(s[i])] + Lex(s, i + 1)
  {
  }

  lemma {:induction false} LexSpell(pre: string, toks: seq<Tok>)
    requires forall k :: 0 <= k < |toks| ==> Spelled(toks[k])
    ensures Lex(pre + Spell(toks), |pre|) == toks
    decreases toks
  {
    hide Lex;
    var s := pre + Spell(toks);
    if toks == [] {
      assert s == pre;
      LexNothing(s);
    } else {
      var t := toks[0];
      var pre' := pre + Spelling(t) + " ";
      assert s == pre' + Spell(toks[1..]);
      assert s[|pre|..|pre| + |Spelling(t)|] == Spelling(t) && s[|pre| + |Spelling(t)|] == ' ';
      LexOne(s, |pre|, t);
      LexSpell(pre', toks[1..]);
    }
  }

  lemma LexNothing(s: string)
    ensures Lex(s, |s|) == []
  {
  }

  lemma LexToStop(s: string, i: nat, e: nat)
    requires i < e <= |s| && (e < |s| ==> Space(s[e]) || Symbol(s[e]))
    requires forall m :: i <= m < e ==> WordChar(s[m])
    ensures Lex(s, i) == [Word(s[i..e])] + Lex(s, e)
  {
    assert End(s, i) == e && Skip(s, i) == i;
  }

  /** A character between two words separates them, is a token of its own or joins them. */
  lemma Separators(u: string, c: char, v: string)
    requires PlainWord(u) && PlainWord(v) && c != '\0'
    ensures
      var toks, blank := Lex(u + [c] + v, 0), {' ', '\t', '\r', '\n', '\U{000B}'};
      var symbol := {'<', '|', '>', '&', ';', '(', ')'};
      && (toks == [Word(u), Word(v)] <==> c in blank)
      && (toks == [Word(u), Sym(c), Word(v)] <==> c in symbol)
      && (toks == [Word(u + [c] + v)] <==> c !in blank && c !in symbol)
  {
    hide Lex, Skip, End;
    var s, n := u + [c] + v, |u|;
    assert s[..n] == u && s[n] == c && s[n + 1..] == v;
    LexNothing(s);
    if WordChar(c) {
      LexToStop(s, 0, |s|);
      assert s[0..|s|] == s;
    } else {
      LexToStop(s, 0, n);
      LexToStop(s, n + 1, |s|);
      assert s[0..n] == u && s[n + 1..|s|] == v;
      if Space(c) {
        LexSpace(s, n);
      } else {
        assert s[n + 1] == v[0];
        SkipNone(s, n);
        LexSymbol(s, n);
      }
    }
  }

  // ---------- canonical text ----------

  predicate PlainWords(c: Cmd<string>) {
    match c
    case Exec(argv) => forall k :: 0 <= k < |argv| ==> PlainWord(argv[k])
    case Redir(d, _, file) => PlainWords(d) && PlainWord(file)
    case Pipe(l, r) => PlainWords(l) && PlainWords(r)
    case List(l, r) => PlainWords(l) && PlainWords(r)
    case Back(d) => PlainWords(d)
  }

  ghost predicate AllSpelled(toks: seq<Tok>) {
    forall k :: 0 <= k < |toks| ==> Spelled(toks[k])
  }

  lemma {:induction false} WordsSpelled(argv: seq<string>)
    requires forall k :: 0 <= k < |argv| ==> PlainWord(argv[k])
    ensures AllSpelled(Grammar.Words(argv))
    decreases argv
  {
    if argv != [] {
      WordsSpelled(argv[1..]);
    }
  }

  lemma {:induction false} RedirsSpelled(rs: seq<Redirection<string>>)
    requires FineRedirs(rs) && forall k :: 0 <= k < |rs| ==> PlainWord(rs[k].file)
    ensures AllSpelled(RedirToks(rs))
    decreases rs
  {
    if rs != [] {
      RedirsSpelled(rs[1..]);
    }
  }

  lemma OuterPlain(c: Cmd<string>)
    requires PlainWords(c)
    ensures PlainWords(Core(c)) && forall k :: 0 <= k < |Outer(c)| ==> PlainWord(Outer(c)[k].file)
  {
  }

  lemma {:induction false} LineSpelled(c: Cmd<string>, level: nat)
    requires Fine(c) && PlainWords(c) && 1 <= level < 4
    ensures level == 1 ==> AllSpelled(PipeToks(c))
    ensures level == 2 ==> AllSpelled(BackToks(c))
    ensures level == 3 ==> AllSpelled(LineToks(c))
    decreases Size(c), Rank(c, level)
  {
    if level == 1 {
      if c.Pipe? {
        ExecSpelled(c.left);
        LineSpelled(c.right, 1);
      } else {
        ExecSpelled(c);
      }
    } else if level == 2 {
      LineSpelled(if c.Back? then c.cmd else c, if c.Back? then 2 else 1);
    } else {
      if c.List? {
        LineSpelled(c.left, 2);
        LineSpelled(c.right, 3);
      } else {
        LineSpelled(c, 2);
      }
    }
  }

  lemma {:induction false} ExecSpelled(c: Cmd<string>)
    requires Fine(c) && PlainWords(c)
    ensures AllSpelled(ExecToks(c))
    decreases Size(c), Rank(c, 0)
  {
    CoreSize(c);
    FineCore(c);
    OuterPlain(c);
    RedirsSpelled(Outer(c));
    if Core(c).Exec? {
      WordsSpelled(Core(c).argv);
    } else {
      LineSpelled(Core(c), 3);
    }
  }

  /** Parsing the canonical text of any tree with at most nine words to a command gives
      back the tree. */
  lemma RoundTrip(c: Cmd<string>)
    requires Fine(c) && PlainWords(c)
    ensures Parse(Lex(Spell(LineToks(c)), 0)) == Some(c)
  {
    hide Lex, Line, LineToks;
    LineSpelled(c, 3);
    LexSpell("", LineToks(c));
    assert "" + Spell(LineToks(c)) == Spell(LineToks(c));
    ParseBack(c);
  }
}
