/**
 The shell's parser (user/sh.c).  All tokens are pieces of one buffer, which nulterminate cuts
 into strings in place.  A panic, which ends the shell, is None.
 */
module Sh {
  import opened ShGrammar
  import opened ShOrder

  const WHITESPACE := " \t\r\n\U{000B}"
  const SYMBOLS := "<|>&;()"

  /** strchr. */
  predicate Strchr(chars: string, c: char) {
    c in chars
  }

  lemma Characters(c: char)
    ensures Blank(c) <==> Strchr(WHITESPACE, c)
    ensures Symbol(c) <==> Strchr(SYMBOLS, c)
  {
  }

  /** k tokens were taken off ts. */
  ghost predicate Took(ts: seq<Token>, k: nat, rest: seq<Token>) {
    k <= |ts| && rest == ts[k..]
  }

  lemma TookMore(ts: seq<Token>, k: nat, mid: seq<Token>, m: nat, rest: seq<Token>)
    requires Took(ts, k, mid) && Took(mid, m, rest)
    ensures Took(ts, k + m, rest) && ts[..k + m] == ts[..k] + mid[..m]
  {
  }

  /** The character a symbol starts with. */
  function Lead(c: char): char {
    if c == '+' then '>' else c
  }

  /** Every command has fewer than MAXARGS arguments. */
  predicate Few(c: Cmd) {
    match c
    case Exec(argv) => |argv| < MAXARGS
    case Redir(sub, _, _, _) => Few(sub)
    case Pipe(l, r) => Few(l) && Few(r)
    case List(l, r) => Few(l) && Few(r)
    case Back(sub) => Few(sub)
  }

  function ArgCount(c: Cmd): nat {
    match c
    case Exec(argv) => |argv|
    case Redir(sub, _, _, _) => ArgCount(sub)
    case _ => 0
  }

  lemma {:induction false} AddArgCounts(c: Cmd, w: Span)
    requires Innermost(c)
    ensures ArgCount(AddArg(c, w)) == ArgCount(c) + 1 && (Few(c) <==> ArgCount(c) < MAXARGS) && Innermost(AddArg(c, w))
  {
    if c.Redir? {
      AddArgCounts(c.cmd, w);
    }
  }

  lemma {:induction false} RedirsCount(c: Cmd, ts: seq<Token>)
    requires Redirs(c, ts).Some?
    ensures var d := Redirs(c, ts).value;
      (Innermost(c) ==> Innermost(d)) && ArgCount(d) == ArgCount(c) && (Few(c) <==> Few(d))
    decreases |ts|
  {
    if ts != [] {
      RedirsCount(MakeRedir(c, ts[0], ts[1]), ts[2..]);
    }
  }

  // Where a part of the line can end

  /** A token that can follow a line (3), a job list (2), a pipe (1) or a simple command (0). */
  predicate Follows(t: Token, level: nat) {
    t == Sym(')') || (level <= 2 && t == Sym(';')) || (level <= 1 && t == Sym('&')) || (level == 0 && t == Sym('|'))
  }

  ghost predicate Stops(ts: seq<Token>, m: nat, level: nat) {
    m == |ts| || (m < |ts| && Follows(ts[m], level))
  }

  ghost predicate LineAt(ts: seq<Token>, m: nat, c: Cmd) {
    m <= |ts| && Line(c, ts[..m]) && Few(c) && Stops(ts, m, 3)
  }

  ghost predicate PipesAt(ts: seq<Token>, m: nat, c: Cmd) {
    m <= |ts| && Pipes(c, ts[..m]) && Few(c) && Stops(ts, m, 1)
  }

  ghost predicate SimpleAt(ts: seq<Token>, m: nat, c: Cmd) {
    m <= |ts| && Simple(c, ts[..m]) && Few(c) && Stops(ts, m, 0)
  }

  ghost predicate RedirsAt(b: Cmd, ts: seq<Token>, m: nat, c: Cmd) {
    m <= |ts| && Redirs(b, ts[..m]) == Some(c) && (m == |ts| || !IsRedir(ts[m]))
  }

  ghost predicate PlainAt(b: Cmd, ts: seq<Token>, m: nat, c: Cmd) {
    m <= |ts| && Plain(b, ts[..m]) == Some(c) && Few(c) && Stops(ts, m, 0)
  }

  class Parser {
    const buf: array<char>
    const es: nat
    var s: nat
    ghost const text: string

    /** The line starts out as a C string in the buffer. */
    ghost predicate Valid()
      reads this, buf
    {
      es < buf.Length && |text| == es && s <= es && buf[es] == '\0' &&
      forall i | 0 <= i < es :: buf[i] == text[i] && text[i] != '\0'
    }

    ghost function Rest(): seq<Token>
      reads this
    {
      if s <= |text| then Lex(text, s) else []
    }

    constructor (buf: array<char>, es: nat)
      requires es < buf.Length && buf[es] == '\0' && forall i | 0 <= i < es :: buf[i] != '\0'
      ensures Valid() && s == 0 && this.buf == buf && this.es == es && text == buf[..es]
    {
      this.buf := buf;
      this.es := es;
      this.s := 0;
      this.text := buf[..es];
    }

    method Skip()
      requires Valid()
      modifies this`s
      ensures Valid() && Rest() == old(Rest()) && (s < es ==> !Blank(text[s])) && old(s) <= s
    {
      while s < es && Strchr(WHITESPACE, buf[s])
        invariant Valid() && Rest() == old(Rest()) && old(s) <= s
        decreases es - s
      {
        Characters(buf[s]);
        s := s + 1;
      }
      Characters(buf[s]);
    }

    /** To the end of the word at s. */
    method PassWord()
      requires Valid()
      modifies this`s
      ensures Valid() && s == WordEnd(text, old(s))
    {
      hide Strchr;
      while s < es && !Strchr(WHITESPACE, buf[s]) && !Strchr(SYMBOLS, buf[s])
        invariant Valid() && old(s) <= s && WordEnd(text, old(s)) == WordEnd(text, s)
        decreases es - s
      {
        Characters(buf[s]);
        s := s + 1;
      }
      Characters(buf[s]);
    }

    /** gettoken: the first of the remaining tokens, by its kind. */
    method GetToken() returns (tok: char, q: nat, eq: nat)
      requires Valid()
      modifies this`s
      ensures Valid() && (s < es ==> !Blank(text[s]))
      ensures old(Rest()) == [] ==> tok == '\0' && Rest() == []
      ensures old(Rest()) != [] ==> Took(old(Rest()), 1, Rest()) && tok != '\0'
      ensures tok == 'a' <==> old(Rest()) != [] && old(Rest())[0] == Word(q, eq)
      ensures tok != 'a' && old(Rest()) != [] ==> old(Rest())[0] == Sym(tok)
    {
      hide Strchr, WordEnd;
      Skip();
      q := s;
      tok := buf[s];
      ghost var at := s;
      Characters(tok);
      if tok == '\0' {
      } else if tok == '>' {
        s := s + 1;
        if buf[s] == '>' {
          tok := '+';
          s := s + 1;
        }
      } else if Strchr(SYMBOLS, tok) {
        s := s + 1;
      } else {
        tok := 'a';
        PassWord();
      }
      eq := s;
      assert Rest() == old(Rest()) || Rest() == old(Rest())[1..];
      Skip();
    }

    /** peek: whether the next token starts with one of the given symbols. */
    method Peek(toks: string) returns (b: bool)
      requires Valid() && forall i | 0 <= i < |toks| :: Symbol(toks[i])
      modifies this`s
      ensures Valid() && Rest() == old(Rest())
      ensures s < es ==> !Blank(text[s])
      ensures b <==> Rest() != [] && Rest()[0].Sym? && Lead(Rest()[0].c) in toks
    {
      Skip();
      b := buf[s] != '\0' && buf[s] in toks;
    }

    /** parseredirs: the redirections that follow, all of them. */
    method ParseRedirs(c: Cmd) returns (r: Option<Cmd>, ghost k: nat)
      requires Valid()
      modifies this`s
      ensures Valid()
      ensures r.Some? ==> RedirsDone(c, old(Rest()), k, r.value, Rest())
      ensures forall m: nat, d | RedirsAt(c, old(Rest()), m, d) :: r == Some(d) && k == m
    {
      hide Redirs, RedirsAt, RedirGoal, Lex, MakeRedir;
      ghost var ts := Rest();
      var cur := c;
      k := 0;
      RedirStart(c, ts);
      var more := Peek("<>");
      while more
        invariant Valid() && RedirGoal(c, ts, k, cur, Rest())
        invariant more <==> Rest() != [] && IsRedir(Rest()[0])
        decreases |Rest()|
      {
        RedirStep(c, ts, k, cur, Rest());
        var tok, _, _ := GetToken();
        var word, q, eq := GetToken();
        if word != 'a' {
          return None, 0;
        }
        if tok == '<' {
          cur := Redir(cur, (q, eq), O_RDONLY, 0);
        } else {
          cur := Redir(cur, (q, eq), O_WRONLY + O_CREATE, 1);
        }
        k := k + 2;
        more := Peek("<>");
      }
      RedirEnd(c, ts, k, cur, Rest());
      return Some(cur), k;
    }

    /** parseexec: a block, or arguments and redirections. */
    method ParseExec() returns (r: Option<Cmd>, ghost k: nat)
      requires Valid()
      modifies this`s
      ensures Valid()
      ensures r.Some? ==> Took(old(Rest()), k, Rest()) && Simple(r.value, old(Rest())[..k]) && Few(r.value)
      ensures forall m: nat, d | SimpleAt(old(Rest()), m, d) :: r == Some(d) && k == m
      decreases |Rest()|, 1
    {
      hide Lex, Simple, SimpleAt, PlainGoal, Redirs, Plain;
      var block := Peek("(");
      ghost var ts := Rest();
      if block {
        r, k := ParseBlock();
        return;
      }
      SimpleIsPlain(ts);
      PlainStart(ts);
      ghost var j;
      r, j := ParseRedirs(Exec([]));
      PlainRedirs(ts, 0, Exec([]), ts, r, j, Rest());
      k := j;
      if r.Some? {
        r, k := ParseArgs(r.value, ts, j);
      }
    }

    /** The loop of parseexec: one argument and the redirections after it at a time. */
    method ParseArgs(c: Cmd, ghost ts: seq<Token>, ghost k0: nat) returns (r: Option<Cmd>, ghost k: nat)
      requires Valid() && PlainGoal(ts, k0, c, Rest()) && ArgCount(c) == 0 && (Rest() == [] || !IsRedir(Rest()[0]))
      modifies this`s
      ensures Valid()
      ensures r.Some? ==> Took(ts, k, Rest()) && Simple(r.value, ts[..k]) && Few(r.value)
      ensures forall m: nat, d | SimpleAt(ts, m, d) :: r == Some(d) && k == m
    {
      hide Lex, Simple, SimpleAt, PlainGoal, Redirs, Plain, RedirsAt, Blank, Innermost, Few;
      var cur := c;
      var argc := 0;
      k := k0;
      var stop := Peek("|)&;");
      while !stop
        invariant Valid() && PlainGoal(ts, k, cur, Rest()) && ArgCount(cur) == argc
        invariant Rest() == [] || !IsRedir(Rest()[0])
        invariant stop <==> Rest() != [] && Follows(Rest()[0], 0)
        decreases |Rest()|
      {
        PlainArg(ts, k, cur, Rest());
        var tok, q, eq := GetToken();
        if tok == '\0' {
          break;
        }
        if tok != 'a' {
          return None, 0;
        }
        cur := AddArg(cur, (q, eq));
        k := k + 1;
        argc := argc + 1;
        if argc >= MAXARGS {
          return None, 0;
        }
        ghost var mid := Rest();
        ghost var j;
        r, j := ParseRedirs(cur);
        PlainRedirs(ts, k, cur, mid, r, j, Rest());
        if r.None? {
          return;
        }
        cur, k := r.value, k + j;
        stop := Peek("|)&;");
      }
      PlainEnd(ts, k, cur, Rest());
      r := Some(cur);
    }

    /** parseblock: a line in parentheses, then redirections. */
    method ParseBlock() returns (r: Option<Cmd>, ghost k: nat)
      requires Valid() && Rest() != [] && Rest()[0] == Sym('(')
      modifies this`s
      ensures Valid()
      ensures r.Some? ==> Took(old(Rest()), k, Rest()) && Simple(r.value, old(Rest())[..k]) && Few(r.value)
      ensures forall m: nat, d | SimpleAt(old(Rest()), m, d) :: r == Some(d) && k == m
      decreases |Rest()|, 0
    {
      hide Lex, Simple, SimpleAt, Line, LineAt, Redirs, RedirsAt, BlockParts;
      ghost var ts := Rest();
      BlockPlan(ts);
      k := 0;
      var open := Peek("(");
      var _, _, _ := GetToken();
      ghost var j;
      r, j := ParseLine();
      BlockLine(ts, r, j);
      if r.None? {
        return;
      }
      var b := r.value;
      var close := Peek(")");
      if !close {
        return None, 0;
      }
      var _, _, _ := GetToken();
      ghost var i;
      ghost var tail := Rest();
      r, i := ParseRedirs(b);
      BlockDone(ts, b, j, tail, r, i, Rest());
      k := j + i + 2;
    }

    /** parsepipe: simple commands joined by "|". */
    method ParsePipe() returns (r: Option<Cmd>, ghost k: nat)
      requires Valid()
      modifies this`s
      ensures Valid()
      ensures r.Some? ==> Took(old(Rest()), k, Rest()) && Pipes(r.value, old(Rest())[..k]) && Few(r.value)
      ensures forall m: nat, d | PipesAt(old(Rest()), m, d) :: r == Some(d) && k == m
      decreases |Rest()|, 2
    {
      hide Lex, Simple, SimpleAt, Pipes, PipesAt, Blank, Few;
      ghost var ts := Rest();
      r, k := ParseExec();
      PipeFirst(ts, r, k, Rest());
      if r.None? {
        return;
      }
      var bar := Peek("|");
      if bar {
        var left := r.value;
        var _, _, _ := GetToken();
        ghost var j;
        ghost var tail := Rest();
        r, j := ParsePipe();
        PipeNext(ts, left, k, tail, r, j, Rest());
        if r.None? {
          return;
        }
        r, k := Some(Pipe(left, r.value)), k + 1 + j;
      }
    }

    /** parseline: a pipe, any number of "&", and the rest of the list after ";". */
    method ParseLine() returns (r: Option<Cmd>, ghost k: nat)
      requires Valid()
      modifies this`s
      ensures Valid()
      ensures r.Some? ==> Took(old(Rest()), k, Rest()) && Line(r.value, old(Rest())[..k]) && Few(r.value)
      ensures forall m: nat, d | LineAt(old(Rest()), m, d) :: r == Some(d) && k == m
      decreases |Rest()|, 3
    {
      hide Lex, Pipes, PipesAt, JobsGoal, Line, LineAt, JobsAt, Blank, Few;
      ghost var ts := Rest();
      r, k := ParsePipe();
      JobsFirst(ts, r, k, Rest());
      if r.None? {
        return;
      }
      var cur := r.value;
      var amp := Peek("&");
      while amp
        invariant Valid() && JobsGoal(ts, k, cur, Rest())
        invariant amp <==> Rest() != [] && Rest()[0] == Sym('&')
        invariant |Rest()| <= |ts|
        decreases |Rest()|
      {
        JobsNext(ts, k, cur, Rest());
        var _, _, _ := GetToken();
        cur, k := Back(cur), k + 1;
        amp := Peek("&");
      }
      JobsEnd(ts, k, cur, Rest());
      r := Some(cur);
      var semi := Peek(";");
      if semi {
        var _, _, _ := GetToken();
        ghost var j;
        ghost var tail := Rest();
        r, j := ParseLine();
        ListNext(ts, cur, k, tail, r, j, Rest());
        if r.None? {
          return;
        }
        r, k := Some(List(cur, r.value)), k + 1 + j;
      }
    }

    /** nulterminate: a NUL where each word of the tree ends. */
    method Nulterminate(c: Cmd)
      requires Below(EndsOf(c), buf.Length)
      modifies buf
      ensures forall i | 0 <= i < buf.Length :: buf[i] == if i in EndsOf(c) then '\0' else old(buf[i])
      decreases c
    {
      EndsInside(c);
      match c
      case Exec(argv) =>
        for i := 0 to |argv|
          invariant forall j | 0 <= j < buf.Length :: buf[j] == if j in ArgEnds(argv[..i]) then '\0' else old(buf[j])
        {
          assert argv[..i + 1] == argv[..i] + [argv[i]];
          assert argv[i].1 in EndsOf(c);
          buf[argv[i].1] := '\0';
        }
        assert argv[..|argv|] == argv;
      case Redir(sub, file, _, _) =>
        Nulterminate(sub);
        buf[file.1] := '\0';
      case Pipe(l, r) =>
        Nulterminate(l);
        Nulterminate(r);
      case List(l, r) =>
        Nulterminate(l);
        Nulterminate(r);
      case Back(sub) =>
        Nulterminate(sub);
    }

    /** parsecmd accepts exactly the lines of the grammar, returns the one tree for them, and
        leaves each word of it in the buffer as a string of its own. */
    method ParseCmd() returns (r: Option<Cmd>)
      requires Valid() && s == 0
      modifies this`s, buf
      ensures forall c | Line(c, Lex(text, 0)) && Few(c) :: r == Some(c)
      ensures r.Some? ==> Line(r.value, Lex(text, 0)) && Few(r.value)
      ensures r.Some? ==> forall q: nat, e: nat :: Spans(r.value)[(q, e)] == if MaxRun(text, q, e) then 1 else 0
      ensures r.Some? ==> InOrder(r.value) && InRole(text, r.value)
      ensures r.Some? ==> forall q: nat, e: nat | MaxRun(text, q, e) :: ReadsAs(buf[..], q, text[q..e])
      ensures r.Some? ==> forall i | 0 <= i < es :: buf[i] == text[i] || (buf[i] == '\0' && !WordChar(text[i]))
      ensures r.None? ==> buf[..] == old(buf[..])
    {
      hide Lex, Line, LineAt, Blank, Symbol, EndsOf, Few, InOrder, InRole, Tidy;
      ghost var ts := Rest();
      ghost var k;
      r, k := ParseLine();
      forall c | Line(c, ts) && Few(c)
        ensures r == Some(c) && k == |ts|
      {
        WholeLine(ts, c);
      }
      if r.None? {
        return;
      }
      var _ := Peek("");
      RestEnds(text, s);
      if s != es {
        return None;
      }
      assert ts[k..] == [] && ts[..k] == ts;
      TreeWords(text, r.value);
      LineTidy(text);
      LineOrder(text, r.value, ts);
      Nulterminate(r.value);
      forall q: nat, e: nat | MaxRun(text, q, e)
        ensures ReadsAs(buf[..], q, text[q..e])
      {
        assert (q, e) in Spans(r.value);
        assert e in EndsOf(r.value);
      }
    }
  }

  /** The C string at q is w. */
  ghost predicate ReadsAs(b: seq<char>, q: nat, w: string) {
    q + |w| < |b| && b[q..q + |w|] == w && b[q + |w|] == '\0' && '\0' !in w
  }

  function ArgEnds(argv: seq<Span>): set<nat> {
    set i | 0 <= i < |argv| :: argv[i].1
  }

  function EndsOf(c: Cmd): set<nat> {
    match c
    case Exec(argv) => ArgEnds(argv)
    case Redir(sub, file, _, _) => EndsOf(sub) + {file.1}
    case Pipe(l, r) => EndsOf(l) + EndsOf(r)
    case List(l, r) => EndsOf(l) + EndsOf(r)
    case Back(sub) => EndsOf(sub)
  }

  ghost predicate Below(s: set<nat>, n: nat) {
    forall e | e in s :: e < n
  }

  lemma EndsInside(c: Cmd)
    ensures c.Redir? || c.Back? ==> EndsOf(c.cmd) <= EndsOf(c)
    ensures c.Pipe? || c.List? ==> EndsOf(c.left) <= EndsOf(c) && EndsOf(c.right) <= EndsOf(c)
  {
  }

  lemma {:induction false} EndsAreSpans(c: Cmd, e: nat)
    ensures e in EndsOf(c) <==> exists q: nat :: (q, e) in Spans(c)
    decreases c
  {
    match c
    case Exec(argv) =>
      if e in ArgEnds(argv) {
        var i :| 0 <= i < |argv| && argv[i].1 == e;
        assert argv[i] in multiset(argv);
        assert (argv[i].0, e) in Spans(c);
      }
      if q: nat :| (q, e) in Spans(c) {
        assert (q, e) in argv;
      }
    case Redir(sub, file, _, _) =>
      EndsAreSpans(sub, e);
      if e == file.1 {
        assert (file.0, e) in Spans(c);
      }
    case Pipe(l, r) =>
      EndsAreSpans(l, e);
      EndsAreSpans(r, e);
    case List(l, r) =>
      EndsAreSpans(l, e);
      EndsAreSpans(r, e);
    case Back(sub) => EndsAreSpans(sub, e);
  }

  lemma WholeLine(ts: seq<Token>, c: Cmd)
    requires Line(c, ts) && Few(c)
    ensures LineAt(ts, |ts|, c)
  {
    assert ts[..|ts|] == ts;
  }

  lemma RestEnds(text: string, s: nat)
    requires s <= |text| && (s < |text| ==> !Blank(text[s]))
    ensures Lex(text, s) == [] <==> s == |text|
  {
  }

  /** The words of an accepted tree, and that no word ends inside another. */
  lemma TreeWords(text: string, c: Cmd)
    requires Line(c, Lex(text, 0))
    ensures forall q: nat, e: nat :: Spans(c)[(q, e)] == if MaxRun(text, q, e) then 1 else 0
    ensures forall q: nat, e: nat | (q, e) in Spans(c) :: e in EndsOf(c)
    ensures forall e | e in EndsOf(c) :: e <= |text| && (e < |text| ==> !WordChar(text[e]))
  {
    hide Line, Lex, MaxRun;
    LineWords(c, Lex(text, 0));
    forall q: nat, e: nat
      ensures Spans(c)[(q, e)] == if MaxRun(text, q, e) then 1 else 0
      ensures (q, e) in Spans(c) ==> e in EndsOf(c)
    {
      LexWords(text, 0, q, e);
      EndsAreSpans(c, e);
    }
    forall e | e in EndsOf(c)
      ensures e <= |text| && (e < |text| ==> !WordChar(text[e]))
    {
      EndsAreSpans(c, e);
      var q: nat :| (q, e) in Spans(c);
      RunEnds(text, q, e);
    }
  }

  lemma RunEnds(text: string, q: nat, e: nat)
    requires MaxRun(text, q, e)
    ensures e <= |text| && (e < |text| ==> !WordChar(text[e]))
  {
  }

  // Simple commands without parentheses

  /** Part way through a simple command. */
  ghost predicate PlainGoal(ts: seq<Token>, k: nat, c: Cmd, rest: seq<Token>) {
    Took(ts, k, rest) && Plain(Exec([]), ts[..k]) == Some(c) && Innermost(c) && Few(c) &&
    forall m: nat, d | SimpleAt(ts, m, d) :: m >= k && PlainAt(c, rest, m - k, d)
  }

  lemma SimpleIsPlain(ts: seq<Token>)
    requires ts == [] || ts[0] != Sym('(')
    ensures forall m: nat, d | SimpleAt(ts, m, d) :: PlainAt(Exec([]), ts, m, d)
  {
    forall m: nat, d | SimpleAt(ts, m, d)
      ensures PlainAt(Exec([]), ts, m, d)
    {
      hide Line, Redirs, Plain;
      assert Simple(d, ts[..m]);
      forall b, j
        ensures !Block(d, ts[..m], b, j)
      {
      }
    }
  }

  lemma PlainStart(ts: seq<Token>)
    requires forall m: nat, d | SimpleAt(ts, m, d) :: PlainAt(Exec([]), ts, m, d)
    ensures PlainGoal(ts, 0, Exec([]), ts)
  {
    hide SimpleAt, PlainAt;
    assert ts[..0] == [] && ts[0..] == ts;
  }

  /** A simple command starts with the redirections it starts with. */
  lemma {:induction false} PlainPrefix(b: Cmd, ts: seq<Token>, m: nat, d: Cmd) returns (p: nat, e: Cmd)
    requires PlainAt(b, ts, m, d)
    ensures RedirsAt(b, ts, p, e)
    decreases m
  {
    if ts != [] && IsRedir(ts[0]) {
      PlainTwo(b, ts, m, d);
      p, e := PlainPrefix(MakeRedir(b, ts[0], ts[1]), ts[2..], m - 2, d);
      assert ts[..p + 2][2..] == ts[2..][..p];
      p := p + 2;
    } else {
      p, e := 0, b;
      assert ts[..0] == [];
    }
  }

  lemma PlainTwo(b: Cmd, ts: seq<Token>, m: nat, d: Cmd)
    requires PlainAt(b, ts, m, d) && ts != [] && IsRedir(ts[0])
    ensures m >= 2 && ts[1].Word? && PlainAt(MakeRedir(b, ts[0], ts[1]), ts[2..], m - 2, d)
  {
    assert m > 0 && ts[..m][0] == ts[0];
    assert ts[..m][2..] == ts[2..][..m - 2];
  }

  lemma {:induction false} PlainSkips(b: Cmd, ts: seq<Token>, j: nat, c: Cmd, m: nat, d: Cmd)
    requires j <= |ts| && Redirs(b, ts[..j]) == Some(c) && PlainAt(b, ts, m, d)
    ensures m >= j && PlainAt(c, ts[j..], m - j, d)
    decreases j
  {
    if j > 0 {
      assert ts[..j][0] == ts[0] && ts[..j][1] == ts[1] && ts[..j][2..] == ts[2..][..j - 2];
      PlainTwo(b, ts, m, d);
      PlainSkips(MakeRedir(b, ts[0], ts[1]), ts[2..], j - 2, c, m - 2, d);
      assert ts[2..][j - 2..] == ts[j..];
    } else {
      assert ts[0..] == ts;
    }
  }

  lemma PlainRedirs(ts: seq<Token>, k: nat, c: Cmd, mid: seq<Token>, r: Option<Cmd>, j: nat, rest: seq<Token>)
    requires PlainGoal(ts, k, c, mid)
    requires r.Some? ==> RedirsDone(c, mid, j, r.value, rest)
    requires forall m: nat, d | RedirsAt(c, mid, m, d) :: r == Some(d) && j == m
    ensures r.Some? ==> PlainGoal(ts, k + j, r.value, rest) && ArgCount(r.value) == ArgCount(c)
    ensures r.None? ==> forall m: nat, d :: !SimpleAt(ts, m, d)
  {
    hide SimpleAt, PlainAt, RedirsAt;
    forall m: nat, d | SimpleAt(ts, m, d)
      ensures r.Some? && m >= k + j && PlainAt(r.value, rest, m - k - j, d)
    {
      var p, e := PlainPrefix(c, mid, m - k, d);
      PlainSkips(c, mid, j, r.value, m - k, d);
    }
    if r.Some? {
      RedirsCount(c, mid[..j]);
      TookMore(ts, k, mid, j, rest);
      PlainMore(Exec([]), ts[..k], mid[..j]);
      RedirsPlain(c, mid[..j]);
    }
  }

  lemma {:induction false} PlainCounts(b: Cmd, ts: seq<Token>, d: Cmd)
    requires Innermost(b) && Plain(b, ts) == Some(d)
    ensures Innermost(d) && ArgCount(d) >= ArgCount(b) && (Few(d) <==> ArgCount(d) < MAXARGS)
    decreases |ts|
  {
    AddArgCounts(b, (0, 0));
    if ts != [] {
      if ts[0].Word? {
        AddArgCounts(b, (ts[0].q, ts[0].eq));
        PlainCounts(AddArg(b, (ts[0].q, ts[0].eq)), ts[1..], d);
      } else {
        PlainCounts(MakeRedir(b, ts[0], ts[1]), ts[2..], d);
      }
    }
  }

  /** The next argument, and why anything else is an error. */
  lemma PlainArg(ts: seq<Token>, k: nat, c: Cmd, rest: seq<Token>)
    requires PlainGoal(ts, k, c, rest) && (rest == [] || (!IsRedir(rest[0]) && !Follows(rest[0], 0)))
    ensures rest != [] && rest[0].Word? && ArgCount(c) + 1 < MAXARGS ==>
      PlainGoal(ts, k + 1, AddArg(c, (rest[0].q, rest[0].eq)), rest[1..])
    ensures rest != [] && rest[0].Word? ==> ArgCount(AddArg(c, (rest[0].q, rest[0].eq))) == ArgCount(c) + 1
    ensures rest != [] && !(rest[0].Word? && ArgCount(c) + 1 < MAXARGS) ==> forall m: nat, d :: !SimpleAt(ts, m, d)
  {
    if rest != [] {
      forall m: nat, d | SimpleAt(ts, m, d)
        ensures rest[0].Word? && ArgCount(c) + 1 < MAXARGS
        ensures m >= k + 1 && PlainAt(AddArg(c, (rest[0].q, rest[0].eq)), rest[1..], m - k - 1, d)
      {
        PlainOne(c, rest, m - k, d);
      }
      if rest[0].Word? {
        var w := (rest[0].q, rest[0].eq);
        AddArgCounts(c, w);
        AddArgCounts(AddArg(c, w), w);
        assert ts[..k + 1] == ts[..k] + [rest[0]];
        PlainMore(Exec([]), ts[..k], [rest[0]]);
        assert [rest[0]][1..] == [];
      }
    }
  }

  lemma PlainOne(b: Cmd, ts: seq<Token>, m: nat, d: Cmd)
    requires Innermost(b) && PlainAt(b, ts, m, d) && ts != [] && !IsRedir(ts[0]) && !Follows(ts[0], 0)
    ensures m >= 1 && ts[0].Word? && ArgCount(b) + 1 < MAXARGS && PlainAt(AddArg(b, (ts[0].q, ts[0].eq)), ts[1..], m - 1, d)
  {
    assert m > 0 && ts[..m][0] == ts[0];
    assert ts[..m][1..] == ts[1..][..m - 1];
    AddArgCounts(b, (ts[0].q, ts[0].eq));
    PlainCounts(AddArg(b, (ts[0].q, ts[0].eq)), ts[1..][..m - 1], d);
  }

  lemma PlainEnd(ts: seq<Token>, k: nat, c: Cmd, rest: seq<Token>)
    requires PlainGoal(ts, k, c, rest) && (rest == [] || Follows(rest[0], 0))
    ensures Took(ts, k, rest) && Simple(c, ts[..k]) && Few(c)
    ensures forall m: nat, d | SimpleAt(ts, m, d) :: c == d && k == m
  {
    forall m: nat, d | SimpleAt(ts, m, d)
      ensures c == d && k == m
    {
      hide Simple, SimpleAt;
      assert PlainAt(c, rest, m - k, d);
    }
  }

  // Blocks

  /** A block that ends at m: its line b ends at j. */
  ghost predicate BlockParts(ts: seq<Token>, m: nat, c: Cmd, b: Cmd, j: nat) {
    0 < j < m <= |ts| && ts[j] == Sym(')') && LineAt(ts[1..], j - 1, b) && RedirsAt(b, ts[j + 1..], m - j - 1, c)
  }

  lemma BlockSplit(ts: seq<Token>, m: nat, c: Cmd) returns (b: Cmd, j: nat)
    requires ts != [] && ts[0] == Sym('(') && SimpleAt(ts, m, c)
    ensures BlockParts(ts, m, c, b, j)
  {
    hide Line, Redirs;
    assert m > 0 && ts[..m][0] == ts[0];
    assert Plain(Exec([]), ts[..m]).None?;
    assert Simple(c, ts[..m]);
    var b0, j0 :| Block(c, ts[..m], b0, j0);
    b, j := b0, j0;
    assert ts[..m][1..j] == ts[1..][..j - 1] && ts[..m][j + 1..] == ts[j + 1..][..m - j - 1];
    RedirsCount(b, ts[..m][j + 1..]);
  }

  lemma BlockPlan(ts: seq<Token>)
    requires ts != [] && ts[0] == Sym('(')
    ensures forall m: nat, d | SimpleAt(ts, m, d) :: exists b: Cmd, j: nat :: BlockParts(ts, m, d, b, j)
  {
    forall m: nat, d | SimpleAt(ts, m, d)
      ensures exists b: Cmd, j: nat :: BlockParts(ts, m, d, b, j)
    {
      var b, j := BlockSplit(ts, m, d);
    }
  }

  lemma BlockLine(ts: seq<Token>, r: Option<Cmd>, k: nat)
    requires ts != []
    requires forall m: nat, d | SimpleAt(ts, m, d) :: exists b: Cmd, j: nat :: BlockParts(ts, m, d, b, j)
    requires forall m: nat, d | LineAt(ts[1..], m, d) :: r == Some(d) && k == m
    ensures forall m: nat, d | SimpleAt(ts, m, d) ::
      r.Some? && k + 1 < |ts| && ts[k + 1] == Sym(')') && BlockParts(ts, m, d, r.value, k + 1)
  {
    hide SimpleAt, LineAt, RedirsAt;
    forall m: nat, d | SimpleAt(ts, m, d)
      ensures r.Some? && k + 1 < |ts| && ts[k + 1] == Sym(')') && BlockParts(ts, m, d, r.value, k + 1)
    {
      var b: Cmd, j: nat :| BlockParts(ts, m, d, b, j);
      assert LineAt(ts[1..], j - 1, b);
    }
  }

  lemma BlockDone(ts: seq<Token>, b: Cmd, j: nat, tail: seq<Token>, r: Option<Cmd>, i: nat, rest: seq<Token>)
    requires j + 1 < |ts| && tail == ts[j + 2..] && ts[0] == Sym('(') && ts[j + 1] == Sym(')') && Line(b, ts[1..][..j]) && Few(b)
    requires forall m: nat, d | SimpleAt(ts, m, d) :: BlockParts(ts, m, d, b, j + 1)
    requires r.Some? ==> RedirsDone(b, tail, i, r.value, rest)
    requires forall m: nat, d | RedirsAt(b, tail, m, d) :: r == Some(d) && i == m
    ensures r.Some? ==> Took(ts, j + i + 2, rest) && Simple(r.value, ts[..j + i + 2]) && Few(r.value)
    ensures forall m: nat, d | SimpleAt(ts, m, d) :: r == Some(d) && j + i + 2 == m
  {
    hide SimpleAt, LineAt, RedirsAt, Line, Redirs;
    if r.Some? {
      var k := j + i + 2;
      assert ts[..k][1..j + 1] == ts[1..][..j] && ts[..k][j + 2..] == ts[j + 2..][..i];
      assert Block(r.value, ts[..k], b, j + 1);
      RedirsCount(b, ts[j + 2..][..i]);
    }
    forall m: nat, d | SimpleAt(ts, m, d)
      ensures r == Some(d) && j + i + 2 == m
    {
      assert RedirsAt(b, ts[j + 2..], m - j - 2, d);
    }
  }

  // Pipes

  lemma SimplePipes(c: Cmd, ts: seq<Token>)
    requires Simple(c, ts)
    ensures Pipes(c, ts)
  {
  }

  /** After the first simple command: whatever pipe is there starts with it. */
  lemma PipeFirst(ts: seq<Token>, r: Option<Cmd>, k: nat, rest: seq<Token>)
    requires r.Some? ==> Took(ts, k, rest) && Simple(r.value, ts[..k])
    requires forall m: nat, d | SimpleAt(ts, m, d) :: r == Some(d) && k == m
    ensures r.Some? ==> Pipes(r.value, ts[..k])
    ensures forall m: nat, d | PipesAt(ts, m, d) ::
      && r.Some? && k <= |ts|
      && (if k < |ts| && ts[k] == Sym('|')
          then d.Pipe? && d.left == r.value && m > k && PipesAt(ts[k + 1..], m - k - 1, d.right)
          else d == r.value && m == k)
  {
    hide Simple;
    if r.Some? {
      SimplePipes(r.value, ts[..k]);
    }
    forall m: nat, d | PipesAt(ts, m, d)
      ensures r.Some? && k <= |ts|
      ensures if k < |ts| && ts[k] == Sym('|')
              then d.Pipe? && d.left == r.value && m > k && PipesAt(ts[k + 1..], m - k - 1, d.right)
              else d == r.value && m == k
    {
      if Simple(d, ts[..m]) {
        assert SimpleAt(ts, m, d);
      } else {
        assert Pipes(d, ts[..m]);
        var i :| Piped(d, ts[..m], i);
        assert ts[..m][..i] == ts[..i] && ts[..m][i + 1..] == ts[i + 1..][..m - i - 1];
        assert SimpleAt(ts, i, d.left);
      }
    }
  }

  lemma PipeNext(ts: seq<Token>, left: Cmd, k: nat, tail: seq<Token>, r: Option<Cmd>, j: nat, rest: seq<Token>)
    requires k < |ts| && tail == ts[k + 1..] && ts[k] == Sym('|') && Simple(left, ts[..k]) && Few(left)
    requires forall m: nat, d | PipesAt(ts, m, d) :: d.Pipe? && d.left == left && m > k && PipesAt(tail, m - k - 1, d.right)
    requires r.Some? ==> Took(tail, j, rest) && Pipes(r.value, tail[..j]) && Few(r.value)
    requires forall m: nat, d | PipesAt(tail, m, d) :: r == Some(d) && j == m
    ensures r.Some? ==> Took(ts, k + 1 + j, rest) && Pipes(Pipe(left, r.value), ts[..k + 1 + j]) && Few(Pipe(left, r.value))
    ensures forall m: nat, d | PipesAt(ts, m, d) :: r.Some? && d == Pipe(left, r.value) && m == k + 1 + j
  {
    hide Simple, PipesAt;
    if r.Some? {
      var t := ts[..k + 1 + j];
      assert t[..k] == ts[..k] && t[k + 1..] == tail[..j];
      assert Piped(Pipe(left, r.value), t, k);
    }
  }

  // Lines

  function Backs(c: Cmd, n: nat): Cmd
    decreases n
  {
    if n == 0 then c else Backs(Back(c), n - 1)
  }

  lemma {:induction false} BacksLast(c: Cmd, n: nat)
    ensures Backs(c, n + 1) == Back(Backs(c, n)) && (Few(Backs(c, n)) <==> Few(c))
    decreases n
  {
    if n > 0 {
      BacksLast(Back(c), n - 1);
    }
  }

  ghost predicate JobsAt(ts: seq<Token>, m: nat, c: Cmd) {
    m <= |ts| && Jobs(c, ts[..m]) && Few(c) && Stops(ts, m, 2)
  }

  /** n times "&" turn c into d. */
  ghost predicate JobsFrom(c: Cmd, ts: seq<Token>, n: nat, d: Cmd) {
    n <= |ts| && (forall i | 0 <= i < n :: ts[i] == Sym('&')) && d == Backs(c, n) && Stops(ts, n, 2)
  }

  ghost predicate JobsGoal(ts: seq<Token>, k: nat, c: Cmd, rest: seq<Token>) {
    Took(ts, k, rest) && Jobs(c, ts[..k]) && Few(c) &&
    forall m: nat, d | JobsAt(ts, m, d) :: m >= k && JobsFrom(c, rest, m - k, d)
  }

  /** A job list is a pipe and then "&" some number of times. */
  lemma {:induction false} JobsSplit(c: Cmd, ts: seq<Token>) returns (b: Cmd, p: nat)
    requires Jobs(c, ts)
    ensures p <= |ts| && Pipes(b, ts[..p]) && (forall i | p <= i < |ts| :: ts[i] == Sym('&')) && c == Backs(b, |ts| - p)
    decreases |ts|
  {
    if Pipes(c, ts) {
      b, p := c, |ts|;
      assert ts[..p] == ts;
    } else {
      b, p := JobsSplit(c.cmd, ts[..|ts| - 1]);
      assert ts[..|ts| - 1][..p] == ts[..p];
      BacksLast(b, |ts| - 1 - p);
    }
  }

  lemma JobsFirst(ts: seq<Token>, r: Option<Cmd>, k: nat, rest: seq<Token>)
    requires r.Some? ==> Took(ts, k, rest) && Pipes(r.value, ts[..k]) && Few(r.value)
    requires forall m: nat, d | PipesAt(ts, m, d) :: r == Some(d) && k == m
    ensures r.Some? ==> JobsGoal(ts, k, r.value, rest)
    ensures r.None? ==> forall m: nat, d :: !LineAt(ts, m, d)
  {
    hide Pipes;
    forall m: nat, d | JobsAt(ts, m, d)
      ensures r.Some? && m >= k && JobsFrom(r.value, ts[k..], m - k, d)
    {
      var b, p := JobsSplit(d, ts[..m]);
      assert ts[..m][..p] == ts[..p];
      BacksLast(b, m - p);
      assert p < m ==> ts[..m][p] == ts[p];
      assert PipesAt(ts, p, b);
      assert forall i | 0 <= i < m - p :: ts[k..][i] == ts[..m][i + p];
    }
    forall m: nat, d | LineAt(ts, m, d)
      ensures exists i: nat, e :: JobsAt(ts, i, e)
    {
      hide Jobs, JobsAt;
      LineJobs(ts, m, d);
    }
  }

  /** A line is a job list, or one followed by ";" and a line. */
  lemma LineJobs(ts: seq<Token>, m: nat, d: Cmd)
    requires LineAt(ts, m, d)
    ensures (JobsAt(ts, m, d) && (m < |ts| ==> ts[m] == Sym(')'))) ||
            (d.List? && exists i: nat :: i < m && ts[i] == Sym(';') && JobsAt(ts, i, d.left) && LineAt(ts[i + 1..], m - i - 1, d.right))
  {
    hide Jobs;
    if !Jobs(d, ts[..m]) {
      assert Line(d, ts[..m]);
      var i :| Listed(d, ts[..m], i);
      assert ts[..m][..i] == ts[..i] && ts[..m][i + 1..] == ts[i + 1..][..m - i - 1];
    }
  }

  lemma JobsNext(ts: seq<Token>, k: nat, c: Cmd, rest: seq<Token>)
    requires JobsGoal(ts, k, c, rest) && rest != [] && rest[0] == Sym('&')
    ensures JobsGoal(ts, k + 1, Back(c), rest[1..])
  {
    assert ts[..k + 1][..k] == ts[..k];
    hide Pipes, JobsAt;
  }

  lemma JobsEnd(ts: seq<Token>, k: nat, c: Cmd, rest: seq<Token>)
    requires JobsGoal(ts, k, c, rest) && (rest == [] || rest[0] != Sym('&'))
    ensures Took(ts, k, rest) && Jobs(c, ts[..k]) && Line(c, ts[..k]) && Few(c)
    ensures forall m: nat, d | LineAt(ts, m, d) ::
      if rest != [] && rest[0] == Sym(';')
      then d.List? && d.left == c && m > k && LineAt(ts[k + 1..], m - k - 1, d.right)
      else d == c && m == k
  {
    hide Jobs, JobsAt;
    forall m: nat, d | JobsAt(ts, m, d)
      ensures d == c && m == k
    {
    }
    forall m: nat, d | LineAt(ts, m, d)
      ensures if rest != [] && rest[0] == Sym(';')
              then d.List? && d.left == c && m > k && LineAt(ts[k + 1..], m - k - 1, d.right)
              else d == c && m == k
    {
      LineJobs(ts, m, d);
    }
  }

  lemma ListNext(ts: seq<Token>, left: Cmd, k: nat, tail: seq<Token>, r: Option<Cmd>, j: nat, rest: seq<Token>)
    requires k < |ts| && tail == ts[k + 1..] && ts[k] == Sym(';') && Jobs(left, ts[..k]) && Few(left)
    requires forall m: nat, d | LineAt(ts, m, d) :: d.List? && d.left == left && m > k && LineAt(tail, m - k - 1, d.right)
    requires r.Some? ==> Took(tail, j, rest) && Line(r.value, tail[..j]) && Few(r.value)
    requires forall m: nat, d | LineAt(tail, m, d) :: r == Some(d) && j == m
    ensures r.Some? ==> Took(ts, k + 1 + j, rest) && Line(List(left, r.value), ts[..k + 1 + j]) && Few(List(left, r.value))
    ensures forall m: nat, d | LineAt(ts, m, d) :: r.Some? && d == List(left, r.value) && m == k + 1 + j
  {
    hide Jobs, LineAt;
    if r.Some? {
      var t := ts[..k + 1 + j];
      assert t[..k] == ts[..k] && t[k + 1..] == tail[..j];
      assert Listed(List(left, r.value), t, k);
    }
  }

  ghost predicate RedirsDone(b: Cmd, ts: seq<Token>, k: nat, c: Cmd, rest: seq<Token>) {
    Took(ts, k, rest) && Redirs(b, ts[..k]) == Some(c) && (rest == [] || !IsRedir(rest[0]))
  }

  /** Part way through redirections: c so far, and every way to finish goes on from here. */
  ghost predicate RedirGoal(b: Cmd, ts: seq<Token>, k: nat, c: Cmd, rest: seq<Token>) {
    Took(ts, k, rest) && Redirs(b, ts[..k]) == Some(c) &&
    forall m: nat, d | RedirsAt(b, ts, m, d) :: m >= k && RedirsAt(c, rest, m - k, d)
  }

  lemma RedirStart(b: Cmd, ts: seq<Token>)
    ensures RedirGoal(b, ts, 0, b, ts)
  {
    assert ts[..0] == [] && ts[0..] == ts;
  }

  lemma RedirStep(b: Cmd, ts: seq<Token>, k: nat, c: Cmd, rest: seq<Token>)
    requires RedirGoal(b, ts, k, c, rest) && rest != [] && IsRedir(rest[0])
    ensures |rest| >= 2 && rest[1].Word? ==>
      RedirGoal(b, ts, k + 2, Redir(c, (rest[1].q, rest[1].eq), if rest[0] == Sym('<') then O_RDONLY else O_WRONLY + O_CREATE,
                                    if rest[0] == Sym('<') then 0 else 1), rest[2..])
    ensures !(|rest| >= 2 && rest[1].Word?) ==> forall m: nat, d :: !RedirsAt(b, ts, m, d)
  {
    if |rest| >= 2 && rest[1].Word? {
      RedirTail(b, ts, k, c, rest);
    }
    forall m: nat, d | RedirsAt(b, ts, m, d)
      ensures RedirTwo(c, rest, m - k, d) && m >= k
    {
      RedirHead(c, rest, m - k, d);
    }
  }

  lemma RedirEnd(b: Cmd, ts: seq<Token>, k: nat, c: Cmd, rest: seq<Token>)
    requires RedirGoal(b, ts, k, c, rest) && (rest == [] || !IsRedir(rest[0]))
    ensures RedirsDone(b, ts, k, c, rest)
    ensures forall m: nat, d | RedirsAt(b, ts, m, d) :: d == c && m == k
  {
    forall m: nat, d | RedirsAt(b, ts, m, d)
      ensures d == c && m == k
    {
      assert RedirsAt(c, rest, m - k, d);
    }
  }

  /** The redirection at the front of ts, and what comes after it. */
  ghost predicate RedirTwo(b: Cmd, ts: seq<Token>, m: nat, c: Cmd) {
    |ts| >= 2 && m >= 2 && IsRedir(ts[0]) && ts[1].Word? && RedirsAt(MakeRedir(b, ts[0], ts[1]), ts[2..], m - 2, c)
  }

  lemma RedirHead(b: Cmd, ts: seq<Token>, m: nat, c: Cmd)
    requires RedirsAt(b, ts, m, c) && ts != [] && IsRedir(ts[0])
    ensures RedirTwo(b, ts, m, c)
  {
    assert ts[..m][0] == ts[0];
    assert ts[..m][2..] == ts[2..][..m - 2];
  }

  lemma RedirTail(b: Cmd, ts: seq<Token>, k: nat, c: Cmd, rest: seq<Token>)
    requires Took(ts, k, rest) && Redirs(b, ts[..k]) == Some(c) && |rest| >= 2 && IsRedir(rest[0]) && rest[1].Word?
    ensures Took(ts, k + 2, rest[2..]) && Redirs(b, ts[..k + 2]) == Some(MakeRedir(c, rest[0], rest[1]))
  {
    var two := [rest[0], rest[1]];
    assert ts[..k + 2] == ts[..k] + two;
    RedirsMore(b, ts[..k], two);
    assert two[2..] == [];
  }
}
