/**
 The shell's command language (user/sh.c): tokens, the grammar of command trees over token
 sequences, and which words of a line a tree holds.
 */
module ShGrammar {
  const MAXARGS := 10
  const O_RDONLY := 0x000
  const O_WRONLY := 0x001
  const O_CREATE := 0x200

  datatype Option<T> = None | Some(value: T)

  /** A piece of the line: where it starts and where it ends. */
  type Span = (nat, nat)

  /** The symbol '+' stands for ">>". */
  datatype Token = Word(q: nat, eq: nat) | Sym(c: char)

  datatype Cmd =
    | Exec(argv: seq<Span>)
    | Redir(cmd: Cmd, file: Span, mode: nat, fd: nat)
    | Pipe(left: Cmd, right: Cmd)
    | List(left: Cmd, right: Cmd)
    | Back(cmd: Cmd)

  // Tokens

  predicate Blank(c: char) {
    c == ' ' || c == '\t' || c == '\r' || c == '\n' || c == '\U{000B}'
  }

  predicate Symbol(c: char) {
    c == '<' || c == '|' || c == '>' || c == '&' || c == ';' || c == '(' || c == ')'
  }

  predicate WordChar(c: char) {
    !Blank(c) && !Symbol(c)
  }

  function WordEnd(text: string, i: nat): (r: nat)
    requires i <= |text|
    ensures i <= r <= |text| && (r < |text| ==> !WordChar(text[r])) && forall j | i <= j < r :: WordChar(text[j])
    decreases |text| - i
  {
    if i == |text| || !WordChar(text[i]) then i else WordEnd(text, i + 1)
  }

  /** The tokens of the line from position i on. */
  function Lex(text: string, i: nat): seq<Token>
    requires i <= |text|
    decreases |text| - i
  {
    if i == |text| then []
    else if Blank(text[i]) then Lex(text, i + 1)
    else if text[i] == '>' && i + 1 < |text| && text[i + 1] == '>' then [Sym('+')] + Lex(text, i + 2)
    else if Symbol(text[i]) then [Sym(text[i])] + Lex(text, i + 1)
    else [Word(i, WordEnd(text, i))] + Lex(text, WordEnd(text, i))
  }

  /** A run of word characters that cannot be made longer. */
  predicate MaxRun(text: string, q: nat, e: nat) {
    q < e <= |text| && (forall j | q <= j < e :: WordChar(text[j])) && (q == 0 || !WordChar(text[q - 1])) &&
    (e == |text| || !WordChar(text[e]))
  }

  ghost function WordsOf(ts: seq<Token>): multiset<Span> {
    if ts == [] then multiset{}
    else (if ts[0].Word? then multiset{(ts[0].q, ts[0].eq)} else multiset{}) + WordsOf(ts[1..])
  }

  lemma {:induction false} WordsOfJoin(a: seq<Token>, b: seq<Token>)
    ensures WordsOf(a + b) == WordsOf(a) + WordsOf(b)
  {
    if a == [] {
      assert a + b == b;
    } else {
      assert (a + b)[1..] == a[1..] + b;
      WordsOfJoin(a[1..], b);
    }
  }

  predicate Boundary(text: string, i: nat) {
    i <= |text| && (i == 0 || i == |text| || !WordChar(text[i - 1]) || !WordChar(text[i]))
  }

  /** The words of the line are exactly its maximal runs of word characters, each once. */
  lemma {:induction false} LexWords(text: string, i: nat, q: nat, e: nat)
    requires Boundary(text, i)
    ensures WordsOf(Lex(text, i))[(q, e)] == if i <= q && MaxRun(text, q, e) then 1 else 0
    decreases |text| - i
  {
    if i == |text| {
    } else if !WordChar(text[i]) {
      var k := LexSkips(text, i);
      LexWords(text, k, q, e);
      NoRun(text, i, k, q, e);
    } else {
      var k := WordEnd(text, i);
      LexWords(text, k, q, e);
      LexTakes(text, i);
      RunFrom(text, i, k, q, e);
    }
  }

  /** Blanks and symbols are no words. */
  lemma LexSkips(text: string, i: nat) returns (k: nat)
    requires i < |text| && !WordChar(text[i])
    ensures i < k <= |text| && (forall j | i <= j < k :: !WordChar(text[j])) && WordsOf(Lex(text, i)) == WordsOf(Lex(text, k))
  {
    if Blank(text[i]) {
      k := i + 1;
    } else {
      k := if text[i] == '>' && i + 1 < |text| && text[i + 1] == '>' then i + 2 else i + 1;
      assert Lex(text, i)[1..] == Lex(text, k);
    }
  }

  lemma LexTakes(text: string, i: nat)
    requires i < |text| && WordChar(text[i])
    ensures WordsOf(Lex(text, i)) == multiset{(i, WordEnd(text, i))} + WordsOf(Lex(text, WordEnd(text, i)))
  {
    assert Lex(text, i)[1..] == Lex(text, WordEnd(text, i));
  }

  lemma NoRun(text: string, i: nat, k: nat, q: nat, e: nat)
    requires i < k <= |text| && forall j | i <= j < k :: !WordChar(text[j])
    ensures i <= q && MaxRun(text, q, e) <==> k <= q && MaxRun(text, q, e)
  {
    if i <= q < k {
      assert !WordChar(text[q]);
    }
  }

  lemma RunFrom(text: string, i: nat, k: nat, q: nat, e: nat)
    requires Boundary(text, i) && i < |text| && WordChar(text[i]) && k == WordEnd(text, i)
    ensures i <= q && MaxRun(text, q, e) <==> (q == i && e == k) || (k <= q && MaxRun(text, q, e))
  {
    if i <= q < k && MaxRun(text, q, e) {
      assert q == i;
      assert e <= k;
    }
  }

  // The grammar

  predicate IsRedir(t: Token) {
    t == Sym('<') || t == Sym('>') || t == Sym('+')
  }

  function MakeRedir(c: Cmd, t: Token, w: Token): Cmd
    requires IsRedir(t) && w.Word?
  {
    if t.c == '<' then Redir(c, (w.q, w.eq), O_RDONLY, 0) else Redir(c, (w.q, w.eq), O_WRONLY + O_CREATE, 1)
  }

  /** One more argument for the command under the redirections. */
  function AddArg(c: Cmd, w: Span): Cmd {
    match c
    case Exec(argv) => Exec(argv + [w])
    case Redir(sub, file, mode, fd) => Redir(AddArg(sub, w), file, mode, fd)
    case _ => c
  }

  /** Command c followed by redirections. */
  function Redirs(c: Cmd, ts: seq<Token>): Option<Cmd>
    decreases |ts|
  {
    if ts == [] then Some(c)
    else if |ts| >= 2 && IsRedir(ts[0]) && ts[1].Word? then Redirs(MakeRedir(c, ts[0], ts[1]), ts[2..])
    else None
  }

  /** Command c followed by arguments and redirections. */
  function Plain(c: Cmd, ts: seq<Token>): Option<Cmd>
    decreases |ts|
  {
    if ts == [] then Some(c)
    else if ts[0].Word? then Plain(AddArg(c, (ts[0].q, ts[0].eq)), ts[1..])
    else if |ts| >= 2 && IsRedir(ts[0]) && ts[1].Word? then Plain(MakeRedir(c, ts[0], ts[1]), ts[2..])
    else None
  }

  /** line ::= jobs | jobs ; line */
  ghost predicate Line(c: Cmd, ts: seq<Token>)
    decreases |ts|, 4
  {
    Jobs(c, ts) || (c.List? && exists i :: Listed(c, ts, i))
  }

  ghost predicate Listed(c: Cmd, ts: seq<Token>, i: int)
    requires c.List?
    decreases |ts|, 3
  {
    0 <= i < |ts| && ts[i] == Sym(';') && Jobs(c.left, ts[..i]) && Line(c.right, ts[i + 1..])
  }

  /** jobs ::= pipe | jobs & */
  ghost predicate Jobs(c: Cmd, ts: seq<Token>)
    decreases |ts|, 2
  {
    Pipes(c, ts) || (c.Back? && |ts| > 0 && ts[|ts| - 1] == Sym('&') && Jobs(c.cmd, ts[..|ts| - 1]))
  }

  /** pipe ::= simple | simple "|" pipe */
  ghost predicate Pipes(c: Cmd, ts: seq<Token>)
    decreases |ts|, 1
  {
    Simple(c, ts) || (c.Pipe? && exists i :: Piped(c, ts, i))
  }

  ghost predicate Piped(c: Cmd, ts: seq<Token>, i: int)
    requires c.Pipe?
    decreases |ts|, 0, 1
  {
    0 <= i < |ts| && ts[i] == Sym('|') && Simple(c.left, ts[..i]) && Pipes(c.right, ts[i + 1..])
  }

  /** simple ::= words and redirections | ( line ) redirections */
  ghost predicate Simple(c: Cmd, ts: seq<Token>)
    decreases |ts|, 0, 0, 1
  {
    Plain(Exec([]), ts) == Some(c) || exists b, j :: Block(c, ts, b, j)
  }

  ghost predicate Block(c: Cmd, ts: seq<Token>, b: Cmd, j: int)
    decreases |ts|, 0, 0, 0
  {
    0 < j < |ts| && ts[0] == Sym('(') && ts[j] == Sym(')') && Line(b, ts[1..j]) && Redirs(b, ts[j + 1..]) == Some(c)
  }

  // The words of a tree

  ghost function Spans(c: Cmd): multiset<Span> {
    match c
    case Exec(argv) => multiset(argv)
    case Redir(sub, file, _, _) => Spans(sub) + multiset{file}
    case Pipe(l, r) => Spans(l) + Spans(r)
    case List(l, r) => Spans(l) + Spans(r)
    case Back(sub) => Spans(sub)
  }

  predicate Innermost(c: Cmd) {
    c.Exec? || (c.Redir? && Innermost(c.cmd))
  }

  lemma {:induction false} AddArgWords(c: Cmd, w: Span)
    requires Innermost(c)
    ensures Innermost(AddArg(c, w)) && Spans(AddArg(c, w)) == Spans(c) + multiset{w}
  {
    if c.Redir? {
      AddArgWords(c.cmd, w);
    } else {
      assert multiset(c.argv + [w]) == multiset(c.argv) + multiset{w};
    }
  }

  lemma {:induction false} RedirsWords(c: Cmd, ts: seq<Token>)
    requires Redirs(c, ts).Some?
    ensures Spans(Redirs(c, ts).value) == Spans(c) + WordsOf(ts)
    decreases |ts|
  {
    if ts != [] {
      RedirsWords(MakeRedir(c, ts[0], ts[1]), ts[2..]);
      assert ts[1..][1..] == ts[2..];
      assert WordsOf(ts[1..]) == multiset{(ts[1].q, ts[1].eq)} + WordsOf(ts[2..]);
    }
  }

  lemma {:induction false} PlainWords(c: Cmd, ts: seq<Token>)
    requires Innermost(c) && Plain(c, ts).Some?
    ensures Spans(Plain(c, ts).value) == Spans(c) + WordsOf(ts)
    decreases |ts|
  {
    if ts != [] {
      if ts[0].Word? {
        AddArgWords(c, (ts[0].q, ts[0].eq));
        PlainWords(AddArg(c, (ts[0].q, ts[0].eq)), ts[1..]);
      } else {
        PlainWords(MakeRedir(c, ts[0], ts[1]), ts[2..]);
        assert ts[1..][1..] == ts[2..];
        assert WordsOf(ts[1..]) == multiset{(ts[1].q, ts[1].eq)} + WordsOf(ts[2..]);
      }
    }
  }

  lemma WordsOfSplit(ts: seq<Token>, i: nat)
    requires i < |ts| && ts[i].Sym?
    ensures WordsOf(ts) == WordsOf(ts[..i]) + WordsOf(ts[i + 1..])
  {
    assert ts == ts[..i] + ([ts[i]] + ts[i + 1..]);
    WordsOfJoin(ts[..i], [ts[i]] + ts[i + 1..]);
    assert ([ts[i]] + ts[i + 1..])[1..] == ts[i + 1..];
  }

  /** A tree holds exactly the words of the tokens it stands for. */
  lemma {:induction false} LineWords(c: Cmd, ts: seq<Token>)
    requires Line(c, ts)
    ensures Spans(c) == WordsOf(ts)
    decreases |ts|, 4
  {
    if Jobs(c, ts) {
      JobsWords(c, ts);
    } else {
      var i :| Listed(c, ts, i);
      JobsWords(c.left, ts[..i]);
      LineWords(c.right, ts[i + 1..]);
      WordsOfSplit(ts, i);
    }
  }

  lemma {:induction false} JobsWords(c: Cmd, ts: seq<Token>)
    requires Jobs(c, ts)
    ensures Spans(c) == WordsOf(ts)
    decreases |ts|, 3
  {
    if Pipes(c, ts) {
      PipesWords(c, ts);
    } else {
      JobsWords(c.cmd, ts[..|ts| - 1]);
      WordsOfSplit(ts, |ts| - 1);
      assert ts[|ts|..] == [];
    }
  }

  lemma {:induction false} PipesWords(c: Cmd, ts: seq<Token>)
    requires Pipes(c, ts)
    ensures Spans(c) == WordsOf(ts)
    decreases |ts|, 2
  {
    if Simple(c, ts) {
      SimpleWords(c, ts);
    } else {
      var i :| Piped(c, ts, i);
      SimpleWords(c.left, ts[..i]);
      PipesWords(c.right, ts[i + 1..]);
      WordsOfSplit(ts, i);
    }
  }

  lemma {:induction false} SimpleWords(c: Cmd, ts: seq<Token>)
    requires Simple(c, ts)
    ensures Spans(c) == WordsOf(ts)
    decreases |ts|, 1
  {
    if Plain(Exec([]), ts) == Some(c) {
      PlainWords(Exec([]), ts);
    } else {
      var b, j :| Block(c, ts, b, j);
      LineWords(b, ts[1..j]);
      RedirsWords(b, ts[j + 1..]);
      WordsOfSplit(ts, j);
      assert ts[..j][1..] == ts[1..j];
      assert WordsOf(ts[..j]) == WordsOf(ts[1..j]);
    }
  }

  // Putting parts together

  lemma {:induction false} RedirsMore(c: Cmd, a: seq<Token>, b: seq<Token>)
    requires Redirs(c, a).Some?
    ensures Redirs(c, a + b) == Redirs(Redirs(c, a).value, b)
    decreases |a|
  {
    if a == [] {
      assert a + b == b;
    } else {
      assert (a + b)[2..] == a[2..] + b;
      RedirsMore(MakeRedir(c, a[0], a[1]), a[2..], b);
    }
  }

  lemma {:induction false} PlainMore(c: Cmd, a: seq<Token>, b: seq<Token>)
    requires Plain(c, a).Some?
    ensures Plain(c, a + b) == Plain(Plain(c, a).value, b)
    decreases |a|
  {
    if a == [] {
      assert a + b == b;
    } else if a[0].Word? {
      assert (a + b)[1..] == a[1..] + b;
      PlainMore(AddArg(c, (a[0].q, a[0].eq)), a[1..], b);
    } else {
      assert (a + b)[2..] == a[2..] + b;
      PlainMore(MakeRedir(c, a[0], a[1]), a[2..], b);
    }
  }

  lemma {:induction false} RedirsPlain(c: Cmd, a: seq<Token>)
    requires Redirs(c, a).Some?
    ensures Plain(c, a) == Redirs(c, a)
    decreases |a|
  {
    if a != [] {
      RedirsPlain(MakeRedir(c, a[0], a[1]), a[2..]);
    }
  }
}
