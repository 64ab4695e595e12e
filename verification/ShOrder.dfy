/**
 Where the words of a command tree stand in the line: arguments, files and parts in the order
 of the text, and every word in the role that the character before it gives it.  None of this
 mentions how the grammar puts trees together.
 */
module ShOrder {
  import opened ShGrammar

  ghost predicate Before(a: multiset<Span>, b: multiset<Span>) {
    forall x, y | x in a && y in b :: x.1 <= y.0
  }

  /** Arguments stand in the order of the text; an outer redirection's file stands behind an inner
      one's, and behind everything in a list or pipe it applies to; the left part of a pipe or
      list stands before the right one. */
  ghost predicate InOrder(c: Cmd) {
    match c
    case Exec(argv) => forall i, j | 0 <= i < j < |argv| :: argv[i].1 <= argv[j].0
    case Redir(sub, file, _, _) =>
      && InOrder(sub) && (sub.Redir? ==> sub.file.1 <= file.0)
      && (!Innermost(sub) ==> Before(Spans(sub), multiset{file}))
    case Pipe(l, r) => InOrder(l) && InOrder(r) && Before(Spans(l), Spans(r))
    case List(l, r) => InOrder(l) && InOrder(r) && Before(Spans(l), Spans(r))
    case Back(sub) => InOrder(sub)
  }

  /** The last character before position i that is no blank. */
  function Prev(text: string, i: nat): Option<char>
    requires i <= |text|
  {
    if i == 0 then None else if Blank(text[i - 1]) then Prev(text, i - 1) else Some(text[i - 1])
  }

  /** A word behind '<' is a file to read from, behind '>' a file to write to, and any other word
      an argument. */
  ghost predicate InRole(text: string, c: Cmd) {
    match c
    case Exec(argv) =>
      forall i | 0 <= i < |argv| :: argv[i].0 <= |text| && Prev(text, argv[i].0) != Some('<') && Prev(text, argv[i].0) != Some('>')
    case Redir(sub, file, mode, fd) =>
      && InRole(text, sub) && file.0 <= |text|
      && ((Prev(text, file.0) == Some('<') && mode == 0 && fd == 0) || (Prev(text, file.0) == Some('>') && mode == 0x201 && fd == 1))
    case Pipe(l, r) => InRole(text, l) && InRole(text, r)
    case List(l, r) => InRole(text, l) && InRole(text, r)
    case Back(sub) => InRole(text, sub)
  }

  // Tokens

  ghost predicate Ascending(ts: seq<Token>) {
    forall i, j | 0 <= i < j < |ts| && ts[i].Word? && ts[j].Word? :: ts[i].eq <= ts[j].q
  }

  /** The word at q, behind the token p if there is one, stands behind the character it should. */
  ghost predicate Marked(text: string, q: nat, p: Option<Token>) {
    q <= |text| &&
    if p == Some(Sym('<')) then Prev(text, q) == Some('<')
    else if p == Some(Sym('>')) || p == Some(Sym('+')) then Prev(text, q) == Some('>')
    else Prev(text, q) != Some('<') && Prev(text, q) != Some('>')
  }

  function TokenBefore(p: Option<Token>, ts: seq<Token>, k: nat): Option<Token>
    requires k < |ts|
  {
    if k == 0 then p else Some(ts[k - 1])
  }

  /** The words of ts, which stand at i or later and behind the token p, are in order and marked. */
  ghost predicate TidyFrom(text: string, i: nat, p: Option<Token>, ts: seq<Token>) {
    && Ascending(ts)
    && forall k: nat | k < |ts| && ts[k].Word? :: i <= ts[k].q && Marked(text, ts[k].q, TokenBefore(p, ts, k))
  }

  ghost predicate Tidy(text: string, ts: seq<Token>) {
    TidyFrom(text, 0, None, ts)
  }

  lemma TidySlice(text: string, ts: seq<Token>, i: nat, j: nat)
    requires Tidy(text, ts) && i <= j <= |ts| && (i > 0 ==> !IsRedir(ts[i - 1]))
    ensures Tidy(text, ts[i..j])
  {
    var s := ts[i..j];
    forall k: nat | k < |s| && s[k].Word?
      ensures Marked(text, s[k].q, TokenBefore(None, s, k))
    {
      assert Marked(text, ts[i + k].q, TokenBefore(None, ts, i + k));
    }
  }

  /** The tokens from i on, behind the token p. */
  lemma {:induction false} LexTidy(text: string, i: nat, p: Option<Token>)
    requires Marked(text, i, p)
    ensures TidyFrom(text, i, p, Lex(text, i))
    decreases |text| - i
  {
    if i < |text| {
      if Blank(text[i]) {
        LexTidy(text, i + 1, p);
      } else {
        var t := Lex(text, i)[0];
        var j := if text[i] == '>' && i + 1 < |text| && text[i + 1] == '>' then i + 2 else if Symbol(text[i]) then i + 1 else WordEnd(text, i);
        assert Lex(text, i) == [t] + Lex(text, j);
        PrevAfter(text, i, j, t);
        LexTidy(text, j, Some(t));
        TidyCons(text, i, p, t, j, Lex(text, j));
      }
    }
  }

  lemma TidyCons(text: string, i: nat, p: Option<Token>, t: Token, j: nat, ts: seq<Token>)
    requires TidyFrom(text, j, Some(t), ts) && i <= j && Marked(text, i, p) && (t.Word? ==> t.q == i && t.eq == j)
    ensures TidyFrom(text, i, p, [t] + ts)
  {
    hide Marked;
    var all := [t] + ts;
    forall k: nat | k < |all| && all[k].Word?
      ensures i <= all[k].q && Marked(text, all[k].q, TokenBefore(p, all, k))
    {
      if k > 0 { assert Marked(text, ts[k - 1].q, TokenBefore(Some(t), ts, k - 1)); }
    }
    forall k, l | 0 <= k < l < |all| && all[k].Word? && all[l].Word?
      ensures all[k].eq <= all[l].q
    {
      assert all[l] == ts[l - 1];
    }
  }

  lemma PrevAfter(text: string, i: nat, j: nat, t: Token)
    requires i < |text| && !Blank(text[i])
    requires j == if text[i] == '>' && i + 1 < |text| && text[i + 1] == '>' then i + 2 else if Symbol(text[i]) then i + 1 else WordEnd(text, i)
    requires t == Lex(text, i)[0]
    ensures i < j <= |text| && Marked(text, j, Some(t)) && (t.Word? ==> t.q == i && t.eq == j)
  {
    assert !Blank(text[j - 1]);
  }

  lemma LineTidy(text: string)
    ensures Tidy(text, Lex(text, 0))
  {
    LexTidy(text, 0, None);
  }

  lemma {:induction false} WordAt(ts: seq<Token>, x: Span) returns (k: nat)
    requires x in WordsOf(ts)
    ensures k < |ts| && ts[k] == Word(x.0, x.1)
  {
    if ts[0] == Word(x.0, x.1) {
      k := 0;
    } else {
      k := WordAt(ts[1..], x);
      k := k + 1;
    }
  }

  /** Every word of c stands before every word of ts. */
  ghost predicate Ahead(c: Cmd, ts: seq<Token>) {
    forall x, k | x in Spans(c) && 0 <= k < |ts| && ts[k].Word? :: x.1 <= ts[k].q
  }

  // Simple commands

  lemma ExecOrder(text: string, argv: seq<Span>, w: Span)
    requires InOrder(Exec(argv)) && InRole(text, Exec(argv)) && Marked(text, w.0, None) && forall x | x in multiset(argv) :: x.1 <= w.0
    ensures InOrder(Exec(argv + [w])) && InRole(text, Exec(argv + [w]))
  {
    hide Prev;
    forall i | 0 <= i < |argv|
      ensures argv[i].1 <= w.0
    {
      assert argv[i] in multiset(argv);
    }
  }

  lemma {:induction false} AddArgOrder(text: string, c: Cmd, w: Span)
    requires Innermost(c) && InOrder(c) && InRole(text, c) && Marked(text, w.0, None) && forall x | x in Spans(c) :: x.1 <= w.0
    ensures InOrder(AddArg(c, w)) && InRole(text, AddArg(c, w)) && Innermost(AddArg(c, w))
  {
    hide Marked, Prev, Before;
    match c
    case Exec(argv) => ExecOrder(text, argv, w);
    case Redir(sub, file, _, _) => AddArgOrder(text, sub, w);
  }

  lemma RedirOrder(text: string, c: Cmd, ts: seq<Token>)
    requires InOrder(c) && InRole(text, c) && |ts| >= 2 && IsRedir(ts[0]) && ts[1].Word? && Tidy(text, ts) && Ahead(c, ts)
    ensures var d := MakeRedir(c, ts[0], ts[1]); InOrder(d) && InRole(text, d) && Ahead(d, ts[2..]) && Tidy(text, ts[2..])
  {
    hide Prev;
    assert Marked(text, ts[1].q, TokenBefore(None, ts, 1));
    TidySlice(text, ts, 2, |ts|);
    assert ts[2..|ts|] == ts[2..];
    var d := MakeRedir(c, ts[0], ts[1]);
    if c.Redir? { assert c.file in Spans(c); }
    forall x, k | x in Spans(d) && 0 <= k < |ts[2..]| && ts[2..][k].Word?
      ensures x.1 <= ts[2..][k].q
    {
      assert ts[2..][k] == ts[k + 2];
    }
  }

  lemma {:induction false} RedirsOrder(text: string, c: Cmd, ts: seq<Token>)
    requires InOrder(c) && InRole(text, c) && Redirs(c, ts).Some? && Tidy(text, ts) && Ahead(c, ts)
    ensures InOrder(Redirs(c, ts).value) && InRole(text, Redirs(c, ts).value)
    decreases |ts|
  {
    hide InOrder, InRole, Tidy, Ahead;
    if ts != [] {
      RedirOrder(text, c, ts);
      RedirsOrder(text, MakeRedir(c, ts[0], ts[1]), ts[2..]);
    }
  }

  lemma ArgOrder(text: string, c: Cmd, ts: seq<Token>)
    requires Innermost(c) && InOrder(c) && InRole(text, c) && ts != [] && ts[0].Word? && Tidy(text, ts) && Ahead(c, ts)
    ensures var d := AddArg(c, (ts[0].q, ts[0].eq));
      Innermost(d) && InOrder(d) && InRole(text, d) && Ahead(d, ts[1..]) && Tidy(text, ts[1..])
  {
    hide InOrder, InRole, Prev, AddArg, Innermost, Spans;
    var w := (ts[0].q, ts[0].eq);
    assert Marked(text, ts[0].q, TokenBefore(None, ts, 0));
    AddArgOrder(text, c, w);
    AddArgWords(c, w);
    TidySlice(text, ts, 1, |ts|);
    assert ts[1..|ts|] == ts[1..];
    forall x, k | x in Spans(AddArg(c, w)) && 0 <= k < |ts[1..]| && ts[1..][k].Word?
      ensures x.1 <= ts[1..][k].q
    {
      assert ts[1..][k] == ts[k + 1];
    }
  }

  lemma {:induction false} PlainOrder(text: string, c: Cmd, ts: seq<Token>)
    requires Innermost(c) && InOrder(c) && InRole(text, c) && Plain(c, ts).Some? && Tidy(text, ts) && Ahead(c, ts)
    ensures InOrder(Plain(c, ts).value) && InRole(text, Plain(c, ts).value)
    decreases |ts|
  {
    hide InOrder, InRole, Tidy, Ahead;
    if ts != [] {
      if ts[0].Word? {
        ArgOrder(text, c, ts);
        PlainOrder(text, AddArg(c, (ts[0].q, ts[0].eq)), ts[1..]);
      } else {
        RedirOrder(text, c, ts);
        PlainOrder(text, MakeRedir(c, ts[0], ts[1]), ts[2..]);
      }
    }
  }

  // Whole lines

  /** What stands left of token i stands before what stands right of it. */
  lemma Apart(text: string, ts: seq<Token>, a: multiset<Span>, b: multiset<Span>, i: nat)
    requires Tidy(text, ts) && i < |ts| && a == WordsOf(ts[..i]) && b == WordsOf(ts[i + 1..])
    ensures Before(a, b)
  {
    forall x, y | x in a && y in b
      ensures x.1 <= y.0
    {
      var k := WordAt(ts[..i], x);
      var l := WordAt(ts[i + 1..], y);
      assert ts[k] == ts[..i][k] && ts[i + 1 + l] == ts[i + 1..][l];
    }
  }

  lemma AheadOf(text: string, ts: seq<Token>, c: Cmd, j: nat)
    requires Tidy(text, ts) && 0 < j < |ts| && Spans(c) == WordsOf(ts[1..j])
    ensures Ahead(c, ts[j + 1..])
  {
    var tail := ts[j + 1..];
    forall x, k | x in Spans(c) && 0 <= k < |tail| && tail[k].Word?
      ensures x.1 <= tail[k].q
    {
      var l := WordAt(ts[1..j], x);
      assert ts[1..j][l] == ts[l + 1] && tail[k] == ts[j + 1 + k];
    }
  }

  lemma Sides(text: string, ts: seq<Token>, i: nat)
    requires Tidy(text, ts) && i < |ts| && !IsRedir(ts[i])
    ensures Tidy(text, ts[..i]) && Tidy(text, ts[i + 1..])
  {
    TidySlice(text, ts, 0, i);
    TidySlice(text, ts, i + 1, |ts|);
    assert ts[0..i] == ts[..i] && ts[i + 1..|ts|] == ts[i + 1..];
  }

  /** Of a line's tree, arguments, files and parts stand in the order of the text, and every word
      is in its role. */
  lemma {:induction false} LineOrder(text: string, c: Cmd, ts: seq<Token>)
    requires Line(c, ts) && Tidy(text, ts)
    ensures InOrder(c) && InRole(text, c)
    decreases |ts|, 4
  {
    hide Tidy, Before;
    if Jobs(c, ts) {
      JobsOrder(text, c, ts);
    } else {
      var i :| Listed(c, ts, i);
      Sides(text, ts, i);
      JobsOrder(text, c.left, ts[..i]);
      LineOrder(text, c.right, ts[i + 1..]);
      JobsWords(c.left, ts[..i]);
      LineWords(c.right, ts[i + 1..]);
      Apart(text, ts, Spans(c.left), Spans(c.right), i);
    }
  }

  lemma {:induction false} JobsOrder(text: string, c: Cmd, ts: seq<Token>)
    requires Jobs(c, ts) && Tidy(text, ts)
    ensures InOrder(c) && InRole(text, c)
    decreases |ts|, 3
  {
    hide Tidy, Before;
    if Pipes(c, ts) {
      PipesOrder(text, c, ts);
    } else {
      Sides(text, ts, |ts| - 1);
      JobsOrder(text, c.cmd, ts[..|ts| - 1]);
    }
  }

  lemma {:induction false} PipesOrder(text: string, c: Cmd, ts: seq<Token>)
    requires Pipes(c, ts) && Tidy(text, ts)
    ensures InOrder(c) && InRole(text, c)
    decreases |ts|, 2
  {
    hide Tidy, Before;
    if Simple(c, ts) {
      SimpleOrder(text, c, ts);
    } else {
      var i :| Piped(c, ts, i);
      Sides(text, ts, i);
      SimpleOrder(text, c.left, ts[..i]);
      PipesOrder(text, c.right, ts[i + 1..]);
      SimpleWords(c.left, ts[..i]);
      PipesWords(c.right, ts[i + 1..]);
      Apart(text, ts, Spans(c.left), Spans(c.right), i);
    }
  }

  lemma {:induction false} SimpleOrder(text: string, c: Cmd, ts: seq<Token>)
    requires Simple(c, ts) && Tidy(text, ts)
    ensures InOrder(c) && InRole(text, c)
    decreases |ts|, 1
  {
    if Plain(Exec([]), ts) == Some(c) {
      PlainOrder(text, Exec([]), ts);
    } else {
      hide Tidy, Before, Ahead;
      var b, j :| Block(c, ts, b, j);
      TidySlice(text, ts, 1, j);
      Sides(text, ts, j);
      LineOrder(text, b, ts[1..j]);
      LineWords(b, ts[1..j]);
      AheadOf(text, ts, b, j);
      RedirsOrder(text, b, ts[j + 1..]);
    }
  }
}
