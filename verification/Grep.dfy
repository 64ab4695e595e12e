/**
 The pattern matcher of user/grep.c.  Strings are sequences of the characters before the
 terminating NUL.
 */
module Grep {
  /** A pattern is read as a list of items, each one character or a starred character; '.'
      stands for any character. */
  datatype Item = One(c: char) | Star(c: char)

  datatype Pattern = Pattern(items: seq<Item>, atEnd: bool)

  predicate Fits(c: char, x: char) {
    c == '.' || c == x
  }

  /** How a pattern after a possible '^' is read.  A star binds before '$' is looked at, so "$*"
      is a starred dollar sign, and a '$' that is not last is an ordinary character. */
  function Parse(re: string): Pattern {
    if re == "" then Pattern([], false)
    else if |re| >= 2 && re[1] == '*' then var p := Parse(re[2..]); Cons(Star(re[0]), p)
    else if re == "$" then Pattern([], true)
    else var p := Parse(re[1..]); Cons(One(re[0]), p)
  }

  // What a pattern means

  ghost predicate InItem(x: Item, w: string) {
    match x
    case One(c) => |w| == 1 && Fits(c, w[0])
    case Star(c) => forall i | 0 <= i < |w| :: Fits(c, w[i])
  }

  /** The strings made of one string for each item, in order. */
  ghost predicate InLang(items: seq<Item>, w: string)
    decreases |items|, 1
  {
    if items == [] then w == "" else exists u, v :: Cut(items, w, u, v)
  }

  ghost predicate Cut(items: seq<Item>, w: string, u: string, v: string)
    requires items != []
    decreases |items|, 0
  {
    w == u + v && InItem(items[0], u) && InLang(items[1..], v)
  }

  /** Some prefix of the text, all of it if the pattern ends in '$', is in the language. */
  ghost predicate Accepts(p: Pattern, text: string) {
    exists u, v :: Ends(p, text, u, v)
  }

  ghost predicate Ends(p: Pattern, text: string, u: string, v: string) {
    text == u + v && InLang(p.items, u) && (p.atEnd ==> v == "")
  }

  /** Some substring of the text matches, starting at the beginning if the pattern starts with
      '^' and reaching to the end if it ends in '$'. */
  ghost predicate Matches(re: string, text: string) {
    if re != "" && re[0] == '^' then Accepts(Parse(re[1..]), text)
    else exists pre, rest :: text == pre + rest && Accepts(Parse(re), rest)
  }

  // Reading the meaning off the front of the pattern

  lemma AcceptsEmpty(text: string)
    ensures Accepts(Pattern([], false), text)
    ensures Accepts(Pattern([], true), text) <==> text == ""
  {
    assert Ends(Pattern([], false), text, "", text);
    assert text == "" ==> Ends(Pattern([], true), text, "", "");
  }

  function Cons(x: Item, p: Pattern): Pattern {
    Pattern([x] + p.items, p.atEnd)
  }

  /** The text splits into a string for the first item and a text for the rest. */
  lemma AcceptsCons(x: Item, p: Pattern, text: string)
    ensures Accepts(Cons(x, p), text) <==> exists k: nat :: k <= |text| && InItem(x, text[..k]) && Accepts(p, text[k..])
  {
    if Accepts(Cons(x, p), text) {
      ConsSplits(x, p, text);
    }
    if k: nat :| k <= |text| && InItem(x, text[..k]) && Accepts(p, text[k..]) {
      ConsJoins(x, p, text, k);
    }
  }

  lemma ConsSplits(x: Item, p: Pattern, text: string)
    requires Accepts(Cons(x, p), text)
    ensures exists k: nat :: k <= |text| && InItem(x, text[..k]) && Accepts(p, text[k..])
  {
    hide InItem;
    var q := Cons(x, p);
    assert q.items[1..] == p.items;
    var u, v :| Ends(q, text, u, v);
    assert InLang(q.items, u) && q.items != [];
    var a, b :| Cut(q.items, u, a, b);
    assert text[..|a|] == a && text[|a|..] == b + v;
    assert Ends(p, text[|a|..], b, v);
  }

  lemma ConsJoins(x: Item, p: Pattern, text: string, k: nat)
    requires k <= |text| && InItem(x, text[..k]) && Accepts(p, text[k..])
    ensures Accepts(Cons(x, p), text)
  {
    hide InItem;
    var q := Cons(x, p);
    assert q.items[1..] == p.items;
    var u, v :| Ends(p, text[k..], u, v);
    assert Cut(q.items, text[..k] + u, text[..k], u);
    assert text == (text[..k] + u) + v;
    assert Ends(q, text, text[..k] + u, v);
  }

  lemma AcceptsOne(c: char, p: Pattern, text: string)
    ensures Accepts(Cons(One(c), p), text) <==> text != "" && Fits(c, text[0]) && Accepts(p, text[1..])
  {
    hide Accepts;
    AcceptsCons(One(c), p, text);
    if text != "" && Fits(c, text[0]) && Accepts(p, text[1..]) {
      assert InItem(One(c), text[..1]);
    }
  }

  /** The first k characters fit c. */
  ghost predicate Prefix(c: char, text: string, k: nat) {
    k <= |text| && forall i | 0 <= i < k :: Fits(c, text[i])
  }

  lemma AcceptsStar(c: char, p: Pattern, text: string)
    ensures Accepts(Cons(Star(c), p), text) <==> exists k: nat :: Prefix(c, text, k) && Accepts(p, text[k..])
  {
    hide Accepts;
    AcceptsCons(Star(c), p, text);
    forall k: nat | k <= |text|
      ensures Prefix(c, text, k) <==> InItem(Star(c), text[..k])
    {
    }
  }

  // The matcher

  method MatchHere(re: string, text: string) returns (r: bool)
    ensures r <==> Accepts(Parse(re), text)
    decreases |re|, 1
  {
    AcceptsEmpty(text);
    if re == "" {
      return true;
    }
    if |re| >= 2 && re[1] == '*' {
      r := MatchStar(re[0], re[2..], text);
      AcceptsStar(re[0], Parse(re[2..]), text);
      return;
    }
    if re[0] == '$' && |re| == 1 {
      return text == "";
    }
    AcceptsOne(re[0], Parse(re[1..]), text);
    if text != "" && (re[0] == '.' || re[0] == text[0]) {
      r := MatchHere(re[1..], text[1..]);
      return;
    }
    return false;
  }

  method MatchStar(c: char, re: string, text: string) returns (r: bool)
    ensures r <==> exists k: nat :: Prefix(c, text, k) && Accepts(Parse(re), text[k..])
    decreases |re|, 2
  {
    var i := 0;
    while true
      invariant 0 <= i <= |text| && Prefix(c, text, i)
      invariant forall k: nat | k < i :: !Accepts(Parse(re), text[k..])
      decreases |text| - i
    {
      var here := MatchHere(re, text[i..]);
      if here {
        return true;
      }
      if i < |text| && (text[i] == c || c == '.') {
        i := i + 1;
      } else {
        break;
      }
    }
    return false;
  }

  method Match(re: string, text: string) returns (r: bool)
    ensures r <==> Matches(re, text)
  {
    if re != "" && re[0] == '^' {
      r := MatchHere(re[1..], text);
      return;
    }
    var i := 0;
    while true
      invariant 0 <= i <= |text|
      invariant forall k: nat | k < i :: !Accepts(Parse(re), text[k..])
      decreases |text| - i
    {
      var here := MatchHere(re, text[i..]);
      if here {
        assert text == text[..i] + text[i..];
        return true;
      }
      if i == |text| {
        break;
      }
      i := i + 1;
    }
    forall pre, rest | text == pre + rest
      ensures !Accepts(Parse(re), rest)
    {
      assert rest == text[|pre|..];
    }
    return false;
  }

  // Corner cases of the order of the tests

  /** "$*" is a starred dollar sign, "$" alone the end of the text, and "$a" two characters. */
  lemma DollarCases(text: string)
    ensures Matches("$*", text)
    ensures Matches("^$", text) <==> text == ""
    ensures Matches("^$a", text) <==> |text| >= 2 && text[0] == '$' && text[1] == 'a'
  {
    hide Accepts, InItem;
    var nil := Pattern([], false);
    assert "$*"[2..] == "" && "^$"[1..] == "$" && "^$a"[1..] == "$a" && "$a"[1..] == "a" && "a"[1..] == "";
    assert Parse("$*") == Cons(Star('$'), nil) && Parse("$a") == Cons(One('$'), Parse("a")) && Parse("a") == Cons(One('a'), nil);
    AcceptsEmpty(text);
    AcceptsStar('$', nil, text);
    assert text[0..] == text && text == "" + text && Prefix('$', text, 0);
    AcceptsOne('$', Parse("a"), text);
    if text != "" {
      AcceptsOne('a', nil, text[1..]);
      if |text| > 1 {
        AcceptsEmpty(text[1..][1..]);
      }
    }
  }
}
