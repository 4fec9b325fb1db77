/** brain_builder/src/Wiring.cpp: topics composed from params by a socket pattern, and split back. */
module Topics {
  import opened Json
  import opened Prelude
  import opened Text

  datatype Token = Lit(text: string) | Hole(name: string)

  // ---------------------------------------------------------------- strings

  /** `std::string::find`. */
  function Find(s: string, sub: string): (at: Option<nat>)
    ensures at.Some? ==> at.value + |sub| <= |s|
  {
    if sub <= s then Some(0)
    else if s == "" then None
    else
      var r := Find(s[1..], sub);
      if r.Some? then Some(r.value + 1) else None
  }

  /** find, then replace. */
  function Replaced(s: string, sub: string, v: string): Option<string> {
    var at := Find(s, sub);
    if at.Some? then Some(s[..at.value] + v + s[at.value + |sub|..]) else None
  }

  function Placeholder(name: string): string {
    "{" + name + "}"
  }

  // ---------------------------------------------------------------- compose

  /** The loop of `compose` from the text `out` on; "" when a composing param is unset. */
  function ComposeFrom(out: string, names: seq<string>, params: Object): string
    decreases names
  {
    if names == [] then out
    else
      var p := names[0];
      var v := Get(params, p);
      if v.None? || ScalarString(v.value) == "" then ""
      else
        var next := Replaced(out, Placeholder(p), ScalarString(v.value));
        if next.None? then "" else ComposeFrom(next.value, names[1..], params)
  }

  method Compose(pattern: string, names: seq<string>, params: Object) returns (topic: string)
    ensures topic == ComposeFrom(pattern, names, params)
  {
    topic := pattern;
    for i := 0 to |names|
      invariant ComposeFrom(topic, names[i..], params) == ComposeFrom(pattern, names, params)
    {
      var ph := Placeholder(names[i]);
      var v := Get(params, names[i]);
      if v.None? || ScalarString(v.value) == "" {
        return "";
      }
      var next := Replaced(topic, ph, ScalarString(v.value));
      if next.None? {
        return "";
      }
      topic := next.value;
    }
  }

  // ---------------------------------------------------------------- the pattern's regular expression

  /** What the next turn of the splitting loop finds. */
  datatype Piece = Text(text: string) | Unclosed | Group(text: string, name: string, rest: string)

  function NextPiece(left: string): (p: Piece)
    ensures p.Group? ==> |p.rest| < |left|
  {
    var (text, tail) := Break(left, '{');
    if tail == "" then Text(left)
    else
      var (name, close) := Break(tail[1..], '}');
      if close == "" then Unclosed else Group(text, name, close[1..])
  }

  /** Literals and groups in order; None for a brace that is never closed. */
  function Tokens(pattern: string): Option<seq<Token>> {
    if pattern == "" then Some([])
    else match NextPiece(pattern)
      case Text(t) => Some([Lit(t)])
      case Unclosed => None
      case Group(t, name, rest) => Join([Lit(t), Hole(name)], Tokens(rest))
  }

  function Join(read: seq<Token>, rest: Option<seq<Token>>): Option<seq<Token>> {
    if rest.None? then None else Some(read + rest.value)
  }

  lemma JoinAssociates(a: seq<Token>, b: seq<Token>, rest: Option<seq<Token>>)
    ensures Join(a, Join(b, rest)) == Join(a + b, rest)
    ensures Join([], rest) == rest
  {
    if rest.Some? {
      assert a + (b + rest.value) == (a + b) + rest.value;
      assert [] + rest.value == rest.value;
    }
  }

  method ReadPattern(pattern: string) returns (tokens: Option<seq<Token>>)
    ensures tokens == Tokens(pattern)
  {
    var left, read := pattern, [];
    JoinAssociates([], [], Tokens(pattern));
    while left != ""
      invariant Tokens(pattern) == Join(read, Tokens(left))
      decreases |left|
    {
      match NextPiece(left)
      case Text(t) =>
        return Some(read + [Lit(t)]);
      case Unclosed =>
        return None;
      case Group(t, name, rest) =>
        JoinAssociates(read, [Lit(t), Hole(name)], Tokens(rest));
        left, read := rest, read + [Lit(t), Hole(name)];
    }
    assert read + [] == read;
    tokens := Some(read);
  }

  function Names(tokens: seq<Token>): seq<string> {
    if tokens == [] then []
    else (if tokens[0].Hole? then [tokens[0].name] else []) + Names(tokens[1..])
  }

  /** The length of the longest prefix `[^.]*` takes. */
  function DotFreeRun(s: string): nat {
    IndexOf(s, '.')
  }

  /** The group `([^.]+)` and the rest: greedy, longest first, then back. */
  function MatchGroup(s: string, n: nat, rest: seq<Token>): Option<seq<string>>
    requires n <= |s|
    decreases rest, 1, n
  {
    if n == 0 then None
    else
      var tail := Match(rest, s[n..]);
      if tail.Some? then Some([s[..n]] + tail.value) else MatchGroup(s, n - 1, rest)
  }

  /** `regex_match`: the groups' texts, in the order a backtracking matcher finds them. */
  function Match(tokens: seq<Token>, s: string): Option<seq<string>>
    decreases tokens, 0, 0
  {
    if tokens == [] then (if s == "" then Some([]) else None)
    else match tokens[0]
      case Lit(t) => if t <= s then Match(tokens[1..], s[|t|..]) else None
      case Hole(_) => MatchGroup(s, DotFreeRun(s), tokens[1..])
  }

  // ---------------------------------------------------------------- what matching means

  predicate FitsGroup(v: string) { v != "" && !Contains(v, '.') }

  predicate BraceFree(s: string) { !Contains(s, '{') && !Contains(s, '}') }

  /** The text of a pattern whose groups read `vs`. */
  function Fill(tokens: seq<Token>, vs: seq<string>): string
    requires |vs| == |Names(tokens)|
  {
    if tokens == [] then ""
    else match tokens[0]
      case Lit(t) => t + Fill(tokens[1..], vs)
      case Hole(_) => vs[0] + Fill(tokens[1..], vs[1..])
  }

  ghost predicate Reads(tokens: seq<Token>, s: string, vs: seq<string>) {
    |vs| == |Names(tokens)| && Fill(tokens, vs) == s && forall v :: v in vs ==> FitsGroup(v)
  }

  // ---------------------------------------------------------------- matching is exact

  /** What the matcher returns, the pattern reads. */
  lemma {:induction false} MatchSound(tokens: seq<Token>, s: string)
    ensures Match(tokens, s).Some? ==> Reads(tokens, s, Match(tokens, s).value)
    decreases tokens, 0, 0
  {
    if tokens != [] {
      match tokens[0]
      case Lit(t) =>
        if t <= s {
          MatchSound(tokens[1..], s[|t|..]);
        }
      case Hole(_) =>
        MatchGroupSound(s, DotFreeRun(s), tokens[1..]);
    }
  }

  lemma {:induction false} MatchGroupSound(s: string, n: nat, rest: seq<Token>)
    requires n <= DotFreeRun(s)
    ensures var r := MatchGroup(s, n, rest);
            r.Some? ==> |r.value| >= 1 && FitsGroup(r.value[0]) && r.value[0] <= s
                        && Reads(rest, s[|r.value[0]|..], r.value[1..])
    decreases rest, 1, n
  {
    IndexOfIs(s, '.');
    if n > 0 {
      MatchSound(rest, s[n..]);
      if Match(rest, s[n..]).None? {
        MatchGroupSound(s, n - 1, rest);
      }
    }
  }

  /** What the pattern reads in any way, the matcher finds some way. */
  lemma {:induction false} MatchComplete(tokens: seq<Token>, s: string, vs: seq<string>)
    requires Reads(tokens, s, vs)
    ensures Match(tokens, s).Some?
    decreases tokens, 0, 0
  {
    if tokens != [] {
      match tokens[0]
      case Lit(t) =>
        assert s[|t|..] == Fill(tokens[1..], vs);
        MatchComplete(tokens[1..], s[|t|..], vs);
      case Hole(_) =>
        assert s[|vs[0]|..] == Fill(tokens[1..], vs[1..]);
        assert FitsGroup(vs[0]);
        assert forall i :: 0 <= i < |vs[0]| ==> s[i] == vs[0][i];
        IndexOfIs(s, '.');
        MatchGroupComplete(s, DotFreeRun(s), tokens[1..], vs);
    }
  }

  lemma {:induction false} MatchGroupComplete(s: string, n: nat, rest: seq<Token>, vs: seq<string>)
    requires vs != [] && 1 <= |vs[0]| <= n <= |s| && Reads(rest, s[|vs[0]|..], vs[1..])
    ensures MatchGroup(s, n, rest).Some?
    decreases rest, 1, n
  {
    if n == |vs[0]| {
      MatchComplete(rest, s[n..], vs[1..]);
    } else if Match(rest, s[n..]).None? {
      MatchGroupComplete(s, n - 1, rest, vs);
    }
  }

  /** Every placeholder is last or followed by a literal that starts with '.'. */
  predicate Separated(tokens: seq<Token>) {
    forall i :: 0 <= i < |tokens| - 1 && tokens[i].Hole? ==>
      tokens[i + 1].Lit? && tokens[i + 1].text != "" && tokens[i + 1].text[0] == '.'
  }

  /** Between dots there is one way to read a topic. */
  lemma {:induction false} ReadingIsUnique(tokens: seq<Token>, s: string, vs: seq<string>, ws: seq<string>)
    requires Separated(tokens) && Reads(tokens, s, vs) && Reads(tokens, s, ws)
    ensures vs == ws
  {
    if tokens != [] {
      match tokens[0]
      case Lit(t) =>
        assert s[|t|..] == Fill(tokens[1..], vs) == Fill(tokens[1..], ws);
        ReadingIsUnique(tokens[1..], s[|t|..], vs, ws);
      case Hole(_) =>
        GroupStopsAtTheDot(tokens, s, vs);
        GroupStopsAtTheDot(tokens, s, ws);
        var n := DotFreeRun(s);
        assert vs[0] == s[..n] == ws[0];
        assert s[n..] == Fill(tokens[1..], vs[1..]) == Fill(tokens[1..], ws[1..]);
        ReadingIsUnique(tokens[1..], s[n..], vs[1..], ws[1..]);
    }
  }

  lemma GroupStopsAtTheDot(tokens: seq<Token>, s: string, vs: seq<string>)
    requires Separated(tokens) && Reads(tokens, s, vs) && tokens != [] && tokens[0].Hole?
    ensures |vs[0]| == DotFreeRun(s)
  {
    IndexOfIs(s, '.');
    assert FitsGroup(vs[0]);
    assert s == vs[0] + Fill(tokens[1..], vs[1..]);
    assert forall i :: 0 <= i < |vs[0]| ==> s[i] == vs[0][i];
    if |tokens| > 1 {
      assert tokens[0].Hole?;
      assert tokens[1..][0] == tokens[1];
      assert s[|vs[0]|] == '.';
    }
  }

  // ---------------------------------------------------------------- composing is filling

  /** The pattern's text with the placeholders in `bound` replaced. */
  function Render(tokens: seq<Token>, bound: map<string, string>): string {
    if tokens == [] then "" else Rendered(tokens[0], bound) + Render(tokens[1..], bound)
  }

  function Rendered(token: Token, bound: map<string, string>): string {
    match token
    case Lit(t) => t
    case Hole(n) => if n in bound then bound[n] else Placeholder(n)
  }

  /** Literals hold no '{' and names no brace. */
  ghost predicate WellFormed(tokens: seq<Token>) {
    forall t :: t in tokens ==> if t.Lit? then !Contains(t.text, '{') else BraceFree(t.name)
  }

  lemma RenderPair(t: string, n: string, ts: seq<Token>)
    ensures Render([Lit(t), Hole(n)] + ts, map[]) == t + (Placeholder(n) + Render(ts, map[]))
  {
    var two := [Lit(t), Hole(n)] + ts;
    assert two[1..] == [Hole(n)] + ts;
    assert two[1..][1..] == ts;
  }

  lemma {:induction false} TokensRenderThePattern(pattern: string)
    requires Tokens(pattern).Some?
    ensures Render(Tokens(pattern).value, map[]) == pattern
  {
    if pattern != "" {
      match NextPiece(pattern)
      case Text(t) =>
        RenderOne(t);
        PieceIsTheText(pattern);
      case Group(t, name, rest) =>
        TokensRenderThePattern(rest);
        RenderPair(t, name, Tokens(rest).value);
        PieceIsTheText(pattern);
    }
  }

  lemma RenderOne(t: string)
    ensures Render([Lit(t)], map[]) == t
  {
    assert [Lit(t)][1..] == [];
    assert t + "" == t;
  }

  lemma PieceIsTheText(left: string)
    ensures match NextPiece(left)
            case Text(t) => t == left
            case Unclosed => true
            case Group(t, name, rest) => left == t + (Placeholder(name) + rest)
  {
    var (text, tail) := Break(left, '{');
    BreakIs(left, '{');
    if tail != "" {
      var (name, close) := Break(tail[1..], '}');
      BreakIs(tail[1..], '}');
      if close != "" {
        Regroup(text, tail, name, close);
      }
    }
  }

  lemma Regroup(text: string, tail: string, name: string, close: string)
    requires tail != "" && tail[0] == '{' && tail[1..] == name + close && close != "" && close[0] == '}'
    ensures text + tail == text + (Placeholder(name) + close[1..])
  {
    assert close == "}" + close[1..];
    assert tail == "{" + (name + close);
    assert tail == Placeholder(name) + close[1..];
  }

  lemma NamesAre(tokens: seq<Token>)
    requires tokens != []
    ensures Names(tokens) == if tokens[0].Hole? then [tokens[0].name] + Names(tokens[1..]) else Names(tokens[1..])
  {
    assert [] + Names(tokens[1..]) == Names(tokens[1..]);
  }

  lemma IndexOfFirst(s: string, c: char, i: nat)
    requires i < |s| && s[i] == c && forall j :: 0 <= j < i ==> s[j] != c
    ensures IndexOf(s, c) == i
  {
    IndexOfIs(s, c);
  }

  lemma PieceOfOne(text: string, name: string)
    requires !Contains(text, '{') && BraceFree(name)
    ensures NextPiece(text + Placeholder(name)) == Group(text, name, "")
  {
    var s, tail := text + Placeholder(name), name + "}";
    assert s[|text|] == '{' && forall j :: 0 <= j < |text| ==> s[j] == text[j];
    IndexOfFirst(s, '{', |text|);
    assert s[..|text|] == text && s[|text|..] == Placeholder(name) && Placeholder(name)[1..] == tail;
    assert tail[|name|] == '}' && forall j :: 0 <= j < |name| ==> tail[j] == name[j];
    IndexOfFirst(tail, '}', |name|);
    assert tail[..|name|] == name && tail[|name|..] == "}" && "}"[1..] == "";
  }

  /** The tokens of text followed by one placeholder. */
  lemma TokensOfOne(text: string, name: string)
    requires !Contains(text, '{') && BraceFree(name)
    ensures Tokens(text + Placeholder(name)) == Some([Lit(text), Hole(name)])
    ensures Names([Lit(text), Hole(name)]) == [name]
  {
    PieceOfOne(text, name);
    var two: seq<Token> := [Lit(text), Hole(name)];
    assert Tokens("") == Some([]) && two + [] == two;
    NamesAre(two);
    assert two[1..] == [Hole(name)];
    NamesAre([Hole(name)]);
    assert [Hole(name)][1..] == [] && Names([]) == [] && [name] + [] == [name];
  }

  /** A stretch without '{' cannot hold the start of a placeholder. */
  lemma {:induction false} FindSkips(t: string, r: string, sub: string)
    requires !Contains(t, '{') && sub != "" && sub[0] == '{'
    ensures Find(t + r, sub) == if Find(r, sub).Some? then Some(|t| + Find(r, sub).value) else None
  {
    if t == "" {
      assert t + r == r;
    } else {
      assert (t + r)[0] == t[0] != '{';
      assert (t + r)[1..] == t[1..] + r;
      FindSkips(t[1..], r, sub);
    }
  }

  lemma ReplacedSkips(t: string, r: string, sub: string, v: string)
    requires !Contains(t, '{') && sub != "" && sub[0] == '{' && Replaced(r, sub, v).Some?
    ensures Replaced(t + r, sub, v) == Some(t + Replaced(r, sub, v).value)
  {
    FindSkips(t, r, sub);
    ReplaceAt(t, r, Find(r, sub).value, |sub|, v);
    assert Find(t + r, sub) == Some(|t| + Find(r, sub).value);
  }

  lemma ReplaceAt(t: string, r: string, at: nat, n: nat, v: string)
    requires at + n <= |r|
    ensures (t + r)[..|t| + at] + v + (t + r)[|t| + at + n..] == t + (r[..at] + v + r[at + n..])
  {
    assert (t + r)[..|t| + at] == t + r[..at];
    assert (t + r)[|t| + at + n..] == r[at + n..];
  }

  lemma OtherIsNotAPrefix(m: string, n: string, r: string)
    requires BraceFree(m) && BraceFree(n) && m != n
    ensures !(Placeholder(n) <= Placeholder(m) + r)
  {
    var s, sub := Placeholder(m) + r, Placeholder(n);
    assert sub[|n| + 1] == '}' && s[|m| + 1] == '}';
    assert forall i :: 0 <= i < |n| ==> sub[i + 1] == n[i];
    assert forall i :: 0 <= i < |m| ==> s[i + 1] == m[i];
    var i := if |n| < |m| then |n| else |m|;
    if |n| == |m| {
      i :| 0 <= i < |n| && n[i] != m[i];
    }
    assert s[i + 1] != sub[i + 1];
  }

  /** Another placeholder is passed over whole. */
  lemma ReplacedSkipsOther(m: string, n: string, r: string, v: string)
    requires BraceFree(m) && BraceFree(n) && m != n && Replaced(r, Placeholder(n), v).Some?
    ensures Replaced(Placeholder(m) + r, Placeholder(n), v)
         == Some(Placeholder(m) + Replaced(r, Placeholder(n), v).value)
  {
    var sub, tail := Placeholder(n), m + "}";
    OtherIsNotAPrefix(m, n, r);
    ReplacedSkips(tail, r, sub, v);
    assert forall x: string :: Placeholder(m) + x == ['{'] + (tail + x);
    ReplacedSkipsChar('{', tail + r, sub, v);
  }

  lemma ReplacedSkipsChar(c: char, s: string, sub: string, v: string)
    requires !(sub <= [c] + s) && Replaced(s, sub, v).Some?
    ensures Replaced([c] + s, sub, v) == Some([c] + Replaced(s, sub, v).value)
  {
    assert ([c] + s)[1..] == s;
    ReplaceAt([c], s, Find(s, sub).value, |sub|, v);
  }

  lemma ReplacedHere(sub: string, r: string, v: string)
    ensures Replaced(sub + r, sub, v) == Some(v + r)
  {
    assert (sub + r)[0 + |sub|..] == r;
    assert (sub + r)[..0] + v == v;
  }

  lemma DistinctTail(s: seq<string>, head: string, tail: seq<string>)
    requires s == [head] + tail && Distinct(s)
    ensures Distinct(tail) && head !in tail
  {
    assert s[0] == head && forall i :: 0 <= i < |tail| ==> tail[i] == s[i + 1];
  }

  lemma NamesAfter(tokens: seq<Token>)
    requires tokens != []
    ensures Names(tokens) == if tokens[0].Hole? then [tokens[0].name] + Names(tokens[1..]) else Names(tokens[1..])
    ensures Distinct(Names(tokens)) ==> Distinct(Names(tokens[1..]))
    ensures Distinct(Names(tokens)) && tokens[0].Hole? ==> tokens[0].name !in Names(tokens[1..])
  {
    NamesAre(tokens);
    if tokens[0].Hole? && Distinct(Names(tokens)) {
      DistinctTail(Names(tokens), tokens[0].name, Names(tokens[1..]));
    }
  }

  lemma {:induction false} RenderIgnores(tokens: seq<Token>, bound: map<string, string>, n: string, v: string)
    requires n !in Names(tokens)
    ensures Render(tokens, bound[n := v]) == Render(tokens, bound)
  {
    if tokens != [] {
      RenderIgnores(tokens[1..], bound, n, v);
    }
  }

  /** Find-and-replace hits exactly the placeholder meant. */
  lemma {:induction false} ReplacedRenders(tokens: seq<Token>, bound: map<string, string>, n: string, v: string)
    requires WellFormed(tokens) && Distinct(Names(tokens)) && BraceFree(n)
    requires n in Names(tokens) && n !in bound
    requires forall k :: k in bound ==> !Contains(bound[k], '{')
    ensures Replaced(Render(tokens, bound), Placeholder(n), v) == Some(Render(tokens, bound[n := v]))
  {
    var rest, sub := Render(tokens[1..], bound), Placeholder(n);
    assert tokens[0] in tokens;
    NamesAfter(tokens);
    if tokens[0] == Hole(n) {
      RenderIgnores(tokens[1..], bound, n, v);
      ReplacedHere(sub, rest, v);
    } else {
      ReplacedRenders(tokens[1..], bound, n, v);
      match tokens[0]
      case Lit(t) => ReplacedSkips(t, rest, sub, v);
      case Hole(m) =>
        if m in bound {
          ReplacedSkips(bound[m], rest, sub, v);
        } else {
          ReplacedSkipsOther(m, n, rest, v);
        }
    }
  }

  // ---------------------------------------------------------------- the two round trips

  /** A socket whose params are exactly its pattern's placeholders, each once, in any order. */
  ghost predicate Usable(pattern: string, names: seq<string>) {
    && Tokens(pattern).Some?
    && WellFormed(Tokens(pattern).value)
    && Distinct(Names(Tokens(pattern).value))
    && Distinct(names)
    && forall n :: n in names <==> n in Names(Tokens(pattern).value)
  }

  function ValueOf(params: Object, n: string): string {
    var v := Get(params, n);
    if v.Some? then ScalarString(v.value) else ""
  }

  function ValuesOf(params: Object, names: seq<string>): seq<string> {
    seq(|names|, i requires 0 <= i < |names| => ValueOf(params, names[i]))
  }

  lemma {:induction false} NamesAreBraceFree(tokens: seq<Token>, n: string)
    requires WellFormed(tokens) && n in Names(tokens)
    ensures BraceFree(n)
  {
    assert tokens[0] in tokens;
    if tokens[0] != Hole(n) {
      NamesAreBraceFree(tokens[1..], n);
    }
  }

  lemma {:induction false} ComposeRenders(tokens: seq<Token>, bound: map<string, string>, names: seq<string>,
                                          params: Object)
    requires WellFormed(tokens) && Distinct(Names(tokens)) && Distinct(names)
    requires forall n :: n in names ==> n in Names(tokens) && n !in bound
    requires forall n :: n in names ==> ValueOf(params, n) != "" && !Contains(ValueOf(params, n), '{')
    requires forall k :: k in bound ==> !Contains(bound[k], '{')
    decreases names
    ensures ComposeFrom(Render(tokens, bound), names, params)
         == Render(tokens, bound + map n | n in names :: ValueOf(params, n))
  {
    if names == [] {
      assert bound + (map n | n in names :: ValueOf(params, n)) == bound;
    } else {
      var p := names[0];
      var v := ValueOf(params, p);
      NamesAreBraceFree(tokens, p);
      ReplacedRenders(tokens, bound, p, v);
      assert forall i :: 0 <= i < |names[1..]| ==> names[1..][i] == names[i + 1];
      ComposeRenders(tokens, bound[p := v], names[1..], params);
      BindingMoves(bound, names, params);
    }
  }

  lemma BindingMoves(bound: map<string, string>, names: seq<string>, params: Object)
    requires names != []
    ensures bound[names[0] := ValueOf(params, names[0])] + (map n | n in names[1..] :: ValueOf(params, n))
         == bound + map n | n in names :: ValueOf(params, n)
  {
    assert forall n :: n in names <==> n == names[0] || n in names[1..];
  }

  lemma {:induction false} RenderAllIsFill(tokens: seq<Token>, bound: map<string, string>, vs: seq<string>)
    requires |vs| == |Names(tokens)|
    requires forall i :: 0 <= i < |vs| ==> Names(tokens)[i] in bound && bound[Names(tokens)[i]] == vs[i]
    ensures Render(tokens, bound) == Fill(tokens, vs)
  {
    if tokens != [] {
      NamesAfter(tokens);
      if tokens[0].Hole? {
        assert Names(tokens)[0] == tokens[0].name;
        assert forall i :: 0 <= i < |vs| - 1 ==> Names(tokens[1..])[i] == Names(tokens)[i + 1];
        RenderAllIsFill(tokens[1..], bound, vs[1..]);
      } else {
        RenderAllIsFill(tokens[1..], bound, vs);
      }
    }
  }

  lemma ComposeIsFill(pattern: string, names: seq<string>, params: Object)
    requires Usable(pattern, names)
    requires forall n :: n in names ==> ValueOf(params, n) != "" && !Contains(ValueOf(params, n), '{')
    ensures var tokens := Tokens(pattern).value;
            ComposeFrom(pattern, names, params) == Fill(tokens, ValuesOf(params, Names(tokens)))
  {
    var tokens := Tokens(pattern).value;
    var bound := map n | n in names :: ValueOf(params, n);
    TokensRenderThePattern(pattern);
    ComposeRenders(tokens, map[], names, params);
    assert map[] + bound == bound;
    RenderAllIsFill(tokens, bound, ValuesOf(params, Names(tokens)));
  }

  /** Splitting a composed topic gives back the values. */
  lemma SplitOfCompose(pattern: string, names: seq<string>, params: Object)
    requires Usable(pattern, names) && Separated(Tokens(pattern).value)
    requires forall n :: n in names ==> FitsGroup(ValueOf(params, n)) && BraceFree(ValueOf(params, n))
    ensures var tokens := Tokens(pattern).value;
            Match(tokens, ComposeFrom(pattern, names, params)) == Some(ValuesOf(params, Names(tokens)))
  {
    var tokens := Tokens(pattern).value;
    var vs, topic := ValuesOf(params, Names(tokens)), ComposeFrom(pattern, names, params);
    ComposeIsFill(pattern, names, params);
    forall v | v in vs ensures FitsGroup(v) {
      var i :| 0 <= i < |vs| && vs[i] == v;
      assert Names(tokens)[i] in names;
    }
    MatchComplete(tokens, topic, vs);
    MatchSound(tokens, topic);
    ReadingIsUnique(tokens, topic, vs, Match(tokens, topic).value);
  }

  /** The params after each group's text is assigned to its placeholder, in order. */
  function Assigned(params: Object, names: seq<string>, vs: seq<string>): Object
    requires |names| == |vs|
  {
    if names == [] then params
    else
      var n := |names| - 1;
      Put(Assigned(params, names[..n], vs[..n]), names[n], Str(vs[n]))
  }

  lemma {:induction false} GetAssigned(params: Object, names: seq<string>, vs: seq<string>, i: nat)
    requires |names| == |vs| && Distinct(names) && i < |names|
    ensures Get(Assigned(params, names, vs), names[i]) == Some(Str(vs[i]))
  {
    var n := |names| - 1;
    GetPut(Assigned(params, names[..n], vs[..n]), names[n], Str(vs[n]), names[i]);
    if i < n {
      GetAssigned(params, names[..n], vs[..n], i);
    }
  }

  lemma {:induction false} FillHolds(tokens: seq<Token>, vs: seq<string>, v: string, c: char)
    requires |vs| == |Names(tokens)| && v in vs && Contains(v, c)
    ensures Contains(Fill(tokens, vs), c)
  {
    var s := Fill(tokens, vs);
    match tokens[0]
    case Lit(t) =>
      FillHolds(tokens[1..], vs, v, c);
      var i :| 0 <= i < |Fill(tokens[1..], vs)| && Fill(tokens[1..], vs)[i] == c;
      assert s[|t| + i] == c;
    case Hole(_) =>
      if v == vs[0] {
        var i :| 0 <= i < |v| && v[i] == c;
        assert s[i] == c;
      } else {
        FillHolds(tokens[1..], vs[1..], v, c);
        var i :| 0 <= i < |Fill(tokens[1..], vs[1..])| && Fill(tokens[1..], vs[1..])[i] == c;
        assert s[|vs[0]| + i] == c;
      }
  }

  lemma AssignedValues(params: Object, names: seq<string>, vs: seq<string>)
    requires |names| == |vs| && Distinct(names)
    ensures ValuesOf(Assigned(params, names, vs), names) == vs
  {
    forall i | 0 <= i < |vs| ensures ValueOf(Assigned(params, names, vs), names[i]) == vs[i] {
      GetAssigned(params, names, vs, i);
    }
  }

  /** The groups' texts are nonempty, and as brace-free as the topic. */
  lemma GroupsOf(tokens: seq<Token>, topic: string, vs: seq<string>, i: nat)
    requires Reads(tokens, topic, vs) && !Contains(topic, '{') && i < |vs|
    ensures vs[i] != "" && !Contains(vs[i], '{')
  {
    assert vs[i] in vs;
    if Contains(vs[i], '{') {
      FillHolds(tokens, vs, vs[i], '{');
    }
  }

  // ---------------------------------------------------------------- params that are not the placeholders

  /** Every placeholder once and without braces, every param once and without braces; they need not be the same. */
  ghost predicate Plain(pattern: string, names: seq<string>) {
    && (Tokens(pattern).Some? ==> WellFormed(Tokens(pattern).value) && Distinct(Names(Tokens(pattern).value)))
    && Distinct(names)
    && forall n :: n in names ==> BraceFree(n)
  }

  ghost predicate SameNames(tokens: seq<Token>, names: seq<string>) {
    forall n :: n in names <==> n in Names(tokens)
  }

  /** A placeholder that the pattern lacks, or that is already replaced, is not found. */
  lemma {:induction false} NotFound(tokens: seq<Token>, bound: map<string, string>, n: string)
    requires WellFormed(tokens) && BraceFree(n) && (n !in Names(tokens) || n in bound)
    requires forall k :: k in bound ==> !Contains(bound[k], '{')
    ensures Find(Render(tokens, bound), Placeholder(n)).None?
  {
    if tokens != [] {
      var rest, sub := Render(tokens[1..], bound), Placeholder(n);
      assert tokens[0] in tokens;
      NamesAfter(tokens);
      NotFound(tokens[1..], bound, n);
      match tokens[0]
      case Lit(t) => FindSkips(t, rest, sub);
      case Hole(m) =>
        if m in bound {
          FindSkips(bound[m], rest, sub);
        } else {
          OtherIsNotAPrefix(m, n, rest);
          FindSkips(m + "}", rest, sub);
          assert (Placeholder(m) + rest)[1..] == (m + "}") + rest;
        }
    }
  }

  lemma HeldFurtherOn(head: string, rest: string, c: char)
    requires Contains(rest, c)
    ensures Contains(head + rest, c)
  {
    var i :| 0 <= i < |rest| && rest[i] == c;
    assert (head + rest)[|head| + i] == c;
  }

  lemma {:induction false} HoleStays(tokens: seq<Token>, bound: map<string, string>, n: string)
    requires n in Names(tokens) && n !in bound
    ensures Contains(Render(tokens, bound), '{')
  {
    NamesAre(tokens);
    var head, rest := Rendered(tokens[0], bound), Render(tokens[1..], bound);
    if tokens[0] == Hole(n) {
      assert (head + rest)[0] == '{';
    } else {
      HoleStays(tokens[1..], bound, n);
      HeldFurtherOn(head, rest, '{');
    }
  }

  /** A param without a placeholder leaves no topic; a placeholder without a param leaves its brace. */
  lemma {:induction false} ComposeMisses(tokens: seq<Token>, bound: map<string, string>, names: seq<string>,
                                         params: Object)
    requires WellFormed(tokens) && Distinct(Names(tokens)) && Distinct(names)
    requires forall n :: n in names ==> BraceFree(n) && n !in bound
    requires forall n :: n in names && n in Names(tokens) ==> !Contains(ValueOf(params, n), '{')
    requires forall k :: k in bound ==> !Contains(bound[k], '{')
    ensures var topic := ComposeFrom(Render(tokens, bound), names, params);
            && ((exists n :: n in names && n !in Names(tokens)) ==> topic == "")
            && ((exists n :: n in Names(tokens) && n !in names && n !in bound) ==> topic == "" || Contains(topic, '{'))
    decreases names
  {
    if names == [] {
      if n :| n in Names(tokens) && n !in names && n !in bound {
        HoleStays(tokens, bound, n);
      }
    } else {
      var p, v := names[0], ValueOf(params, names[0]);
      assert forall i :: 0 <= i < |names[1..]| ==> names[1..][i] == names[i + 1];
      assert forall n :: n in names <==> n == p || n in names[1..];
      if p !in Names(tokens) {
        NotFound(tokens, bound, p);
      } else {
        ReplacedRenders(tokens, bound, p, v);
        ComposeMisses(tokens, bound[p := v], names[1..], params);
      }
    }
  }

  /** Params that hold the groups of a split compose to the topic if and only if they are exactly the placeholders. */
  lemma ComposeOfSplitIff(pattern: string, names: seq<string>, params: Object, topic: string)
    requires Tokens(pattern).Some? && Plain(pattern, names) && BraceFree(topic)
    requires Match(Tokens(pattern).value, topic) == Some(ValuesOf(params, Names(Tokens(pattern).value)))
    ensures SameNames(Tokens(pattern).value, names) ==> ComposeFrom(pattern, names, params) == topic
    ensures ComposeFrom(pattern, names, params) == topic != "" ==> SameNames(Tokens(pattern).value, names)
  {
    var tokens := Tokens(pattern).value;
    var ns := Names(tokens);
    var vs := ValuesOf(params, ns);
    MatchSound(tokens, topic);
    forall n | n in ns ensures ValueOf(params, n) != "" && !Contains(ValueOf(params, n), '{') {
      var i :| 0 <= i < |ns| && ns[i] == n;
      GroupsOf(tokens, topic, vs, i);
    }
    if SameNames(tokens, names) {
      ComposeIsFill(pattern, names, params);
    } else {
      TokensRenderThePattern(pattern);
      ComposeMisses(tokens, map[], names, params);
    }
  }

  /** Composing the split of a brace-free topic gives back the topic, whatever the params held. */
  lemma ComposeOfSplit(pattern: string, names: seq<string>, params: Object, topic: string)
    requires Usable(pattern, names) && BraceFree(topic)
    requires Match(Tokens(pattern).value, topic).Some?
    ensures var tokens := Tokens(pattern).value;
            var vs := Match(tokens, topic).value;
            |vs| == |Names(tokens)| && ComposeFrom(pattern, names, Assigned(params, Names(tokens), vs)) == topic
  {
    var tokens := Tokens(pattern).value;
    MatchSound(tokens, topic);
    AssignedValues(params, Names(tokens), Match(tokens, topic).value);
    forall n | n in names ensures BraceFree(n) {
      NamesAreBraceFree(tokens, n);
    }
    ComposeOfSplitIff(pattern, names, Assigned(params, Names(tokens), Match(tokens, topic).value), topic);
  }
}
