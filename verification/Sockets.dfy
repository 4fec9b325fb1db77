/** brain_builder/src/Wiring.cpp, a module's sockets: which are unset, and the topics the others give, with the
    defaults filled in. */
module Sockets {
  import opened Json
  import opened Prelude
  import opened Topics

  datatype Socket = Socket(pattern: string, params: seq<string>, list: bool, required: bool, output: bool,
                           payload: string, feedback: bool, prefix: bool)

  /** A declared port, or one of a type's fixed topics. */
  datatype Port = Port(topic: string, output: bool, payload: string, feedback: bool, required: bool)

  /** `defaults` has an entry for every parameter of the schema, Null where there is no default. */
  datatype TypeInfo =
    TypeInfo(category: string, sockets: seq<Socket>, fixedPorts: seq<Port>, defaults: map<string, Json>)

  predicate Blank(v: Json) {
    v == Null || v == Str("") || v == Arr([])
  }

  /** The document's value, else the schema's default. */
  function Effective(params: Object, ti: TypeInfo, p: string): Json {
    var v := Get(params, p);
    if v.Some? then v.value else if p in ti.defaults then ti.defaults[p] else Null
  }

  predicate Unset(s: Socket, params: Object, ti: TypeInfo) {
    exists p :: p in s.params && Blank(Effective(params, ti, p))
  }

  method IsUnset(s: Socket, params: Object, ti: TypeInfo) returns (u: bool)
    ensures u == Unset(s, params, ti)
  {
    for i := 0 to |s.params|
      invariant forall j :: 0 <= j < i ==> !Blank(Effective(params, ti, s.params[j]))
    {
      var p := s.params[i];
      var v := Get(params, p);
      var value := if v.Some? then v.value else if p in ti.defaults then ti.defaults[p] else Null;
      if value == Null || value == Str("") || value == Arr([]) {
        assert p in s.params && Blank(Effective(params, ti, p));
        return true;
      }
    }
    u := false;
  }

  // ---------------------------------------------------------------- topics

  /** The params with the non-null defaults of `names` filled in, last name last. */
  function WithDefaults(params: Object, ti: TypeInfo, names: seq<string>): Object {
    if names == [] then params
    else
      var p, before := names[|names| - 1], WithDefaults(params, ti, names[..|names| - 1]);
      if Get(before, p).None? && p in ti.defaults && ti.defaults[p] != Null then Put(before, p, ti.defaults[p])
      else before
  }

  /** Defaults are for absent params only. */
  lemma {:induction false} NothingToFill(params: Object, ti: TypeInfo, names: seq<string>)
    requires forall p :: p in names ==> Get(params, p).Some?
    ensures WithDefaults(params, ti, names) == params
  {
    if names != [] {
      assert names[|names| - 1] in names;
      NothingToFill(params, ti, names[..|names| - 1]);
    }
  }

  /** One entry's topic: the pattern with the placeholder replaced, or the pattern itself without one. */
  function EntryTopic(pattern: string, ph: string, e: string): string {
    var t := Replaced(pattern, ph, e);
    if t.Some? then t.value else pattern
  }

  function EntryTopics(pattern: string, ph: string, items: seq<Json>): seq<string> {
    if items == [] then []
    else
      var before, last := EntryTopics(pattern, ph, items[..|items| - 1]), items[|items| - 1];
      if last.Str? && last.s != "" then before + [EntryTopic(pattern, ph, last.s)] else before
  }

  predicate IsListSocket(s: Socket) {
    s.list && |s.params| == 1
  }

  function ListTopics(s: Socket, eff: Object): seq<string>
    requires IsListSocket(s)
  {
    var v := Get(eff, s.params[0]);
    if v.Some? && v.value.Arr? then EntryTopics(s.pattern, Placeholder(s.params[0]), v.value.items) else []
  }

  /** The socket's current topics. */
  function SocketTopics(s: Socket, params: Object, ti: TypeInfo): seq<string> {
    var eff := WithDefaults(params, ti, s.params);
    if IsListSocket(s) then ListTopics(s, eff)
    else
      var t := ComposeFrom(s.pattern, s.params, eff);
      if t == "" then [] else [t]
  }

  method TopicsOf(s: Socket, params: Object, ti: TypeInfo) returns (topics: seq<string>)
    ensures topics == SocketTopics(s, params, ti)
  {
    var eff := params;
    for i := 0 to |s.params|
      invariant eff == WithDefaults(params, ti, s.params[..i])
    {
      var p := s.params[i];
      assert s.params[..i + 1][..i] == s.params[..i];
      if Get(eff, p).None? && p in ti.defaults && ti.defaults[p] != Null {
        eff := Put(eff, p, ti.defaults[p]);
      }
    }
    assert s.params[..|s.params|] == s.params;
    topics := [];
    if s.list && |s.params| == 1 {
      var v := Get(eff, s.params[0]);
      if v.None? || !v.value.Arr? { return; }
      var ph, items := Placeholder(s.params[0]), v.value.items;
      for i := 0 to |items|
        invariant topics == EntryTopics(s.pattern, ph, items[..i])
      {
        assert items[..i + 1][..i] == items[..i];
        var e := items[i];
        if e.Str? && e.s != "" {
          var t := Replaced(s.pattern, ph, e.s);
          topics := topics + [if t.Some? then t.value else s.pattern];
        }
      }
      assert items[..|items|] == items;
      return;
    }
    var t := Compose(s.pattern, s.params, eff);
    if t != "" {
      topics := [t];
    }
  }

  // ---------------------------------------------------------------- what a value gives

  /** Only the placeholder, so that the value is the topic. */
  predicate Bare(s: Socket) {
    |s.params| == 1 && s.pattern == Placeholder(s.params[0])
  }

  lemma FoundAtStart(s: string, r: string)
    ensures Replaced(s, s, r) == Some(r)
  {
    assert s[..0] + r + s[0 + |s|..] == r;
  }

  /** With one param holding a topic, a socket gives exactly that topic if and only if its pattern is the bare
      placeholder. */
  lemma ScalarGivesIffBare(s: Socket, params: Object, ti: TypeInfo, topic: string)
    requires !s.list && |s.params| == 1 && topic != ""
    requires Get(params, s.params[0]) == Some(Str(topic))
    ensures SocketTopics(s, params, ti) == [topic] <==> Bare(s)
    ensures !Unset(s, params, ti)
  {
    var p := s.params[0];
    NothingToFill(params, ti, s.params);
    var next := Replaced(s.pattern, Placeholder(p), topic);
    assert s.params[1..] == [];
    assert ComposeFrom(s.pattern, s.params, params) == if next.None? then "" else next.value;
    if Bare(s) {
      FoundAtStart(s.pattern, topic);
    } else if next.Some? && next.value == topic {
      WholeIsFound(s.pattern, Placeholder(p));
    }
  }

  lemma WholeIsFound(s: string, sub: string)
    requires Find(s, sub).Some? && |s| == |sub|
    ensures s == sub
  {
  }

  predicate EntryGives(pattern: string, ph: string, e: Json, t: string) {
    e.Str? && e.s != "" && EntryTopic(pattern, ph, e.s) == t
  }

  lemma {:induction false} EntryTopicsAre(pattern: string, ph: string, items: seq<Json>, t: string)
    ensures t in EntryTopics(pattern, ph, items) <==>
              exists i :: 0 <= i < |items| && EntryGives(pattern, ph, items[i], t)
  {
    if items != [] {
      var n := |items| - 1;
      EntryTopicsAre(pattern, ph, items[..n], t);
      assert forall i :: 0 <= i < n ==> items[..n][i] == items[i];
    }
  }

  /** A list socket gives back a topic in its list: its pattern is bare, or is that topic and has no placeholder. */
  predicate KeepsEntry(s: Socket, topic: string) {
    IsListSocket(s) && (Bare(s) || (Find(s.pattern, Placeholder(s.params[0])).None? && s.pattern == topic))
  }

  lemma KeptEntryGivesItself(s: Socket, topic: string)
    requires IsListSocket(s)
    ensures EntryTopic(s.pattern, Placeholder(s.params[0]), topic) == topic <==> KeepsEntry(s, topic)
  {
    var ph := Placeholder(s.params[0]);
    if Bare(s) {
      FoundAtStart(s.pattern, topic);
    } else if Find(s.pattern, ph).Some? && Replaced(s.pattern, ph, topic) == Some(topic) {
      WholeIsFound(s.pattern, ph);
    }
  }

  /** A list socket gives a topic in its list if and only if it keeps the entry, or another entry gives the same. */
  lemma ListGives(s: Socket, params: Object, ti: TypeInfo, items: seq<Json>, i: nat)
    requires IsListSocket(s) && Get(params, s.params[0]) == Some(Arr(items))
    requires i < |items| && items[i].Str? && items[i].s != ""
    ensures items[i].s in SocketTopics(s, params, ti) <==>
              KeepsEntry(s, items[i].s)
              || items[i].s in EntryTopics(s.pattern, Placeholder(s.params[0]), items[..i] + items[i + 1..])
    ensures !Unset(s, params, ti)
  {
    var ph, t, others := Placeholder(s.params[0]), items[i].s, items[..i] + items[i + 1..];
    NothingToFill(params, ti, s.params);
    KeptEntryGivesItself(s, t);
    EntryTopicsAre(s.pattern, ph, items, t);
    EntryTopicsAre(s.pattern, ph, others, t);
    if j :| 0 <= j < |others| && EntryGives(s.pattern, ph, others[j], t) {
      assert others[j] == items[if j < i then j else j + 1];
    }
    if j :| 0 <= j < |items| && EntryGives(s.pattern, ph, items[j], t) {
      assert j != i ==> items[j] == others[if j < i then j else j - 1];
    }
  }

  lemma {:induction false} FillingKeeps(params: Object, ti: TypeInfo, names: seq<string>, p: string)
    requires Get(params, p).Some?
    ensures Get(WithDefaults(params, ti, names), p) == Get(params, p)
  {
    if names != [] {
      var q, before := names[|names| - 1], WithDefaults(params, ti, names[..|names| - 1]);
      FillingKeeps(params, ti, names[..|names| - 1], p);
      if Get(before, q).None? && q in ti.defaults {
        GetPut(before, q, ti.defaults[q], p);
      }
    }
  }

  /** A socket of several params gives the topic its params were split from if and only if they are exactly the pattern's
      placeholders. */
  lemma SplitGives(s: Socket, params: Object, ti: TypeInfo, topic: string)
    requires |s.params| >= 2 && Tokens(s.pattern).Some? && Plain(s.pattern, s.params) && BraceFree(topic) && topic != ""
    requires Match(Tokens(s.pattern).value, topic).Some?
    ensures var tokens := Tokens(s.pattern).value;
            var names, vs := Names(tokens), Match(tokens, topic).value;
            && |vs| == |names|
            && var after := Assigned(params, names, vs);
               && (topic in SocketTopics(s, after, ti) <==> SameNames(tokens, s.params))
               && (SameNames(tokens, s.params) ==> SocketTopics(s, after, ti) == [topic] && !Unset(s, after, ti))
  {
    var tokens := Tokens(s.pattern).value;
    var names, vs := Names(tokens), Match(tokens, topic).value;
    MatchSound(tokens, topic);
    var after := Assigned(params, names, vs);
    SplitIsHeld(after, WithDefaults(after, ti, s.params), params, ti, s.params, names, vs);
    ComposeOfSplitIff(s.pattern, s.params, WithDefaults(after, ti, s.params), topic);
    if SameNames(tokens, s.params) {
      forall p | p in s.params ensures Get(after, p).Some? && !Blank(Get(after, p).value) {
        var i :| 0 <= i < |names| && names[i] == p;
        GetAssigned(params, names, vs, i);
        assert vs[i] in vs;
      }
    }
  }

  lemma SplitIsHeld(after: Object, eff: Object, params: Object, ti: TypeInfo, ps: seq<string>, names: seq<string>,
                    vs: seq<string>)
    requires |names| == |vs| && Distinct(names)
    requires after == Assigned(params, names, vs) && eff == WithDefaults(after, ti, ps)
    ensures ValuesOf(eff, names) == vs
  {
    forall i | 0 <= i < |vs| ensures ValueOf(eff, names[i]) == vs[i] {
      GetAssigned(params, names, vs, i);
      FillingKeeps(after, ti, ps, names[i]);
    }
  }

  // ---------------------------------------------------------------- unset, and what defaults do

  /** An absent param reads as its non-null default, if the socket names it; every other as it is. */
  lemma {:induction false} DefaultsFillAbsent(params: Object, ti: TypeInfo, names: seq<string>, q: string)
    ensures Get(WithDefaults(params, ti, names), q) ==
            if Get(params, q).Some? then Get(params, q)
            else if q in names && q in ti.defaults && ti.defaults[q] != Null then Some(ti.defaults[q]) else None
  {
    if names != [] {
      var p, before := names[|names| - 1], WithDefaults(params, ti, names[..|names| - 1]);
      DefaultsFillAbsent(params, ti, names[..|names| - 1], q);
      DefaultsFillAbsent(params, ti, names[..|names| - 1], p);
      if Get(before, p).None? && p in ti.defaults && ti.defaults[p] != Null {
        GetPut(before, p, ti.defaults[p], q);
      }
      assert names == names[..|names| - 1] + [p];
    }
  }

  /** What composes depends on the values of its params alone. */
  lemma {:induction false} ComposeReadsItsParams(out: string, names: seq<string>, a: Object, b: Object)
    requires forall p :: p in names ==> Get(a, p) == Get(b, p)
    ensures ComposeFrom(out, names, a) == ComposeFrom(out, names, b)
    decreases names
  {
    if names != [] {
      assert names[0] in names;
      var v := Get(a, names[0]);
      if v.Some? {
        var next := Replaced(out, Placeholder(names[0]), ScalarString(v.value));
        if next.Some? {
          ComposeReadsItsParams(next.value, names[1..], a, b);
        }
      }
    }
  }

  /** Leaving a param out is the same as giving it its default: the socket is as unset, and gives the same topics. */
  lemma DefaultCountsAsGiven(s: Socket, params: Object, ti: TypeInfo, p: string)
    requires Get(params, p).None? && p in s.params && p in ti.defaults && ti.defaults[p] != Null
    ensures var given := Put(params, p, ti.defaults[p]);
            SocketTopics(s, given, ti) == SocketTopics(s, params, ti) && (Unset(s, given, ti) <==> Unset(s, params, ti))
  {
    var given := Put(params, p, ti.defaults[p]);
    forall q | q in s.params
      ensures Get(WithDefaults(given, ti, s.params), q) == Get(WithDefaults(params, ti, s.params), q)
      ensures Effective(given, ti, q) == Effective(params, ti, q)
    {
      GetPut(params, p, ti.defaults[p], q);
      DefaultsFillAbsent(given, ti, s.params, q);
      DefaultsFillAbsent(params, ti, s.params, q);
    }
    ComposeReadsItsParams(s.pattern, s.params, WithDefaults(given, ti, s.params), WithDefaults(params, ti, s.params));
    assert IsListSocket(s) ==> s.params[0] in s.params;
  }

  lemma ComposeOne(pattern: string, names: seq<string>, params: Object)
    requires |names| == 1
    ensures var v := ValueOf(params, names[0]);
            var next := Replaced(pattern, Placeholder(names[0]), v);
            ComposeFrom(pattern, names, params) == if v == "" || next.None? then "" else next.value
  {
    assert names[1..] == [];
  }

  /** A one-param socket without text around its placeholder, its param a string or missing altogether, is unset exactly
      when it gives no topic; when it is set it gives the string. */
  lemma UnsetIffNoTopic(s: Socket, params: Object, ti: TypeInfo)
    requires Bare(s) && !s.list && (s.params[0] in ti.defaults ==> ti.defaults[s.params[0]] == Null)
    requires Get(params, s.params[0]).Some? ==> Get(params, s.params[0]).value.Str?
    ensures Unset(s, params, ti) <==> SocketTopics(s, params, ti) == []
    ensures !Unset(s, params, ti) ==>
              Get(params, s.params[0]).Some? && SocketTopics(s, params, ti) == [Get(params, s.params[0]).value.s]
  {
    var p, eff := s.params[0], WithDefaults(params, ti, s.params);
    DefaultsFillAbsent(params, ti, s.params, p);
    ComposeOne(s.pattern, s.params, eff);
    FoundAtStart(s.pattern, ValueOf(eff, p));
    assert p in s.params && forall q :: q in s.params ==> q == p;
  }
}
