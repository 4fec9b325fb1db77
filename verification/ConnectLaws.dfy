/** brain_builder/src/Wiring.cpp: when a connect draws its wire, and when removing the wire takes it back. */
module ConnectLaws {
  import opened Build
  import opened Connect
  import opened Json
  import opened Prelude
  import opened Slots
  import opened Sockets
  import opened Text
  import opened Topics
  import opened Wiring
  import G = Graph

  // ---------------------------------------------------------------- one undo step

  lemma SetParamAt(s: G.State, id: string, key: string, value: Json, marked: bool)
    ensures var t, i := G.Step(s, G.SetParam(id, key, value, marked)), G.IndexOf(s.doc.modules, id);
            && (i < 0 ==> t == s)
            && (i >= 0 ==> t.doc == G.WithParams(s.doc, i, Put(s.doc.modules[i].params, key, value)))
            && (i >= 0 ==> t.undo == if marked then G.Capped(s.undo + [s.doc]) else s.undo)
  {
  }

  /** Writing a module's params moves no module. */
  lemma SameIndex(d: G.Doc, i: nat, params: Object, id: string)
    requires i < |d.modules|
    ensures G.IndexOf(G.WithParams(d, i, params).modules, id) == G.IndexOf(d.modules, id)
  {
    var ms, ms' := d.modules, G.WithParams(d, i, params).modules;
    assert G.Ids(ms) == G.Ids(ms');
    var a, b := G.IndexOf(ms, id), G.IndexOf(ms', id);
    assert a >= 0 ==> ms'[a].id == id;
    assert b >= 0 ==> ms[b].id == id;
  }

  lemma {:induction false} SetAllAt(s: G.State, id: string, names: seq<string>, vs: seq<string>)
    requires |names| == |vs|
    ensures var t, i := SetAll(s, id, names, vs), G.IndexOf(s.doc.modules, id);
            && t.undo == s.undo
            && (i < 0 ==> t.doc == s.doc)
            && (i >= 0 ==> t.doc == G.WithParams(s.doc, i, Assigned(s.doc.modules[i].params, names, vs)))
  {
    var i := G.IndexOf(s.doc.modules, id);
    if names == [] {
      if i >= 0 {
        assert s.doc.modules[i := s.doc.modules[i]] == s.doc.modules;
      }
    } else {
      var n := |names| - 1;
      SetAllAt(s, id, names[..n], vs[..n]);
      var t := SetAll(s, id, names[..n], vs[..n]);
      if i >= 0 {
        SameIndex(s.doc, i, Assigned(s.doc.modules[i].params, names[..n], vs[..n]), id);
      }
      SetParamAt(t, id, names[n], Str(vs[n]), false);
    }
  }

  /** s, or s under one more undo step. */
  predicate OneStep(s: G.State, t: G.State) {
    t == s || t.undo == G.Capped(s.undo + [s.doc])
  }

  lemma AssignIsOneStep(s: G.State, env: Env, n: Node, pin: Pin, slot: Slot, topic: string)
    ensures var r := Assign(s, env, n, pin, slot, topic); (r.0.Refused? ==> r.1 == s) && OneStep(s, r.1)
  {
    match slot
    case Open(param, list) =>
      var sock := PinSocket(env, n, pin);
      if param != "" && sock.Some? && |sock.value.params| >= 2 {
        SplitIsOneStep(s, n.name, sock.value.pattern, topic);
      } else {
        SetParamAt(s, n.name, param, Arr(ListAt(s.doc, n.name, param) + [Str(topic)]), true);
        SetParamAt(s, n.name, param, Str(topic), true);
      }
    case Scalar(param) => SetParamAt(s, n.name, param, Str(topic), true);
    case ListEntry(param, i) =>
      var items := ListAt(s.doc, n.name, param);
      if i < |items| {
        SetParamAt(s, n.name, param, Arr(items[i := Str(topic)]), true);
      }
    case _ =>
  }

  lemma SplitIsOneStep(s: G.State, id: string, pattern: string, topic: string)
    ensures var r := AssignSplit(s, id, pattern, topic); (r.0.Refused? ==> r.1 == s) && OneStep(s, r.1)
  {
    var tokens := Tokens(pattern);
    if tokens.Some? && Match(tokens.value, topic).Some? {
      MatchSound(tokens.value, topic);
      SetAllAt(G.Marked(s), id, Names(tokens.value), Match(tokens.value, topic).value);
    }
  }

  lemma UndoAfterOneStep(s: G.State, t: G.State)
    requires t.undo == G.Capped(s.undo + [s.doc])
    ensures t.undo != [] && G.Undone(t).doc == s.doc
  {
  }

  /** A connect that is refused changes nothing; one that succeeds changes nothing or is exactly one undo step. */
  lemma ConnectIsOneUndoStep(s: G.State, w: seq<Node>, env: Env, fromPin: nat, toPin: nat)
    ensures var plan := PlanConnect(w, s.doc, env, fromPin, toPin);
            && (plan.Edit? ==> plan.node < |w|)
            && var r := Carry(s, w, env, plan);
               && (r.0.Refused? ==> r.1 == s)
               && (r.1 == s || (r.1.undo != [] && G.Undone(r.1).doc == s.doc))
  {
    var plan := PlanConnect(w, s.doc, env, fromPin, toPin);
    if plan.Edit? {
      AssignIsOneStep(s, env, w[plan.node], plan.pin, plan.slot, plan.topic);
      var t := Carry(s, w, env, plan).1;
      if t != s {
        UndoAfterOneStep(s, t);
      }
    }
  }

  // ---------------------------------------------------------------- the edited socket gives the topic

  /** The node is the one of the module it is named after, and no other module has its name. */
  predicate Current(d: G.Doc, n: Node) {
    n.kind == Module && 0 <= n.index < |d.modules| && G.IndexOf(d.modules, n.name) == n.index
    && d.modules[n.index].typ == n.typ
  }

  /** One param, or several with a plain pattern and a topic without braces. */
  ghost predicate Regular(sock: Socket, topic: string) {
    |sock.params| == 1 || (|sock.params| >= 2 && Plain(sock.pattern, sock.params) && BraceFree(topic))
  }

  /** The socket gives back a topic written into its own params: the pattern is the bare placeholder, or of a list just
      that topic; of several params, they are the pattern's placeholders. */
  ghost predicate Wirable(sock: Socket, topic: string) {
    if |sock.params| >= 2 then Tokens(sock.pattern).Some? && SameNames(Tokens(sock.pattern).value, sock.params)
    else Bare(sock) || KeepsEntry(sock, topic)
  }

  /** Not wirable: a pattern of some text and one placeholder, alone or with a param besides it, like
      `prediction.{targets}`, or `sequence.motif.{source_topic}` of source_topic and output_topic. */
  lemma TextBesideAPlaceholder(sock: Socket, text: string, p: string, topic: string)
    requires sock.pattern == text + Placeholder(p) && text != "" && !Contains(text, '{') && BraceFree(p)
    requires sock.params == [p] || (|sock.params| >= 2 && exists q :: q in sock.params && q != p)
    ensures !Wirable(sock, topic)
  {
    TokensOfOne(text, p);
    if |sock.params| == 1 {
      FindSkips(text, Placeholder(p), Placeholder(p));
    } else {
      var q :| q in sock.params && q != p;
      assert q !in Names(Tokens(sock.pattern).value);
    }
  }

  /** The socket the slot belongs to. */
  ghost predicate Suits(env: Env, n: Node, pin: Pin, slot: Slot, sock: Socket) {
    && n.typ in env.cat && sock in env.cat[n.typ].sockets && sock.output == pin.output
    && match slot
       case Open(param, list) =>
         PinSocket(env, n, pin) == Some(sock) && sock.params != [] && param == sock.params[0] && list == sock.list
       case Scalar(param) => sock.params == [param] && !sock.list
       case ListEntry(param, _) => sock.params == [param] && sock.list
       case _ => false
  }

  // ---------------------------------------------------------------- what a slot is

  /** The slot of a live pin is where its topic is: the param, or the list entry, really holds it; and a pin said to be
      composed or fixed has its topic in none of the params. */
  lemma SlotHoldsTheTopic(d: G.Doc, env: Env, n: Node, p: Pin)
    requires n.kind == Module && 0 <= n.index < |d.modules| && !p.placeholder
    ensures var params := d.modules[n.index].params;
            match Resolve(d, env, n, p)
            case Scalar(key) => exists k: nat :: FirstHolds(params, key, p.topic, k)
            case ListEntry(key, i) =>
              exists k: nat :: FirstLists(params, key, p.topic, k) && HoldsTopic(params[k].value, p.topic, i)
            case _ => forall f :: f in params ==> f.value != Str(p.topic) && !Lists(f.value, p.topic)
  {
    FirstScalarIs(d.modules[n.index].params, p.topic);
    FirstEntryIs(d.modules[n.index].params, p.topic);
  }

  /** A live topic that no param holds is composed exactly when some socket of several params of the pin's direction gives
      it from the params as they stand; any other is fixed. */
  lemma ComposedOrFixed(d: G.Doc, env: Env, n: Node, p: Pin)
    requires n.kind == Module && 0 <= n.index < |d.modules| && !p.placeholder
    ensures var params, slot := d.modules[n.index].params, Resolve(d, env, n, p);
            var held := exists f :: f in params && (f.value == Str(p.topic) || Lists(f.value, p.topic));
            && (slot.Composed? || slot.Fixed? <==> !held)
            && (slot.Composed? <==>
                  !held && n.typ in env.cat
                  && exists s :: s in env.cat[n.typ].sockets && |s.params| >= 2 && s.output == p.output
                                 && ComposeFrom(s.pattern, s.params, params) == p.topic)
  {
    SlotHoldsTheTopic(d, env, n, p);
    var params := d.modules[n.index].params;
    match Resolve(d, env, n, p)
    case Scalar(key) =>
      var k: nat :| FirstHolds(params, key, p.topic, k);
      assert params[k] in params;
    case ListEntry(key, i) =>
      var k: nat :| FirstLists(params, key, p.topic, k) && HoldsTopic(params[k].value, p.topic, i);
      assert params[k] in params;
    case _ =>
  }

  // ---------------------------------------------------------------- whose params the edit goes into

  /** The edit of the pin goes into the socket's own params: the pin is the socket's placeholder, or the first param
      holding the pin's topic, alone or else in a list, is the socket's. */
  ghost predicate EditsOwn(env: Env, d: G.Doc, n: Node, pin: Pin, sock: Socket)
    requires 0 <= n.index < |d.modules|
  {
    var params := d.modules[n.index].params;
    && n.typ in env.cat && sock in env.cat[n.typ].sockets && sock.output == pin.output
    && if pin.placeholder then
         && PinSocket(env, n, pin) == Some(sock)
         && sock.params != [] && pin.param == sock.params[0] && pin.list == sock.list
       else
         |sock.params| == 1
         && if sock.list then
              (forall f :: f in params ==> f.value != Str(pin.topic))
              && exists k: nat :: FirstLists(params, sock.params[0], pin.topic, k)
            else exists k: nat :: FirstHolds(params, sock.params[0], pin.topic, k)
  }

  /** The slot a pin resolves to suits a socket exactly when the edit goes into the socket's own params. */
  lemma SlotSuitsIffOwn(env: Env, d: G.Doc, n: Node, pin: Pin, sock: Socket)
    requires Current(d, n)
    ensures Suits(env, n, pin, Resolve(d, env, n, pin), sock) <==> EditsOwn(env, d, n, pin, sock)
  {
    var params := d.modules[n.index].params;
    if !pin.placeholder && sock.params != [] {
      FirstScalarIs(params, pin.topic);
      FirstScalarIff(params, sock.params[0], pin.topic);
      FirstEntryIff(params, sock.params[0], pin.topic);
    }
  }

  /** The params an edit leaves. */
  function ParamsAfter(t: G.State, n: Node): Object
    requires 0 <= n.index < |t.doc.modules|
  {
    t.doc.modules[n.index].params
  }

  /** The document but for one module's params. */
  ghost predicate OnlyParams(d: G.Doc, e: G.Doc, i: nat) {
    i < |d.modules| && exists params :: e == G.WithParams(d, i, params)
  }

  lemma SetTopicAt(s: G.State, n: Node, param: string, value: Json)
    requires Current(s.doc, n)
    ensures var t := SetTopic(s, n.name, param, value).1;
            t.doc == G.WithParams(s.doc, n.index, Put(s.doc.modules[n.index].params, param, value))
            && ParamsAfter(t, n) == Put(s.doc.modules[n.index].params, param, value)
  {
    SetParamAt(s, n.name, param, value, true);
  }

  lemma SplitDerives(s: G.State, env: Env, n: Node, sock: Socket, topic: string)
    requires Current(s.doc, n) && n.typ in env.cat && topic != "" && |sock.params| >= 2 && Regular(sock, topic)
    requires AssignSplit(s, n.name, sock.pattern, topic).0.Done?
    ensures var t := AssignSplit(s, n.name, sock.pattern, topic).1;
            && OnlyParams(s.doc, t.doc, n.index)
            && (topic in SocketTopics(sock, ParamsAfter(t, n), env.cat[n.typ]) <==> Wirable(sock, topic))
            && (Wirable(sock, topic) ==> !Unset(sock, ParamsAfter(t, n), env.cat[n.typ]))
  {
    var tokens := Tokens(sock.pattern).value;
    var vs := Match(tokens, topic).value;
    MatchSound(tokens, topic);
    SetAllAt(G.Marked(s), n.name, Names(tokens), vs);
    SplitGives(sock, s.doc.modules[n.index].params, env.cat[n.typ], topic);
  }

  /** The other entries of the list the edit writes. */
  function Others(d: G.Doc, n: Node, slot: Slot): seq<Json> {
    match slot
    case Open(param, true) => ListAt(d, n.name, param)
    case ListEntry(param, i) =>
      var items := ListAt(d, n.name, param);
      if i < |items| then items[..i] + items[i + 1..] else items
    case _ => []
  }

  /** The socket will give the topic: it is wirable, or another entry of its list gives the same. */
  ghost predicate Lands(d: G.Doc, n: Node, slot: Slot, sock: Socket, topic: string) {
    Wirable(sock, topic)
    || (IsListSocket(sock) && topic in EntryTopics(sock.pattern, Placeholder(sock.params[0]), Others(d, n, slot)))
  }

  lemma OneParamDerives(s: G.State, env: Env, n: Node, sock: Socket, value: Json, topic: string, others: seq<Json>,
                        i: nat)
    requires Current(s.doc, n) && n.typ in env.cat && |sock.params| == 1 && topic != ""
    requires if sock.list then value.Arr? && i < |value.items| && value.items[i] == Str(topic)
                               && others == value.items[..i] + value.items[i + 1..]
             else value == Str(topic) && others == []
    ensures var t := SetTopic(s, n.name, sock.params[0], value).1;
            && OnlyParams(s.doc, t.doc, n.index)
            && (topic in SocketTopics(sock, ParamsAfter(t, n), env.cat[n.typ]) <==>
                  Wirable(sock, topic) || topic in EntryTopics(sock.pattern, Placeholder(sock.params[0]), others))
            && !Unset(sock, ParamsAfter(t, n), env.cat[n.typ])
  {
    var params := s.doc.modules[n.index].params;
    var after := Put(params, sock.params[0], value);
    SetTopicAt(s, n, sock.params[0], value);
    GetPut(params, sock.params[0], value, sock.params[0]);
    if sock.list {
      ListGives(sock, after, env.cat[n.typ], value.items, i);
    } else {
      ScalarGivesIffBare(sock, after, env.cat[n.typ], topic);
      assert |SocketTopics(sock, after, env.cat[n.typ])| <= 1;
    }
  }

  /** After a successful edit of a pin that goes into a socket's own params only that module's params changed, and the
      socket gives the other pin's topic exactly when it is wirable, or another entry of its list gives it. */
  lemma EditedSocketDerives(s: G.State, env: Env, n: Node, pin: Pin, sock: Socket, topic: string)
    requires Current(s.doc, n) && EditsOwn(env, s.doc, n, pin, sock) && Regular(sock, topic) && topic != ""
    requires Assign(s, env, n, pin, Resolve(s.doc, env, n, pin), topic).0.Done?
    ensures var slot := Resolve(s.doc, env, n, pin);
            var t := Assign(s, env, n, pin, slot, topic).1;
            && OnlyParams(s.doc, t.doc, n.index)
            && (topic in SocketTopics(sock, ParamsAfter(t, n), env.cat[n.typ]) <==>
                  Lands(s.doc, n, slot, sock, topic))
            && (topic in SocketTopics(sock, ParamsAfter(t, n), env.cat[n.typ]) ==>
                  !Unset(sock, ParamsAfter(t, n), env.cat[n.typ]))
  {
    SlotSuitsIffOwn(env, s.doc, n, pin, sock);
    var items := ListAt(s.doc, n.name, sock.params[0]);
    match Resolve(s.doc, env, n, pin)
    case Open(param, list) =>
      if |sock.params| >= 2 {
        SplitDerives(s, env, n, sock, topic);
      } else if list {
        assert (items + [Str(topic)])[..|items|] + (items + [Str(topic)])[|items| + 1..] == items;
        OneParamDerives(s, env, n, sock, Arr(items + [Str(topic)]), topic, items, |items|);
      } else {
        OneParamDerives(s, env, n, sock, Str(topic), topic, [], 0);
      }
    case Scalar(param) => OneParamDerives(s, env, n, sock, Str(topic), topic, [], 0);
    case ListEntry(param, i) =>
      var value := items[i := Str(topic)];
      assert value[..i] + value[i + 1..] == items[..i] + items[i + 1..];
      OneParamDerives(s, env, n, sock, Arr(value), topic, items[..i] + items[i + 1..], i);
  }

  /** Wiring an unset socket succeeds exactly when its param has a name and, with several params, the topic fits the
      pattern; it may still miss: the topic given is another one exactly when the socket is not wirable. */
  lemma PrefixedSocketMisses(s: G.State, env: Env, n: Node, pin: Pin, sock: Socket, topic: string)
    requires Current(s.doc, n) && pin.placeholder && EditsOwn(env, s.doc, n, pin, sock) && Regular(sock, topic)
    requires topic != ""
    ensures var r, tokens := Assign(s, env, n, pin, Resolve(s.doc, env, n, pin), topic), Tokens(sock.pattern);
            && (r.0.Done? <==>
                  sock.params[0] != "" && (|sock.params| == 1 || (tokens.Some? && Match(tokens.value, topic).Some?)))
            && (r.0.Done? && !sock.list ==>
                  0 <= n.index < |r.1.doc.modules|
                  && (SocketTopics(sock, ParamsAfter(r.1, n), env.cat[n.typ]) == [topic] <==> Wirable(sock, topic)))
  {
    var r := Assign(s, env, n, pin, Resolve(s.doc, env, n, pin), topic);
    if r.0.Done? {
      EditedSocketDerives(s, env, n, pin, sock, topic);
      assert !sock.list ==> |SocketTopics(sock, ParamsAfter(r.1, n), env.cat[n.typ])| <= 1;
    }
  }

  // ---------------------------------------------------------------- the edit that goes elsewhere

  lemma {:induction false} GetIsTheField(params: Object, k: nat)
    requires UniqueKeys(params) && k < |params|
    ensures Get(params, params[k].key) == Some(params[k].value)
  {
    if k > 0 {
      assert UniqueKeys(params[1..]);
      assert params[0].key != params[k].key;
      GetIsTheField(params[1..], k - 1);
    }
  }

  lemma OneParamTopics(sock: Socket, params: Object, other: Object, ti: TypeInfo)
    requires |sock.params| == 1 && Get(params, sock.params[0]) == Get(other, sock.params[0])
    ensures SocketTopics(sock, params, ti) == SocketTopics(sock, other, ti)
  {
    var p := sock.params[0];
    var a, b := WithDefaults(params, ti, sock.params), WithDefaults(other, ti, sock.params);
    assert sock.params[..0] == [] && sock.params[1..] == [];
    assert WithDefaults(params, ti, sock.params[..0]) == params && WithDefaults(other, ti, sock.params[..0]) == other;
    if p in ti.defaults {
      GetPut(params, p, ti.defaults[p], p);
      GetPut(other, p, ti.defaults[p], p);
    }
    assert Get(a, p) == Get(b, p);
    ComposeOne(sock.pattern, sock.params, a);
    ComposeOne(sock.pattern, sock.params, b);
  }

  /** A param of the wrong kind gives no topic: a lone value to a list socket, a list to any other. */
  lemma WrongKindGivesNothing(sock: Socket, params: Object, ti: TypeInfo)
    requires |sock.params| == 1 && Get(params, sock.params[0]).Some?
    requires sock.list != Get(params, sock.params[0]).value.Arr?
    ensures SocketTopics(sock, params, ti) == []
  {
    NothingToFill(params, ti, sock.params);
  }

  /** A successful edit of a live pin leaves the topics of a one-param socket as they were when it does not go into that
      socket's param. */
  lemma OtherSocketsStay(s: G.State, env: Env, n: Node, pin: Pin, sock: Socket, topic: string)
    requires Current(s.doc, n) && !pin.placeholder && UniqueKeys(s.doc.modules[n.index].params)
    requires n.typ in env.cat && sock in env.cat[n.typ].sockets && sock.output == pin.output && |sock.params| == 1
    requires !EditsOwn(env, s.doc, n, pin, sock)
    requires Assign(s, env, n, pin, Resolve(s.doc, env, n, pin), topic).0.Done?
    ensures var t := Assign(s, env, n, pin, Resolve(s.doc, env, n, pin), topic).1;
            && 0 <= n.index < |t.doc.modules|
            && SocketTopics(sock, ParamsAfter(t, n), env.cat[n.typ])
            == SocketTopics(sock, s.doc.modules[n.index].params, env.cat[n.typ])
  {
    var params, slot := s.doc.modules[n.index].params, Resolve(s.doc, env, n, pin);
    SlotSuitsIffOwn(env, s.doc, n, pin, sock);
    SlotHoldsTheTopic(s.doc, env, n, pin);
    var key, value := slot.param, if slot.Scalar? then Str(topic)
                                  else Arr(ListAt(s.doc, n.name, slot.param)[slot.index := Str(topic)]);
    SetTopicAt(s, n, key, value);
    GetPut(params, key, value, sock.params[0]);
    if key == sock.params[0] {
      var k :| 0 <= k < |params| && params[k].key == key && (params[k].value.Arr? <==> slot.ListEntry?);
      GetIsTheField(params, k);
      WrongKindGivesNothing(sock, params, env.cat[n.typ]);
      WrongKindGivesNothing(sock, Put(params, key, value), env.cat[n.typ]);
    } else {
      OneParamTopics(sock, Put(params, key, value), params, env.cat[n.typ]);
    }
  }

  /** A connect can succeed without the wire: when an input and an output hold the same topic, the output's pin resolves
      to the input's param.  No socket suits; the edit is done, the input is rewired, the output not. */
  lemma OutputPinRewiresTheInput(s: G.State, env: Env, n: Node, pin: Pin, a: Socket, b: Socket, x: string, y: string)
    requires Current(s.doc, n) && n.typ in env.cat && env.cat[n.typ].sockets == [a, b]
    requires Bare(a) && Bare(b) && !a.list && !b.list && !a.output && b.output && a.params[0] != b.params[0]
    requires s.doc.modules[n.index].params == [Field(a.params[0], Str(x)), Field(b.params[0], Str(x))]
    requires pin.output && !pin.placeholder && pin.topic == x && x != "" && y != "" && x != y
    ensures Resolve(s.doc, env, n, pin) == Scalar(a.params[0])
    ensures forall sock :: !Suits(env, n, pin, Resolve(s.doc, env, n, pin), sock)
    ensures var r := Assign(s, env, n, pin, Resolve(s.doc, env, n, pin), y);
            && r.0 == Done && 0 <= n.index < |r.1.doc.modules|
            && SocketTopics(a, ParamsAfter(r.1, n), env.cat[n.typ]) == [y]
            && SocketTopics(b, ParamsAfter(r.1, n), env.cat[n.typ]) == [x]
  {
    var params, ti := s.doc.modules[n.index].params, env.cat[n.typ];
    var after := Put(params, a.params[0], Str(y));
    SetTopicAt(s, n, a.params[0], Str(y));
    assert after == [Field(a.params[0], Str(y))] + params[1..];
    assert params[1..] == [params[1]] && after[1..] == [params[1]];
    ScalarGivesIffBare(a, after, ti, y);
    ScalarGivesIffBare(b, after, ti, x);
  }

  // ---------------------------------------------------------------- the link is there

  /** Module ids are there and distinct. */
  ghost predicate Sound(d: G.Doc) {
    (forall m :: m in d.modules ==> m.id != "") && G.DistinctIds(d.modules)
  }

  lemma NodesOk(env: Env, d: G.Doc)
    requires Sound(d)
    ensures forall n :: n in Nodes(env, d.modules) ==> NodeOk(env, n)
    ensures forall i :: 0 <= i < |Nodes(env, d.modules)| && Nodes(env, d.modules)[i].kind == Module ==>
              i < |d.modules| && Current(d, Nodes(env, d.modules)[i]) && Nodes(env, d.modules)[i].index == i
  {
    var w := Nodes(env, d.modules);
    forall i | 0 <= i < |w| ensures NodeOk(env, w[i]) {
      if i < |d.modules| {
        ModuleOk(env, d.modules[i], i);
      } else {
        BodyOk(env, i - |d.modules|);
      }
    }
    forall i | 0 <= i < |w|
      ensures w[i].kind == Module ==> i < |d.modules| && Current(d, w[i]) && w[i].index == i
    {
      if i < |d.modules| {
        assert w[i] == ModuleNode(env, d.modules[i], i);
        assert d.modules[i] in d.modules;
        G.IndexIsOwn(d.modules, i);
      } else {
        BodyOk(env, i - |d.modules|);
      }
    }
  }

  lemma {:induction false} FirstPinIsThere(pins: seq<Pin>, id: nat)
    ensures FirstPin(pins, id).Some? ==> FirstPin(pins, id).value in pins
  {
    if pins != [] && pins[0].id != id {
      FirstPinIsThere(pins[1..], id);
    }
  }

  lemma PinIsOnItsSide(env: Env, n: Node, id: nat)
    requires HasPin(n, id) && NodeOk(env, n)
    ensures PinIn(n, id) in PinsOf(n, PinIn(n, id).output)
  {
    FirstPinIsThere(n.inputs, id);
    FirstPinIsThere(n.outputs, id);
  }

  lemma PlanEditTakes(w: seq<Node>, d: G.Doc, env: Env, ns: nat, src: Pin, nd: nat, dst: Pin)
    requires ns < |w| && nd < |w|
    ensures match PlanEdit(w, d, env, ns, src, nd, dst)
            case Edit(node, pin, slot, topic) =>
              && ((node == ns && pin == src && topic == dst.topic) || (node == nd && pin == dst && topic == src.topic))
              && slot == Resolve(d, env, w[node], pin)
            case _ => true
  {
  }

  /** An edit takes the topic of a pin on another node, on the other side. */
  lemma PlanTakesTheOtherTopic(w: seq<Node>, d: G.Doc, env: Env, fromPin: nat, toPin: nat) returns (other: nat, q: Pin)
    requires forall n :: n in w ==> NodeOk(env, n)
    requires PlanConnect(w, d, env, fromPin, toPin).Edit?
    ensures var plan := PlanConnect(w, d, env, fromPin, toPin);
            && plan.node < |w| && other < |w| && other != plan.node
            && q in PinsOf(w[other], !plan.pin.output) && q.topic == plan.topic
            && plan.pin in PinsOf(w[plan.node], plan.pin.output)
            && plan.slot == Resolve(d, env, w[plan.node], plan.pin)
  {
    var oa, ob := OwnerOf(w, fromPin).value, OwnerOf(w, toPin).value;
    var a, b := PinIn(w[oa], fromPin), PinIn(w[ob], toPin);
    assert w[oa] in w && w[ob] in w;
    PinIsOnItsSide(env, w[oa], fromPin);
    PinIsOnItsSide(env, w[ob], toPin);
    var plan := PlanConnect(w, d, env, fromPin, toPin);
    if a.output {
      PlanEditTakes(w, d, env, oa, a, ob, b);
    } else {
      PlanEditTakes(w, d, env, ob, b, oa, a);
    }
    if plan.node == oa && plan.pin == a {
      other, q := ob, b;
    } else {
      other, q := oa, a;
    }
  }

  /** The node of the edited module shows the topic on its socket's side. */
  lemma EditedNodeShows(env: Env, d: G.Doc, i: nat, sock: Socket, topic: string)
    requires i < |d.modules| && d.modules[i].typ in env.cat && sock in env.cat[d.modules[i].typ].sockets
    requires topic in SocketTopics(sock, d.modules[i].params, env.cat[d.modules[i].typ])
    requires !Unset(sock, d.modules[i].params, env.cat[d.modules[i].typ])
    ensures exists p :: p in PinsOf(Nodes(env, d.modules)[i], sock.output) && p.topic == topic
  {
    var m := d.modules[i];
    ModuleShowsItsSockets(env, NameOf(m, i), m, sock, topic);
    var side := Side(ModuleSides(env, NameOf(m, i), m), sock.output);
    var p :| p in side && p.topic == topic;
    assert p in PinsOf(Nodes(env, d.modules)[i], sock.output);
  }

  /** A pin of the edited module and one of another node, linked over the topic. */
  ghost predicate LinkedOver(nodes: seq<Node>, i: nat, output: bool, j: nat, topic: string) {
    exists p, q :: IsPinAt(nodes, i, output, topic, p) && IsPinAt(nodes, j, !output, topic, q)
                   && (if output then Linked(p, q) else Linked(q, p))
  }

  predicate IsPinAt(nodes: seq<Node>, i: nat, output: bool, topic: string, r: Ref) {
    r.node == i && r in Refs(nodes, output) && r.pin.topic == topic
  }

  /** Some link over the topic joins node i and node j, from i when `output`. */
  ghost predicate Wired(nodes: seq<Node>, links: seq<Link>, i: nat, output: bool, j: nat, topic: string)
    requires i < |nodes| && j < |nodes|
  {
    exists l :: l in links && l.topic == topic
      && l.fromNode == nodes[if output then i else j].name && l.toNode == nodes[if output then j else i].name
  }

  lemma LinkedOverIsALink(nodes: seq<Node>, i: nat, output: bool, j: nat, topic: string, links: seq<Link>)
    requires i < |nodes| && j < |nodes| && LinkedOver(nodes, i, output, j, topic) && IsLinkedUp(nodes, links)
    ensures Wired(nodes, links, i, output, j, topic)
  {
    var p, q :| IsPinAt(nodes, i, output, topic, p) && IsPinAt(nodes, j, !output, topic, q)
                && (if output then Linked(p, q) else Linked(q, p));
    var l := if output then LinkOf(nodes, p, q) else LinkOf(nodes, q, p);
    assert l in links;
  }

  lemma SameTopicLinks(nodes: seq<Node>, i: nat, output: bool, j: nat, topic: string, p: Pin, q: Pin)
    requires i < |nodes| && j < |nodes| && i != j && topic != ""
    requires p in PinsOf(nodes[i], output) && p.topic == topic
    requires q in PinsOf(nodes[j], !output) && q.topic == topic
    ensures LinkedOver(nodes, i, output, j, topic)
  {
    RefsAre(nodes, output, Ref(i, p));
    RefsAre(nodes, !output, Ref(j, q));
    var rp, rq := Ref(i, p), Ref(j, q);
    assert IsPinAt(nodes, i, output, topic, rp) && IsPinAt(nodes, j, !output, topic, rq);
    assert if output then Linked(rp, rq) else Linked(rq, rp);
  }

  /** The wire drawn is there: after a successful connect whose edit goes into a socket's params and lands, rebuilding
      the canvas gives a link over the other pin's topic, between the edited module and the other pin's node. */
  lemma ConnectLinks(s: G.State, env: Env, w: seq<Node>, fromPin: nat, toPin: nat, plan: Plan, sock: Socket, t: G.State,
                     again: seq<Node>, links: seq<Link>) returns (other: nat)
    requires Sound(s.doc) && w == Nodes(env, s.doc.modules)
    requires plan == PlanConnect(w, s.doc, env, fromPin, toPin) && plan.Edit? && plan.node < |w| && plan.topic != ""
    requires Current(s.doc, w[plan.node]) ==> EditsOwn(env, s.doc, w[plan.node], plan.pin, sock)
    requires Regular(sock, plan.topic) && Lands(s.doc, w[plan.node], plan.slot, sock, plan.topic)
    requires (Done, t) == Carry(s, w, env, plan)
    requires again == Nodes(env, t.doc.modules) && IsLinkedUp(again, links)
    ensures other < |w| == |again| && other != plan.node
    ensures exists q :: q in PinsOf(w[other], !plan.pin.output) && q.topic == plan.topic
    ensures Wired(again, links, plan.node, plan.pin.output, other, plan.topic)
  {
    var q;
    other, q := PlanOnTheCanvas(s.doc, env, w, fromPin, toPin, plan);
    EditIsOnAModule(s, env, w, plan, t);
    AssignDraws(s, env, w, plan.node, plan.pin, sock, plan.topic, other, q, t, again);
    LinkedOverIsALink(again, plan.node, plan.pin.output, other, plan.topic, links);
  }

  lemma PlanOnTheCanvas(d: G.Doc, env: Env, w: seq<Node>, fromPin: nat, toPin: nat, plan: Plan)
    returns (other: nat, q: Pin)
    requires Sound(d) && w == Nodes(env, d.modules) && plan == PlanConnect(w, d, env, fromPin, toPin) && plan.Edit?
    ensures plan.node < |w| && other < |w| && other != plan.node && plan.slot == Resolve(d, env, w[plan.node], plan.pin)
    ensures q in PinsOf(w[other], !plan.pin.output) && q.topic == plan.topic
  {
    NodesOk(env, d);
    other, q := PlanTakesTheOtherTopic(w, d, env, fromPin, toPin);
  }

  /** An edit that is done is on a module's node. */
  lemma EditIsOnAModule(s: G.State, env: Env, w: seq<Node>, plan: Plan, t: G.State)
    requires Sound(s.doc) && w == Nodes(env, s.doc.modules)
    requires plan.Edit? && plan.node < |w| && plan.slot == Resolve(s.doc, env, w[plan.node], plan.pin)
    requires (Done, t) == Carry(s, w, env, plan)
    ensures Current(s.doc, w[plan.node]) && w[plan.node].index == plan.node
    ensures (Done, t) == Assign(s, env, w[plan.node], plan.pin, Resolve(s.doc, env, w[plan.node], plan.pin), plan.topic)
  {
    ModulesAreCurrent(env, s.doc, w, plan.node, plan.pin);
  }

  lemma ModulesAreCurrent(env: Env, d: G.Doc, w: seq<Node>, i: nat, pin: Pin)
    requires Sound(d) && w == Nodes(env, d.modules) && i < |w| && !Resolve(d, env, w[i], pin).Fixed?
    ensures Current(d, w[i]) && w[i].index == i
  {
    NodesOk(env, d);
  }

  lemma AssignDraws(s: G.State, env: Env, w: seq<Node>, i: nat, pin: Pin, sock: Socket, topic: string, other: nat,
                    q: Pin, t: G.State, again: seq<Node>)
    requires w == Nodes(env, s.doc.modules) && i < |w| && Current(s.doc, w[i]) && w[i].index == i
    requires EditsOwn(env, s.doc, w[i], pin, sock) && topic != "" && Regular(sock, topic)
    requires Lands(s.doc, w[i], Resolve(s.doc, env, w[i], pin), sock, topic)
    requires (Done, t) == Assign(s, env, w[i], pin, Resolve(s.doc, env, w[i], pin), topic)
    requires other < |w| && other != i && q in PinsOf(w[other], !pin.output) && q.topic == topic
    requires again == Nodes(env, t.doc.modules)
    ensures |again| == |w| && LinkedOver(again, i, pin.output, other, topic) && OnlyParams(s.doc, t.doc, i)
  {
    EditedSocketDerives(s, env, w[i], pin, sock, topic);
    LinkAppears(s.doc, t.doc, env, w[i], sock, pin.output, topic, other, q);
  }

  lemma LinkAppears(d: G.Doc, e: G.Doc, env: Env, n: Node, sock: Socket, output: bool, topic: string, other: nat,
                    q: Pin)
    requires Current(d, n) && OnlyParams(d, e, n.index) && topic != ""
    requires n.typ in env.cat && sock in env.cat[n.typ].sockets && sock.output == output
    requires topic in SocketTopics(sock, e.modules[n.index].params, env.cat[n.typ])
    requires !Unset(sock, e.modules[n.index].params, env.cat[n.typ])
    requires other < |Nodes(env, d.modules)| && other != n.index
    requires q in PinsOf(Nodes(env, d.modules)[other], !output) && q.topic == topic
    ensures |Nodes(env, e.modules)| == |Nodes(env, d.modules)|
    ensures LinkedOver(Nodes(env, e.modules), n.index, output, other, topic)
  {
    var params :| e == G.WithParams(d, n.index, params);
    EditedNodeShows(env, e, n.index, sock, topic);
    var p :| p in PinsOf(Nodes(env, e.modules)[n.index], output) && p.topic == topic;
    SameTopicLinks(Nodes(env, e.modules), n.index, output, other, topic, p, q);
  }

  predicate OnePerPattern(ss: seq<Socket>) {
    forall i, j :: 0 <= i < j < |ss| && ss[i].pattern == ss[j].pattern ==> ss[i].output != ss[j].output
  }

  lemma {:induction false} SocketIsFound(ss: seq<Socket>, k: nat)
    requires OnePerPattern(ss) && k < |ss|
    ensures SocketOf(ss, ss[k].pattern, ss[k].output) == Some(ss[k])
  {
    if k < |ss| - 1 {
      SocketIsFound(ss[..|ss| - 1], k);
    }
  }

  /** The placeholder pin of an unset socket resolves to that socket, and its edit goes there. */
  lemma PlaceholderSuits(env: Env, d: G.Doc, n: Node, sock: Socket)
    requires Current(d, n) && n.typ in env.cat && sock in env.cat[n.typ].sockets && sock.params != []
    requires OnePerPattern(env.cat[n.typ].sockets)
    ensures var pin := PlaceholderPin(env, n.name, sock);
            Suits(env, n, pin, Resolve(d, env, n, pin), sock) && EditsOwn(env, d, n, pin, sock)
  {
    var ss := env.cat[n.typ].sockets;
    var k :| 0 <= k < |ss| && ss[k] == sock;
    SocketIsFound(ss, k);
  }

  // ---------------------------------------------------------------- disconnecting takes it back

  /** The module keeps its place and its name through an edit of its params. */
  lemma StaysCurrent(d: G.Doc, n: Node, params: Object)
    requires Current(d, n)
    ensures Current(G.WithParams(d, n.index, params), n)
    ensures G.WithParams(d, n.index, params).modules[n.index].params == params
  {
    SameIndex(d, n.index, params, n.name);
  }

  /** Clearing the pin that a scalar socket got by a connect takes the param away again: the params are what they were
      exactly when the param was absent. */
  lemma ClearUndoesScalar(s: G.State, env: Env, n: Node, pin: Pin, key: string, topic: string, t: G.State)
    requires Current(s.doc, n) && !pin.placeholder && pin.topic == topic
    requires Nowhere(s.doc.modules[n.index].params, topic)
    requires t.doc == G.WithParams(s.doc, n.index, Put(s.doc.modules[n.index].params, key, Str(topic)))
    ensures var params, r := s.doc.modules[n.index].params, Clear(t, env, n, pin);
            && r.0 == Done && r.1.doc == G.WithParams(s.doc, n.index, Erase(params, key))
            && (r.1.doc == s.doc <==> Get(params, key).None?)
  {
    var params := s.doc.modules[n.index].params;
    var held := Put(params, key, Str(topic));
    StaysCurrent(s.doc, n, held);
    ScalarIsFound(params, key, topic);
    GetPut(params, key, Str(topic), key);
    EraseAfterPut(params, key, Str(topic));
    WrittenTwice(s.doc, n.index, held, Erase(params, key));
    assert G.WithParams(s.doc, n.index, Erase(params, key)).modules[n.index].params == Erase(params, key);
  }

  /** Clearing the pin that a list socket got takes the entry away again: the param is left the list it was, empty if it
      was none, so the params are what they were exactly when it was a list. */
  lemma ClearUndoesEntry(s: G.State, env: Env, n: Node, pin: Pin, key: string, topic: string, t: G.State)
    requires Current(s.doc, n) && !pin.placeholder && pin.topic == topic
    requires Nowhere(s.doc.modules[n.index].params, topic)
    requires t.doc == G.WithParams(s.doc, n.index, Put(s.doc.modules[n.index].params, key,
                                                       Arr(ListAt(s.doc, n.name, key) + [Str(topic)])))
    ensures var params, r := s.doc.modules[n.index].params, Clear(t, env, n, pin);
            && r.0 == Done
            && r.1.doc == G.WithParams(s.doc, n.index, Put(params, key, Arr(ListAt(s.doc, n.name, key))))
            && (r.1.doc == s.doc <==> Get(params, key).Some? && Get(params, key).value.Arr?)
  {
    var params, items := s.doc.modules[n.index].params, ListAt(s.doc, n.name, key);
    var longer := items + [Str(topic)];
    HeldTopicIsElsewhere(params, key, topic);
    StaysCurrent(s.doc, n, Put(params, key, Arr(longer)));
    ListHasNoScalar(params, key, longer, topic);
    EntryIsFound(params, key, items, topic);
    GetPut(params, key, Arr(longer), key);
    ClearsLast(t, env, n, pin, key, items, topic);
    PutAfterPut(params, key, Arr(longer), Arr(items));
    WrittenTwice(s.doc, n.index, Put(params, key, Arr(longer)), Put(params, key, Arr(items)));
    GetPut(params, key, Arr(items), key);
    PutAfterPut(params, key, Arr(items), Arr(items));
    var after := G.WithParams(s.doc, n.index, Put(params, key, Arr(items)));
    assert after.modules[n.index].params == Put(params, key, Arr(items));
  }

  lemma ClearsLast(t: G.State, env: Env, n: Node, pin: Pin, key: string, items: seq<Json>, topic: string)
    requires Current(t.doc, n) && Resolve(t.doc, env, n, pin) == ListEntry(key, |items|)
    requires Get(t.doc.modules[n.index].params, key) == Some(Arr(items + [Str(topic)]))
    ensures var r := Clear(t, env, n, pin);
            r.0 == Done
            && r.1.doc == G.WithParams(t.doc, n.index, Put(t.doc.modules[n.index].params, key, Arr(items)))
  {
    var longer := items + [Str(topic)];
    assert longer[..|items|] + longer[|items| + 1..] == items;
    SetTopicAt(t, n, key, Arr(items));
  }

  lemma WrittenTwice(d: G.Doc, i: nat, params: Object, again: Object)
    requires i < |d.modules|
    ensures G.WithParams(G.WithParams(d, i, params), i, again) == G.WithParams(d, i, again)
    ensures again == d.modules[i].params ==> G.WithParams(d, i, again) == d
  {
    assert d.modules[i := d.modules[i]] == d.modules;
    assert d.modules[i := d.modules[i].(params := params)][i := d.modules[i].(params := again)]
        == d.modules[i := d.modules[i].(params := again)];
  }

  /** A clear of the pin succeeds: its topic is alone in a param, or is in a list, or there is none to clear. */
  predicate Clearable(d: G.Doc, env: Env, n: Node, p: Pin) {
    match Resolve(d, env, n, p)
    case ListEntry(param, i) => i < |ListAt(d, n.name, param)|
    case Composed => false
    case Fixed => false
    case _ => true
  }

  /** On a module whose keys are unique only composed and fixed topics cannot be cleared. */
  lemma ClearableIffFound(d: G.Doc, env: Env, n: Node, p: Pin)
    requires Current(d, n) && UniqueKeys(d.modules[n.index].params)
    ensures var slot := Resolve(d, env, n, p); Clearable(d, env, n, p) <==> !slot.Composed? && !slot.Fixed?
  {
    var params := d.modules[n.index].params;
    if Resolve(d, env, n, p).ListEntry? {
      SlotHoldsTheTopic(d, env, n, p);
      var (key, i) := FirstEntry(params, p.topic).value;
      var k: nat :| FirstLists(params, key, p.topic, k) && HoldsTopic(params[k].value, p.topic, i);
      GetIsTheField(params, k);
    }
  }

  /** Clearing a pin of one module is done exactly when it is clearable, and touches no other module. */
  lemma ClearIsLocal(s: G.State, env: Env, n: Node, p: Pin, j: nat)
    requires Current(s.doc, n) && j < |s.doc.modules| && j != n.index
    ensures var r := Clear(s, env, n, p);
            && (r.0.Done? <==> Clearable(s.doc, env, n, p))
            && (r.0.Refused? ==> r.1 == s)
            && |r.1.doc.modules| == |s.doc.modules| && r.1.doc.modules[j] == s.doc.modules[j]
  {
  }

  /** What one module's edit leaves another's pin: the same slot, as clearable as before. */
  lemma OtherModuleResolves(d: G.Doc, i: nat, params: Object, env: Env, n: Node, p: Pin)
    requires i < |d.modules| && Current(d, n) && n.index != i
    ensures var e := G.WithParams(d, i, params);
            Current(e, n) && Resolve(e, env, n, p) == Resolve(d, env, n, p)
            && (Clearable(e, env, n, p) <==> Clearable(d, env, n, p))
  {
    SameIndex(d, i, params, n.name);
  }

  /** The document before the wiring, a list that was absent left empty. */
  function Restored(d: G.Doc, n: Node, sock: Socket): G.Doc
    requires 0 <= n.index < |d.modules| && |sock.params| == 1
  {
    var params := d.modules[n.index].params;
    if sock.list && Get(params, sock.params[0]).None?
    then G.WithParams(d, n.index, Put(params, sock.params[0], Arr([])))
    else d
  }

  /** The socket's param is absent, or it is the list of a list socket. */
  predicate AbsentOrList(params: Object, sock: Socket)
    requires |sock.params| == 1
  {
    var v := Get(params, sock.params[0]);
    v.None? || (sock.list && v.value.Arr?)
  }

  /** t is s after the socket of n took the topic, which is nowhere else in the module's params. */
  ghost predicate WiredFrom(s: G.State, env: Env, n: Node, hole: Pin, sock: Socket, topic: string, t: G.State) {
    && Current(s.doc, n) && |sock.params| == 1 && sock.params[0] != ""
    && Suits(env, n, hole, Open(sock.params[0], sock.list), sock)
    && Nowhere(s.doc.modules[n.index].params, topic)
    && (Done, t) == Assign(s, env, n, hole, Open(sock.params[0], sock.list), topic)
  }

  /** e is n on another canvas, showing the topic live on pin p. */
  predicate Shows(e: Node, n: Node, p: Pin, topic: string) {
    e.kind == Module && e.name == n.name && e.index == n.index && e.typ == n.typ && !p.placeholder && p.topic == topic
  }

  /** Clearing the socket's own pin gives everything back, unless the param was there and blank. */
  lemma OwnPinRestores(s: G.State, env: Env, n: Node, hole: Pin, sock: Socket, topic: string, t: G.State, e: Node,
                       p: Pin)
    requires WiredFrom(s, env, n, hole, sock, topic, t) && Shows(e, n, p, topic)
    ensures var r := Clear(t, env, e, p);
            && r.0 == Done
            && (r.1.doc == Restored(s.doc, n, sock) <==> AbsentOrList(s.doc.modules[n.index].params, sock))
  {
    var key := sock.params[0];
    if sock.list {
      SetTopicAt(s, n, key, Arr(ListAt(s.doc, n.name, key) + [Str(topic)]));
      ClearUndoesEntry(s, env, e, p, key, topic, t);
    } else {
      SetTopicAt(s, n, key, Str(topic));
      ClearUndoesScalar(s, env, e, p, key, topic, t);
    }
  }

  /** While the topic is in the socket's param, nothing is restored. */
  lemma HeldIsNotRestored(s: G.State, env: Env, n: Node, hole: Pin, sock: Socket, topic: string, t: G.State, d: G.Doc)
    requires WiredFrom(s, env, n, hole, sock, topic, t)
    requires |d.modules| == |t.doc.modules| && d.modules[n.index] == t.doc.modules[n.index]
    ensures d != Restored(s.doc, n, sock)
  {
    var params, key := s.doc.modules[n.index].params, sock.params[0];
    var items := ListAt(s.doc, n.name, key);
    var value := if sock.list then Arr(items + [Str(topic)]) else Str(topic);
    SetTopicAt(s, n, key, value);
    GetPut(params, key, value, key);
    GetPut(params, key, Arr([]), key);
    HeldTopicIsElsewhere(params, key, topic);
    assert Get(d.modules[n.index].params, key) == Some(value);
  }

  /** Wiring a one-param socket and removing the wire: the removal always succeeds, and it restores the document, an
      absent list left empty, if and only if the param was absent or a list, and the socket is the wire's consumer, or
      the consumer is no module, or its topic cannot be cleared.  For any other consumer the socket keeps the topic. */
  lemma DisconnectRestores(s: G.State, env: Env, n: Node, hole: Pin, sock: Socket, topic: string, t: G.State,
                           w: seq<Node>, link: Link, consumer: bool)
    requires WiredFrom(s, env, n, hole, sock, topic, t)
    requires OwnerOf(w, link.toPin).Some? && OwnerOf(w, link.fromPin).Some?
    requires var nd, ns := w[OwnerOf(w, link.toPin).value], w[OwnerOf(w, link.fromPin).value];
             if consumer then Shows(nd, n, PinIn(nd, link.toPin), topic)
             else Shows(ns, n, PinIn(ns, link.fromPin), topic)
                  && (nd.kind == Module ==> Current(s.doc, nd) && nd.index != n.index)
    ensures var nd, r := w[OwnerOf(w, link.toPin).value], Unlink(t, w, env, link);
            && r.0 == Done
            && (r.1.doc == Restored(s.doc, n, sock) <==>
                  && AbsentOrList(s.doc.modules[n.index].params, sock)
                  && (consumer || nd.kind != Module || !Clearable(s.doc, env, nd, PinIn(nd, link.toPin))))
  {
    var nd, ns := w[OwnerOf(w, link.toPin).value], w[OwnerOf(w, link.fromPin).value];
    if consumer {
      OwnPinRestores(s, env, n, hole, sock, topic, t, nd, PinIn(nd, link.toPin));
    } else {
      OwnPinRestores(s, env, n, hole, sock, topic, t, ns, PinIn(ns, link.fromPin));
      if nd.kind == Module {
        ConsumerIsClearedFirst(s, env, n, hole, sock, topic, t, nd, PinIn(nd, link.toPin));
      }
    }
  }

  /** Clearing the consumer of a socket wired as the producer gives nothing back. */
  lemma ConsumerIsClearedFirst(s: G.State, env: Env, n: Node, hole: Pin, sock: Socket, topic: string, t: G.State,
                               nd: Node, dst: Pin)
    requires WiredFrom(s, env, n, hole, sock, topic, t) && Current(s.doc, nd) && nd.index != n.index
    ensures var r := Clear(t, env, nd, dst);
            && (r.0.Done? <==> Clearable(s.doc, env, nd, dst))
            && (r.0.Refused? ==> r.1 == t)
            && r.1.doc != Restored(s.doc, n, sock)
  {
    var key := sock.params[0];
    var value := if sock.list then Arr(ListAt(s.doc, n.name, key) + [Str(topic)]) else Str(topic);
    SetTopicAt(s, n, key, value);
    OtherModuleResolves(s.doc, n.index, Put(s.doc.modules[n.index].params, key, value), env, nd, dst);
    ClearIsLocal(t, env, nd, dst, n.index);
    HeldIsNotRestored(s, env, n, hole, sock, topic, t, Clear(t, env, nd, dst).1.doc);
  }

  function OutputHole(): Pin {
    Pin(1, "a", true, "", "{out}", "Unknown", false, true, false, true, false, false, false, "out")
  }

  function InputPin(): Pin {
    Pin(2, "b", false, "x", "x", "Unknown", false, true, false, false, false, false, false, "")
  }

  /** The canvas of a producer a, its output as given, and a consumer b of topic x. */
  function TwoNodes(output: Pin): seq<Node> {
    [Node(Module, "a", "A", "", 0, SetUp, [], [output]), Node(Module, "b", "B", "", 1, SetUp, [InputPin()], [])]
  }

  lemma TwoOwners(output: Pin)
    requires output.id == 1
    ensures var w := TwoNodes(output);
            && OwnerOf(w, 1) == Some(0) && PinIn(w[0], 1) == output
            && OwnerOf(w, 2) == Some(1) && PinIn(w[1], 2) == InputPin()
  {
    var w := TwoNodes(output);
    assert FirstPin([output], 1) == Some(output) && FirstPin([InputPin()], 2) == Some(InputPin());
    assert FirstPin([output][1..], 2).None?;
    assert !HasPin(w[0], 2) && HasPin(w[1], 2);
    assert OwnerOf(w[1..], 2) == Some(0);
  }

  /** The consumer's own topic is erased. */
  lemma ConsumerLosesIt(t: G.State, env: Env, held: Object)
    requires t.doc.modules == [G.Module("a", "A", held, []), G.Module("b", "B", [Field("in", Str("x"))], [])]
    ensures var u := Clear(t, env, TwoNodes(OutputHole())[1], InputPin());
            u.0 == Done && u.1.doc.modules == [G.Module("a", "A", held, []), G.Module("b", "B", [], [])]
  {
    assert FirstScalar([Field("in", Str("x"))], "x") == Some("in");
    assert Erase([Field("in", Str("x"))], "in") == [];
    assert G.IndexOf(t.doc.modules, "b") == 1;
  }

  /** The family's plainest member: wire a's unset output to b's topic, then remove the wire.  Both edits are done; a
      keeps the topic and b's own param is gone. */
  lemma ProducerKeepsTheTopic(s: G.State, env: Env, link: Link)
    requires env.cat == map[] && link.fromPin == 1 && link.toPin == 2
    requires s.doc.modules == [G.Module("a", "A", [], []), G.Module("b", "B", [Field("in", Str("x"))], [])]
    ensures var plan := PlanConnect(TwoNodes(OutputHole()), s.doc, env, 1, 2);
            && plan == Edit(0, OutputHole(), Open("out", false), "x")
            && var r := Carry(s, TwoNodes(OutputHole()), env, plan);
               var u := Unlink(r.1, TwoNodes(OutputHole().(topic := "x", placeholder := false)), env, link);
               && r.0 == Done && u.0 == Done
               && u.1.doc.modules == [G.Module("a", "A", [Field("out", Str("x"))], []), G.Module("b", "B", [], [])]
  {
    TwoOwners(OutputHole());
    TwoOwners(OutputHole().(topic := "x", placeholder := false));
    var n, held := TwoNodes(OutputHole())[0], [Field("out", Str("x"))];
    assert G.IndexOf(s.doc.modules, "a") == 0;
    SetTopicAt(s, n, "out", Str("x"));
    assert Put([], "out", Str("x")) == held;
    ConsumerLosesIt(SetTopic(s, "a", "out", Str("x")).1, env, held);
  }

  /** An empty list counts as absent: it is as unset as no param, and gives no topic. */
  lemma EmptyListIsUnset(sock: Socket, params: Object, ti: TypeInfo)
    requires sock.list && |sock.params| == 1
    ensures var empty := Put(params, sock.params[0], Arr([]));
            Unset(sock, empty, ti) && SocketTopics(sock, empty, ti) == []
  {
    var empty := Put(params, sock.params[0], Arr([]));
    GetPut(params, sock.params[0], Arr([]), sock.params[0]);
    assert sock.params[0] in sock.params && Blank(Effective(empty, ti, sock.params[0]));
    NothingToFill(empty, ti, sock.params);
  }
}
