/** brain_builder/src/Wiring.cpp: which pin an id leads back to, and a wire from being drawn to being removed. */
module Wires {
  import opened Build
  import opened Canvas
  import opened Connect
  import opened ConnectLaws
  import opened Json
  import opened Prelude
  import opened Slots
  import opened Sockets
  import opened Text
  import opened Topics
  import opened Wiring
  import G = Graph

  // ---------------------------------------------------------------- ids of pins

  predicate NoColon(name: string) {
    !Contains(name, ':')
  }

  function SideKey(output: bool, key: string): string {
    (if output then "out:" else "in:") + key
  }

  lemma PinKeyEndsTheName(name: string, output: bool, key: string)
    requires NoColon(name)
    ensures var s := PinKey(name, output, key)[4..];
            && IndexOf(s, ':') == |name| < |s|
            && s[..|name|] == name && s[|name| + 1..] == SideKey(output, key)
  {
    var s := PinKey(name, output, key)[4..];
    assert s == name + ":" + SideKey(output, key);
    assert s[|name|] == ':' && forall j :: 0 <= j < |name| ==> s[j] == name[j];
    IndexOfFirst(s, ':', |name|);
  }

  lemma SideKeyIsInjective(output: bool, key: string, output': bool, key': string)
    requires SideKey(output, key) == SideKey(output', key')
    ensures output == output' && key == key'
  {
    assert SideKey(output, key)[0] == if output then 'o' else 'i';
    assert SideKey(output', key')[0] == if output' then 'o' else 'i';
    assert SideKey(output, key)[if output then 4 else 3..] == key;
    assert SideKey(output', key')[if output' then 4 else 3..] == key';
  }

  /** Names without a colon keep the keys of pins apart. */
  lemma PinKeyIsInjective(name: string, output: bool, key: string, name': string, output': bool, key': string)
    requires NoColon(name) && NoColon(name') && PinKey(name, output, key) == PinKey(name', output', key')
    ensures name == name' && output == output' && key == key'
  {
    PinKeyEndsTheName(name, output, key);
    PinKeyEndsTheName(name', output', key');
    SideKeyIsInjective(output, key, output', key');
  }

  /** A name with a colon does not: whatever the hash, two pins of two nodes then have one id. */
  lemma ColonsCollide(env: Env)
    ensures MakePin(env, "a", false, "in:x", "in:x").id == MakePin(env, "a:in", false, "x", "x").id
  {
    assert PinKey("a", false, "in:x") == "pin:a:in:in:x" == PinKey("a:in", false, "x");
  }

  function PinsAll(n: Node): seq<Pin> {
    n.inputs + n.outputs
  }

  /** No two keys on the canvas share a hash. */
  ghost predicate NoCollisions(w: seq<Node>) {
    forall i, j, p, q :: 0 <= i < |w| && 0 <= j < |w| && p in PinsAll(w[i]) && q in PinsAll(w[j]) && p.id == q.id ==>
      PinKey(w[i].name, p.output, KeyIn(p)) == PinKey(w[j].name, q.output, KeyIn(q))
  }

  /** Nodes can be told apart by their names, also inside a key. */
  ghost predicate ToldApart(w: seq<Node>) {
    && (forall i, j :: 0 <= i < j < |w| ==> w[i].name != w[j].name)
    && (forall i :: 0 <= i < |w| ==> NoColon(w[i].name))
  }

  /** An id leads to the first node that shows a pin of that id. */
  lemma {:induction false} OwnerIsTheFirst(w: seq<Node>, id: nat, i: nat)
    requires i < |w|
    ensures OwnerOf(w, id) == Some(i) <==> HasPin(w[i], id) && forall j :: 0 <= j < i ==> !HasPin(w[j], id)
  {
    if i > 0 && !HasPin(w[0], id) {
      OwnerIsTheFirst(w[1..], id, i - 1);
      assert forall j :: 0 < j < |w| ==> w[1..][j - 1] == w[j];
    }
  }

  lemma {:induction false} FirstPinFinds(pins: seq<Pin>, id: nat)
    ensures FirstPin(pins, id).Some? <==> exists p :: p in pins && p.id == id
    ensures FirstPin(pins, id).Some? ==> FirstPin(pins, id).value in pins && FirstPin(pins, id).value.id == id
  {
    if pins != [] {
      FirstPinFinds(pins[1..], id);
      assert pins == [pins[0]] + pins[1..];
    }
  }

  lemma PinInIsThere(n: Node, id: nat)
    ensures HasPin(n, id) <==> exists p :: p in PinsAll(n) && p.id == id
    ensures HasPin(n, id) ==> PinIn(n, id) in PinsAll(n) && PinIn(n, id).id == id
  {
    FirstPinFinds(n.inputs, id);
    FirstPinFinds(n.outputs, id);
  }

  /** With colon-free names and no collision, a pin's id leads back to its own node, and there to a pin of the same
      direction and key. */
  lemma IdLeadsHome(w: seq<Node>, i: nat, p: Pin)
    requires ToldApart(w) && NoCollisions(w) && i < |w| && p in PinsAll(w[i])
    ensures OwnerOf(w, p.id) == Some(i)
    ensures var q := PinIn(w[i], p.id); q in PinsAll(w[i]) && q.output == p.output && KeyIn(q) == KeyIn(p)
  {
    PinInIsThere(w[i], p.id);
    SameIdSameKey(w, i, p, i, PinIn(w[i], p.id));
    forall j | 0 <= j < i ensures !HasPin(w[j], p.id) {
      PinInIsThere(w[j], p.id);
      if HasPin(w[j], p.id) {
        SameIdSameKey(w, i, p, j, PinIn(w[j], p.id));
      }
    }
    OwnerIsTheFirst(w, p.id, i);
  }

  lemma SameIdSameKey(w: seq<Node>, i: nat, p: Pin, j: nat, q: Pin)
    requires ToldApart(w) && NoCollisions(w) && i < |w| && j < |w|
    requires p in PinsAll(w[i]) && q in PinsAll(w[j]) && p.id == q.id
    ensures i == j && p.output == q.output && KeyIn(p) == KeyIn(q)
  {
    PinKeyIsInjective(w[i].name, p.output, KeyIn(p), w[j].name, q.output, KeyIn(q));
  }

  /** A topic that is no key of a placeholder. */
  predicate OwnTopic(topic: string) {
    topic != "" && topic != "+" && !("param:" <= topic)
  }

  /** A live pin's id leads to a live pin of the same topic. */
  lemma LiveIdLeadsHome(env: Env, w: seq<Node>, i: nat, p: Pin)
    requires ToldApart(w) && NoCollisions(w) && i < |w| && NodeOk(env, w[i]) && p in PinsAll(w[i]) && OwnTopic(p.topic)
    ensures OwnerOf(w, p.id) == Some(i)
    ensures var q := PinIn(w[i], p.id); !q.placeholder && q.topic == p.topic && q.output == p.output
  {
    IdLeadsHome(w, i, p);
    var q := PinIn(w[i], p.id);
    assert KeyIn(p) == p.topic;
    assert q.placeholder && !q.plus ==> "param:" <= KeyIn(q);
  }

  // ---------------------------------------------------------------- the canvas of a document

  /** Ids are the modules' own, and hold no colon. */
  ghost predicate PlainIds(ms: seq<G.Module>) {
    OwnIds(ms) && forall m :: m in ms ==> NoColon(m.id)
  }

  lemma NodeHasNoColon(env: Env, ms: seq<G.Module>, i: nat)
    requires PlainIds(ms) && i < |Nodes(env, ms)|
    ensures NoColon(Nodes(env, ms)[i].name)
  {
    NodesAre(env, ms, i);
    if i < |ms| {
      assert ms[i] in ms;
    }
  }

  lemma CanvasIsToldApart(env: Env, ms: seq<G.Module>)
    requires PlainIds(ms)
    ensures ToldApart(Nodes(env, ms))
  {
    var w := Nodes(env, ms);
    BuiltIsWellNamed(env, ms);
    forall i | 0 <= i < |w| ensures NoColon(w[i].name) {
      NodeHasNoColon(env, ms, i);
    }
  }

  /** An edit of one module's params leaves the other nodes as they were. */
  lemma OtherNodesStay(env: Env, d: G.Doc, e: G.Doc, i: nat, j: nat)
    requires OnlyParams(d, e, i) && j < |Nodes(env, d.modules)| && j != i
    ensures j < |Nodes(env, e.modules)| && Nodes(env, e.modules)[j] == Nodes(env, d.modules)[j]
  {
    var params :| e == G.WithParams(d, i, params);
    assert j < |d.modules| ==> e.modules[j] == d.modules[j];
  }

  lemma IdsStay(d: G.Doc, e: G.Doc, i: nat)
    requires OnlyParams(d, e, i) && PlainIds(d.modules)
    ensures PlainIds(e.modules) && |e.modules| == |d.modules|
    ensures e.modules[i].id == d.modules[i].id && e.modules[i].typ == d.modules[i].typ
  {
    var params :| e == G.WithParams(d, i, params);
    assert G.Ids(e.modules) == G.Ids(d.modules);
    forall m | m in e.modules ensures m.id !in {"", "@sources", "@sinks", "@events"} && NoColon(m.id) {
      var k :| 0 <= k < |e.modules| && e.modules[k] == m;
      assert d.modules[k] in d.modules && m.id == d.modules[k].id;
    }
  }

  lemma PlainIsSound(d: G.Doc)
    requires PlainIds(d.modules)
    ensures Sound(d)
  {
  }

  /** A link over the topic, from or to the edited node i. */
  ghost predicate Draws(nodes: seq<Node>, i: nat, output: bool, j: nat, topic: string, l: Link) {
    exists p, q :: IsPinAt(nodes, i, output, topic, p) && IsPinAt(nodes, j, !output, topic, q)
                   && p.node < |nodes| && q.node < |nodes|
                   && l == if output then LinkOf(nodes, p, q) else LinkOf(nodes, q, p)
  }

  /** The id leads to node i, and there to a live pin of the topic. */
  ghost predicate LeadsTo(w: seq<Node>, id: nat, i: nat, output: bool, topic: string) {
    && i < |w| && OwnerOf(w, id) == Some(i)
    && var p := PinIn(w[i], id); !p.placeholder && p.topic == topic && p.output == output
  }

  lemma RefLeadsHome(env: Env, w: seq<Node>, i: nat, output: bool, topic: string, r: Ref)
    requires ToldApart(w) && NoCollisions(w) && i < |w| && NodeOk(env, w[i])
    requires IsPinAt(w, i, output, topic, r) && OwnTopic(topic)
    ensures LeadsTo(w, r.pin.id, i, output, topic)
  {
    RefsAre(w, output, r);
    LiveIdLeadsHome(env, w, i, r.pin);
  }

  /** The ends of a drawn link lead back to the two nodes, and to pins that are live with the topic. */
  lemma DrawnEnds(env: Env, w: seq<Node>, i: nat, output: bool, j: nat, topic: string, l: Link)
    requires ToldApart(w) && NoCollisions(w) && i < |w| && j < |w| && NodeOk(env, w[i]) && NodeOk(env, w[j])
    requires Draws(w, i, output, j, topic, l) && OwnTopic(topic)
    ensures LeadsTo(w, l.toPin, if output then j else i, false, topic)
    ensures LeadsTo(w, l.fromPin, if output then i else j, true, topic)
  {
    var a, b :| IsPinAt(w, i, output, topic, a) && IsPinAt(w, j, !output, topic, b)
                && a.node < |w| && b.node < |w| && l == if output then LinkOf(w, a, b) else LinkOf(w, b, a);
    RefLeadsHome(env, w, i, output, topic, a);
    RefLeadsHome(env, w, j, !output, topic, b);
  }

  lemma LinkedDraws(nodes: seq<Node>, i: nat, output: bool, j: nat, topic: string, links: seq<Link>) returns (l: Link)
    requires i < |nodes| && j < |nodes| && LinkedOver(nodes, i, output, j, topic) && IsLinkedUp(nodes, links)
    ensures l in links && Draws(nodes, i, output, j, topic, l) && l.topic == topic
  {
    var p, q :| IsPinAt(nodes, i, output, topic, p) && IsPinAt(nodes, j, !output, topic, q)
                && (if output then Linked(p, q) else Linked(q, p));
    l := if output then LinkOf(nodes, p, q) else LinkOf(nodes, q, p);
  }

  // ---------------------------------------------------------------- drawn, then removed

  /** Which slot a live pin has depends on its topic and direction alone. */
  lemma SlotOfTopic(d: G.Doc, env: Env, n: Node, p: Pin, q: Pin)
    requires !p.placeholder && !q.placeholder && p.topic == q.topic && p.output == q.output
    ensures Clearable(d, env, n, p) <==> Clearable(d, env, n, q)
  {
  }

  /** What the plan wires: an unset one-param socket of a module, to a topic that is nowhere in the module's params. */
  ghost predicate WiresUnset(s: G.State, env: Env, n: Node, hole: Pin, sock: Socket, topic: string) {
    && Current(s.doc, n) && hole.placeholder && |sock.params| == 1 && EditsOwn(env, s.doc, n, hole, sock)
    && Lands(s.doc, n, Resolve(s.doc, env, n, hole), sock, topic)
    && Nowhere(s.doc.modules[n.index].params, topic)
  }

  lemma UnsetIsWiredFrom(s: G.State, env: Env, n: Node, hole: Pin, sock: Socket, topic: string, t: G.State)
    requires WiresUnset(s, env, n, hole, sock, topic)
    requires (Done, t) == Assign(s, env, n, hole, Resolve(s.doc, env, n, hole), topic)
    ensures WiredFrom(s, env, n, hole, sock, topic, t)
  {
    SlotSuitsIffOwn(env, s.doc, n, hole, sock);
  }

  /** Draw a wire from an unset socket, rebuild the canvas, remove the wire that appeared: the removal succeeds, and
      the document is what it was (an absent list left empty) if and only if the param was absent or a list, and the
      socket is the wire's consumer, or the consumer is no module, or its topic cannot be cleared. */
  lemma DrawThenRemove(s: G.State, env: Env, w: seq<Node>, fromPin: nat, toPin: nat, plan: Plan, sock: Socket,
                       t: G.State, again: seq<Node>, links: seq<Link>) returns (other: nat, q: Pin, l: Link)
    requires PlainIds(s.doc.modules) && w == Nodes(env, s.doc.modules)
    requires plan == PlanConnect(w, s.doc, env, fromPin, toPin) && plan.Edit? && plan.node < |w| && OwnTopic(plan.topic)
    requires Current(s.doc, w[plan.node]) ==> WiresUnset(s, env, w[plan.node], plan.pin, sock, plan.topic)
    requires (Done, t) == Carry(s, w, env, plan)
    requires again == Nodes(env, t.doc.modules) && IsLinkedUp(again, links) && NoCollisions(again)
    ensures Current(s.doc, w[plan.node]) && |sock.params| == 1
    ensures other < |w| == |again| && other != plan.node
    ensures q in PinsOf(w[other], !plan.pin.output) && q.topic == plan.topic
    ensures l in links && Draws(again, plan.node, plan.pin.output, other, plan.topic, l)
    ensures var r := Unlink(t, again, env, l);
            && r.0 == Done
            && (r.1.doc == Restored(s.doc, w[plan.node], sock) <==>
                  && AbsentOrList(s.doc.modules[w[plan.node].index].params, sock)
                  && (!plan.pin.output || w[other].kind != Module || !Clearable(s.doc, env, w[other], q)))
  {
    PlainIsSound(s.doc);
    other, q := PlanOnTheCanvas(s.doc, env, w, fromPin, toPin, plan);
    EditIsOnAModule(s, env, w, plan, t);
    AssignDraws(s, env, w, plan.node, plan.pin, sock, plan.topic, other, q, t, again);
    l := LinkedDraws(again, plan.node, plan.pin.output, other, plan.topic, links);
    UnsetIsWiredFrom(s, env, w[plan.node], plan.pin, sock, plan.topic, t);
    RemoveDrawn(s, env, w, plan.node, plan.pin, sock, plan.topic, t, again, other, q, l);
  }

  lemma RemoveDrawn(s: G.State, env: Env, w: seq<Node>, i: nat, hole: Pin, sock: Socket, topic: string, t: G.State,
                    again: seq<Node>, j: nat, q: Pin, l: Link)
    requires PlainIds(s.doc.modules) && w == Nodes(env, s.doc.modules)
    requires i < |w| && j < |w| && i != j && w[i].index == i
    requires WiredFrom(s, env, w[i], hole, sock, topic, t) && OnlyParams(s.doc, t.doc, i) && OwnTopic(topic)
    requires q in PinsOf(w[j], !hole.output) && q.topic == topic
    requires again == Nodes(env, t.doc.modules) && |again| == |w| && NoCollisions(again)
    requires Draws(again, i, hole.output, j, topic, l)
    ensures var r := Unlink(t, again, env, l);
            && r.0 == Done
            && (r.1.doc == Restored(s.doc, w[i], sock) <==>
                  && AbsentOrList(s.doc.modules[i].params, sock)
                  && (!hole.output || w[j].kind != Module || !Clearable(s.doc, env, w[j], q)))
  {
    IdsStay(s.doc, t.doc, i);
    PlainIsSound(s.doc);
    PlainIsSound(t.doc);
    CanvasIsToldApart(env, t.doc.modules);
    NodesOk(env, s.doc);
    NodesOk(env, t.doc);
    OtherNodesStay(env, s.doc, t.doc, i, j);
    DrawnEnds(env, again, i, hole.output, j, topic, l);
    NodesAre(env, s.doc.modules, i);
    NodesAre(env, t.doc.modules, i);
    assert w[j] in w && q in PinsAll(w[j]);
    if hole.output {
      SlotOfTopic(s.doc, env, w[j], q, PinIn(again[j], l.toPin));
    }
    DisconnectRestores(s, env, w[i], hole, sock, topic, t, again, l, !hole.output);
  }

  // ---------------------------------------------------------------- sockets of several params

  lemma {:induction false} NoEntry(params: Object, topic: string)
    requires Nowhere(params, topic)
    ensures FirstEntry(params, topic).None?
  {
    if params != [] {
      assert params[0] in params;
      NoEntry(params[1..], topic);
    }
  }

  /** t is s after a socket of several params, its pattern's placeholders, was split the topic, which is then in none of
      the module's params. */
  ghost predicate SplitFrom(s: G.State, env: Env, n: Node, sock: Socket, topic: string, t: G.State) {
    && Current(s.doc, n) && n.typ in env.cat && sock in env.cat[n.typ].sockets
    && |sock.params| >= 2 && Regular(sock, topic) && Wirable(sock, topic)
    && (Done, t) == AssignSplit(s, n.name, sock.pattern, topic)
    && 0 <= n.index < |t.doc.modules| && Nowhere(ParamsAfter(t, n), topic)
  }

  lemma SplitComposes(s: G.State, env: Env, n: Node, sock: Socket, topic: string, t: G.State)
    requires SplitFrom(s, env, n, sock, topic, t)
    ensures OnlyParams(s.doc, t.doc, n.index) && ComposeFrom(sock.pattern, sock.params, ParamsAfter(t, n)) == topic
  {
    var tokens := Tokens(sock.pattern).value;
    var vs, params := Match(tokens, topic).value, s.doc.modules[n.index].params;
    MatchSound(tokens, topic);
    SetAllAt(G.Marked(s), n.name, Names(tokens), vs);
    assert t.doc == G.WithParams(s.doc, n.index, Assigned(params, Names(tokens), vs));
    ComposeOfSplit(sock.pattern, sock.params, params, topic);
  }

  /** The pin that shows the topic is then composed, so it cannot be cleared. */
  lemma ComposedIsRefused(t: G.State, env: Env, n: Node, p: Pin, sock: Socket)
    requires n.kind == Module && 0 <= n.index < |t.doc.modules| && !p.placeholder
    requires n.typ in env.cat && sock in env.cat[n.typ].sockets && |sock.params| >= 2 && sock.output == p.output
    requires Nowhere(ParamsAfter(t, n), p.topic) && ComposeFrom(sock.pattern, sock.params, ParamsAfter(t, n)) == p.topic
    ensures Clear(t, env, n, p) == (Refused(IsComposed), t)
  {
    NoScalar(ParamsAfter(t, n), p.topic);
    NoEntry(ParamsAfter(t, n), p.topic);
  }

  /** What the other end's clear does. */
  lemma OtherEndClears(s: G.State, env: Env, n: Node, t: G.State, o: Node, q: Pin)
    requires 0 <= n.index && OnlyParams(s.doc, t.doc, n.index) && Current(s.doc, o) && o.index != n.index
    ensures var r := Clear(t, env, o, q);
            && |r.1.doc.modules| == |t.doc.modules| && r.1.doc.modules[n.index] == t.doc.modules[n.index]
            && (r.0.Done? <==> Clearable(s.doc, env, o, q))
  {
    var params :| t.doc == G.WithParams(s.doc, n.index, params);
    OtherModuleResolves(s.doc, n.index, params, env, o, q);
    ClearIsLocal(t, env, o, q, n.index);
  }

  /** The two ends of a link: the socket's own, pin p of node `own`, and the other, pin q of node `other`. */
  ghost predicate Ends(w: seq<Node>, link: Link, output: bool, own: nat, p: Pin, other: nat, q: Pin) {
    && own < |w| && other < |w|
    && var (c, dst, f, src) := if output then (other, q, own, p) else (own, p, other, q);
       && OwnerOf(w, link.toPin) == Some(c) && PinIn(w[c], link.toPin) == dst
       && OwnerOf(w, link.fromPin) == Some(f) && PinIn(w[f], link.fromPin) == src
  }

  /** With one end refused, removing the link is clearing the other. */
  lemma OnlyTheOtherEnd(t: G.State, env: Env, w: seq<Node>, link: Link, output: bool, own: nat, p: Pin, other: nat,
                        q: Pin)
    requires Ends(w, link, output, own, p, other, q) && w[own].kind == Module
    requires Clear(t, env, w[own], p) == (Refused(IsComposed), t)
    ensures var r, c := Unlink(t, w, env, link), Clear(t, env, w[other], q);
            && (r.0.Done? <==> w[other].kind == Module && c.0.Done?)
            && r.1 == if r.0.Done? then c.1 else t
  {
    assert Clear(t, env, w[other], q).0.Refused? ==> Clear(t, env, w[other], q).1 == t;
  }

  /** Removing the wire of a socket of several params never takes the split back: the socket keeps its params, and the
      removal succeeds if and only if the other end is a module's and can be cleared, which then loses its topic. */
  lemma ComposedWireStays(s: G.State, env: Env, n: Node, sock: Socket, topic: string, t: G.State, w: seq<Node>,
                          link: Link, own: nat, p: Pin, other: nat, q: Pin)
    requires SplitFrom(s, env, n, sock, topic, t)
    requires Ends(w, link, sock.output, own, p, other, q) && Shows(w[own], n, p, topic) && p.output == sock.output
    requires w[other].kind == Module ==> Current(s.doc, w[other]) && w[other].index != n.index
    ensures var r := Unlink(t, w, env, link);
            && |r.1.doc.modules| == |t.doc.modules| && r.1.doc.modules[n.index] == t.doc.modules[n.index]
            && (r.0.Done? <==> w[other].kind == Module && Clearable(s.doc, env, w[other], q))
            && (r.0.Refused? ==> r.1 == t)
  {
    SplitComposes(s, env, n, sock, topic, t);
    ComposedIsRefused(t, env, w[own], p, sock);
    OnlyTheOtherEnd(t, env, w, link, sock.output, own, p, other, q);
    if w[other].kind == Module {
      OtherEndClears(s, env, n, t, w[other], q);
    }
  }
}
