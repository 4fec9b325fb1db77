/** brain_builder/src/Wiring.cpp, build: the pins each module shows, and the links between pins whose topics match. */
module Build {
  import opened Json
  import opened Prelude
  import opened Sockets
  import opened Topics
  import opened Wiring
  import G = Graph

  /** What setting a module up on trial declares. */
  datatype Trial = Failed(error: string) | Ran(inputs: seq<Port>, outputs: seq<Port>)

  /** A source with no topic of its own stands for every topic under its prefix. */
  datatype Source = Source(name: string, topic: string, prefix: string, payload: string, optional: bool)

  /** One of the body's sinks, reads (here `polls`) or events. */
  datatype Spot = Spot(name: string, topic: string, payload: string)

  datatype Body = Body(title: string, sources: seq<Source>, sinks: seq<Spot>, polls: seq<Spot>, events: seq<Spot>)

  /** What build is given besides the graph: the catalogue, the trial setup, the stable hash, the body if any. */
  datatype Env = Env(cat: map<string, TypeInfo>, trial: (string, string, Object) -> Trial, hash: string -> nat,
                     body: Option<Body>)

  datatype Sides = Sides(ins: seq<Pin>, outs: seq<Pin>)

  // ---------------------------------------------------------------- pins

  /** What a pin's id is the hash of. */
  function PinKey(node: string, output: bool, key: string): string {
    "pin:" + node + ":" + (if output then "out:" else "in:") + key
  }

  function MakePin(env: Env, node: string, output: bool, key: string, topic: string): Pin {
    Pin(env.hash(PinKey(node, output, key)), node, output, topic, topic, "Unknown", false, true, false, false, false,
        false, false, "")
  }

  predicate EndsWithDot(topic: string) {
    topic != "" && topic[|topic| - 1] == '.'
  }

  function PortPin(env: Env, node: string, output: bool, port: Port): Pin {
    MakePin(env, node, output, port.topic, port.topic).(
      payload := port.payload, feedback := if output then false else port.feedback,
      required := if output then true else port.required, prefix := EndsWithDot(port.topic))
  }

  function FixedPin(env: Env, node: string, f: Port): Pin {
    MakePin(env, node, f.output, f.topic, f.topic).(
      payload := f.payload, feedback := f.feedback, required := f.required, prefix := EndsWithDot(f.topic))
  }

  function TopicPin(env: Env, node: string, ok: bool, s: Socket, topic: string): Pin {
    MakePin(env, node, s.output, topic, topic).(
      payload := s.payload, feedback := s.feedback, required := s.required, prefix := s.prefix, polled := ok)
  }

  function PlaceholderPin(env: Env, node: string, s: Socket): Pin {
    MakePin(env, node, s.output, "param:" + s.pattern, "").(
      caption := s.pattern, payload := s.payload, feedback := s.feedback, required := s.required, prefix := s.prefix,
      list := s.list, placeholder := true, param := if s.params == [] then "" else s.params[0])
  }

  function PlusPin(env: Env, node: string): Pin {
    MakePin(env, node, false, "+", "").(caption := "+", plus := true, required := false, placeholder := true)
  }

  predicate Shown(side: seq<Pin>, topic: string) {
    exists p :: p in side && p.topic == topic
  }

  /** A set socket's topics that no pin of its side shows yet. */
  function WithTopics(env: Env, node: string, ok: bool, s: Socket, topics: seq<string>, side: seq<Pin>): seq<Pin> {
    if topics == [] then side
    else
      var before, t := WithTopics(env, node, ok, s, topics[..|topics| - 1], side), topics[|topics| - 1];
      if Shown(before, t) then before else before + [TopicPin(env, node, ok, s, t)]
  }

  function Side(sides: Sides, output: bool): seq<Pin> {
    if output then sides.outs else sides.ins
  }

  function WithSide(sides: Sides, output: bool, side: seq<Pin>): Sides {
    if output then sides.(outs := side) else sides.(ins := side)
  }

  /** A set socket shows its topics; an unset one a placeholder, unless the "+" pin stands for it. */
  function WithSocket(env: Env, node: string, ok: bool, ti: TypeInfo, params: Object, s: Socket, sides: Sides): Sides {
    if !Unset(s, params, ti) then
      WithSide(sides, s.output, WithTopics(env, node, ok, s, SocketTopics(s, params, ti), Side(sides, s.output)))
    else if !s.required && !s.output && ok then sides
    else WithSide(sides, s.output, Side(sides, s.output) + [PlaceholderPin(env, node, s)])
  }

  function WithSockets(env: Env, node: string, ok: bool, ti: TypeInfo, params: Object, ss: seq<Socket>, sides: Sides)
    : Sides
  {
    if ss == [] then sides
    else
      WithSocket(env, node, ok, ti, params, ss[|ss| - 1],
                 WithSockets(env, node, ok, ti, params, ss[..|ss| - 1], sides))
  }

  predicate AnyOptional(ss: seq<Socket>, params: Object, ti: TypeInfo) {
    exists s :: s in ss && !s.required && !s.output && Unset(s, params, ti)
  }

  function WithPlus(env: Env, node: string, ok: bool, ti: TypeInfo, params: Object, sides: Sides): Sides {
    if AnyOptional(ti.sockets, params, ti) && ok then sides.(ins := sides.ins + [PlusPin(env, node)]) else sides
  }

  function WithFixed(env: Env, node: string, ports: seq<Port>, sides: Sides): Sides {
    if ports == [] then sides
    else
      var before, f := WithFixed(env, node, ports[..|ports| - 1], sides), ports[|ports| - 1];
      WithSide(before, f.output, Side(before, f.output) + [FixedPin(env, node, f)])
  }

  function PortPins(env: Env, node: string, output: bool, ports: seq<Port>): seq<Pin> {
    seq(|ports|, i requires 0 <= i < |ports| => PortPin(env, node, output, ports[i]))
  }

  /** The pins a module shows. */
  function ModuleSides(env: Env, name: string, m: G.Module): Sides {
    if m.typ !in env.cat then Sides([], [])
    else
      var ti, tr := env.cat[m.typ], env.trial(m.typ, name, m.params);
      var declared := if tr.Ran? then Sides(PortPins(env, name, false, tr.inputs), PortPins(env, name, true, tr.outputs))
                      else Sides([], []);
      var shown := WithPlus(env, name, tr.Ran?, ti, m.params,
                            WithSockets(env, name, tr.Ran?, ti, m.params, ti.sockets, declared));
      if tr.Ran? then shown else WithFixed(env, name, ti.fixedPorts, shown)
  }

  function NameOf(m: G.Module, i: nat): string {
    if m.id == "" then "#" + ToString(i) else m.id
  }

  function ModuleNode(env: Env, m: G.Module, i: nat): Node {
    var name := NameOf(m, i);
    var sides := ModuleSides(env, name, m);
    Node(Module, name, m.typ, if m.typ in env.cat then env.cat[m.typ].category else "", i,
         SetupOf(env, name, m), sides.ins, sides.outs)
  }

  function SetupOf(env: Env, name: string, m: G.Module): Setup {
    if m.typ !in env.cat then SetupFailed("unknown module type '" + m.typ + "'")
    else
      match env.trial(m.typ, name, m.params)
      case Failed(error) => SetupFailed(error)
      case Ran(_, _) => SetUp
  }

  // ---------------------------------------------------------------- the body's nodes

  function SourcePin(env: Env, s: Source): Pin {
    var topic := if s.topic == "" then s.prefix else s.topic;
    MakePin(env, "@sources", true, topic, topic).(
      caption := s.name, payload := s.payload, prefix := s.prefix != "", required := !s.optional)
  }

  function SinkPin(env: Env, s: Spot): Pin {
    MakePin(env, "@sinks", false, s.topic, s.topic).(caption := s.name, payload := s.payload)
  }

  function ReadPin(env: Env, s: Spot): Pin {
    SinkPin(env, s).(caption := s.name + " (read)", required := false)
  }

  function EventPin(env: Env, s: Spot): Pin {
    MakePin(env, "@events", true, s.topic, s.topic).(caption := s.name, payload := "EnvEvent")
  }

  function SourcePins(env: Env, sources: seq<Source>): seq<Pin> {
    seq(|sources|, i requires 0 <= i < |sources| => SourcePin(env, sources[i]))
  }

  function SinkPins(env: Env, sinks: seq<Spot>): seq<Pin> {
    seq(|sinks|, i requires 0 <= i < |sinks| => SinkPin(env, sinks[i]))
  }

  function ReadPins(env: Env, polls: seq<Spot>): seq<Pin> {
    seq(|polls|, i requires 0 <= i < |polls| => ReadPin(env, polls[i]))
  }

  function EventPins(env: Env, events: seq<Spot>): seq<Pin> {
    seq(|events|, i requires 0 <= i < |events| => EventPin(env, events[i]))
  }

  /** The body's sources, its sinks and reads, and its events. */
  function BodyNodes(env: Env): seq<Node> {
    if env.body.None? then []
    else
      var b := env.body.value;
      [Node(Sources, "@sources", b.title, "body", -1, SetUp, [], SourcePins(env, b.sources)),
       Node(Sinks, "@sinks", b.title, "body", -1, SetUp,
            SinkPins(env, b.sinks) + ReadPins(env, b.polls), []),
       Node(Events, "@events", b.title, "body", -1, SetUp, [], EventPins(env, b.events))]
  }

  function Nodes(env: Env, ms: seq<G.Module>): seq<Node> {
    seq(|ms|, i requires 0 <= i < |ms| => ModuleNode(env, ms[i], i)) + BodyNodes(env)
  }

  // ---------------------------------------------------------------- building them

  method IsShown(side: seq<Pin>, topic: string) returns (declared: bool)
    ensures declared <==> Shown(side, topic)
  {
    declared := false;
    for k := 0 to |side|
      invariant declared <==> exists j :: 0 <= j < k && side[j].topic == topic
    {
      if side[k].topic == topic {
        declared := true;
      }
    }
  }

  method AddSocket(env: Env, node: string, ok: bool, ti: TypeInfo, params: Object, s: Socket, sides: Sides)
    returns (r: Sides)
    ensures r == WithSocket(env, node, ok, ti, params, s, sides)
  {
    var unset := IsUnset(s, params, ti);
    var side := if s.output then sides.outs else sides.ins;
    if !unset {
      var topics := TopicsOf(s, params, ti);
      ghost var before := side;
      for i := 0 to |topics|
        invariant side == WithTopics(env, node, ok, s, topics[..i], before)
      {
        assert topics[..i + 1][..i] == topics[..i];
        var declared := IsShown(side, topics[i]);
        if !declared {
          side := side + [TopicPin(env, node, ok, s, topics[i])];
        }
      }
      assert topics[..|topics|] == topics;
    } else if !s.required && !s.output && ok {
      return sides;
    } else {
      side := side + [PlaceholderPin(env, node, s)];
    }
    r := if s.output then sides.(outs := side) else sides.(ins := side);
  }

  method AddSockets(env: Env, node: string, ok: bool, ti: TypeInfo, params: Object, sides: Sides) returns (r: Sides)
    ensures r == WithPlus(env, node, ok, ti, params, WithSockets(env, node, ok, ti, params, ti.sockets, sides))
  {
    r := sides;
    for i := 0 to |ti.sockets|
      invariant r == WithSockets(env, node, ok, ti, params, ti.sockets[..i], sides)
    {
      NextSocket(env, node, ok, ti, params, ti.sockets, sides, i);
      r := AddSocket(env, node, ok, ti, params, ti.sockets[i], r);
    }
    assert ti.sockets[..|ti.sockets|] == ti.sockets;
    r := AddPlus(env, node, ok, ti, params, r);
  }

  lemma NextSocket(env: Env, node: string, ok: bool, ti: TypeInfo, params: Object, ss: seq<Socket>, sides: Sides,
                   i: nat)
    requires i < |ss|
    ensures WithSockets(env, node, ok, ti, params, ss[..i + 1], sides)
         == WithSocket(env, node, ok, ti, params, ss[i], WithSockets(env, node, ok, ti, params, ss[..i], sides))
  {
    assert ss[..i + 1][..i] == ss[..i];
  }

  method AddPlus(env: Env, node: string, ok: bool, ti: TypeInfo, params: Object, sides: Sides) returns (r: Sides)
    ensures r == WithPlus(env, node, ok, ti, params, sides)
  {
    var optional := HasOptional(ti.sockets, params, ti);
    r := if optional && ok then sides.(ins := sides.ins + [PlusPin(env, node)]) else sides;
  }

  method HasOptional(ss: seq<Socket>, params: Object, ti: TypeInfo) returns (optional: bool)
    ensures optional <==> AnyOptional(ss, params, ti)
  {
    optional := false;
    for i := 0 to |ss|
      invariant optional <==> AnyOptional(ss[..i], params, ti)
    {
      var s := ss[i];
      var unset := IsUnset(s, params, ti);
      OptionalSoFar(ss, params, ti, i);
      if !s.required && !s.output && unset {
        optional := true;
      }
    }
    assert ss[..|ss|] == ss;
  }

  lemma OptionalSoFar(ss: seq<Socket>, params: Object, ti: TypeInfo, i: nat)
    requires i < |ss|
    ensures AnyOptional(ss[..i + 1], params, ti) <==>
              AnyOptional(ss[..i], params, ti) || (!ss[i].required && !ss[i].output && Unset(ss[i], params, ti))
  {
    assert ss[..i + 1] == ss[..i] + [ss[i]];
    if AnyOptional(ss[..i], params, ti) {
      var s :| s in ss[..i] && !s.required && !s.output && Unset(s, params, ti);
      assert s in ss[..i + 1];
    }
    assert ss[i] in ss[..i + 1];
  }

  method AddFixed(env: Env, node: string, ports: seq<Port>, sides: Sides) returns (r: Sides)
    ensures r == WithFixed(env, node, ports, sides)
  {
    r := sides;
    for k := 0 to |ports|
      invariant r == WithFixed(env, node, ports[..k], sides)
    {
      assert ports[..k + 1][..k] == ports[..k];
      var pin := FixedPin(env, node, ports[k]);
      r := if pin.output then r.(outs := r.outs + [pin]) else r.(ins := r.ins + [pin]);
    }
    assert ports[..|ports|] == ports;
  }

  method BuildNode(env: Env, m: G.Module, i: nat) returns (n: Node)
    ensures n == ModuleNode(env, m, i)
  {
    var name := if m.id == "" then "#" + ToString(i) else m.id;
    var sides, category := Sides([], []), "";
    var setup := SetupFailed("unknown module type '" + m.typ + "'");
    if m.typ in env.cat {
      var ti, tr := env.cat[m.typ], env.trial(m.typ, name, m.params);
      category := ti.category;
      setup := if tr.Ran? then SetUp else SetupFailed(tr.error);
      if tr.Ran? {
        sides := Sides(PortPins(env, name, false, tr.inputs), PortPins(env, name, true, tr.outputs));
      }
      sides := AddSockets(env, name, tr.Ran?, ti, m.params, sides);
      if tr.Failed? {
        sides := AddFixed(env, name, ti.fixedPorts, sides);
      }
    }
    n := Node(Module, name, m.typ, category, i, setup, sides.ins, sides.outs);
  }

  method BuildNodes(env: Env, ms: seq<G.Module>) returns (nodes: seq<Node>)
    ensures nodes == Nodes(env, ms)
  {
    nodes := [];
    for i := 0 to |ms|
      invariant |nodes| == i && forall k :: 0 <= k < i ==> nodes[k] == ModuleNode(env, ms[k], k)
    {
      var n := BuildNode(env, ms[i], i);
      nodes := nodes + [n];
    }
    if env.body.Some? {
      var ours := BuildBody(env, env.body.value);
      nodes := nodes + ours;
    }
  }

  method BuildBody(env: Env, b: Body) returns (nodes: seq<Node>)
    requires env.body == Some(b)
    ensures nodes == BodyNodes(env)
  {
    var src := Node(Sources, "@sources", b.title, "body", -1, SetUp, [], []);
    for i := 0 to |b.sources|
      invariant src == Node(Sources, "@sources", b.title, "body", -1, SetUp, [], src.outputs)
      invariant src.outputs == SourcePins(env, b.sources[..i])
    {
      src := src.(outputs := src.outputs + [SourcePin(env, b.sources[i])]);
    }
    var sink := Node(Sinks, "@sinks", b.title, "body", -1, SetUp, [], []);
    for i := 0 to |b.sinks|
      invariant sink == Node(Sinks, "@sinks", b.title, "body", -1, SetUp, sink.inputs, [])
      invariant sink.inputs == SinkPins(env, b.sinks[..i])
    {
      sink := sink.(inputs := sink.inputs + [SinkPin(env, b.sinks[i])]);
    }
    assert b.sinks[..|b.sinks|] == b.sinks;
    ghost var sinks := sink.inputs;
    for i := 0 to |b.polls|
      invariant sink == Node(Sinks, "@sinks", b.title, "body", -1, SetUp, sink.inputs, [])
      invariant sink.inputs == sinks + ReadPins(env, b.polls[..i])
    {
      sink := sink.(inputs := sink.inputs + [ReadPin(env, b.polls[i])]);
    }
    var ev := Node(Events, "@events", b.title, "body", -1, SetUp, [], []);
    for i := 0 to |b.events|
      invariant ev == Node(Events, "@events", b.title, "body", -1, SetUp, [], ev.outputs)
      invariant ev.outputs == EventPins(env, b.events[..i])
    {
      ev := ev.(outputs := ev.outputs + [EventPin(env, b.events[i])]);
    }
    assert b.sources[..|b.sources|] == b.sources;
    assert b.polls[..|b.polls|] == b.polls && b.events[..|b.events|] == b.events;
    nodes := [src, sink, ev];
  }

  // ---------------------------------------------------------------- a set socket is on show

  lemma {:induction false} TopicsAreShown(env: Env, node: string, ok: bool, s: Socket, topics: seq<string>,
                                          side: seq<Pin>, t: string)
    requires t in topics || Shown(side, t)
    ensures Shown(WithTopics(env, node, ok, s, topics, side), t)
  {
    if topics != [] {
      var n := |topics| - 1;
      var before := WithTopics(env, node, ok, s, topics[..n], side);
      if t in topics[..n] || Shown(side, t) {
        TopicsAreShown(env, node, ok, s, topics[..n], side, t);
        StillShown(before, TopicPin(env, node, ok, s, topics[n]), t);
      } else {
        assert topics[n] == t;
        LastIsShown(before, TopicPin(env, node, ok, s, t));
      }
    }
  }

  lemma StillShown(side: seq<Pin>, p: Pin, t: string)
    requires Shown(side, t)
    ensures Shown(side + [p], t)
  {
    var q :| q in side && q.topic == t;
    assert q in side + [p];
  }

  lemma LastIsShown(side: seq<Pin>, p: Pin)
    ensures Shown(side + [p], p.topic)
  {
    assert p in side + [p];
  }

  lemma SocketKeepsShown(env: Env, node: string, ok: bool, ti: TypeInfo, params: Object, s: Socket, sides: Sides,
                         output: bool, t: string)
    requires Shown(Side(sides, output), t)
    ensures Shown(Side(WithSocket(env, node, ok, ti, params, s, sides), output), t)
  {
    if s.output == output {
      TopicsAreShown(env, node, ok, s, SocketTopics(s, params, ti), Side(sides, output), t);
      StillShown(Side(sides, output), PlaceholderPin(env, node, s), t);
    }
  }

  lemma SetSocketShows(env: Env, node: string, ok: bool, ti: TypeInfo, params: Object, s: Socket, sides: Sides,
                       t: string)
    requires !Unset(s, params, ti) && t in SocketTopics(s, params, ti)
    ensures Shown(Side(WithSocket(env, node, ok, ti, params, s, sides), s.output), t)
  {
    TopicsAreShown(env, node, ok, s, SocketTopics(s, params, ti), Side(sides, s.output), t);
  }

  lemma KeptByTheLast(env: Env, node: string, ok: bool, ti: TypeInfo, params: Object, ss: seq<Socket>, sides: Sides,
                      output: bool, t: string)
    requires ss != [] && Shown(Side(WithSockets(env, node, ok, ti, params, ss[..|ss| - 1], sides), output), t)
    ensures Shown(Side(WithSockets(env, node, ok, ti, params, ss, sides), output), t)
  {
    var before := WithSockets(env, node, ok, ti, params, ss[..|ss| - 1], sides);
    SocketKeepsShown(env, node, ok, ti, params, ss[|ss| - 1], before, output, t);
  }

  lemma ShownByTheLast(env: Env, node: string, ok: bool, ti: TypeInfo, params: Object, ss: seq<Socket>, sides: Sides,
                       s: Socket, t: string)
    requires ss != [] && ss[|ss| - 1] == s && !Unset(s, params, ti) && t in SocketTopics(s, params, ti)
    ensures Shown(Side(WithSockets(env, node, ok, ti, params, ss, sides), s.output), t)
  {
    SetSocketShows(env, node, ok, ti, params, s, WithSockets(env, node, ok, ti, params, ss[..|ss| - 1], sides), t);
  }

  lemma {:induction false} SetSocketIsShown(env: Env, node: string, ok: bool, ti: TypeInfo, params: Object,
                                            ss: seq<Socket>, sides: Sides, k: nat, s: Socket, t: string)
    requires k < |ss| && ss[k] == s && !Unset(s, params, ti) && t in SocketTopics(s, params, ti)
    ensures Shown(Side(WithSockets(env, node, ok, ti, params, ss, sides), s.output), t)
  {
    if k < |ss| - 1 {
      SetSocketIsShown(env, node, ok, ti, params, ss[..|ss| - 1], sides, k, s, t);
      KeptByTheLast(env, node, ok, ti, params, ss, sides, s.output, t);
    } else {
      ShownByTheLast(env, node, ok, ti, params, ss, sides, s, t);
    }
  }

  lemma {:induction false} FixedKeepsShown(env: Env, node: string, ports: seq<Port>, sides: Sides, output: bool,
                                           t: string)
    requires Shown(Side(sides, output), t)
    ensures Shown(Side(WithFixed(env, node, ports, sides), output), t)
  {
    if ports != [] {
      var n := |ports| - 1;
      FixedKeepsShown(env, node, ports[..n], sides, output, t);
      StillShown(Side(WithFixed(env, node, ports[..n], sides), output), FixedPin(env, node, ports[n]), t);
    }
  }

  /** Whatever the trial says, every topic of a set socket is on its module's node. */
  lemma ModuleShowsItsSockets(env: Env, name: string, m: G.Module, s: Socket, t: string)
    requires m.typ in env.cat && s in env.cat[m.typ].sockets
    requires !Unset(s, m.params, env.cat[m.typ]) && t in SocketTopics(s, m.params, env.cat[m.typ])
    ensures Shown(Side(ModuleSides(env, name, m), s.output), t)
  {
    var ti, tr := env.cat[m.typ], env.trial(m.typ, name, m.params);
    var declared := if tr.Ran? then Sides(PortPins(env, name, false, tr.inputs), PortPins(env, name, true, tr.outputs))
                    else Sides([], []);
    var k :| 0 <= k < |ti.sockets| && ti.sockets[k] == s;
    SetSocketIsShown(env, name, tr.Ran?, ti, m.params, ti.sockets, declared, k, s, t);
    var sides := WithSockets(env, name, tr.Ran?, ti, m.params, ti.sockets, declared);
    if !s.output {
      StillShown(sides.ins, PlusPin(env, name), t);
    }
    FixedKeepsShown(env, name, ti.fixedPorts, WithPlus(env, name, tr.Ran?, ti, m.params, sides), s.output, t);
  }

  // ---------------------------------------------------------------- what every pin is made of

  /** The key of a pin among its node's pins of that direction. */
  function KeyIn(p: Pin): string {
    if p.plus then "+" else if p.placeholder then "param:" + p.caption else p.topic
  }

  /** The pin is the node's own, under the id of its key, and without a topic when it is a placeholder. */
  predicate Made(env: Env, node: string, p: Pin) {
    && p.node == node && p.id == env.hash(PinKey(node, p.output, KeyIn(p)))
    && (p.plus ==> p.placeholder) && (p.placeholder ==> p.topic == "")
  }

  predicate SideOk(env: Env, node: string, output: bool, side: seq<Pin>) {
    forall p :: p in side ==> p.output == output && Made(env, node, p)
  }

  /** Inputs on one side, outputs on the other. */
  predicate SidesOk(env: Env, node: string, sides: Sides) {
    SideOk(env, node, false, sides.ins) && SideOk(env, node, true, sides.outs)
  }

  predicate NodeOk(env: Env, n: Node) {
    SideOk(env, n.name, false, n.inputs) && SideOk(env, n.name, true, n.outputs)
  }

  lemma {:induction false} WithTopicsOk(env: Env, node: string, ok: bool, s: Socket, topics: seq<string>,
                                        side: seq<Pin>)
    requires SideOk(env, node, s.output, side)
    ensures SideOk(env, node, s.output, WithTopics(env, node, ok, s, topics, side))
  {
    if topics != [] {
      WithTopicsOk(env, node, ok, s, topics[..|topics| - 1], side);
    }
  }

  lemma WithSocketOk(env: Env, node: string, ok: bool, ti: TypeInfo, params: Object, s: Socket, sides: Sides)
    requires SidesOk(env, node, sides)
    ensures SidesOk(env, node, WithSocket(env, node, ok, ti, params, s, sides))
  {
    WithTopicsOk(env, node, ok, s, SocketTopics(s, params, ti), Side(sides, s.output));
  }

  lemma {:induction false} WithSocketsOk(env: Env, node: string, ok: bool, ti: TypeInfo, params: Object,
                                         ss: seq<Socket>, sides: Sides)
    requires SidesOk(env, node, sides)
    ensures SidesOk(env, node, WithSockets(env, node, ok, ti, params, ss, sides))
  {
    if ss != [] {
      WithSocketsOk(env, node, ok, ti, params, ss[..|ss| - 1], sides);
      WithSocketOk(env, node, ok, ti, params, ss[|ss| - 1],
                   WithSockets(env, node, ok, ti, params, ss[..|ss| - 1], sides));
    }
  }

  lemma {:induction false} WithFixedOk(env: Env, node: string, ports: seq<Port>, sides: Sides)
    requires SidesOk(env, node, sides)
    ensures SidesOk(env, node, WithFixed(env, node, ports, sides))
  {
    if ports != [] {
      WithFixedOk(env, node, ports[..|ports| - 1], sides);
    }
  }

  lemma ModuleOk(env: Env, m: G.Module, i: nat)
    ensures NodeOk(env, ModuleNode(env, m, i))
  {
    var name := NameOf(m, i);
    if m.typ in env.cat {
      var ti, tr := env.cat[m.typ], env.trial(m.typ, name, m.params);
      var declared := if tr.Ran? then Sides(PortPins(env, name, false, tr.inputs), PortPins(env, name, true, tr.outputs))
                      else Sides([], []);
      WithSocketsOk(env, name, tr.Ran?, ti, m.params, ti.sockets, declared);
      WithFixedOk(env, name, ti.fixedPorts,
                  WithPlus(env, name, tr.Ran?, ti, m.params,
                           WithSockets(env, name, tr.Ran?, ti, m.params, ti.sockets, declared)));
    }
  }

  lemma BodyOk(env: Env, i: nat)
    requires i < |BodyNodes(env)|
    ensures BodyNodes(env)[i].kind != Module && NodeOk(env, BodyNodes(env)[i])
  {
  }

  // ---------------------------------------------------------------- links

  datatype Ref = Ref(node: nat, pin: Pin)

  function PinRefs(i: nat, pins: seq<Pin>): seq<Ref> {
    if pins == [] then []
    else
      var before, p := PinRefs(i, pins[..|pins| - 1]), pins[|pins| - 1];
      if p.topic != "" then before + [Ref(i, p)] else before
  }

  /** Every pin with a topic, node by node. */
  function Refs(nodes: seq<Node>, output: bool): seq<Ref> {
    if nodes == [] then []
    else
      var i := |nodes| - 1;
      Refs(nodes[..i], output) + PinRefs(i, if output then nodes[i].outputs else nodes[i].inputs)
  }

  predicate Matches(p: Pin, c: Pin) {
    if c.prefix then c.topic <= p.topic
    else if p.prefix then p.topic <= c.topic
    else p.topic == c.topic
  }

  function LinkOf(nodes: seq<Node>, p: Ref, c: Ref): Link
    requires p.node < |nodes| && c.node < |nodes|
  {
    Link(p.pin.id, c.pin.id, nodes[p.node].name, nodes[c.node].name, if c.pin.prefix then p.pin.topic else c.pin.topic,
         c.pin.feedback,
         p.pin.payload == c.pin.payload || p.pin.payload == "Unknown" || c.pin.payload == "Unknown")
  }

  predicate Linked(p: Ref, c: Ref) {
    c.node != p.node && Matches(p.pin, c.pin)
  }

  predicate InRange(nodes: seq<Node>, refs: seq<Ref>) {
    forall r :: r in refs ==> r.node < |nodes|
  }

  ghost predicate ExactlyTheMatches(nodes: seq<Node>, producers: seq<Ref>, consumers: seq<Ref>, links: seq<Link>)
    requires InRange(nodes, producers) && InRange(nodes, consumers)
  {
    forall l :: l in links <==>
      exists p, c :: p in producers && c in consumers && Linked(p, c) && l == LinkOf(nodes, p, c)
  }

  /** The links are those that linking up the nodes gives. */
  ghost predicate IsLinkedUp(nodes: seq<Node>, links: seq<Link>) {
    && InRange(nodes, Refs(nodes, true)) && InRange(nodes, Refs(nodes, false))
    && ExactlyTheMatches(nodes, Refs(nodes, true), Refs(nodes, false), links)
  }

  lemma {:induction false} PinRefsAre(i: nat, pins: seq<Pin>, r: Ref)
    ensures r in PinRefs(i, pins) <==> r.node == i && r.pin in pins && r.pin.topic != ""
  {
    if pins != [] {
      var n := |pins| - 1;
      PinRefsAre(i, pins[..n], r);
      assert pins == pins[..n] + [pins[n]];
    }
  }

  function PinsOf(n: Node, output: bool): seq<Pin> {
    if output then n.outputs else n.inputs
  }

  lemma {:induction false} RefsAre(nodes: seq<Node>, output: bool, r: Ref)
    ensures r in Refs(nodes, output) <==>
              r.node < |nodes| && r.pin in PinsOf(nodes[r.node], output) && r.pin.topic != ""
  {
    if nodes != [] {
      var n := |nodes| - 1;
      RefsAre(nodes[..n], output, r);
      PinRefsAre(n, PinsOf(nodes[n], output), r);
    }
  }

  /** Every consumer against every producer. */
  method LinkUp(nodes: seq<Node>) returns (links: seq<Link>)
    ensures IsLinkedUp(nodes, links)
  {
    var producers, consumers := Refs(nodes, true), Refs(nodes, false);
    forall r | r in producers || r in consumers ensures r.node < |nodes| {
      RefsAre(nodes, true, r);
      RefsAre(nodes, false, r);
    }
    links := [];
    for i := 0 to |consumers|
      invariant ExactlyTheMatches(nodes, producers, consumers[..i], links)
    {
      var more := LinksInto(nodes, producers, consumers[i]);
      assert consumers[..i + 1] == consumers[..i] + [consumers[i]];
      links := links + more;
    }
    assert consumers[..|consumers|] == consumers;
  }

  method LinksInto(nodes: seq<Node>, producers: seq<Ref>, c: Ref) returns (links: seq<Link>)
    requires InRange(nodes, producers) && c.node < |nodes|
    ensures forall l :: l in links <==> exists p :: p in producers && Linked(p, c) && l == LinkOf(nodes, p, c)
  {
    links := [];
    for j := 0 to |producers|
      invariant forall l :: l in links <==> exists p :: p in producers[..j] && Linked(p, c) && l == LinkOf(nodes, p, c)
    {
      var p := producers[j];
      assert producers[..j + 1] == producers[..j] + [p];
      if c.node != p.node && Matches(p.pin, c.pin) {
        links := links + [LinkOf(nodes, p, c)];
      }
    }
    assert producers[..|producers|] == producers;
  }
}
