/** brain_builder/src/Wiring.cpp, build: why a module's node shows the pins it shows, and no others, from what its type
    declares and its params hold. */
module BuildLaws {
  import opened Build
  import opened Json
  import opened Prelude
  import opened Sockets
  import opened Wiring
  import G = Graph

  // ---------------------------------------------------------------- what stays

  lemma {:induction false} TopicsKeepPins(env: Env, node: string, ok: bool, s: Socket, topics: seq<string>,
                                          side: seq<Pin>)
    ensures side <= WithTopics(env, node, ok, s, topics, side)
  {
    if topics != [] {
      TopicsKeepPins(env, node, ok, s, topics[..|topics| - 1], side);
    }
  }

  lemma SocketKeepsPins(env: Env, node: string, ok: bool, ti: TypeInfo, params: Object, s: Socket, sides: Sides)
    ensures sides.ins <= WithSocket(env, node, ok, ti, params, s, sides).ins
    ensures sides.outs <= WithSocket(env, node, ok, ti, params, s, sides).outs
  {
    TopicsKeepPins(env, node, ok, s, SocketTopics(s, params, ti), Side(sides, s.output));
  }

  lemma {:induction false} SocketsKeepPins(env: Env, node: string, ok: bool, ti: TypeInfo, params: Object,
                                           ss: seq<Socket>, sides: Sides)
    ensures sides.ins <= WithSockets(env, node, ok, ti, params, ss, sides).ins
    ensures sides.outs <= WithSockets(env, node, ok, ti, params, ss, sides).outs
  {
    if ss != [] {
      var n := |ss| - 1;
      SocketsKeepPins(env, node, ok, ti, params, ss[..n], sides);
      SocketKeepsPins(env, node, ok, ti, params, ss[n], WithSockets(env, node, ok, ti, params, ss[..n], sides));
    }
  }

  lemma HeldByLonger(a: seq<Pin>, b: seq<Pin>, p: Pin)
    requires a <= b && p in a
    ensures p in b
  {
    var i :| 0 <= i < |a| && a[i] == p;
    assert b[i] == p;
  }

  /** A port that the trial setup declares is a pin of the module's node. */
  lemma DeclaredPortIsShown(env: Env, name: string, m: G.Module, ins: seq<Port>, outs: seq<Port>, port: Port)
    requires m.typ in env.cat && env.trial(m.typ, name, m.params) == Ran(ins, outs)
    ensures port in ins ==> PortPin(env, name, false, port) in ModuleSides(env, name, m).ins
    ensures port in outs ==> PortPin(env, name, true, port) in ModuleSides(env, name, m).outs
  {
    var ti, declared := env.cat[m.typ], Sides(PortPins(env, name, false, ins), PortPins(env, name, true, outs));
    SocketsKeepPins(env, name, true, ti, m.params, ti.sockets, declared);
    var shown := WithSockets(env, name, true, ti, m.params, ti.sockets, declared);
    if port in ins {
      var i :| 0 <= i < |ins| && ins[i] == port;
      assert declared.ins[i] == PortPin(env, name, false, port);
      HeldByLonger(declared.ins, shown.ins, PortPin(env, name, false, port));
    }
    if port in outs {
      var i :| 0 <= i < |outs| && outs[i] == port;
      assert declared.outs[i] == PortPin(env, name, true, port);
      HeldByLonger(declared.outs, shown.outs, PortPin(env, name, true, port));
    }
  }

  // ---------------------------------------------------------------- what is shown

  lemma HoleOfTheLast(env: Env, node: string, ok: bool, ti: TypeInfo, params: Object, s: Socket, sides: Sides)
    requires Unset(s, params, ti) && (s.required || s.output || !ok)
    ensures PlaceholderPin(env, node, s) in Side(WithSocket(env, node, ok, ti, params, s, sides), s.output)
  {
  }

  lemma HoleStaysOnShow(env: Env, node: string, ok: bool, ti: TypeInfo, params: Object, s: Socket, sides: Sides,
                        output: bool, hole: Pin)
    requires hole in Side(sides, output)
    ensures hole in Side(WithSocket(env, node, ok, ti, params, s, sides), output)
  {
    SocketKeepsPins(env, node, ok, ti, params, s, sides);
    HeldByLonger(Side(sides, output), Side(WithSocket(env, node, ok, ti, params, s, sides), output), hole);
  }

  lemma {:induction false} HoleIsShown(env: Env, node: string, ok: bool, ti: TypeInfo, params: Object,
                                       ss: seq<Socket>, sides: Sides, k: nat, s: Socket)
    requires k < |ss| && ss[k] == s && Unset(s, params, ti) && (s.required || s.output || !ok)
    ensures PlaceholderPin(env, node, s) in Side(WithSockets(env, node, ok, ti, params, ss, sides), s.output)
  {
    var n := |ss| - 1;
    var before := WithSockets(env, node, ok, ti, params, ss[..n], sides);
    if k < n {
      HoleIsShown(env, node, ok, ti, params, ss[..n], sides, k, s);
      HoleStaysOnShow(env, node, ok, ti, params, ss[n], before, s.output, PlaceholderPin(env, node, s));
    } else {
      HoleOfTheLast(env, node, ok, ti, params, s, before);
    }
  }

  /** A pin that stands for a socket yet to be set. */
  predicate IsHoleOf(p: Pin, node: string, s: Socket) {
    && p.placeholder && !p.plus && p.node == node && p.output == s.output && p.topic == "" && p.caption == s.pattern
    && p.payload == s.payload && p.feedback == s.feedback && p.required == s.required && p.prefix == s.prefix
    && p.list == s.list && p.param == (if s.params == [] then "" else s.params[0])
  }

  /** A pin that shows a topic of a set socket; it is polled when setup went through without declaring it. */
  predicate IsTopicOf(p: Pin, node: string, ok: bool, s: Socket, t: string) {
    && !p.placeholder && !p.plus && p.node == node && p.output == s.output && p.topic == t && p.caption == t
    && p.payload == s.payload && p.feedback == s.feedback && p.required == s.required && p.prefix == s.prefix
    && (p.polled <==> ok)
  }

  /** The pin that stands for all optional inputs yet to be set. */
  predicate IsPlus(p: Pin, node: string) {
    p.plus && p.placeholder && p.node == node && !p.output && p.topic == "" && p.caption == "+" && !p.required
  }


  /** A declared port, or a fixed topic: everything under it when it ends with a dot. */
  ghost predicate IsPortPin(p: Pin, node: string, output: bool, port: Port) {
    && !p.placeholder && !p.plus && !p.polled && p.node == node && p.output == output
    && p.topic == port.topic && p.caption == port.topic && p.payload == port.payload
    && (p.prefix <==> exists front :: port.topic == front + ".")
  }

  lemma DotAtTheEnd(topic: string)
    ensures EndsWithDot(topic) <==> exists front :: topic == front + "."
  {
    if EndsWithDot(topic) {
      assert topic == topic[..|topic| - 1] + ".";
    }
  }

  // ---------------------------------------------------------------- why a pin is there

  /** A set socket gives the topic on that side, and no declared pin of the side shows it. */
  ghost predicate ShowsSocket(p: Pin, node: string, ok: bool, ti: TypeInfo, params: Object, ss: seq<Socket>,
                              declared: seq<Pin>) {
    exists s, t :: s in ss && !Unset(s, params, ti) && t in SocketTopics(s, params, ti) && IsTopicOf(p, node, ok, s, t)
                   && !Shown(declared, t)
  }

  ghost predicate FillsHole(p: Pin, node: string, ok: bool, ti: TypeInfo, params: Object, ss: seq<Socket>) {
    exists s :: s in ss && Unset(s, params, ti) && (s.required || s.output || !ok) && IsHoleOf(p, node, s)
  }

  ghost predicate Explained(p: Pin, node: string, ok: bool, ti: TypeInfo, params: Object, ss: seq<Socket>,
                            declared: seq<Pin>) {
    p in declared || ShowsSocket(p, node, ok, ti, params, ss, declared) || FillsHole(p, node, ok, ti, params, ss)
  }

  lemma {:induction false} TopicsExplained(env: Env, node: string, ok: bool, s: Socket, topics: seq<string>,
                                           side: seq<Pin>, p: Pin)
    requires p in WithTopics(env, node, ok, s, topics, side)
    ensures p in side || exists t :: t in topics && IsTopicOf(p, node, ok, s, t) && !Shown(side, t)
  {
    if topics != [] {
      var n := |topics| - 1;
      var before := WithTopics(env, node, ok, s, topics[..n], side);
      if p in before {
        TopicsExplained(env, node, ok, s, topics[..n], side, p);
      } else {
        TopicsKeepPins(env, node, ok, s, topics[..n], side);
        StillShownIn(side, before, topics[n]);
      }
    }
  }

  lemma StillShownIn(a: seq<Pin>, b: seq<Pin>, t: string)
    requires a <= b
    ensures Shown(a, t) ==> Shown(b, t)
  {
    if Shown(a, t) {
      var p :| p in a && p.topic == t;
      HeldByLonger(a, b, p);
    }
  }

  lemma SocketExplained(env: Env, node: string, ok: bool, ti: TypeInfo, params: Object, s: Socket, sides: Sides,
                        declared: seq<Pin>, output: bool, p: Pin)
    requires declared <= Side(sides, output) && p in Side(WithSocket(env, node, ok, ti, params, s, sides), output)
    ensures p in Side(sides, output) || Explained(p, node, ok, ti, params, [s], declared)
  {
    if p !in Side(sides, output) {
      assert s in [s];
      if Unset(s, params, ti) {
        assert IsHoleOf(p, node, s);
      } else {
        TopicsExplained(env, node, ok, s, SocketTopics(s, params, ti), Side(sides, output), p);
        var t :| t in SocketTopics(s, params, ti) && IsTopicOf(p, node, ok, s, t) && !Shown(Side(sides, output), t);
        StillShownIn(declared, Side(sides, output), t);
      }
    }
  }

  lemma ExplainedByMore(p: Pin, node: string, ok: bool, ti: TypeInfo, params: Object, some: seq<Socket>,
                        all: seq<Socket>, declared: seq<Pin>)
    requires Explained(p, node, ok, ti, params, some, declared) && forall s :: s in some ==> s in all
    ensures Explained(p, node, ok, ti, params, all, declared)
  {
  }

  lemma {:induction false} SocketsExplained(env: Env, node: string, ok: bool, ti: TypeInfo, params: Object,
                                            ss: seq<Socket>, declared: Sides, output: bool, p: Pin)
    requires p in Side(WithSockets(env, node, ok, ti, params, ss, declared), output)
    ensures Explained(p, node, ok, ti, params, ss, Side(declared, output))
  {
    if ss != [] {
      var n := |ss| - 1;
      var before := WithSockets(env, node, ok, ti, params, ss[..n], declared);
      SocketsKeepPins(env, node, ok, ti, params, ss[..n], declared);
      SocketExplained(env, node, ok, ti, params, ss[n], before, Side(declared, output), output, p);
      if p in Side(before, output) {
        SocketsExplained(env, node, ok, ti, params, ss[..n], declared, output, p);
        ExplainedByMore(p, node, ok, ti, params, ss[..n], ss, Side(declared, output));
      } else {
        ExplainedByMore(p, node, ok, ti, params, [ss[n]], ss, Side(declared, output));
      }
    }
  }

  lemma {:induction false} FixedExplained(env: Env, node: string, ports: seq<Port>, sides: Sides, output: bool, p: Pin)
    ensures p in Side(WithFixed(env, node, ports, sides), output) <==>
              p in Side(sides, output) || exists f :: f in ports && f.output == output && p == FixedPin(env, node, f)
  {
    if ports != [] {
      var n := |ports| - 1;
      FixedExplained(env, node, ports[..n], sides, output, p);
      assert ports == ports[..n] + [ports[n]];
    }
  }

  lemma PortPinsAre(env: Env, node: string, output: bool, ports: seq<Port>, p: Pin)
    requires p in PortPins(env, node, output, ports)
    ensures exists port :: port in ports && IsPortPin(p, node, output, port)
                           && (!output ==> p.feedback == port.feedback && p.required == port.required)
                           && (output ==> !p.feedback && p.required)
  {
    var i :| 0 <= i < |ports| && PortPins(env, node, output, ports)[i] == p;
    DotAtTheEnd(ports[i].topic);
    assert IsPortPin(p, node, output, ports[i]);
  }

  /** Every pin on the node of a module whose trial setup goes through is a port it declares, or a topic of a set socket
      that it does not declare, or a hole for an unset socket that must be set or is an output, or the one "+" pin, which
      is there exactly when an optional input is unset. */
  lemma SetUpPinsAre(env: Env, name: string, m: G.Module, ins: seq<Port>, outs: seq<Port>, output: bool, p: Pin)
    requires m.typ in env.cat && env.trial(m.typ, name, m.params) == Ran(ins, outs)
    requires p in Side(ModuleSides(env, name, m), output)
    ensures var ti, declared := env.cat[m.typ], PortPins(env, name, output, if output then outs else ins);
            || Explained(p, name, true, ti, m.params, ti.sockets, declared)
            || (IsPlus(p, name) && !output
                && exists s :: s in ti.sockets && !s.required && !s.output && Unset(s, m.params, ti))
  {
    var ti, declared := env.cat[m.typ], Sides(PortPins(env, name, false, ins), PortPins(env, name, true, outs));
    var shown := WithSockets(env, name, true, ti, m.params, ti.sockets, declared);
    if p in Side(shown, output) {
      SocketsExplained(env, name, true, ti, m.params, ti.sockets, declared, output, p);
    }
  }

  /** The "+" pin is there whenever an optional input is unset and setup went through. */
  lemma PlusIsShown(env: Env, name: string, m: G.Module, ins: seq<Port>, outs: seq<Port>, s: Socket)
    requires m.typ in env.cat && env.trial(m.typ, name, m.params) == Ran(ins, outs)
    requires s in env.cat[m.typ].sockets && !s.required && !s.output && Unset(s, m.params, env.cat[m.typ])
    ensures exists p :: p in ModuleSides(env, name, m).ins && IsPlus(p, name)
  {
    var ti, declared := env.cat[m.typ], Sides(PortPins(env, name, false, ins), PortPins(env, name, true, outs));
    var shown := WithSockets(env, name, true, ti, m.params, ti.sockets, declared);
    assert ModuleSides(env, name, m).ins == shown.ins + [PlusPin(env, name)];
    assert PlusPin(env, name) in ModuleSides(env, name, m).ins && IsPlus(PlusPin(env, name), name);
  }

  /** When setup fails the node keeps its shape: a pin for every topic of a set socket, a hole for every unset one, and
      every fixed topic of the type; and there are no others. */
  lemma FailedPinsAre(env: Env, name: string, m: G.Module, error: string, output: bool, p: Pin)
    requires m.typ in env.cat && env.trial(m.typ, name, m.params) == Failed(error)
    ensures var ti := env.cat[m.typ];
            p in Side(ModuleSides(env, name, m), output) ==>
              || Explained(p, name, false, ti, m.params, ti.sockets, [])
              || exists f :: f in ti.fixedPorts && f.output == output && IsPortPin(p, name, output, f)
                             && p.feedback == f.feedback && p.required == f.required
  {
    var ti := env.cat[m.typ];
    var shown := WithSockets(env, name, false, ti, m.params, ti.sockets, Sides([], []));
    FixedExplained(env, name, ti.fixedPorts, shown, output, p);
    if p in Side(shown, output) {
      SocketsExplained(env, name, false, ti, m.params, ti.sockets, Sides([], []), output, p);
    } else if p in Side(ModuleSides(env, name, m), output) {
      var f :| f in ti.fixedPorts && f.output == output && p == FixedPin(env, name, f);
      DotAtTheEnd(f.topic);
      assert IsPortPin(p, name, output, f);
    }
  }

  lemma FixedIsShown(env: Env, name: string, m: G.Module, error: string, f: Port)
    requires m.typ in env.cat && env.trial(m.typ, name, m.params) == Failed(error) && f in env.cat[m.typ].fixedPorts
    ensures exists p :: p in Side(ModuleSides(env, name, m), f.output) && IsPortPin(p, name, f.output, f)
  {
    var ti := env.cat[m.typ];
    var shown := WithSockets(env, name, false, ti, m.params, ti.sockets, Sides([], []));
    FixedExplained(env, name, ti.fixedPorts, shown, f.output, FixedPin(env, name, f));
    DotAtTheEnd(f.topic);
    assert IsPortPin(FixedPin(env, name, f), name, f.output, f);
  }

  /** Whatever setup does, an unset socket that must be set or is an output has a hole, and after a failed setup every
      unset socket has. */
  lemma UnsetHasAHole(env: Env, name: string, m: G.Module, s: Socket)
    requires m.typ in env.cat && s in env.cat[m.typ].sockets && Unset(s, m.params, env.cat[m.typ])
    requires s.required || s.output || env.trial(m.typ, name, m.params).Failed?
    ensures exists p :: p in Side(ModuleSides(env, name, m), s.output) && IsHoleOf(p, name, s)
  {
    var ti, tr := env.cat[m.typ], env.trial(m.typ, name, m.params);
    var declared := if tr.Ran? then Sides(PortPins(env, name, false, tr.inputs), PortPins(env, name, true, tr.outputs))
                    else Sides([], []);
    var k :| 0 <= k < |ti.sockets| && ti.sockets[k] == s;
    HoleIsShown(env, name, tr.Ran?, ti, m.params, ti.sockets, declared, k, s);
    var hole := PlaceholderPin(env, name, s);
    var shown := WithPlus(env, name, tr.Ran?, ti, m.params,
                          WithSockets(env, name, tr.Ran?, ti, m.params, ti.sockets, declared));
    FixedExplained(env, name, ti.fixedPorts, shown, s.output, hole);
    assert hole in Side(shown, s.output) && IsHoleOf(hole, name, s);
  }
}
