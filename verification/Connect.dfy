/** brain_builder/src/Wiring.cpp: the two edits a drag on the canvas makes, connect and disconnect. */
module Connect {
  import opened Build
  import opened Json
  import opened Prelude
  import opened Slots
  import opened Sockets
  import opened Topics
  import opened Wiring
  import G = Graph

  /** Where a pin's topic lives in its module's params. */
  datatype Slot =
    | Open(param: string, list: bool)
    | Scalar(param: string)
    | ListEntry(param: string, index: nat)
    | Composed
    | Fixed

  datatype Reason =
    UnknownPin | SameDirection | UnknownNode | SelfLink | BodyToBody | NoTopic | Choose | NoParam | BadPattern
    | DoesNotFit | Vanished | IsComposed | IsFixed | UnknownLink | NothingToEdit

  datatype Answer = Done | Refused(why: Reason)

  // ---------------------------------------------------------------- resolve

  predicate ComposedHere(ss: seq<Socket>, output: bool, params: Object, topic: string) {
    exists s :: s in ss && |s.params| >= 2 && s.output == output && ComposeFrom(s.pattern, s.params, params) == topic
  }

  function Resolve(d: G.Doc, env: Env, n: Node, p: Pin): Slot {
    if n.kind != Module || n.index < 0 || n.index >= |d.modules| then Fixed
    else if p.placeholder then Open(p.param, p.list)
    else
      var params := d.modules[n.index].params;
      var scalar, entry := FirstScalar(params, p.topic), FirstEntry(params, p.topic);
      if scalar.Some? then Scalar(scalar.value)
      else if entry.Some? then ListEntry(entry.value.0, entry.value.1)
      else if n.typ in env.cat && ComposedHere(env.cat[n.typ].sockets, p.output, params, p.topic) then Composed
      else Fixed
  }

  method FindSlot(d: G.Doc, env: Env, n: Node, p: Pin) returns (slot: Slot)
    ensures slot == Resolve(d, env, n, p)
  {
    if n.kind != Module || n.index < 0 || n.index >= |d.modules| {
      return Fixed;
    }
    if p.placeholder {
      return Open(p.param, p.list);
    }
    var params := d.modules[n.index].params;
    for i := 0 to |params|
      invariant FirstScalar(params[i..], p.topic) == FirstScalar(params, p.topic)
    {
      if params[i].value == Str(p.topic) {
        return Scalar(params[i].key);
      }
    }
    for i := 0 to |params|
      invariant FirstEntry(params[i..], p.topic) == FirstEntry(params, p.topic)
    {
      var at := EntryIndex(params[i].value, p.topic);
      if at.Some? {
        return ListEntry(params[i].key, at.value);
      }
    }
    if n.typ in env.cat {
      var here := FindComposed(env.cat[n.typ].sockets, p.output, params, p.topic);
      if here {
        return Composed;
      }
    }
    slot := Fixed;
  }

  method EntryIndex(v: Json, topic: string) returns (at: Option<nat>)
    ensures at == IndexIn(v, topic)
  {
    if v.Arr? {
      for i := 0 to |v.items|
        invariant FirstIn(v.items, topic) ==
                  (var r := FirstIn(v.items[i..], topic); if r.Some? then Some(r.value + i) else None)
      {
        if v.items[i] == Str(topic) {
          return Some(i);
        }
      }
    }
    at := None;
  }

  method FindComposed(ss: seq<Socket>, output: bool, params: Object, topic: string) returns (here: bool)
    ensures here == ComposedHere(ss, output, params, topic)
  {
    for i := 0 to |ss|
      invariant forall j :: 0 <= j < i ==>
                  !(|ss[j].params| >= 2 && ss[j].output == output
                    && ComposeFrom(ss[j].pattern, ss[j].params, params) == topic)
    {
      if |ss[i].params| >= 2 && ss[i].output == output {
        var t := Compose(ss[i].pattern, ss[i].params, params);
        if t == topic {
          assert ss[i] in ss;
          return true;
        }
      }
    }
    here := false;
  }

  // ---------------------------------------------------------------- assign_socket

  /** The last of the type's sockets with the placeholder pin's pattern and direction. */
  function SocketOf(ss: seq<Socket>, pattern: string, output: bool): Option<Socket> {
    if ss == [] then None
    else if ss[|ss| - 1].pattern == pattern && ss[|ss| - 1].output == output then Some(ss[|ss| - 1])
    else SocketOf(ss[..|ss| - 1], pattern, output)
  }

  function PinSocket(env: Env, n: Node, pin: Pin): Option<Socket> {
    if n.typ in env.cat then SocketOf(env.cat[n.typ].sockets, pin.caption, pin.output) else None
  }

  /** Each group's text into its param, under the one undo step already made. */
  function SetAll(s: G.State, id: string, names: seq<string>, vs: seq<string>): G.State
    requires |names| == |vs|
  {
    if names == [] then s
    else
      var n := |names| - 1;
      G.Step(SetAll(s, id, names[..n], vs[..n]), G.SetParam(id, names[n], Str(vs[n]), false))
  }

  function AssignSplit(s: G.State, id: string, pattern: string, topic: string): (Answer, G.State) {
    var tokens := Tokens(pattern);
    if tokens.None? then (Refused(BadPattern), s)
    else
      var m := Match(tokens.value, topic);
      if m.None? then (Refused(DoesNotFit), s)
      else
        MatchSound(tokens.value, topic);
        (Done, SetAll(G.Marked(s), id, Names(tokens.value), m.value))
  }

  /** The list the param holds, or an empty one. */
  function ListAt(d: G.Doc, id: string, param: string): seq<Json> {
    var i := G.IndexOf(d.modules, id);
    if i < 0 then []
    else
      var v := Get(d.modules[i].params, param);
      if v.Some? && v.value.Arr? then v.value.items else []
  }

  function SetTopic(s: G.State, id: string, param: string, value: Json): (Answer, G.State) {
    (Done, G.Step(s, G.SetParam(id, param, value, true)))
  }

  function Assign(s: G.State, env: Env, n: Node, pin: Pin, slot: Slot, topic: string): (Answer, G.State) {
    match slot
    case Open(param, list) =>
      if param == "" then (Refused(NoParam), s)
      else
        var sock := PinSocket(env, n, pin);
        if sock.Some? && |sock.value.params| >= 2 then AssignSplit(s, n.name, sock.value.pattern, topic)
        else if list then SetTopic(s, n.name, param, Arr(ListAt(s.doc, n.name, param) + [Str(topic)]))
        else SetTopic(s, n.name, param, Str(topic))
    case Scalar(param) => SetTopic(s, n.name, param, Str(topic))
    case ListEntry(param, i) =>
      var items := ListAt(s.doc, n.name, param);
      if i >= |items| then (Refused(Vanished), s)
      else SetTopic(s, n.name, param, Arr(items[i := Str(topic)]))
    case Composed => (Refused(IsComposed), s)
    case Fixed => (Refused(IsFixed), s)
  }

  method AssignSocket(g: G.Graph, env: Env, n: Node, pin: Pin, slot: Slot, topic: string) returns (answer: Answer)
    modifies g
    ensures (answer, g.Now()) == Assign(old(g.Now()), env, n, pin, slot, topic)
  {
    match slot
    case Open(param, list) =>
      if param == "" { return Refused(NoParam); }
      var sock := FindSocket(env, n, pin);
      if sock.Some? && |sock.value.params| >= 2 {
        answer := SplitInto(g, n.name, sock.value.pattern, topic);
      } else if list {
        var items := ReadList(g, n.name, param);
        g.SetParam(n.name, param, Arr(items + [Str(topic)]), true);
        answer := Done;
      } else {
        g.SetParam(n.name, param, Str(topic), true);
        answer := Done;
      }
    case Scalar(param) =>
      g.SetParam(n.name, param, Str(topic), true);
      answer := Done;
    case ListEntry(param, i) =>
      var items := ReadList(g, n.name, param);
      if i >= |items| { return Refused(Vanished); }
      g.SetParam(n.name, param, Arr(items[i := Str(topic)]), true);
      answer := Done;
    case Composed => answer := Refused(IsComposed);
    case Fixed => answer := Refused(IsFixed);
  }

  method FindSocket(env: Env, n: Node, pin: Pin) returns (sock: Option<Socket>)
    ensures sock == PinSocket(env, n, pin)
  {
    sock := None;
    if n.typ in env.cat {
      var ss := env.cat[n.typ].sockets;
      for i := 0 to |ss|
        invariant sock == SocketOf(ss[..i], pin.caption, pin.output)
      {
        assert ss[..i + 1][..i] == ss[..i];
        if ss[i].pattern == pin.caption && ss[i].output == pin.output {
          sock := Some(ss[i]);
        }
      }
      assert ss[..|ss|] == ss;
    }
  }

  method ReadList(g: G.Graph, id: string, param: string) returns (items: seq<Json>)
    ensures items == ListAt(g.doc, id, param)
  {
    var i := G.FindIndex(g.doc.modules, id);
    items := [];
    if i >= 0 {
      var v := Get(g.doc.modules[i].params, param);
      if v.Some? && v.value.Arr? {
        items := v.value.items;
      }
    }
  }

  method SplitInto(g: G.Graph, id: string, pattern: string, topic: string) returns (answer: Answer)
    modifies g
    ensures (answer, g.Now()) == AssignSplit(old(g.Now()), id, pattern, topic)
  {
    var tokens := ReadPattern(pattern);
    if tokens.None? { return Refused(BadPattern); }
    var m := Match(tokens.value, topic);
    if m.None? { return Refused(DoesNotFit); }
    MatchSound(tokens.value, topic);
    g.Mark();
    var names, vs := Names(tokens.value), m.value;
    ghost var marked := g.Now();
    for i := 0 to |names|
      invariant g.Now() == SetAll(marked, id, names[..i], vs[..i])
    {
      assert names[..i + 1][..i] == names[..i] && vs[..i + 1][..i] == vs[..i];
      g.SetParam(id, names[i], Str(vs[i]), false);
    }
    assert names[..|names|] == names && vs[..|vs|] == vs;
    answer := Done;
  }

  // ---------------------------------------------------------------- connect

  predicate HasPin(n: Node, id: nat) {
    FirstPin(n.inputs, id).Some? || FirstPin(n.outputs, id).Some?
  }

  function FirstPin(pins: seq<Pin>, id: nat): Option<Pin> {
    if pins == [] then None else if pins[0].id == id then Some(pins[0]) else FirstPin(pins[1..], id)
  }

  /** The first node showing the pin; its inputs are looked at before its outputs. */
  function OwnerOf(w: seq<Node>, id: nat): (i: Option<nat>)
    ensures i.Some? ==> i.value < |w| && HasPin(w[i.value], id)
  {
    if w == [] then None
    else if HasPin(w[0], id) then Some(0)
    else
      var i := OwnerOf(w[1..], id);
      if i.Some? then Some(i.value + 1) else None
  }

  function PinIn(n: Node, id: nat): Pin
    requires HasPin(n, id)
  {
    var p := FirstPin(n.inputs, id);
    if p.Some? then p.value else FirstPin(n.outputs, id).value
  }

  /** What connect decides before it touches the graph. */
  datatype Plan =
    | Refuse(why: Reason)
    | Already
    | Edit(node: nat, pin: Pin, slot: Slot, topic: string)

  /** Which of the two pins' params to write, and with what: the producer's name wins where the consumer can take it. */
  function PlanEdit(w: seq<Node>, d: G.Doc, env: Env, ns: nat, src: Pin, nd: nat, dst: Pin): Plan
    requires ns < |w| && nd < |w|
  {
    if !src.placeholder && w[nd].kind == Module then
      var s, ss := Resolve(d, env, w[nd], dst), Resolve(d, env, w[ns], src);
      if (s.Fixed? || s.Composed?) && w[ns].kind == Module && dst.topic != "" && !ss.Fixed? && !ss.Composed?
      then Edit(ns, src, ss, dst.topic)
      else Edit(nd, dst, s, src.topic)
    else if src.placeholder && dst.topic == "" then Refuse(NoTopic)
    else if !src.placeholder && src.topic == dst.topic then Already
    else Edit(ns, src, Resolve(d, env, w[ns], src), dst.topic)
  }

  function PlanConnect(w: seq<Node>, d: G.Doc, env: Env, fromPin: nat, toPin: nat): Plan {
    var oa, ob := OwnerOf(w, fromPin), OwnerOf(w, toPin);
    if oa.None? || ob.None? then Refuse(UnknownPin)
    else
      var a, b := PinIn(w[oa.value], fromPin), PinIn(w[ob.value], toPin);
      if a.output == b.output then Refuse(SameDirection)
      else
        var (ns, src, nd, dst) := if a.output then (oa.value, a, ob.value, b) else (ob.value, b, oa.value, a);
        if ns == nd then Refuse(SelfLink)
        else if w[ns].kind != Module && w[nd].kind != Module then Refuse(BodyToBody)
        else if dst.plus then Refuse(if src.placeholder then NoTopic else Choose)
        else if src.placeholder && dst.placeholder then Refuse(NoTopic)
        else PlanEdit(w, d, env, ns, src, nd, dst)
  }

  function Carry(s: G.State, w: seq<Node>, env: Env, plan: Plan): (Answer, G.State)
    requires plan.Edit? ==> plan.node < |w|
  {
    match plan
    case Refuse(why) => (Refused(why), s)
    case Already => (Done, s)
    case Edit(node, pin, slot, topic) => Assign(s, env, w[node], pin, slot, topic)
  }

  method ConnectPins(g: G.Graph, w: seq<Node>, env: Env, fromPin: nat, toPin: nat) returns (answer: Answer)
    modifies g
    ensures (answer, g.Now()) == Carry(old(g.Now()), w, env, PlanConnect(w, old(g.doc), env, fromPin, toPin))
  {
    var oa, ob := OwnerOf(w, fromPin), OwnerOf(w, toPin);
    if oa.None? || ob.None? { return Refused(UnknownPin); }
    var a, b := PinIn(w[oa.value], fromPin), PinIn(w[ob.value], toPin);
    if a.output == b.output { return Refused(SameDirection); }
    var src, dst := if a.output then a else b, if a.output then b else a;
    var ns, nd := if a.output then oa.value else ob.value, if a.output then ob.value else oa.value;
    if ns == nd { return Refused(SelfLink); }
    if w[ns].kind != Module && w[nd].kind != Module { return Refused(BodyToBody); }
    if dst.plus { return Refused(if src.placeholder then NoTopic else Choose); }
    if src.placeholder && dst.placeholder { return Refused(NoTopic); }
    if !src.placeholder && w[nd].kind == Module {
      var s := FindSlot(g.doc, env, w[nd], dst);
      if s.Fixed? || s.Composed? {
        if w[ns].kind == Module && dst.topic != "" {
          var ss := FindSlot(g.doc, env, w[ns], src);
          if !ss.Fixed? && !ss.Composed? {
            answer := AssignSocket(g, env, w[ns], src, ss, dst.topic);
            return;
          }
        }
      }
      answer := AssignSocket(g, env, w[nd], dst, s, src.topic);
      return;
    }
    if src.placeholder {
      if dst.topic == "" { return Refused(NoTopic); }
    } else if src.topic == dst.topic {
      return Done;
    }
    var ss := FindSlot(g.doc, env, w[ns], src);
    answer := AssignSocket(g, env, w[ns], src, ss, dst.topic);
  }

  // ---------------------------------------------------------------- disconnect

  function Clear(s: G.State, env: Env, n: Node, p: Pin): (Answer, G.State) {
    match Resolve(s.doc, env, n, p)
    case Scalar(param) => (Done, G.Step(s, G.EraseParam(n.name, param)))
    case ListEntry(param, i) =>
      var items := ListAt(s.doc, n.name, param);
      if i >= |items| then (Refused(Vanished), s)
      else SetTopic(s, n.name, param, Arr(items[..i] + items[i + 1..]))
    case Composed => (Refused(IsComposed), s)
    case Fixed => (Refused(IsFixed), s)
    case Open(_, _) => (Done, s)
  }

  /** The consumer's side is cleared if it can be, else the producer's. */
  function Unlink(s: G.State, w: seq<Node>, env: Env, link: Link): (Answer, G.State) {
    var nd, ns := OwnerOf(w, link.toPin), OwnerOf(w, link.fromPin);
    if nd.None? || ns.None? then (Refused(UnknownLink), s)
    else
      var dst, src := PinIn(w[nd.value], link.toPin), PinIn(w[ns.value], link.fromPin);
      if w[nd.value].kind == Module then
        var r := Clear(s, env, w[nd.value], dst);
        if r.0.Done? || w[ns.value].kind != Module then r else Clear(r.1, env, w[ns.value], src)
      else if w[ns.value].kind == Module then Clear(s, env, w[ns.value], src)
      else (Refused(NothingToEdit), s)
  }

  method ClearPin(g: G.Graph, env: Env, n: Node, p: Pin) returns (answer: Answer)
    modifies g
    ensures (answer, g.Now()) == Clear(old(g.Now()), env, n, p)
  {
    var slot := FindSlot(g.doc, env, n, p);
    match slot
    case Scalar(param) =>
      g.EraseParam(n.name, param);
      answer := Done;
    case ListEntry(param, i) =>
      var items := ReadList(g, n.name, param);
      if i >= |items| { return Refused(Vanished); }
      g.SetParam(n.name, param, Arr(items[..i] + items[i + 1..]), true);
      answer := Done;
    case Composed => answer := Refused(IsComposed);
    case Fixed => answer := Refused(IsFixed);
    case Open(_, _) => answer := Done;
  }

  method DisconnectLink(g: G.Graph, w: seq<Node>, env: Env, link: Link) returns (answer: Answer)
    modifies g
    ensures (answer, g.Now()) == Unlink(old(g.Now()), w, env, link)
  {
    var nd, ns := OwnerOf(w, link.toPin), OwnerOf(w, link.fromPin);
    if nd.None? || ns.None? { return Refused(UnknownLink); }
    var dst, src := PinIn(w[nd.value], link.toPin), PinIn(w[ns.value], link.fromPin);
    if w[nd.value].kind == Module {
      answer := ClearPin(g, env, w[nd.value], dst);
      if answer.Done? || w[ns.value].kind != Module { return; }
      answer := ClearPin(g, env, w[ns.value], src);
      return;
    }
    if w[ns.value].kind == Module {
      answer := ClearPin(g, env, w[ns.value], src);
      return;
    }
    answer := Refused(NothingToEdit);
  }
}
