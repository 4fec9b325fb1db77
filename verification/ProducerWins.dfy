/** brain_builder/src/Wiring.cpp, connect: which side's params a drag writes, and what it writes there, on documents. */
module ProducerWins {
  import opened Build
  import opened Connect
  import opened ConnectLaws
  import opened Json
  import opened Prelude
  import opened Slots
  import opened Sockets
  import opened Topics
  import opened Wiring
  import G = Graph

  // ---------------------------------------------------------------- what an edit writes

  /** Only the param under the key changed, to the value. */
  ghost predicate OnlyKey(before: Object, after: Object, key: string, value: Json) {
    Get(after, key) == Some(value) && forall other :: other != key ==> Get(after, other) == Get(before, other)
  }

  /** The param that held the old topic, alone or, where none does, in a list, holds the new one in its place. */
  ghost predicate TopicReplaced(before: Object, after: Object, was: string, topic: string) {
    exists k: nat :: k < |before| && (ScalarReplaced(before, after, was, topic, k)
                                      || EntryReplaced(before, after, was, topic, k))
  }

  ghost predicate ScalarReplaced(before: Object, after: Object, was: string, topic: string, k: nat)
    requires k < |before|
  {
    FirstHolds(before, before[k].key, was, k) && OnlyKey(before, after, before[k].key, Str(topic))
  }

  ghost predicate EntryReplaced(before: Object, after: Object, was: string, topic: string, k: nat)
    requires k < |before|
  {
    && (forall f :: f in before ==> f.value != Str(was)) && FirstLists(before, before[k].key, was, k)
    && exists i: nat :: HoldsTopic(before[k].value, was, i)
                        && OnlyKey(before, after, before[k].key, Arr(before[k].value.items[i := Str(topic)]))
  }

  ghost predicate LastOf(names: seq<string>, i: nat) {
    i < |names| && forall j :: i < j < |names| ==> names[j] != names[i]
  }

  /** Each placeholder's param holds its part of the topic, as the pattern reads it. */
  ghost predicate TopicSplit(before: Object, after: Object, pattern: string, topic: string) {
    exists tokens, vs :: Tokens(pattern) == Some(tokens) && Reads(tokens, topic, vs)
                         && PartsHeld(before, after, Names(tokens), vs)
  }

  ghost predicate PartsHeld(before: Object, after: Object, names: seq<string>, vs: seq<string>)
    requires |names| == |vs|
  {
    && (forall i: nat :: LastOf(names, i) ==> Get(after, names[i]) == Some(Str(vs[i])))
    && (forall other :: other !in names ==> Get(after, other) == Get(before, other))
  }

  /** The param of a hole is the topic, or the list it was, or an empty one, with the topic at its end. */
  ghost predicate HoleFilled(env: Env, n: Node, hole: Pin, before: Object, after: Object, topic: string) {
    var sock := PinSocket(env, n, hole);
    if sock.Some? && |sock.value.params| >= 2 then TopicSplit(before, after, sock.value.pattern, topic)
    else if hole.list then
      var held := Get(before, hole.param);
      OnlyKey(before, after, hole.param,
              Arr((if held.Some? && held.value.Arr? then held.value.items else []) + [Str(topic)]))
    else OnlyKey(before, after, hole.param, Str(topic))
  }

  /** What a done edit of the pin has made of its module's params. */
  ghost predicate TakesTopic(env: Env, n: Node, pin: Pin, before: Object, after: Object, topic: string) {
    if pin.placeholder then HoleFilled(env, n, pin, before, after, topic)
    else TopicReplaced(before, after, pin.topic, topic)
  }

  lemma {:induction false} AssignedHolds(params: Object, names: seq<string>, vs: seq<string>)
    requires |names| == |vs|
    ensures PartsHeld(params, Assigned(params, names, vs), names, vs)
  {
    if names != [] {
      var n := |names| - 1;
      AssignedHolds(params, names[..n], vs[..n]);
      var before, after := Assigned(params, names[..n], vs[..n]), Assigned(params, names, vs);
      PutIsOnlyKey(before, names[n], Str(vs[n]));
      assert names == names[..n] + [names[n]];
      forall i: nat | LastOf(names, i) ensures Get(after, names[i]) == Some(Str(vs[i])) {
        if i < n {
          assert names[n] != names[i] && LastOf(names[..n], i);
        }
      }
      forall other | other !in names ensures Get(after, other) == Get(params, other) {
        assert other !in names[..n] && other != names[n];
      }
    }
  }

  lemma PutIsOnlyKey(before: Object, key: string, value: Json)
    ensures OnlyKey(before, Put(before, key, value), key, value)
  {
    forall other ensures Get(Put(before, key, value), other) == if other == key then Some(value) else Get(before, other) {
      GetPut(before, key, value, other);
    }
  }

  /** Every module but one is as it was. */
  predicate OnlyModule(d: G.Doc, e: G.Doc, i: nat) {
    && i < |d.modules| == |e.modules|
    && (forall j :: 0 <= j < |d.modules| && j != i ==> e.modules[j] == d.modules[j])
    && e.modules[i].id == d.modules[i].id && e.modules[i].typ == d.modules[i].typ
  }

  lemma SplitWrites(s: G.State, env: Env, n: Node, hole: Pin, pattern: string, topic: string)
    requires Current(s.doc, n)
    ensures var r := AssignSplit(s, n.name, pattern, topic);
            && OnlyModule(s.doc, r.1.doc, n.index) && (r.0.Refused? ==> r.1 == s)
            && (r.0.Done? ==> TopicSplit(s.doc.modules[n.index].params, ParamsAfter(r.1, n), pattern, topic))
  {
    var tokens, before := Tokens(pattern), s.doc.modules[n.index].params;
    if tokens.Some? && Match(tokens.value, topic).Some? {
      var vs := Match(tokens.value, topic).value;
      MatchSound(tokens.value, topic);
      SetAllAt(G.Marked(s), n.name, Names(tokens.value), vs);
      AssignedHolds(before, Names(tokens.value), vs);
    }
  }

  lemma SetWrites(s: G.State, n: Node, key: string, value: Json)
    requires Current(s.doc, n)
    ensures var t := SetTopic(s, n.name, key, value).1;
            && OnlyModule(s.doc, t.doc, n.index)
            && OnlyKey(s.doc.modules[n.index].params, ParamsAfter(t, n), key, value)
  {
    SetTopicAt(s, n, key, value);
    PutIsOnlyKey(s.doc.modules[n.index].params, key, value);
  }

  lemma EntryWrites(s: G.State, env: Env, n: Node, pin: Pin, topic: string)
    requires Current(s.doc, n) && UniqueKeys(s.doc.modules[n.index].params) && !pin.placeholder
    requires Resolve(s.doc, env, n, pin).ListEntry?
    ensures var r := Assign(s, env, n, pin, Resolve(s.doc, env, n, pin), topic);
            && r.0.Done? && OnlyModule(s.doc, r.1.doc, n.index)
            && TopicReplaced(s.doc.modules[n.index].params, ParamsAfter(r.1, n), pin.topic, topic)
  {
    var params, slot := s.doc.modules[n.index].params, Resolve(s.doc, env, n, pin);
    SlotHoldsTheTopic(s.doc, env, n, pin);
    FirstScalarIs(params, pin.topic);
    var k: nat :| FirstLists(params, slot.param, pin.topic, k) && HoldsTopic(params[k].value, pin.topic, slot.index);
    GetIsTheField(params, k);
    SetWrites(s, n, slot.param, Arr(params[k].value.items[slot.index := Str(topic)]));
    var after := ParamsAfter(Assign(s, env, n, pin, slot, topic).1, n);
    assert EntryReplaced(params, after, pin.topic, topic, k);
  }

  /** An edit of a module's pin writes that module's params alone, and when it is done they hold the topic where the pin's
      own was, or where its hole is. */
  lemma EditWrites(s: G.State, env: Env, n: Node, pin: Pin, topic: string)
    requires Current(s.doc, n) && UniqueKeys(s.doc.modules[n.index].params)
    ensures var r := Assign(s, env, n, pin, Resolve(s.doc, env, n, pin), topic);
            && OnlyModule(s.doc, r.1.doc, n.index) && (r.0.Refused? ==> r.1 == s)
            && (r.0.Done? ==> TakesTopic(env, n, pin, s.doc.modules[n.index].params, ParamsAfter(r.1, n), topic))
  {
    var params := s.doc.modules[n.index].params;
    match Resolve(s.doc, env, n, pin)
    case Open(param, list) =>
      var sock := PinSocket(env, n, pin);
      if sock.Some? && |sock.value.params| >= 2 {
        SplitWrites(s, env, n, pin, sock.value.pattern, topic);
      } else if list {
        SetWrites(s, n, param, Arr(ListAt(s.doc, n.name, param) + [Str(topic)]));
      } else {
        SetWrites(s, n, param, Str(topic));
      }
    case Scalar(param) =>
      SlotHoldsTheTopic(s.doc, env, n, pin);
      var k: nat :| FirstHolds(params, param, pin.topic, k);
      SetWrites(s, n, param, Str(topic));
      assert ScalarReplaced(params, ParamsAfter(SetTopic(s, n.name, param, Str(topic)).1, n), pin.topic, topic, k);
    case ListEntry(_, _) => EntryWrites(s, env, n, pin, topic);
    case _ =>
  }

  // ---------------------------------------------------------------- whose params

  /** The drag joins output pin src of node ns and input pin dst of node nd, from whichever end it was drawn. */
  predicate Joins(w: seq<Node>, fromPin: nat, toPin: nat, ns: nat, src: Pin, nd: nat, dst: Pin) {
    && ns < |w| && nd < |w| && src.output && !dst.output
    && var (s, d) := if OwnerOf(w, fromPin) == Some(ns) && PinIn(w[ns], fromPin) == src then (fromPin, toPin)
                     else (toPin, fromPin);
       && OwnerOf(w, s) == Some(ns) && PinIn(w[ns], s) == src
       && OwnerOf(w, d) == Some(nd) && PinIn(w[nd], d) == dst
  }

  /** Every module's node is that of a module of the document, and its params have unique keys, as in any JSON object. */
  ghost predicate Shows(d: G.Doc, w: seq<Node>) {
    forall n :: n in w && n.kind == Module ==> Current(d, n) && UniqueKeys(d.modules[n.index].params)
  }

  /** Some param of the node's module is the topic, or a list that holds it. */
  predicate InParams(d: G.Doc, n: Node, topic: string) {
    0 <= n.index < |d.modules|
    && exists f :: f in d.modules[n.index].params && (f.value == Str(topic) || Lists(f.value, topic))
  }

  lemma FoundIffInParams(d: G.Doc, env: Env, n: Node, p: Pin)
    requires n.kind == Module && 0 <= n.index < |d.modules| && !p.placeholder
    ensures var slot := Resolve(d, env, n, p);
            && !slot.Open?
            && (slot.Scalar? || slot.ListEntry? <==> InParams(d, n, p.topic))
  {
    ComposedOrFixed(d, env, n, p);
  }

  /** A drag is refused before anything is looked up exactly when it joins a node to itself or the body to itself, ends
      at a "+" pin, or starts at a hole with no topic at its other end. */
  ghost predicate Hopeless(w: seq<Node>, ns: nat, src: Pin, nd: nat, dst: Pin)
    requires ns < |w| && nd < |w|
  {
    || ns == nd || (w[ns].kind != Module && w[nd].kind != Module) || dst.plus
    || (src.placeholder && (dst.placeholder || dst.topic == ""))
  }

  /** The producer's params are written, not the consumer's. */
  ghost predicate ProducerYields(d: G.Doc, w: seq<Node>, ns: nat, src: Pin, nd: nat, dst: Pin)
    requires ns < |w| && nd < |w|
  {
    || src.placeholder
    || w[nd].kind != Module
    || (!dst.placeholder && dst.topic != "" && !InParams(d, w[nd], dst.topic)
        && w[ns].kind == Module && InParams(d, w[ns], src.topic))
  }

  /** Whose params a drag writes: the consumer's, with the producer's topic, unless the producer is a hole, or the
      consumer is no module, or the input has a topic that no param of its module holds while the output's can be
      written. */
  lemma WhoIsWritten(d: G.Doc, w: seq<Node>, env: Env, fromPin: nat, toPin: nat, ns: nat, src: Pin, nd: nat, dst: Pin)
    requires Shows(d, w) && Joins(w, fromPin, toPin, ns, src, nd, dst)
    ensures var plan := PlanConnect(w, d, env, fromPin, toPin);
            && (plan.Refuse? <==> Hopeless(w, ns, src, nd, dst))
            && (plan.Already? <==>
                  !Hopeless(w, ns, src, nd, dst) && !src.placeholder && w[nd].kind != Module && src.topic == dst.topic)
            && (plan.Edit? ==>
                  plan == if ProducerYields(d, w, ns, src, nd, dst)
                          then Edit(ns, src, Resolve(d, env, w[ns], src), dst.topic)
                          else Edit(nd, dst, Resolve(d, env, w[nd], dst), src.topic))
  {
    assert w[ns] in w && w[nd] in w;
    assert PlanConnect(w, d, env, fromPin, toPin) ==
           if Hopeless(w, ns, src, nd, dst)
           then Refuse(PlanConnect(w, d, env, fromPin, toPin).why) else PlanEdit(w, d, env, ns, src, nd, dst);
    if w[nd].kind == Module && !dst.placeholder {
      FoundIffInParams(d, env, w[nd], dst);
    }
    if w[ns].kind == Module && !src.placeholder {
      FoundIffInParams(d, env, w[ns], src);
    }
  }

  /** Connecting on the document.  Unless the producer yields, its module stays as it was, and a done connect leaves the
      producer's topic where the input's own was, or in the hole; if it yields, the consumer's module stays, and a done
      connect leaves the consumer's topic with the producer. */
  lemma ConnectWrites(s: G.State, w: seq<Node>, env: Env, fromPin: nat, toPin: nat, ns: nat, src: Pin, nd: nat,
                      dst: Pin)
    requires Shows(s.doc, w) && Joins(w, fromPin, toPin, ns, src, nd, dst) && !Hopeless(w, ns, src, nd, dst)
    ensures PlanConnect(w, s.doc, env, fromPin, toPin).Edit? ==> PlanConnect(w, s.doc, env, fromPin, toPin).node < |w|
    ensures var r := Carry(s, w, env, PlanConnect(w, s.doc, env, fromPin, toPin));
            var (n, pin, topic) := if ProducerYields(s.doc, w, ns, src, nd, dst) then (w[ns], src, dst.topic)
                                   else (w[nd], dst, src.topic);
            && (r.0.Refused? ==> r.1 == s)
            && (r.1 != s ==> n.kind == Module && OnlyModule(s.doc, r.1.doc, n.index))
            && (r.0.Done? && !PlanConnect(w, s.doc, env, fromPin, toPin).Already? ==>
                  && n.kind == Module && 0 <= n.index < |s.doc.modules| == |r.1.doc.modules|
                  && TakesTopic(env, n, pin, s.doc.modules[n.index].params, ParamsAfter(r.1, n), topic))
  {
    WhoIsWritten(s.doc, w, env, fromPin, toPin, ns, src, nd, dst);
    var n, pin, topic := if ProducerYields(s.doc, w, ns, src, nd, dst) then w[ns] else w[nd],
                         if ProducerYields(s.doc, w, ns, src, nd, dst) then src else dst,
                         if ProducerYields(s.doc, w, ns, src, nd, dst) then dst.topic else src.topic;
    assert w[ns] in w && w[nd] in w;
    if n.kind == Module {
      EditWrites(s, env, n, pin, topic);
    }
  }

  /** The producer's name wins: connecting a live producer to a module's input whose topic is a param, an entry of a list
      or still to be given never touches the producer's module, and when it is done the consumer's params hold the
      producer's topic. */
  lemma ProducersNameWins(s: G.State, w: seq<Node>, env: Env, fromPin: nat, toPin: nat, ns: nat, src: Pin, nd: nat,
                          dst: Pin)
    requires Shows(s.doc, w) && Joins(w, fromPin, toPin, ns, src, nd, dst) && !Hopeless(w, ns, src, nd, dst)
    requires !src.placeholder && w[nd].kind == Module && (dst.placeholder || InParams(s.doc, w[nd], dst.topic))
    ensures PlanConnect(w, s.doc, env, fromPin, toPin).Edit? && PlanConnect(w, s.doc, env, fromPin, toPin).node < |w|
    ensures var r := Carry(s, w, env, PlanConnect(w, s.doc, env, fromPin, toPin));
            && OnlyModule(s.doc, r.1.doc, w[nd].index)
            && (w[ns].kind == Module && w[ns].index != w[nd].index ==>
                  r.1.doc.modules[w[ns].index] == s.doc.modules[w[ns].index])
            && (r.0.Done? ==> TakesTopic(env, w[nd], dst, s.doc.modules[w[nd].index].params,
                                         ParamsAfter(r.1, w[nd]), src.topic))
  {
    assert w[ns] in w && w[nd] in w;
    WhoIsWritten(s.doc, w, env, fromPin, toPin, ns, src, nd, dst);
    ConnectWrites(s, w, env, fromPin, toPin, ns, src, nd, dst);
  }
}
