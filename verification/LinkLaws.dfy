/** brain_builder/src/Wiring.cpp, build: which pins are linked, and over which topic, with the topics written out. */
module LinkLaws {
  import opened Build
  import opened BuildLaws
  import opened Json
  import opened Prelude
  import opened Sockets
  import opened Wiring
  import G = Graph

  /** Output p of node i and input c of another node j, both with a topic. */
  ghost predicate Faces(nodes: seq<Node>, i: nat, p: Pin, j: nat, c: Pin) {
    && i < |nodes| && j < |nodes| && i != j
    && p in nodes[i].outputs && c in nodes[j].inputs && p.topic != "" && c.topic != ""
  }

  /** The link from p to c over the topic: the consumer says whether it is a feedback link, and the payloads whether the
      types agree. */
  ghost predicate IsLink(nodes: seq<Node>, i: nat, p: Pin, j: nat, c: Pin, topic: string, l: Link)
    requires i < |nodes| && j < |nodes|
  {
    && l.fromPin == p.id && l.toPin == c.id && l.fromNode == nodes[i].name && l.toNode == nodes[j].name
    && l.topic == topic && l.feedback == c.feedback
    && (l.typeOk <==> p.payload == c.payload || p.payload == "Unknown" || c.payload == "Unknown")
  }

  ghost predicate HasLink(nodes: seq<Node>, links: seq<Link>, i: nat, p: Pin, j: nat, c: Pin, topic: string)
    requires i < |nodes| && j < |nodes|
  {
    exists l :: l in links && IsLink(nodes, i, p, j, c, topic, l)
  }

  lemma MatchIsLinked(nodes: seq<Node>, links: seq<Link>, i: nat, p: Pin, j: nat, c: Pin)
    requires IsLinkedUp(nodes, links) && Faces(nodes, i, p, j, c) && Matches(p, c)
    ensures HasLink(nodes, links, i, p, j, c, if c.prefix then p.topic else c.topic)
  {
    var a, b := Ref(i, p), Ref(j, c);
    RefsAre(nodes, true, a);
    RefsAre(nodes, false, b);
    assert Linked(a, b);
    var l := LinkOf(nodes, a, b);
    assert l in links && IsLink(nodes, i, p, j, c, if c.prefix then p.topic else c.topic, l);
  }

  lemma LinkHasPins(nodes: seq<Node>, links: seq<Link>, l: Link) returns (i: nat, p: Pin, j: nat, c: Pin)
    requires IsLinkedUp(nodes, links) && l in links
    ensures Faces(nodes, i, p, j, c) && Matches(p, c)
    ensures IsLink(nodes, i, p, j, c, if c.prefix then p.topic else c.topic, l)
  {
    var a, b :| a in Refs(nodes, true) && b in Refs(nodes, false) && Linked(a, b) && l == LinkOf(nodes, a, b);
    RefsAre(nodes, true, a);
    RefsAre(nodes, false, b);
    i, p, j, c := a.node, a.pin, b.node, b.pin;
  }

  // ---------------------------------------------------------------- the three ways to match

  /** A consumer of everything under its topic has a link from each producer of a topic that begins with it, over the
      producer's topic. */
  lemma PrefixConsumerTakesAll(nodes: seq<Node>, links: seq<Link>, i: nat, p: Pin, j: nat, c: Pin, t: string)
    requires IsLinkedUp(nodes, links) && Faces(nodes, i, p, j, c)
    requires c.prefix && p.topic == c.topic + t
    ensures HasLink(nodes, links, i, p, j, c, c.topic + t)
  {
    MatchIsLinked(nodes, links, i, p, j, c);
  }

  /** A producer of everything under its topic has a link to each consumer of one topic that begins with it, over the
      consumer's topic. */
  lemma PrefixProducerFeedsAll(nodes: seq<Node>, links: seq<Link>, i: nat, p: Pin, j: nat, c: Pin, t: string)
    requires IsLinkedUp(nodes, links) && Faces(nodes, i, p, j, c)
    requires p.prefix && !c.prefix && c.topic == p.topic + t
    ensures HasLink(nodes, links, i, p, j, c, p.topic + t)
  {
    MatchIsLinked(nodes, links, i, p, j, c);
  }

  lemma SameTopicIsLinked(nodes: seq<Node>, links: seq<Link>, i: nat, p: Pin, j: nat, c: Pin)
    requires IsLinkedUp(nodes, links) && Faces(nodes, i, p, j, c)
    requires p.topic == c.topic
    ensures HasLink(nodes, links, i, p, j, c, p.topic)
  {
    MatchIsLinked(nodes, links, i, p, j, c);
  }

  /** How p and c come to be linked over the topic. */
  ghost predicate LinksOver(p: Pin, c: Pin, topic: string) {
    || (c.prefix && topic == p.topic && exists t :: p.topic == c.topic + t)
    || (p.prefix && !c.prefix && topic == c.topic && exists t :: c.topic == p.topic + t)
    || (!p.prefix && !c.prefix && topic == p.topic == c.topic)
  }

  lemma MatchesAre(p: Pin, c: Pin)
    ensures Matches(p, c) <==> LinksOver(p, c, if c.prefix then p.topic else c.topic)
  {
    if c.topic <= p.topic {
      assert p.topic == c.topic + p.topic[|c.topic|..];
    }
    if p.topic <= c.topic {
      assert c.topic == p.topic + c.topic[|p.topic|..];
    }
  }

  /** No other pair is linked: the links are exactly those of an output and an input of different nodes whose topics are
      equal, or of which the one with the prefix flag, the input's flag counting first, begins the other; each link is
      over the longer of the two and carries the input's feedback flag. */
  lemma LinksWrittenOut(nodes: seq<Node>, links: seq<Link>, l: Link)
    requires IsLinkedUp(nodes, links)
    ensures l in links <==>
              exists i, p, j, c ::
                Faces(nodes, i, p, j, c) && LinksOver(p, c, l.topic) && IsLink(nodes, i, p, j, c, l.topic, l)
  {
    if l in links {
      var i, p, j, c := LinkHasPins(nodes, links, l);
      MatchesAre(p, c);
      assert Faces(nodes, i, p, j, c) && LinksOver(p, c, l.topic) && IsLink(nodes, i, p, j, c, l.topic, l);
    }
    if i, p, j, c :| Faces(nodes, i, p, j, c) && LinksOver(p, c, l.topic) && IsLink(nodes, i, p, j, c, l.topic, l) {
      MatchesAre(p, c);
      assert l.topic == if c.prefix then p.topic else c.topic;
      MatchIsLinked(nodes, links, i, p, j, c);
      var k :| k in links && IsLink(nodes, i, p, j, c, l.topic, k);
      assert k == l;
    }
  }

  // ---------------------------------------------------------------- what a module subscribes to

  /** A module that declares an input whose topic ends with a dot hears every topic under it: each output of another node
      whose topic goes on from there is linked to it, over that output's topic, and the link is a feedback link exactly
      when the module declares the input as one. */
  lemma SubscriptionHearsAll(env: Env, ms: seq<G.Module>, links: seq<Link>, j: nat, ins: seq<Port>, outs: seq<Port>,
                             port: Port, i: nat, p: Pin, t: string)
    requires IsLinkedUp(Nodes(env, ms), links)
    requires j < |ms| && ms[j].typ in env.cat && env.trial(ms[j].typ, NameOf(ms[j], j), ms[j].params) == Ran(ins, outs)
    requires port in ins && port.topic != "" && port.topic[|port.topic| - 1] == '.'
    requires i < |Nodes(env, ms)| && i != j && p in Nodes(env, ms)[i].outputs && p.topic == port.topic + t
    ensures exists l :: l in links && l.fromPin == p.id && l.toNode == NameOf(ms[j], j) && l.topic == port.topic + t
                        && l.feedback == port.feedback
  {
    var nodes, c := Nodes(env, ms), PortPin(env, NameOf(ms[j], j), false, port);
    DeclaredPortIsShown(env, NameOf(ms[j], j), ms[j], ins, outs, port);
    assert nodes[j] == ModuleNode(env, ms[j], j);
    PrefixConsumerTakesAll(nodes, links, i, p, j, c, t);
    var l :| l in links && IsLink(nodes, i, p, j, c, c.topic + t, l);
  }

  // ---------------------------------------------------------------- the body's ends

  ghost predicate Joined(links: seq<Link>, fromNode: string, toNode: string, topic: string, feedback: bool) {
    exists l :: l in links && l.fromNode == fromNode && l.toNode == toNode && l.topic == topic && l.feedback == feedback
  }

  lemma LinkedIsJoined(nodes: seq<Node>, links: seq<Link>, i: nat, p: Pin, j: nat, c: Pin, topic: string)
    requires i < |nodes| && j < |nodes| && HasLink(nodes, links, i, p, j, c, topic)
    ensures Joined(links, nodes[i].name, nodes[j].name, topic, c.feedback)
  {
    var l :| l in links && IsLink(nodes, i, p, j, c, topic, l);
  }

  /** Where the canvas shows the body's sources, sinks and events. */
  lemma BodyIsLast(env: Env, ms: seq<G.Module>, b: Body)
    requires env.body == Some(b)
    ensures var w, n := Nodes(env, ms), |ms|;
            && |w| == n + 3 && w[n].name == "@sources" && w[n + 1].name == "@sinks" && w[n + 2].name == "@events"
            && w[n].outputs == SourcePins(env, b.sources) && w[n + 2].outputs == EventPins(env, b.events)
            && w[n + 1].inputs == SinkPins(env, b.sinks) + ReadPins(env, b.polls)
  {
  }

  /** A source of the body feeds each input of that one topic on another node, or, when it stands for a prefix, each input
      whose topic begins with it. */
  lemma SourceFeeds(env: Env, ms: seq<G.Module>, links: seq<Link>, b: Body, s: Source, j: nat, c: Pin, t: string)
    requires env.body == Some(b) && s in b.sources && IsLinkedUp(Nodes(env, ms), links)
    requires j < |Nodes(env, ms)| && j != |ms| && c in Nodes(env, ms)[j].inputs && !c.prefix && c.topic != ""
    requires if s.topic == "" then s.prefix != "" && c.topic == s.prefix + t else c.topic == s.topic
    ensures Joined(links, "@sources", Nodes(env, ms)[j].name, c.topic, c.feedback)
  {
    var w, n := Nodes(env, ms), |ms|;
    BodyIsLast(env, ms, b);
    var k :| 0 <= k < |b.sources| && b.sources[k] == s;
    var p := w[n].outputs[k];
    if s.topic == "" {
      PrefixProducerFeedsAll(w, links, n, p, j, c, t);
    } else {
      SameTopicIsLinked(w, links, n, p, j, c);
    }
    LinkedIsJoined(w, links, n, p, j, c, c.topic);
  }

  /** An event of the body is heard by every module that declares an input for all events under a prefix of its topic. */
  lemma EventIsHeard(env: Env, ms: seq<G.Module>, links: seq<Link>, b: Body, e: Spot, j: nat, ins: seq<Port>,
                     outs: seq<Port>, port: Port, t: string)
    requires env.body == Some(b) && e in b.events && IsLinkedUp(Nodes(env, ms), links)
    requires j < |ms| && ms[j].typ in env.cat && env.trial(ms[j].typ, NameOf(ms[j], j), ms[j].params) == Ran(ins, outs)
    requires port in ins && port.topic != "" && port.topic[|port.topic| - 1] == '.' && e.topic == port.topic + t
    ensures Joined(links, "@events", NameOf(ms[j], j), e.topic, port.feedback)
  {
    var w, n := Nodes(env, ms), |ms|;
    BodyIsLast(env, ms, b);
    var k :| 0 <= k < |b.events| && b.events[k] == e;
    var p, c := w[n + 2].outputs[k], PortPin(env, NameOf(ms[j], j), false, port);
    DeclaredPortIsShown(env, NameOf(ms[j], j), ms[j], ins, outs, port);
    assert w[j] == ModuleNode(env, ms[j], j);
    PrefixConsumerTakesAll(w, links, n + 2, p, j, c, t);
    LinkedIsJoined(w, links, n + 2, p, j, c, e.topic);
  }

  lemma SpotHasAPin(env: Env, b: Body, s: Spot) returns (c: Pin)
    requires s in b.sinks || s in b.polls
    ensures c in SinkPins(env, b.sinks) + ReadPins(env, b.polls) && c.topic == s.topic && !c.feedback
  {
    if s in b.sinks {
      var i :| 0 <= i < |b.sinks| && b.sinks[i] == s;
      c := SinkPins(env, b.sinks)[i];
    } else {
      var i :| 0 <= i < |b.polls| && b.polls[i] == s;
      c := ReadPins(env, b.polls)[i];
    }
  }

  /** The body acts on, or reads, every output of a node whose topic is that of one of its sinks or reads. */
  lemma SinkIsFed(env: Env, ms: seq<G.Module>, links: seq<Link>, b: Body, s: Spot, j: nat, p: Pin)
    requires env.body == Some(b) && (s in b.sinks || s in b.polls) && IsLinkedUp(Nodes(env, ms), links)
    requires j < |Nodes(env, ms)| && j != |ms| + 1 && p in Nodes(env, ms)[j].outputs && p.topic == s.topic != ""
    ensures Joined(links, Nodes(env, ms)[j].name, "@sinks", s.topic, false)
  {
    var w, n := Nodes(env, ms), |ms|;
    BodyIsLast(env, ms, b);
    var c := SpotHasAPin(env, b, s);
    SameTopicIsLinked(w, links, j, p, n + 1, c);
    LinkedIsJoined(w, links, j, p, n + 1, c, s.topic);
  }
}
