/** brain_builder/src/Wiring.cpp, build: what the canvas of a document guarantees to the layout and to the order. */
module Canvas {
  import opened Build
  import opened Prelude
  import opened Wiring
  import G = Graph
  import Layout
  import Order

  /** Ids are there and distinct, and none is the name of one of the body's nodes. */
  ghost predicate OwnIds(ms: seq<G.Module>) {
    G.DistinctIds(ms) && forall m :: m in ms ==> m.id !in {"", "@sources", "@sinks", "@events"}
  }

  /** A module's node carries its id and its place, a body's node its reserved name. */
  lemma NodesAre(env: Env, ms: seq<G.Module>, i: nat)
    requires OwnIds(ms) && i < |Nodes(env, ms)|
    ensures var n := Nodes(env, ms)[i];
            if i < |ms| then n == ModuleNode(env, ms[i], i) && n.kind == Module && n.name == ms[i].id && n.index == i
            else
              && n == BodyNodes(env)[i - |ms|]
              && (n.kind, n.name) == [(Sources, "@sources"), (Sinks, "@sinks"), (Events, "@events")][i - |ms|]
  {
    if i < |ms| {
      assert ms[i] in ms;
    }
  }

  lemma BuiltIsWellNamed(env: Env, ms: seq<G.Module>)
    requires OwnIds(ms)
    ensures Layout.WellNamed(Nodes(env, ms))
  {
    var nodes := Nodes(env, ms);
    forall i | 0 <= i < |nodes|
      ensures nodes[i].kind.Module? ==> i < |ms| && nodes[i].name == ms[i].id
      ensures nodes[i].kind.Sources? <==> nodes[i].name == "@sources"
      ensures nodes[i].kind.Sinks? <==> nodes[i].name == "@sinks"
      ensures nodes[i].kind.Events? <==> nodes[i].name == "@events"
    {
      NodesAre(env, ms, i);
      assert i < |ms| ==> ms[i] in ms;
    }
    forall i, j | 0 <= i < j < |nodes| ensures nodes[i].name != nodes[j].name {
      NodesAre(env, ms, i);
      NodesAre(env, ms, j);
      assert j < |ms| ==> G.Ids(ms)[i] == ms[i].id && G.Ids(ms)[j] == ms[j].id;
      assert i < |ms| ==> ms[i] in ms;
    }
  }

  lemma {:induction false} IndexIsThePlace(nodes: seq<Node>, name: string)
    requires name in Layout.IndexOf(nodes)
    ensures exists k :: 0 <= k < |nodes| && nodes[k].kind.Module? && nodes[k].name == name
                        && nodes[k].index == Layout.IndexOf(nodes)[name]
  {
    var n := |nodes| - 1;
    if nodes[n].kind.Module? && nodes[n].name == name {
      assert Layout.IndexOf(nodes)[name] == nodes[n].index;
    } else {
      IndexIsThePlace(nodes[..n], name);
      var k :| 0 <= k < n && nodes[..n][k].kind.Module? && nodes[..n][k].name == name
               && nodes[..n][k].index == Layout.IndexOf(nodes[..n])[name];
      assert nodes[k] == nodes[..n][k];
    }
  }

  lemma EndsDiffer(nodes: seq<Node>, links: seq<Link>, l: Link)
    requires Layout.WellNamed(nodes) && IsLinkedUp(nodes, links) && l in links
    ensures l.fromNode != l.toNode
  {
    var p, c :| p in Refs(nodes, true) && c in Refs(nodes, false) && Linked(p, c) && l == LinkOf(nodes, p, c);
  }

  /** What the layout asks of a canvas, building gives. */
  lemma BuiltIsWellLinked(env: Env, ms: seq<G.Module>, links: seq<Link>)
    requires OwnIds(ms) && IsLinkedUp(Nodes(env, ms), links)
    ensures Layout.WellLinked(Layout.IndexOf(Nodes(env, ms)), links)
  {
    var nodes := Nodes(env, ms);
    var index := Layout.IndexOf(nodes);
    BuiltIsWellNamed(env, ms);
    forall l | l in links ensures l.fromNode != l.toNode {
      EndsDiffer(nodes, links, l);
    }
    forall a | a in index ensures 0 <= index[a] < |ms| && ms[index[a]].id == a {
      IndexIsThePlace(nodes, a);
      var k :| 0 <= k < |nodes| && nodes[k].kind.Module? && nodes[k].name == a && nodes[k].index == index[a];
      NodesAre(env, ms, k);
    }
  }

  // ---------------------------------------------------------------- the canvas of the reordered document

  /** The pins of the node that shows module order[i] are the same in either place. */
  lemma ReorderedNode(env: Env, ms: seq<G.Module>, order: seq<nat>, i: nat)
    requires OwnIds(ms) && Order.IsPermutation(order, |ms|) && i < |order|
    ensures var a, b := Nodes(env, ms)[order[i]], Nodes(env, Order.Reordered(ms, order))[i];
            b == a.(index := i)
  {
    assert ms[order[i]] in ms;
  }

  /** Where the reordered canvas shows node i of the canvas. */
  lemma NewPlace(env: Env, ms: seq<G.Module>, order: seq<nat>, i: nat) returns (j: nat)
    requires OwnIds(ms) && Order.IsPermutation(order, |ms|) && i < |Nodes(env, ms)|
    ensures var again := Nodes(env, Order.Reordered(ms, order));
            j < |again| && again[j] == Nodes(env, ms)[i].(index := again[j].index)
    ensures if i < |ms| then j < |ms| && order[j] == i else j == i
  {
    if i < |ms| {
      j := Order.PermutationCovers(order, |ms|, i);
      ReorderedNode(env, ms, order, j);
    } else {
      j := i;
    }
  }

  lemma OldPlace(env: Env, ms: seq<G.Module>, order: seq<nat>, j: nat) returns (i: nat)
    requires OwnIds(ms) && Order.IsPermutation(order, |ms|) && j < |Nodes(env, Order.Reordered(ms, order))|
    ensures var again := Nodes(env, Order.Reordered(ms, order));
            i < |Nodes(env, ms)| && again[j] == Nodes(env, ms)[i].(index := again[j].index)
    ensures if j < |ms| then i < |ms| && order[j] == i else j == i
  {
    if j < |ms| {
      i := order[j];
      ReorderedNode(env, ms, order, j);
    } else {
      i := j;
    }
  }

  lemma SameLink(a: seq<Node>, b: seq<Node>, links: seq<Link>, p: Ref, c: Ref, p': nat, c': nat)
    requires IsLinkedUp(b, links) && p in Refs(a, true) && c in Refs(a, false) && Linked(p, c)
    requires p.node < |a| && c.node < |a| && p' < |b| && c' < |b| && p' != c'
    requires b[p'] == a[p.node].(index := b[p'].index) && b[c'] == a[c.node].(index := b[c'].index)
    ensures LinkOf(a, p, c) in links
  {
    RefsAre(a, true, p);
    RefsAre(a, false, c);
    var q, e := Ref(p', p.pin), Ref(c', c.pin);
    RefsAre(b, true, q);
    RefsAre(b, false, e);
    assert Linked(q, e) && LinkOf(b, q, e) == LinkOf(a, p, c);
  }

  lemma LinkStays(env: Env, ms: seq<G.Module>, order: seq<nat>, a: seq<Node>, b: seq<Node>, links: seq<Link>,
                  again: seq<Link>, l: Link)
    requires OwnIds(ms) && Order.IsPermutation(order, |ms|)
    requires a == Nodes(env, ms) && b == Nodes(env, Order.Reordered(ms, order))
    requires IsLinkedUp(a, links) && IsLinkedUp(b, again) && l in links
    ensures l in again
  {
    var p, c :| p in Refs(a, true) && c in Refs(a, false) && Linked(p, c) && l == LinkOf(a, p, c);
    var p' := NewPlace(env, ms, order, p.node);
    var c' := NewPlace(env, ms, order, c.node);
    SameLink(a, b, again, p, c, p', c');
  }

  lemma LinkWasThere(env: Env, ms: seq<G.Module>, order: seq<nat>, a: seq<Node>, b: seq<Node>, links: seq<Link>,
                     again: seq<Link>, l: Link)
    requires OwnIds(ms) && Order.IsPermutation(order, |ms|)
    requires a == Nodes(env, ms) && b == Nodes(env, Order.Reordered(ms, order))
    requires IsLinkedUp(a, links) && IsLinkedUp(b, again) && l in again
    ensures l in links
  {
    var p, c :| p in Refs(b, true) && c in Refs(b, false) && Linked(p, c) && l == LinkOf(b, p, c);
    var p' := OldPlace(env, ms, order, p.node);
    var c' := OldPlace(env, ms, order, c.node);
    SameLink(b, a, links, p, c, p', c');
  }

  /** Reordering the modules changes no link of the canvas. */
  lemma ReorderKeepsLinks(env: Env, ms: seq<G.Module>, order: seq<nat>, links: seq<Link>, again: seq<Link>)
    requires OwnIds(ms) && Order.IsPermutation(order, |ms|)
    requires IsLinkedUp(Nodes(env, ms), links) && IsLinkedUp(Nodes(env, Order.Reordered(ms, order)), again)
    ensures forall l :: l in links <==> l in again
  {
    var a, b := Nodes(env, ms), Nodes(env, Order.Reordered(ms, order));
    forall l ensures l in links <==> l in again {
      if l in links {
        LinkStays(env, ms, order, a, b, links, again, l);
      }
      if l in again {
        LinkWasThere(env, ms, order, a, b, links, again, l);
      }
    }
  }

  /** Suggest, reorder, rebuild, suggest: the second suggestion, on the links the rebuilt canvas has, is to change
      nothing. */
  lemma SuggestionIsStable(env: Env, s: G.State, links: seq<Link>, order: seq<nat>, t: G.State, again: seq<Link>,
                           next: seq<nat>)
    requires OwnIds(s.doc.modules) && IsLinkedUp(Nodes(env, s.doc.modules), links)
    requires Order.IsSorted(Order.Adjacency(G.Ids(s.doc.modules), links), order)
    requires t == G.Step(s, G.Reorder(order)) && IsLinkedUp(Nodes(env, t.doc.modules), again)
    ensures G.Accepts(s, G.Reorder(order)) && t.doc.modules == Order.Reordered(s.doc.modules, order)
    ensures Order.IsSorted(Order.Adjacency(G.Ids(t.doc.modules), again), next)
       <==> next == Order.Identity(|t.doc.modules|)
  {
    var ms := s.doc.modules;
    G.SuggestedOrderIsAccepted(s, links, order);
    Order.SortedIsPermutation(Order.Adjacency(G.Ids(ms), links), order);
    assert t.doc.modules == Order.Reordered(ms, order);
    ReorderKeepsLinks(env, ms, order, links, again);
    Order.SameForwardLinksSameGraph(G.Ids(t.doc.modules), links, again);
  }
}
