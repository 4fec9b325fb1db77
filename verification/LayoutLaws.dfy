/** brain_builder/src/Layout.cpp: where the layout puts a node, told by the positions alone, and how much room a node
    takes. */
module LayoutLaws {
  import opened Layout
  import opened Prelude
  import opened Wiring

  /** The body's sources and events stand left of every module by a whole gap, and its sinks right of every one. */
  lemma BodyStandsAtTheEdges(nodes: seq<Node>, links: seq<Link>, m: Metrics, out: map<string, Pos>, body: Node, a: Node)
    requires WellLinked(IndexOf(nodes), links) && IsLayout(nodes, links, m, out) && m.NonNegative()
    requires body in nodes && !body.kind.Module? && a in nodes && a.kind.Module?
    ensures body.name in out && a.name in out
    ensures if body.kind.Sinks? then LeftOf(m, out, a, body) else LeftOf(m, out, body, a)
  {
    var depth, deepest, cols :| Laid(nodes, links, m, out, depth, deepest, cols);
    IndexHasModules(nodes, a.name);
    var k :| 0 <= k < |nodes| && nodes[k] == a;
    NothingOverlaps(nodes, (n: Node) => ColumnOf(n, depth, deepest), m, cols, out, a, body);
    NothingOverlaps(nodes, (n: Node) => ColumnOf(n, depth, deepest), m, cols, out, body, a);
  }

  /** And the sources and events left of the sinks. */
  lemma SourcesStandLeftOfSinks(nodes: seq<Node>, links: seq<Link>, m: Metrics, out: map<string, Pos>, a: Node, b: Node)
    requires WellLinked(IndexOf(nodes), links) && IsLayout(nodes, links, m, out) && m.NonNegative()
    requires a in nodes && (a.kind.Sources? || a.kind.Events?) && b in nodes && b.kind.Sinks?
    ensures a.name in out && b.name in out && LeftOf(m, out, a, b)
  {
    var depth, deepest, cols :| Laid(nodes, links, m, out, depth, deepest, cols);
    NothingOverlaps(nodes, (n: Node) => ColumnOf(n, depth, deepest), m, cols, out, a, b);
  }

  // ---------------------------------------------------------------- nothing is left open

  /** a stands exactly one gap below b, in the same column. */
  ghost predicate RightBelow(m: Metrics, out: map<string, Pos>, a: Node, b: Node)
    requires a.name in out && b.name in out
  {
    out[a.name].x == out[b.name].x && out[a.name].y == out[b.name].y + m.size(b).y + m.gapY
  }

  /** a's column begins exactly one gap after b ends. */
  ghost predicate RightBeside(m: Metrics, out: map<string, Pos>, a: Node, b: Node)
    requires a.name in out && b.name in out
  {
    out[a.name].x == out[b.name].x + m.size(b).x + m.gapX
  }

  lemma {:induction false} WidestOf(m: Metrics, col: seq<Node>, k: nat) returns (i: nat)
    requires m.NonNegative() && 0 < k <= |col|
    ensures i < k && m.size(col[i]).x == Width(m, col, k)
  {
    i := k - 1;
    if k > 1 {
      var j := WidestOf(m, col, k - 1);
      i := if Width(m, col, k - 1) < m.size(col[k - 1]).x then k - 1 else j;
    }
  }

  /** The last column before c that holds a node, with its widest one; none when c is the first. */
  lemma {:induction false} ColumnBefore(m: Metrics, cols: seq<seq<Node>>, c: nat) returns (d: nat, i: nat)
    requires m.NonNegative() && c <= |cols|
    ensures Left(m, cols, c) == 0.0 || d < c
    ensures d < c ==> i < |cols[d]| && Left(m, cols, c) == Left(m, cols, d) + m.size(cols[d][i]).x + m.gapX
  {
    d, i := c, 0;
    if c > 0 {
      if cols[c - 1] == [] {
        d, i := ColumnBefore(m, cols, c - 1);
        d := if d < c - 1 then d else c;
      } else {
        d := c - 1;
        i := WidestOf(m, cols[d], |cols[d]|);
      }
    }
  }

  lemma InNodes(nodes: seq<Node>, column: Node -> nat, cols: seq<seq<Node>>, c: nat, i: nat)
    requires Sorted(nodes, column, cols) && c < |cols| && i < |cols[c]|
    ensures cols[c][i] in nodes
  {
    assert cols[c][i] in cols[c];
  }

  lemma IsPlaced(m: Metrics, cols: seq<seq<Node>>, out: map<string, Pos>, c: nat, i: nat, b: Node, x: real, y: real)
    requires Packed(m, cols, out, |cols|) && c < |cols| && i < |cols[c]| && b == cols[c][i]
    requires x == Left(m, cols, c) && y == Top(m, cols[c], i)
    ensures b.name in out && out[b.name] == Pos(x, y)
  {
  }

  ghost predicate HangsTight(nodes: seq<Node>, m: Metrics, out: map<string, Pos>, a: Node)
    requires a.name in out
  {
    out[a.name].y == 0.0 || exists b :: b in nodes && b.name in out && RightBelow(m, out, a, b)
  }

  ghost predicate StandsTight(nodes: seq<Node>, m: Metrics, out: map<string, Pos>, a: Node)
    requires a.name in out
  {
    out[a.name].x == 0.0 || exists b :: b in nodes && b.name in out && RightBeside(m, out, a, b)
  }

  lemma HangsBelow(nodes: seq<Node>, m: Metrics, out: map<string, Pos>, a: Node, b: Node, x: real, y: real)
    requires b in nodes && b.name in out && out[b.name] == Pos(x, y)
    requires a.name in out && out[a.name] == Pos(x, y + m.size(b).y + m.gapY)
    ensures HangsTight(nodes, m, out, a)
  {
    assert RightBelow(m, out, a, b);
  }

  lemma PlacedHangsTight(nodes: seq<Node>, m: Metrics, cols: seq<seq<Node>>, out: map<string, Pos>, c: nat, i: nat)
    requires Packed(m, cols, out, |cols|) && c < |cols| && i < |cols[c]| && (i > 0 ==> cols[c][i - 1] in nodes)
    ensures cols[c][i].name in out && HangsTight(nodes, m, out, cols[c][i])
  {
    IsPlaced(m, cols, out, c, i, cols[c][i], Left(m, cols, c), Top(m, cols[c], i));
    if i > 0 {
      var b, x, y := cols[c][i - 1], Left(m, cols, c), Top(m, cols[c], i - 1);
      IsPlaced(m, cols, out, c, i - 1, b, x, y);
      HangsBelow(nodes, m, out, cols[c][i], b, x, y);
    }
  }

  lemma NodeAbove(nodes: seq<Node>, column: Node -> nat, cols: seq<seq<Node>>, a: Node) returns (c: nat, i: nat)
    requires Sorted(nodes, column, cols) && a in nodes
    ensures c < |cols| && i < |cols[c]| && cols[c][i] == a && (i > 0 ==> cols[c][i - 1] in nodes)
  {
    c := column(a);
    assert a in cols[c];
    i :| 0 <= i < |cols[c]| && cols[c][i] == a;
    if i > 0 {
      InNodes(nodes, column, cols, c, i - 1);
    }
  }

  lemma PackedHangsTight(nodes: seq<Node>, column: Node -> nat, m: Metrics, cols: seq<seq<Node>>,
                         out: map<string, Pos>, a: Node)
    requires Sorted(nodes, column, cols) && Packed(m, cols, out, |cols|) && a in nodes
    ensures a.name in out && HangsTight(nodes, m, out, a)
  {
    var c, i := NodeAbove(nodes, column, cols, a);
    PlacedHangsTight(nodes, m, cols, out, c, i);
  }

  lemma PackedStandsTight(nodes: seq<Node>, column: Node -> nat, m: Metrics, cols: seq<seq<Node>>,
                          out: map<string, Pos>, a: Node)
    requires Sorted(nodes, column, cols) && Packed(m, cols, out, |cols|) && m.NonNegative() && a in nodes
    ensures a.name in out && StandsTight(nodes, m, out, a)
  {
    var c, i := PlaceOf(nodes, column, m, cols, out, a);
    var d, k := ColumnBefore(m, cols, c);
    if d < c {
      var b := cols[d][k];
      InNodes(nodes, column, cols, d, k);
      IsPlaced(m, cols, out, d, k, b, Left(m, cols, d), Top(m, cols[d], k));
      assert RightBeside(m, out, a, b);
    }
  }

  /** The packing is tight: every node is at the top or exactly one gap below another, and every column is at the left
      edge or begins exactly one gap after some node ends. */
  lemma LayoutIsTight(nodes: seq<Node>, links: seq<Link>, m: Metrics, out: map<string, Pos>, a: Node)
    requires WellLinked(IndexOf(nodes), links) && IsLayout(nodes, links, m, out) && m.NonNegative() && a in nodes
    ensures a.name in out && HangsTight(nodes, m, out, a) && StandsTight(nodes, m, out, a)
  {
    var depth, deepest, cols :| Laid(nodes, links, m, out, depth, deepest, cols);
    PackedHangsTight(nodes, (n: Node) => ColumnOf(n, depth, deepest), m, cols, out, a);
    PackedStandsTight(nodes, (n: Node) => ColumnOf(n, depth, deepest), m, cols, out, a);
  }

  lemma InIndexOrder(nodes: seq<Node>, column: Node -> nat, m: Metrics, cols: seq<seq<Node>>, out: map<string, Pos>,
                     a: Node, b: Node)
    requires Sorted(nodes, column, cols) && Packed(m, cols, out, |cols|) && m.NonNegative()
    requires a in nodes && b in nodes && a.index < b.index && column(a) == column(b)
    ensures a.name in out && b.name in out && Above(m, out, a, b)
  {
    var c, i := PlaceOf(nodes, column, m, cols, out, a);
    var d, j := PlaceOf(nodes, column, m, cols, out, b);
    assert i < j;
    TopBelow(m, cols[c], i, j);
  }

  /** Of two nodes that do not stand side by side the one that runs earlier is above. */
  lemma EarlierIsAbove(nodes: seq<Node>, links: seq<Link>, m: Metrics, out: map<string, Pos>, a: Node, b: Node)
    requires WellLinked(IndexOf(nodes), links) && IsLayout(nodes, links, m, out) && m.NonNegative()
    requires a in nodes && b in nodes && a.index < b.index
    ensures a.name in out && b.name in out
    ensures LeftOf(m, out, a, b) || LeftOf(m, out, b, a) || Above(m, out, a, b)
  {
    var depth, deepest, cols :| Laid(nodes, links, m, out, depth, deepest, cols);
    var column := (n: Node) => ColumnOf(n, depth, deepest);
    NothingOverlaps(nodes, column, m, cols, out, a, b);
    NothingOverlaps(nodes, column, m, cols, out, b, a);
    if column(a) == column(b) {
      InIndexOrder(nodes, column, m, cols, out, a, b);
    }
  }

  // ---------------------------------------------------------------- room for the pins

  lemma {:induction false} CaptionFits(pins: seq<Pin>, p: Pin)
    requires p in pins
    ensures |p.caption| as real <= LongestCaption(pins)
  {
    var n := |pins| - 1;
    if p in pins[..n] {
      CaptionFits(pins[..n], p);
    }
  }

  lemma {:induction false} LongestIsACaption(pins: seq<Pin>)
    ensures LongestCaption(pins) == 0.0 || exists p :: p in pins && |p.caption| as real == LongestCaption(pins)
  {
    if pins != [] {
      var n := |pins| - 1;
      LongestIsACaption(pins[..n]);
      assert pins[n] in pins;
    }
  }

  /** How wide a caption of that many letters asks a node to be. */
  function WidthFor(letters: real, scale: real): real {
    (120.0 + 12.0 * letters) * scale
  }

  lemma WidthGrows(a: real, b: real, scale: real)
    requires a <= b && scale >= 0.0
    ensures WidthFor(a, scale) <= WidthFor(b, scale)
  {
    assert (120.0 + 12.0 * b) * scale - (120.0 + 12.0 * a) * scale == 12.0 * (b - a) * scale;
  }

  function PinsOf(n: Node): seq<Pin> { n.inputs + n.outputs }

  lemma EstimateIs(n: Node, scale: real, sizes: map<string, Pos>)
    requires n.name in sizes ==> sizes[n.name].x <= 1.0
    ensures SizeOf(n, scale, sizes).x
         == WidthFor(MaxReal(LongestCaption(n.inputs), LongestCaption(n.outputs)), scale)
  {
  }

  /** A node nobody has measured has room for each of its captions, 12 units a letter beside a margin of 120. */
  lemma RoomForEveryCaption(n: Node, scale: real, sizes: map<string, Pos>, p: Pin)
    requires (n.name in sizes ==> sizes[n.name].x <= 1.0) && scale >= 0.0 && p in PinsOf(n)
    ensures SizeOf(n, scale, sizes).x >= WidthFor(|p.caption| as real, scale)
  {
    EstimateIs(n, scale, sizes);
    if p in n.inputs {
      CaptionFits(n.inputs, p);
    } else {
      CaptionFits(n.outputs, p);
    }
    WidthGrows(|p.caption| as real, MaxReal(LongestCaption(n.inputs), LongestCaption(n.outputs)), scale);
  }

  /** And no more than its longest caption asks for. */
  lemma NoWiderThanACaption(n: Node, scale: real, sizes: map<string, Pos>)
    requires n.name in sizes ==> sizes[n.name].x <= 1.0
    ensures SizeOf(n, scale, sizes).x == WidthFor(0.0, scale)
            || exists p :: p in PinsOf(n) && SizeOf(n, scale, sizes).x == WidthFor(|p.caption| as real, scale)
  {
    EstimateIs(n, scale, sizes);
    LongestIsACaption(n.inputs);
    LongestIsACaption(n.outputs);
    CaptionsAreNonNegative(n.inputs);
    CaptionsAreNonNegative(n.outputs);
    var longest := MaxReal(LongestCaption(n.inputs), LongestCaption(n.outputs));
    if longest != 0.0 {
      var side := if LongestCaption(n.inputs) == longest then n.inputs else n.outputs;
      var p :| p in side && |p.caption| as real == longest;
      assert p in PinsOf(n);
    }
  }

  /** It has room for its longer side, 22 units a pin below a head of 60. */
  lemma RoomForEveryPin(n: Node, scale: real, sizes: map<string, Pos>)
    requires n.name in sizes ==> sizes[n.name].x <= 1.0
    ensures SizeOf(n, scale, sizes).y
         == (60.0 + 22.0 * (if |n.inputs| < |n.outputs| then |n.outputs| else |n.inputs|) as real) * scale
  {
  }

  /** One that has been measured, wider than 1, has that size. */
  lemma MeasuredSizeCounts(n: Node, scale: real, sizes: map<string, Pos>)
    requires n.name in sizes
    ensures sizes[n.name].x > 1.0 ==> SizeOf(n, scale, sizes) == sizes[n.name]
  {
  }
}
