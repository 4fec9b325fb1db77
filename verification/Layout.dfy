/** brain_builder/src/Layout.cpp: `auto_layout`, columns by depth from the body's sources, each packed from the top
    down. */
module Layout {
  import opened Prelude
  import opened Wiring

  const MAX_PASSES := 64

  type Index = map<string, int>

  // ---------------------------------------------------------------- the forward links

  /** A link the relaxation follows: between modules, not feedback, not from a later module. */
  predicate Forward(index: Index, l: Link) {
    !l.feedback && l.fromNode in index && l.toNode in index && index[l.fromNode] <= index[l.toNode]
  }

  /** What a canvas of distinct names guarantees: no link joins a node to itself, and no two modules share an index. */
  ghost predicate WellLinked(index: Index, links: seq<Link>) {
    && (forall l :: l in links ==> l.fromNode != l.toNode)
    && (forall a, b :: a in index && b in index && index[a] == index[b] ==> a == b)
    && (forall a :: a in index ==> index[a] >= 0)
  }

  /** A chain of forward links, given by the modules it visits. */
  ghost predicate IsChain(index: Index, links: seq<Link>, c: seq<string>) {
    && c != []
    && (forall n :: n in c ==> n in index)
    && forall i :: 0 <= i < |c| - 1 ==> Linked(index, links, c[i], c[i + 1])
  }

  ghost predicate Linked(index: Index, links: seq<Link>, a: string, b: string) {
    exists l :: l in links && Forward(index, l) && l.fromNode == a && l.toNode == b
  }

  /** v's longest chain has d links. */
  ghost predicate IsLongest(index: Index, links: seq<Link>, v: string, d: nat) {
    && (exists c :: IsChain(index, links, c) && c[|c| - 1] == v && |c| == d + 1)
    && (forall c :: IsChain(index, links, c) && c[|c| - 1] == v ==> |c| <= d + 1)
  }

  /** The longest-path recursion over the links into v, those before position k. */
  ghost function Longest(index: Index, links: seq<Link>, v: string, k: nat): nat
    requires WellLinked(index, links) && v in index && k <= |links|
    decreases index[v], k
  {
    if k == 0 then 0
    else
      var before := Longest(index, links, v, k - 1);
      var l := links[k - 1];
      if Forward(index, l) && l.toNode == v then
        var d := Longest(index, links, l.fromNode, |links|) + 1;
        if d > before then d else before
      else before
  }

  ghost function PathLength(index: Index, links: seq<Link>, v: string): nat
    requires WellLinked(index, links) && v in index
  {
    Longest(index, links, v, |links|)
  }

  lemma {:induction false} LongestOverLinks(index: Index, links: seq<Link>, v: string, k: nat)
    requires WellLinked(index, links) && v in index && k <= |links|
    ensures forall j :: 0 <= j < k && Forward(index, links[j]) && links[j].toNode == v ==>
              PathLength(index, links, links[j].fromNode) + 1 <= Longest(index, links, v, k)
    ensures Longest(index, links, v, k) > 0 ==>
              exists j :: 0 <= j < k && Forward(index, links[j]) && links[j].toNode == v &&
                PathLength(index, links, links[j].fromNode) + 1 == Longest(index, links, v, k)
  {
    if k > 0 {
      LongestOverLinks(index, links, v, k - 1);
    }
  }

  /** The recursion computes the length of the longest chain of forward links into v. */
  lemma {:induction false} PathLengthIsLongest(index: Index, links: seq<Link>, v: string)
    requires WellLinked(index, links) && v in index
    ensures IsLongest(index, links, v, PathLength(index, links, v))
  {
    var c := LongestChain(index, links, v);
    forall c | IsChain(index, links, c) && c[|c| - 1] == v ensures |c| <= PathLength(index, links, v) + 1 {
      ChainIsShort(index, links, c);
    }
  }

  lemma {:induction false} LongestChain(index: Index, links: seq<Link>, v: string) returns (c: seq<string>)
    requires WellLinked(index, links) && v in index
    ensures IsChain(index, links, c) && c[|c| - 1] == v && |c| == PathLength(index, links, v) + 1
    decreases index[v]
  {
    var d := PathLength(index, links, v);
    LongestOverLinks(index, links, v, |links|);
    if d == 0 {
      c := [v];
    } else {
      var j :| 0 <= j < |links| && Forward(index, links[j]) && links[j].toNode == v &&
               PathLength(index, links, links[j].fromNode) + 1 == d;
      var b := LongestChain(index, links, links[j].fromNode);
      c := b + [v];
      assert Linked(index, links, b[|b| - 1], v) by {
        assert links[j] in links;
      }
      forall i | 0 <= i < |c| - 1 ensures Linked(index, links, c[i], c[i + 1]) {
        if i < |b| - 1 {
          assert Linked(index, links, b[i], b[i + 1]);
        }
      }
    }
  }

  lemma {:induction false} ChainIsShort(index: Index, links: seq<Link>, c: seq<string>)
    requires WellLinked(index, links) && IsChain(index, links, c)
    ensures |c| <= PathLength(index, links, c[|c| - 1]) + 1
  {
    var n := |c| - 1;
    assert c[n] in c;
    if n > 0 {
      var b := c[..n];
      forall i | 0 <= i < |b| - 1 ensures Linked(index, links, b[i], b[i + 1]) {
        assert Linked(index, links, c[i], c[i + 1]);
      }
      ChainIsShort(index, links, b);
      assert Linked(index, links, c[n - 1], c[n]);
      var l :| l in links && Forward(index, l) && l.fromNode == c[n - 1] && l.toNode == c[n];
      var j :| 0 <= j < |links| && links[j] == l;
      LongestOverLinks(index, links, c[n], |links|);
    }
  }

  // ---------------------------------------------------------------- the bounded relaxation

  /** Every depth is within its longest chain, and at least that chain cut at p links. */
  ghost predicate Between(index: Index, links: seq<Link>, depth: map<string, nat>, p: nat)
    requires WellLinked(index, links)
  {
    && depth.Keys == index.Keys
    && forall v :: v in index ==> Min(PathLength(index, links, v), p) <= depth[v] <= PathLength(index, links, v)
  }

  /** Each of the first k links has pushed its head past its tail's depth in `start`. */
  ghost predicate Pushed(index: Index, links: seq<Link>, start: map<string, nat>, depth: map<string, nat>, k: nat)
    requires start.Keys == depth.Keys == index.Keys && k <= |links|
  {
    forall j :: 0 <= j < k && Forward(index, links[j]) ==> start[links[j].fromNode] + 1 <= depth[links[j].toNode]
  }

  lemma HeadIsFurther(index: Index, links: seq<Link>, k: nat)
    requires WellLinked(index, links) && k < |links| && Forward(index, links[k])
    ensures PathLength(index, links, links[k].fromNode) + 1 <= PathLength(index, links, links[k].toNode)
  {
    LongestOverLinks(index, links, links[k].toNode, |links|);
  }

  /** One pass over the links, in place. */
  method Pass(index: Index, links: seq<Link>, start: map<string, nat>) returns (depth: map<string, nat>, changed: bool)
    requires WellLinked(index, links) && start.Keys == index.Keys
    requires forall v :: v in index ==> start[v] <= PathLength(index, links, v)
    ensures depth.Keys == index.Keys && Pushed(index, links, start, depth, |links|)
    ensures forall v :: v in index ==> start[v] <= depth[v] <= PathLength(index, links, v)
    ensures !changed ==> depth == start
  {
    depth, changed := start, false;
    for k := 0 to |links|
      invariant depth.Keys == index.Keys && Pushed(index, links, start, depth, k)
      invariant forall v :: v in index ==> start[v] <= depth[v] <= PathLength(index, links, v)
      invariant !changed ==> depth == start
    {
      var l := links[k];
      if Forward(index, l) {
        HeadIsFurther(index, links, k);
        var d := depth[l.fromNode] + 1;
        if d > depth[l.toNode] {
          depth, changed := depth[l.toNode := d], true;
        }
      }
    }
  }

  lemma PassReachesFurther(index: Index, links: seq<Link>, start: map<string, nat>, depth: map<string, nat>, p: nat)
    requires WellLinked(index, links) && Between(index, links, start, p)
    requires depth.Keys == index.Keys && Pushed(index, links, start, depth, |links|)
    requires forall v :: v in index ==> start[v] <= depth[v] <= PathLength(index, links, v)
    ensures Between(index, links, depth, p + 1)
  {
    forall v | v in index ensures Min(PathLength(index, links, v), p + 1) <= depth[v] {
      LongestOverLinks(index, links, v, |links|);
    }
  }

  /** A pass that changes nothing has reached every longest chain in full. */
  lemma {:induction false} FixpointIsLongest(index: Index, links: seq<Link>, depth: map<string, nat>, v: string)
    requires WellLinked(index, links) && depth.Keys == index.Keys && v in index
    requires Pushed(index, links, depth, depth, |links|)
    ensures PathLength(index, links, v) <= depth[v]
    decreases index[v]
  {
    LongestOverLinks(index, links, v, |links|);
    if PathLength(index, links, v) > 0 {
      var j :| 0 <= j < |links| && Forward(index, links[j]) && links[j].toNode == v &&
               PathLength(index, links, links[j].fromNode) + 1 == PathLength(index, links, v);
      FixpointIsLongest(index, links, depth, links[j].fromNode);
    }
  }

  /** The relaxation: no depth passes its longest chain, and every chain of at most 64 links is
      measured exactly, though it works in place and stops after 64 passes. */
  method Depths(index: Index, links: seq<Link>) returns (depth: map<string, nat>)
    requires WellLinked(index, links)
    ensures Between(index, links, depth, MAX_PASSES)
  {
    depth := map n | n in index :: 0;
    var pass := 0;
    while pass < MAX_PASSES
      invariant 0 <= pass <= MAX_PASSES && Between(index, links, depth, pass)
    {
      ghost var start := depth;
      var changed;
      depth, changed := Pass(index, links, depth);
      PassReachesFurther(index, links, start, depth, pass);
      if !changed {
        forall v | v in index ensures PathLength(index, links, v) <= depth[v] {
          FixpointIsLongest(index, links, depth, v);
        }
        return;
      }
      pass := pass + 1;
    }
  }

  // ---------------------------------------------------------------- sizes and columns

  datatype Pos = Pos(x: real, y: real)

  function MaxReal(a: real, b: real): real { if a < b then b else a }

  function LongestCaption(pins: seq<Pin>): real {
    if pins == [] then 0.0
    else MaxReal(LongestCaption(pins[..|pins| - 1]), |pins[|pins| - 1].caption| as real)
  }

  /** A measured size when there is one wider than 1, else one estimated from the pins. */
  function SizeOf(n: Node, scale: real, sizes: map<string, Pos>): Pos {
    if n.name in sizes && sizes[n.name].x > 1.0 then sizes[n.name]
    else
      var longest := MaxReal(LongestCaption(n.inputs), LongestCaption(n.outputs));
      var rows := if |n.inputs| > |n.outputs| then |n.inputs| else |n.outputs|;
      Pos((120.0 + 7.5 * longest * 1.6) * scale, (60.0 + 22.0 * rows as real) * scale)
  }

  /** Distinct names; the body's nodes and only they carry the three reserved ones. */
  ghost predicate WellNamed(nodes: seq<Node>) {
    && (forall i, j :: 0 <= i < j < |nodes| ==> nodes[i].name != nodes[j].name)
    && (forall n :: n in nodes ==> (n.kind.Sources? <==> n.name == "@sources"))
    && (forall n :: n in nodes ==> (n.kind.Events? <==> n.name == "@events"))
    && (forall n :: n in nodes ==> (n.kind.Sinks? <==> n.name == "@sinks"))
  }

  function ColumnOf(n: Node, depth: map<string, nat>, deepest: nat): nat {
    match n.kind
    case Module => if n.name in depth then depth[n.name] + 1 else 1
    case Sinks => deepest + 2
    case _ => 0
  }

  /** cols[c] lists, without repeats, the nodes of column c. */
  ghost predicate Sorted(nodes: seq<Node>, column: Node -> nat, cols: seq<seq<Node>>) {
    && (forall c, n :: 0 <= c < |cols| ==> (n in cols[c] <==> n in nodes && column(n) == c))
    && (forall c, i, j :: 0 <= c < |cols| && 0 <= i < j < |cols[c]| ==> cols[c][i] != cols[c][j])
    && (forall c, i, j :: 0 <= c < |cols| && 0 <= i < j < |cols[c]| ==> cols[c][i].index <= cols[c][j].index)
    && (forall n :: n in nodes ==> column(n) < |cols|)
  }

  // ---------------------------------------------------------------- packing

  datatype Metrics = Metrics(size: Node -> Pos, gapX: real, gapY: real) {
    ghost predicate NonNegative() {
      gapX >= 0.0 && gapY >= 0.0 && forall n :: size(n).x >= 0.0 && size(n).y >= 0.0
    }
  }

  /** The y of the i-th node of a column. */
  function Top(m: Metrics, col: seq<Node>, i: nat): real
    requires i <= |col|
  {
    if i == 0 then 0.0 else Top(m, col, i - 1) + m.size(col[i - 1]).y + m.gapY
  }

  function Width(m: Metrics, col: seq<Node>, i: nat): real
    requires i <= |col|
  {
    if i == 0 then 0.0 else MaxReal(Width(m, col, i - 1), m.size(col[i - 1]).x)
  }

  /** The x of column c: only columns that exist take room. */
  function Left(m: Metrics, cols: seq<seq<Node>>, c: nat): real
    requires c <= |cols|
  {
    if c == 0 then 0.0
    else Left(m, cols, c - 1) + if cols[c - 1] == [] then 0.0 else Width(m, cols[c - 1], |cols[c - 1]|) + m.gapX
  }

  /** Every node of the first c columns, and the first i of column c, is where the packing puts it. */
  ghost predicate Packed(m: Metrics, cols: seq<seq<Node>>, out: map<string, Pos>, c: nat)
    requires c <= |cols|
  {
    forall d, i {:trigger cols[d][i].name} :: 0 <= d < c && 0 <= i < |cols[d]| ==>
      cols[d][i].name in out && out[cols[d][i].name] == Pos(Left(m, cols, d), Top(m, cols[d], i))
  }

  lemma {:induction false} TopBelow(m: Metrics, col: seq<Node>, i: nat, j: nat)
    requires m.NonNegative() && i < j <= |col|
    ensures Top(m, col, i) + m.size(col[i]).y + m.gapY <= Top(m, col, j)
  {
    if i + 1 < j {
      TopBelow(m, col, i, j - 1);
    }
  }

  lemma {:induction false} WidthCovers(m: Metrics, col: seq<Node>, i: nat, k: nat)
    requires i < k <= |col|
    ensures m.size(col[i]).x <= Width(m, col, k)
  {
    if i + 1 < k {
      WidthCovers(m, col, i, k - 1);
    }
  }

  lemma {:induction false} WidthIsNonNegative(m: Metrics, col: seq<Node>, k: nat)
    requires k <= |col|
    ensures Width(m, col, k) >= 0.0
  {
    if k > 0 {
      WidthIsNonNegative(m, col, k - 1);
    }
  }

  lemma {:induction false} LeftBelow(m: Metrics, cols: seq<seq<Node>>, c: nat, d: nat, i: nat)
    requires m.NonNegative() && c < d <= |cols| && i < |cols[c]|
    ensures Left(m, cols, c) + m.size(cols[c][i]).x + m.gapX <= Left(m, cols, d)
  {
    if c + 1 < d {
      LeftBelow(m, cols, c, d - 1, i);
      WidthIsNonNegative(m, cols[d - 1], |cols[d - 1]|);
    } else {
      WidthCovers(m, cols[c], i, |cols[c]|);
    }
  }

  /** The rectangle of a ends, with the gap, before the x of b. */
  ghost predicate LeftOf(m: Metrics, out: map<string, Pos>, a: Node, b: Node)
    requires a.name in out && b.name in out
  {
    out[a.name].x + m.size(a).x + m.gapX <= out[b.name].x
  }

  ghost predicate Above(m: Metrics, out: map<string, Pos>, a: Node, b: Node)
    requires a.name in out && b.name in out
  {
    out[a.name].y + m.size(a).y + m.gapY <= out[b.name].y
  }

  /** Where the packing puts a node. */
  lemma PlaceOf(nodes: seq<Node>, column: Node -> nat, m: Metrics, cols: seq<seq<Node>>, out: map<string, Pos>,
                a: Node) returns (c: nat, i: nat)
    requires Sorted(nodes, column, cols) && Packed(m, cols, out, |cols|) && a in nodes
    ensures c == column(a) < |cols| && i < |cols[c]| && cols[c][i] == a
    ensures a.name in out && out[a.name] == Pos(Left(m, cols, c), Top(m, cols[c], i))
  {
    c := column(a);
    assert a in cols[c];
    i :| 0 <= i < |cols[c]| && cols[c][i] == a;
  }

  lemma StackedApart(m: Metrics, cols: seq<seq<Node>>, out: map<string, Pos>, c: nat, i: nat, j: nat)
    requires Packed(m, cols, out, |cols|) && m.NonNegative()
    requires c < |cols| && i < |cols[c]| && j < |cols[c]| && i != j
    ensures Above(m, out, cols[c][i], cols[c][j]) || Above(m, out, cols[c][j], cols[c][i])
  {
    if i < j {
      TopBelow(m, cols[c], i, j);
    } else {
      TopBelow(m, cols[c], j, i);
    }
  }

  /** With non-negative sizes no two placed rectangles overlap, and a node in an earlier column
      ends strictly to the left of one in a later column by the whole gap. */
  lemma NothingOverlaps(nodes: seq<Node>, column: Node -> nat, m: Metrics, cols: seq<seq<Node>>,
                        out: map<string, Pos>, a: Node, b: Node)
    requires Sorted(nodes, column, cols) && Packed(m, cols, out, |cols|) && m.NonNegative()
    requires a in nodes && b in nodes && a != b
    ensures a.name in out && b.name in out
    ensures LeftOf(m, out, a, b) || LeftOf(m, out, b, a) || Above(m, out, a, b) || Above(m, out, b, a)
    ensures column(a) < column(b) ==> LeftOf(m, out, a, b)
  {
    var c, i := PlaceOf(nodes, column, m, cols, out, a);
    var d, j := PlaceOf(nodes, column, m, cols, out, b);
    if c < d {
      LeftBelow(m, cols, c, d, i);
    } else if d < c {
      LeftBelow(m, cols, d, c, j);
    } else {
      StackedApart(m, cols, out, c, i, j);
    }
  }

  // ---------------------------------------------------------------- the loops

  ghost predicate ByIndex(v: seq<Node>) {
    forall i, j :: 0 <= i < j < |v| ==> v[i].index <= v[j].index
  }

  /** `std::sort` by index; which of two equal indices comes first is left open by the library. */
  method SortByIndex(v: seq<Node>) returns (r: seq<Node>)
    requires Distinct(v)
    ensures ByIndex(r) && Distinct(r) && forall n :: n in r <==> n in v
  {
    r := [];
    for k := 0 to |v|
      invariant ByIndex(r) && Distinct(r) && forall n :: n in r <==> n in v[..k]
    {
      var i := 0;
      while i < |r| && r[i].index <= v[k].index
        invariant i <= |r| && forall j :: 0 <= j < i ==> r[j].index <= v[k].index
      {
        i := i + 1;
      }
      r := Insert(r, i, v[k], v[..k]);
      assert v[..k + 1] == v[..k] + [v[k]];
    }
    assert v[..|v|] == v;
  }

  method Insert(r: seq<Node>, i: nat, n: Node, ghost from: seq<Node>) returns (s: seq<Node>)
    requires ByIndex(r) && Distinct(r) && i <= |r|
    requires forall m :: m in r <==> m in from
    requires n !in from
    requires forall j :: 0 <= j < i ==> r[j].index <= n.index
    requires i < |r| ==> n.index < r[i].index
    ensures ByIndex(s) && Distinct(s) && forall m :: m in s <==> m in from + [n]
  {
    s := r[..i] + [n] + r[i..];
    InsertedHolds(r, i, n);
    InsertedIsNew(r, i, n);
  }

  lemma InsertedHolds(r: seq<Node>, i: nat, n: Node)
    requires i <= |r|
    ensures forall m :: m in r[..i] + [n] + r[i..] <==> m in r || m == n
  {
    assert r == r[..i] + r[i..];
  }

  lemma InsertedIsNew(r: seq<Node>, i: nat, n: Node)
    requires i <= |r| && Distinct(r) && n !in r
    ensures Distinct(r[..i] + [n] + r[i..])
  {
    assert forall j :: 0 <= j < |r| ==> r[j] in r;
  }

  /** The columns as they fill: module depths first, then the body's three nodes. */
  method FillColumns(nodes: seq<Node>, column: Node -> nat, count: nat) returns (cols: seq<seq<Node>>)
    requires WellNamed(nodes)
    requires forall n :: n in nodes ==> column(n) < count
    ensures |cols| == count && Sorted(nodes, column, cols)
  {
    cols := seq(count, _ => []);
    for k := 0 to |nodes|
      invariant |cols| == count && Holds(nodes[..k], column, cols)
    {
      var c := column(nodes[k]);
      assert nodes[..k + 1] == nodes[..k] + [nodes[k]];
      cols := cols[c := cols[c] + [nodes[k]]];
    }
    assert nodes[..|nodes|] == nodes;
    for c := 0 to count
      invariant |cols| == count && Holds(nodes, column, cols)
      invariant forall d :: 0 <= d < c ==> ByIndex(cols[d])
    {
      var sorted := SortByIndex(cols[c]);
      cols := cols[c := sorted];
    }
  }

  ghost predicate Holds(nodes: seq<Node>, column: Node -> nat, cols: seq<seq<Node>>) {
    && (forall c, n :: 0 <= c < |cols| ==> (n in cols[c] <==> n in nodes && column(n) == c))
    && (forall c :: 0 <= c < |cols| ==> Distinct(cols[c]))
  }

  lemma OthersKeepTheirNames(nodes: seq<Node>, column: Node -> nat, cols: seq<seq<Node>>, c: nat, i: nat, d: nat,
                             j: nat)
    requires WellNamed(nodes) && Sorted(nodes, column, cols) && c < |cols| && i < |cols[c]|
    requires d < |cols| && j < |cols[d]| && (d != c || j != i)
    ensures cols[d][j].name != cols[c][i].name
  {
    var a, b := cols[c][i], cols[d][j];
    assert a in cols[c] && b in cols[d];
    assert a in nodes && b in nodes;
    assert a != b by {
      if d == c && j < i {
        assert cols[c][j] != cols[c][i];
      } else if d == c {
        assert cols[c][i] != cols[c][j];
      } else {
        assert column(a) == c && column(b) == d;
      }
    }
    var p :| 0 <= p < |nodes| && nodes[p] == a;
    var q :| 0 <= q < |nodes| && nodes[q] == b;
  }

  /** No two places of the columns hold the same name. */
  ghost predicate NamesApart(cols: seq<seq<Node>>) {
    forall c, i, d, j ::
      0 <= c < |cols| && 0 <= i < |cols[c]| && 0 <= d < |cols| && 0 <= j < |cols[d]| && (d != c || j != i) ==>
        cols[d][j].name != cols[c][i].name
  }

  lemma SortedNamesApart(nodes: seq<Node>, column: Node -> nat, cols: seq<seq<Node>>)
    requires WellNamed(nodes) && Sorted(nodes, column, cols)
    ensures NamesApart(cols)
  {
    forall c, i, d, j | 0 <= c < |cols| && 0 <= i < |cols[c]| && 0 <= d < |cols| && 0 <= j < |cols[d]| &&
                        (d != c || j != i)
      ensures cols[d][j].name != cols[c][i].name
    {
      OthersKeepTheirNames(nodes, column, cols, c, i, d, j);
    }
  }

  /** One column, top down. */
  method PackColumn(m: Metrics, cols: seq<seq<Node>>, c: nat, x: real, before: map<string, Pos>)
    returns (out: map<string, Pos>, w: real)
    requires NamesApart(cols) && c < |cols|
    requires x == Left(m, cols, c) && Packed(m, cols, before, c)
    ensures Packed(m, cols, out, c + 1) && w == Width(m, cols[c], |cols[c]|)
  {
    out, w := before, 0.0;
    var y := 0.0;
    for i := 0 to |cols[c]|
      invariant y == Top(m, cols[c], i) && w == Width(m, cols[c], i)
      invariant Packed(m, cols, out, c)
      invariant forall j :: 0 <= j < i ==>
        cols[c][j].name in out && out[cols[c][j].name] == Pos(x, Top(m, cols[c], j))
    {
      var n := cols[c][i];
      out := out[n.name := Pos(x, y)];
      y, w := y + m.size(n).y + m.gapY, MaxReal(w, m.size(n).x);
    }
  }

  method Pack(m: Metrics, cols: seq<seq<Node>>) returns (out: map<string, Pos>)
    requires NamesApart(cols)
    ensures Packed(m, cols, out, |cols|)
  {
    out := map[];
    var x := 0.0;
    for c := 0 to |cols|
      invariant x == Left(m, cols, c) && Packed(m, cols, out, c)
    {
      if cols[c] != [] {
        var w;
        out, w := PackColumn(m, cols, c, x, out);
        x := x + (w + m.gapX);
      }
    }
  }

  // ---------------------------------------------------------------- auto_layout

  /** The array index of each module, by name. */
  function IndexOf(nodes: seq<Node>): Index {
    if nodes == [] then map[]
    else
      var n := nodes[|nodes| - 1];
      var index := IndexOf(nodes[..|nodes| - 1]);
      if n.kind.Module? then index[n.name := n.index] else index
  }

  lemma {:induction false} IndexHasModules(nodes: seq<Node>, name: string)
    ensures name in IndexOf(nodes) <==> exists k :: 0 <= k < |nodes| && nodes[k].kind.Module? && nodes[k].name == name
  {
    if nodes != [] {
      IndexHasModules(nodes[..|nodes| - 1], name);
    }
  }

  ghost predicate IsDeepest(depth: map<string, nat>, d: nat) {
    && (forall n :: n in depth ==> depth[n] <= d)
    && (d == 0 || exists n :: n in depth && depth[n] == d)
  }

  method Deepest(nodes: seq<Node>, depth: map<string, nat>) returns (d: nat)
    requires depth.Keys == IndexOf(nodes).Keys
    ensures IsDeepest(depth, d)
  {
    d := 0;
    for k := 0 to |nodes|
      invariant forall j :: 0 <= j < k && nodes[j].name in depth ==> depth[nodes[j].name] <= d
      invariant d == 0 || exists n :: n in depth && depth[n] == d
    {
      if nodes[k].name in depth && depth[nodes[k].name] > d {
        d := depth[nodes[k].name];
      }
    }
    forall name | name in depth ensures depth[name] <= d {
      IndexHasModules(nodes, name);
    }
  }

  // ---------------------------------------------------------------- the whole layout

  function MetricsOf(scale: real, sizes: map<string, Pos>): Metrics {
    Metrics((n: Node) => SizeOf(n, scale, sizes), 90.0 * scale, 30.0 * scale)
  }

  /** Depths between the bound and the longest chains, columns by depth, and the packing of those columns. */
  ghost predicate Laid(nodes: seq<Node>, links: seq<Link>, m: Metrics, out: map<string, Pos>, depth: map<string, nat>,
                       deepest: nat, cols: seq<seq<Node>>)
    requires WellLinked(IndexOf(nodes), links)
  {
    && Between(IndexOf(nodes), links, depth, MAX_PASSES) && IsDeepest(depth, deepest)
    && Sorted(nodes, (n: Node) => ColumnOf(n, depth, deepest), cols)
    && Packed(m, cols, out, |cols|)
  }

  ghost predicate IsLayout(nodes: seq<Node>, links: seq<Link>, m: Metrics, out: map<string, Pos>)
    requires WellLinked(IndexOf(nodes), links)
  {
    exists depth, deepest, cols :: Laid(nodes, links, m, out, depth, deepest, cols)
  }

  method AutoLayout(nodes: seq<Node>, links: seq<Link>, scale: real, sizes: map<string, Pos>)
    returns (out: map<string, Pos>)
    requires WellNamed(nodes) && WellLinked(IndexOf(nodes), links)
    ensures IsLayout(nodes, links, MetricsOf(scale, sizes), out)
  {
    var index := IndexOf(nodes);
    var depth := Depths(index, links);
    var deepest := Deepest(nodes, depth);
    var column := (n: Node) => ColumnOf(n, depth, deepest);
    var cols := FillColumns(nodes, column, deepest + 3);
    SortedNamesApart(nodes, column, cols);
    out := Pack(MetricsOf(scale, sizes), cols);
    assert Laid(nodes, links, MetricsOf(scale, sizes), out, depth, deepest, cols);
  }

  /** With a scale and measured heights that are not negative, no size or gap is. */
  lemma SizesAreNonNegative(scale: real, sizes: map<string, Pos>)
    requires scale >= 0.0 && forall name :: name in sizes ==> sizes[name].y >= 0.0
    ensures MetricsOf(scale, sizes).NonNegative()
  {
    forall n: Node ensures SizeOf(n, scale, sizes).x >= 0.0 && SizeOf(n, scale, sizes).y >= 0.0 {
      SizeIsNonNegative(n, scale, sizes);
    }
  }

  lemma SizeIsNonNegative(n: Node, scale: real, sizes: map<string, Pos>)
    requires scale >= 0.0 && (n.name in sizes ==> sizes[n.name].y >= 0.0)
    ensures SizeOf(n, scale, sizes).x >= 0.0 && SizeOf(n, scale, sizes).y >= 0.0
  {
    CaptionsAreNonNegative(n.inputs);
    var longest := MaxReal(LongestCaption(n.inputs), LongestCaption(n.outputs));
    var rows := if |n.inputs| > |n.outputs| then |n.inputs| else |n.outputs|;
  }

  lemma {:induction false} CaptionsAreNonNegative(pins: seq<Pin>)
    ensures LongestCaption(pins) >= 0.0
  {
    if pins != [] {
      CaptionsAreNonNegative(pins[..|pins| - 1]);
    }
  }

  /** No two placed rectangles overlap. */
  lemma LayoutNeverOverlaps(nodes: seq<Node>, links: seq<Link>, m: Metrics, out: map<string, Pos>, a: Node, b: Node)
    requires WellLinked(IndexOf(nodes), links) && IsLayout(nodes, links, m, out) && m.NonNegative()
    requires a in nodes && b in nodes && a != b
    ensures a.name in out && b.name in out
    ensures LeftOf(m, out, a, b) || LeftOf(m, out, b, a) || Above(m, out, a, b) || Above(m, out, b, a)
  {
    var depth, deepest, cols :| Laid(nodes, links, m, out, depth, deepest, cols);
    NothingOverlaps(nodes, (n: Node) => ColumnOf(n, depth, deepest), m, cols, out, a, b);
  }

  /** No chain of forward links has more than 64. */
  ghost predicate ShortChains(index: Index, links: seq<Link>) {
    forall c :: IsChain(index, links, c) ==> |c| <= MAX_PASSES + 1
  }

  lemma HeadIsDeeper(nodes: seq<Node>, links: seq<Link>, depth: map<string, nat>, l: Link)
    requires WellLinked(IndexOf(nodes), links) && ShortChains(IndexOf(nodes), links)
    requires Between(IndexOf(nodes), links, depth, MAX_PASSES)
    requires l in links && Forward(IndexOf(nodes), l)
    ensures depth[l.fromNode] < depth[l.toNode]
  {
    var index := IndexOf(nodes);
    var from := LongestChain(index, links, l.fromNode);
    var to := LongestChain(index, links, l.toNode);
    var j :| 0 <= j < |links| && links[j] == l;
    LongestOverLinks(index, links, l.toNode, |links|);
  }

  /** When no chain has more than 64 links, a forward link goes strictly rightwards: its head's rectangle starts a whole
      gap after its tail's ends. */
  lemma ForwardLinksGoRight(nodes: seq<Node>, links: seq<Link>, m: Metrics, out: map<string, Pos>, l: Link, a: Node,
                            b: Node)
    requires WellLinked(IndexOf(nodes), links) && ShortChains(IndexOf(nodes), links)
    requires IsLayout(nodes, links, m, out) && m.NonNegative()
    requires l in links && Forward(IndexOf(nodes), l)
    requires a in nodes && a.kind.Module? && a.name == l.fromNode
    requires b in nodes && b.kind.Module? && b.name == l.toNode
    ensures a.name in out && b.name in out && LeftOf(m, out, a, b)
  {
    var depth, deepest, cols :| Laid(nodes, links, m, out, depth, deepest, cols);
    HeadIsDeeper(nodes, links, depth, l);
    assert a.name != b.name;
    NothingOverlaps(nodes, (n: Node) => ColumnOf(n, depth, deepest), m, cols, out, a, b);
  }
}
