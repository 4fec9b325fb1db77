/** brain_builder/src/Graph.cpp: the document and its edits, each under one undo step of a capped history; and what they
    do to module ids, places and params. */
module Graph {
  import opened Json
  import opened Prelude
  import Order
  import Wiring

  /** One entry of the modules array; `extra` holds the keys the builder does not write. */
  datatype Module = Module(id: string, typ: string, params: Object, extra: Object)

  /** The config file: its modules, its metadata (absent, or any value), and the rest. */
  datatype Doc = Doc(modules: seq<Module>, metadata: Option<Json>, rest: Object)

  const CAP := 200
  const LAST_SUFFIX := 9999

  datatype State = State(doc: Doc, undo: seq<Doc>, redo: seq<Doc>, dirty: bool, revision: nat)

  // ---------------------------------------------------------------- reading

  function Ids(ms: seq<Module>): seq<string> {
    seq(|ms|, i requires 0 <= i < |ms| => ms[i].id)
  }

  /** The first module of that id, or -1. */
  function IndexOf(ms: seq<Module>, id: string): (i: int)
    ensures -1 <= i < |ms|
    ensures i >= 0 ==> ms[i].id == id
    ensures i < 0 <==> id !in Ids(ms)
    ensures forall j :: 0 <= j < i ==> ms[j].id != id
  {
    if ms == [] then -1
    else if ms[0].id == id then assert Ids(ms)[0] == id; 0
    else
      var i := IndexOf(ms[1..], id);
      assert Ids(ms) == [ms[0].id] + Ids(ms[1..]);
      assert forall j :: 1 <= j < |ms| ==> ms[j] == ms[1..][j - 1];
      if i < 0 then -1 else i + 1
  }

  // ---------------------------------------------------------------- a fresh id

  /** prefix, then prefix_2, prefix_3 and so on. */
  function Candidate(prefix: string, n: nat): string {
    if n < 2 then prefix else prefix + "_" + ToString(n)
  }

  /** The first candidate from n on that no module has, else prefix_x. */
  function FirstFree(ids: seq<string>, prefix: string, n: nat): string
    decreases LAST_SUFFIX + 1 - n
  {
    if n > LAST_SUFFIX then prefix + "_x"
    else if Candidate(prefix, n) !in ids then Candidate(prefix, n)
    else FirstFree(ids, prefix, n + 1)
  }

  function UniqueId(ids: seq<string>, prefix: string): string {
    FirstFree(ids, prefix, 1)
  }

  function Value(s: string): nat {
    if s == "" then 0 else 10 * Value(s[..|s| - 1]) + DigitValue(s[|s| - 1])
  }

  function DigitValue(c: char): nat {
    if c == '1' then 1 else if c == '2' then 2 else if c == '3' then 3 else if c == '4' then 4 else if c == '5' then 5
    else if c == '6' then 6 else if c == '7' then 7 else if c == '8' then 8 else if c == '9' then 9 else 0
  }

  lemma {:induction false} DecimalReadsBack(n: nat)
    ensures Value(Decimal(n)) == n && Decimal(n) != ""
  {
    if n >= 10 {
      DecimalReadsBack(n / 10);
      var s := Decimal(n);
      assert s[..|s| - 1] == Decimal(n / 10) && s[|s| - 1] == Digit(n % 10);
    } else {
      var s := Decimal(n);
      assert s[..0] == "" && s[0] == Digit(n);
    }
  }

  lemma CandidatesDiffer(prefix: string, m: nat, n: nat)
    requires 1 <= m < n
    ensures Candidate(prefix, m) != Candidate(prefix, n)
  {
    DecimalReadsBack(m);
    DecimalReadsBack(n);
    assert Candidate(prefix, n)[|prefix| + 1..] == Decimal(n);
    if m >= 2 {
      assert Candidate(prefix, m)[|prefix| + 1..] == Decimal(m);
    }
  }

  function Candidates(prefix: string, n: nat): set<string> {
    if n == 0 then {} else Candidates(prefix, n - 1) + {Candidate(prefix, n)}
  }

  lemma {:induction false} CandidateNotEarlier(prefix: string, n: nat, k: nat)
    requires n < k
    ensures Candidate(prefix, k) !in Candidates(prefix, n)
  {
    if n > 0 {
      CandidateNotEarlier(prefix, n - 1, k);
      CandidatesDiffer(prefix, n, k);
    }
  }

  lemma {:induction false} CandidatesSize(prefix: string, n: nat)
    ensures |Candidates(prefix, n)| == n
  {
    if n > 0 {
      CandidatesSize(prefix, n - 1);
      CandidateNotEarlier(prefix, n - 1, n);
    }
  }

  lemma {:induction false} SetOfSize(ids: seq<string>)
    ensures |SetOf(ids)| <= |ids|
  {
    if ids != [] {
      SetOfSize(ids[1..]);
      assert SetOf(ids) == {ids[0]} + SetOf(ids[1..]);
    }
  }

  /** Every name an add can fall back on. */
  function Names(prefix: string): set<string> {
    Candidates(prefix, LAST_SUFFIX) + {prefix + "_x"}
  }

  lemma {:induction false} CandidateIn(prefix: string, n: nat, k: nat)
    requires 1 <= k <= n
    ensures Candidate(prefix, k) in Candidates(prefix, n)
  {
    if k < n {
      CandidateIn(prefix, n - 1, k);
    }
  }

  /** What FirstFree returns is taken exactly when every name it has left is. */
  lemma {:induction false} FirstFreeIsTaken(ids: seq<string>, prefix: string, n: nat)
    requires 1 <= n <= LAST_SUFFIX + 1
    requires Candidates(prefix, n - 1) <= SetOf(ids)
    ensures FirstFree(ids, prefix, n) in ids <==> Names(prefix) <= SetOf(ids)
    decreases LAST_SUFFIX + 1 - n
  {
    if n > LAST_SUFFIX {
      assert prefix + "_x" in Names(prefix);
    } else if Candidate(prefix, n) in ids {
      assert Candidate(prefix, n) in SetOf(ids);
      FirstFreeIsTaken(ids, prefix, n + 1);
    } else {
      CandidateIn(prefix, LAST_SUFFIX, n);
      assert Candidate(prefix, n) in Names(prefix);
    }
  }

  lemma FallbackIsNoCandidate(prefix: string, n: nat)
    ensures prefix + "_x" !in Candidates(prefix, n)
  {
    if n > 0 {
      FallbackIsNoCandidate(prefix, n - 1);
      var c := Candidate(prefix, n);
      if n >= 2 {
        assert c[|prefix| + 1..] == Decimal(n);
        assert (prefix + "_x")[|prefix| + 1..] == "x";
        DecimalIsNotX(n);
      }
    }
  }

  lemma DecimalIsNotX(n: nat)
    ensures Decimal(n) != "x"
  {
    if n >= 10 {
      DecimalReadsBack(n / 10);
    } else {
      assert Decimal(n)[0] == Digit(n);
    }
  }

  /** The id given to a new module is somebody else's exactly when the prefix, its 9,998 numbered forms and its fallback
      are all taken, so never with fewer than 10,000 modules. */
  lemma UniqueIdIsFresh(ids: seq<string>, prefix: string)
    ensures UniqueId(ids, prefix) in ids <==> Names(prefix) <= SetOf(ids)
    ensures |ids| <= LAST_SUFFIX ==> UniqueId(ids, prefix) !in ids
  {
    FirstFreeIsTaken(ids, prefix, 1);
    CandidatesSize(prefix, LAST_SUFFIX);
    FallbackIsNoCandidate(prefix, LAST_SUFFIX);
    SetOfSize(ids);
    if Names(prefix) <= SetOf(ids) {
      Order.SubsetSize(Names(prefix), SetOf(ids));
    }
  }

  // ---------------------------------------------------------------- the document's edits

  function Metadata(d: Doc): Object {
    if d.metadata.Some? && d.metadata.value.Obj? then d.metadata.value.fields else []
  }

  /** The value under a key of an object; None for anything else. */
  function Child(j: Option<Json>, key: string): Option<Json> {
    if j.Some? && j.value.Obj? then Get(j.value.fields, key) else None
  }

  function WithLayout(metadata: Object, layout: Object): Object {
    var builder := Get(metadata, "builder");
    if builder.Some? && builder.value.Obj? then
      Put(metadata, "builder", Obj(Put(builder.value.fields, "layout", Obj(layout))))
    else metadata
  }

  /** Removing a module drops its place on the canvas; reading the metadata makes it an object. */
  function DropPlace(metadata: Object, id: string): Object {
    var layout := Child(Get(metadata, "builder"), "layout");
    if layout.Some? && layout.value.Obj? then WithLayout(metadata, Erase(layout.value.fields, id)) else metadata
  }

  /** Renaming moves it to the new name. */
  function MovePlace(metadata: Object, was: string, becomes: string): Object {
    var layout := Child(Get(metadata, "builder"), "layout");
    var place := Child(layout, was);
    if place.Some? then
      WithLayout(metadata, Erase(Put(layout.value.fields, becomes, place.value), was))
    else metadata
  }

  function ParamsOf(params: Json): Object {
    if params.Obj? then params.fields else []
  }

  function Inserted(ms: seq<Module>, m: Module, at: int): seq<Module> {
    if at < 0 || at >= |ms| then ms + [m] else ms[..at] + [m] + ms[at..]
  }

  function Removed(ms: seq<Module>, i: nat): seq<Module>
    requires i < |ms|
  {
    ms[..i] + ms[i + 1..]
  }

  function Moved(ms: seq<Module>, from: nat, to: nat): seq<Module>
    requires from < |ms| && to < |ms|
  {
    var rest := Removed(ms, from);
    rest[..to] + [ms[from]] + rest[to..]
  }

  predicate IsOrder(order: seq<int>, n: nat) {
    && |order| == n
    && (forall k :: 0 <= k < n ==> 0 <= order[k] < n)
    && (forall j, k :: 0 <= j < k < n ==> order[j] != order[k])
  }

  function Reordered(ms: seq<Module>, order: seq<int>): seq<Module>
    requires IsOrder(order, |ms|)
  {
    seq(|order|, k requires 0 <= k < |order| => ms[order[k]])
  }

  function WithParams(d: Doc, i: nat, params: Object): Doc
    requires i < |d.modules|
  {
    d.(modules := d.modules[i := d.modules[i].(params := params)])
  }

  // ---------------------------------------------------------------- the operations

  datatype Op =
    | Add(typ: string, id: string, params: Json, at: int)
    | Remove(id: string)
    | Move(from: int, to: int)
    | Reorder(order: seq<int>)
    | SetParam(id: string, key: string, value: Json, marked: bool)
    | EraseParam(id: string, key: string)
    | Rename(was: string, becomes: string)
    | SetBody(body: string)
    | Checkpoint
    | Undo
    | Redo

  /** The whole condition under which an operation does something. */
  predicate Accepts(s: State, op: Op) {
    var ms := s.doc.modules;
    match op
    case Add(_, _, _, _) => true
    case Remove(id) => IndexOf(ms, id) >= 0
    case Move(from, to) => 0 <= from < |ms| && 0 <= to < |ms| && from != to
    case Reorder(order) => IsOrder(order, |ms|)
    case SetParam(id, _, _, _) => IndexOf(ms, id) >= 0
    case EraseParam(id, key) => IndexOf(ms, id) >= 0 && Get(ms[IndexOf(ms, id)].params, key).Some?
    case Rename(was, becomes) => becomes != "" && was != becomes && IndexOf(ms, becomes) < 0 && IndexOf(ms, was) >= 0
    case SetBody(_) => true
    case Checkpoint => true
    case Undo => s.undo != []
    case Redo => s.redo != []
  }

  /** The document an accepted edit leaves. */
  function After(d: Doc, op: Op): Doc
    requires Accepts(State(d, [], [], false, 0), op)
  {
    var ms := d.modules;
    match op
    case Add(typ, id, params, at) =>
      d.(modules := Inserted(ms, Module(UniqueId(Ids(ms), id), typ, ParamsOf(params), []), at))
    case Remove(id) =>
      d.(modules := Removed(ms, IndexOf(ms, id)), metadata := Some(Obj(DropPlace(Metadata(d), id))))
    case Move(from, to) => d.(modules := Moved(ms, from, to))
    case Reorder(order) => d.(modules := Reordered(ms, order))
    case SetParam(id, key, value, _) =>
      WithParams(d, IndexOf(ms, id), Put(ms[IndexOf(ms, id)].params, key, value))
    case EraseParam(id, key) => WithParams(d, IndexOf(ms, id), Erase(ms[IndexOf(ms, id)].params, key))
    case Rename(was, becomes) =>
      var i := IndexOf(ms, was);
      d.(modules := ms[i := ms[i].(id := becomes)], metadata := Some(Obj(MovePlace(Metadata(d), was, becomes))))
    case SetBody(body) => d.(metadata := Some(Obj(Put(Metadata(d), "body_manifest", Str(body)))))
    case _ => d
  }

  function Capped(undo: seq<Doc>): seq<Doc> {
    if |undo| > CAP then undo[1..] else undo
  }

  function Marked(s: State): State {
    s.(undo := Capped(s.undo + [s.doc]), redo := [], revision := s.revision + 1)
  }

  /** The edits that are undo steps of their own. */
  predicate IsEdit(op: Op) {
    match op
    case SetParam(_, _, _, marked) => marked
    case SetBody(_) => false
    case Checkpoint => false
    case Undo => false
    case Redo => false
    case _ => true
  }

  function Undone(s: State): State
    requires s.undo != []
  {
    var n := |s.undo| - 1;
    State(s.undo[n], s.undo[..n], s.redo + [s.doc], true, s.revision + 1)
  }

  function Redone(s: State): State
    requires s.redo != []
  {
    var n := |s.redo| - 1;
    State(s.redo[n], s.undo + [s.doc], s.redo[..n], true, s.revision + 1)
  }

  /** An edit's new document, under an undo step of its own or not. */
  function Written(s: State, op: Op, doc: Doc): State {
    if IsEdit(op) then Marked(s).(doc := doc, dirty := true)
    else s.(doc := doc, dirty := true, revision := s.revision + if op.SetBody? then 0 else 1)
  }

  function Step(s: State, op: Op): State {
    if !Accepts(s, op) then s
    else if op.Undo? then Undone(s)
    else if op.Redo? then Redone(s)
    else if op.Checkpoint? then Marked(s)
    else Written(s, op, After(s.doc, op))
  }

  function Run(s: State, ops: seq<Op>): State {
    if ops == [] then s else Step(Run(s, ops[..|ops| - 1]), ops[|ops| - 1])
  }

  // ---------------------------------------------------------------- the history is a timeline with a cursor

  function Reversed(ds: seq<Doc>): (r: seq<Doc>)
    ensures |r| == |ds|
  {
    if ds == [] then [] else [ds[|ds| - 1]] + Reversed(ds[..|ds| - 1])
  }

  function Timeline(s: State): seq<Doc> {
    s.undo + [s.doc] + Reversed(s.redo)
  }

  /** Undo and redo move the cursor over one timeline: they lose nothing and reorder nothing, and the document is the
      one under the cursor. */
  lemma UndoAndRedoKeepTheTimeline(s: State)
    ensures Timeline(s)[|s.undo|] == s.doc
    ensures s.undo != [] ==> Timeline(Undone(s)) == Timeline(s)
    ensures s.redo != [] ==> Timeline(Redone(s)) == Timeline(s)
  {
    if s.undo != [] {
      var n := |s.undo| - 1;
      assert (s.redo + [s.doc])[..|s.redo|] == s.redo;
      assert s.undo == s.undo[..n] + [s.undo[n]];
      assert Timeline(Undone(s)) == s.undo[..n] + [s.undo[n]] + ([s.doc] + Reversed(s.redo));
    }
    if s.redo != [] {
      var n := |s.redo| - 1;
      assert Timeline(Redone(s)) == s.undo + [s.doc] + ([s.redo[n]] + Reversed(s.redo[..n]));
    }
  }

  lemma UndoThenRedo(s: State)
    requires s.undo != []
    ensures var t := Step(Step(s, Undo), Redo); t.doc == s.doc && t.undo == s.undo && t.redo == s.redo
  {
    var n := |s.undo| - 1;
    assert s.undo[..n] + [s.undo[n]] == s.undo && (s.redo + [s.doc])[..|s.redo|] == s.redo;
  }

  lemma RedoThenUndo(s: State)
    requires s.redo != []
    ensures var t := Step(Step(s, Redo), Undo); t.doc == s.doc && t.undo == s.undo && t.redo == s.redo
  {
    var n := |s.redo| - 1;
    assert s.redo[..n] + [s.redo[n]] == s.redo && (s.undo + [s.doc])[..|s.undo|] == s.undo;
  }

  /** An undo and a redo undo each other. */
  lemma UndoRedoInverse(s: State)
    ensures s.undo != [] ==>
              var t := Step(Step(s, Undo), Redo); t.doc == s.doc && t.undo == s.undo && t.redo == s.redo
    ensures s.redo != [] ==>
              var t := Step(Step(s, Redo), Undo); t.doc == s.doc && t.undo == s.undo && t.redo == s.redo
  {
    if s.undo != [] {
      UndoThenRedo(s);
    }
    if s.redo != [] {
      RedoThenUndo(s);
    }
  }

  predicate InCap(s: State) {
    |s.undo| + |s.redo| <= CAP
  }

  lemma {:induction false} HistoryStaysInCap(s: State, ops: seq<Op>)
    requires InCap(s)
    ensures InCap(Run(s, ops))
  {
    if ops != [] {
      HistoryStaysInCap(s, ops[..|ops| - 1]);
    }
  }

  /** Every op of ops is an edit with its own undo step, and is accepted when its turn comes. */
  predicate AllEdits(s: State, ops: seq<Op>) {
    forall i :: 0 <= i < |ops| ==> IsEdit(ops[i]) && Accepts(Run(s, ops[..i]), ops[i])
  }

  /** t is s after an edit with its own undo step. */
  predicate Pushed(s: State, t: State) {
    t.undo == Capped(s.undo + [s.doc]) && t.redo == [] && |s.undo| <= CAP
  }

  predicate IsEditRun(ss: seq<State>) {
    forall i :: 0 < i < |ss| ==> Pushed(ss[i - 1], ss[i])
  }

  /** The undo stack after some edits: its top is the document before the last edit, and so on down. */
  lemma {:induction false} EditsStack(ss: seq<State>, j: nat)
    requires IsEditRun(ss) && 0 < j < |ss| && j <= CAP
    ensures var t := ss[|ss| - 1];
            j <= |t.undo| && t.undo[|t.undo| - j] == ss[|ss| - 1 - j].doc
  {
    var n := |ss| - 1;
    assert Pushed(ss[n - 1], ss[n]);
    if j > 1 {
      EditsStack(ss[..n], j - 1);
    }
    CappedTop(ss[n - 1].undo, ss[n - 1].doc, j);
  }

  function States(s: State, ops: seq<Op>): seq<State> {
    seq(|ops| + 1, i requires 0 <= i <= |ops| => Run(s, ops[..i]))
  }

  lemma EditsPush(s: State, ops: seq<Op>)
    requires InCap(s) && AllEdits(s, ops)
    ensures IsEditRun(States(s, ops))
  {
    forall i | 0 < i < |ops| + 1 ensures Pushed(States(s, ops)[i - 1], States(s, ops)[i]) {
      assert IsEdit(ops[i - 1]) && Accepts(Run(s, ops[..i - 1]), ops[i - 1]);
      assert ops[..i][..i - 1] == ops[..i - 1];
      HistoryStaysInCap(s, ops[..i - 1]);
      EditPushes(Run(s, ops[..i - 1]), ops[i - 1]);
    }
  }

  lemma EditPushes(s: State, op: Op)
    requires IsEdit(op) && Accepts(s, op)
    ensures Step(s, op).undo == Capped(s.undo + [s.doc]) && Step(s, op).redo == []
  {
  }

  /** Dropping the oldest entry does not change the newest ones. */
  lemma CappedTop(undo: seq<Doc>, d: Doc, j: nat)
    requires 0 < j <= |undo| + 1 && j <= CAP && |undo| <= CAP
    ensures j <= |Capped(undo + [d])|
    ensures Capped(undo + [d])[|Capped(undo + [d])| - j] == if j == 1 then d else undo[|undo| - (j - 1)]
  {
  }

  function Repeat(op: Op, k: nat): seq<Op> {
    seq(k, _ => op)
  }

  /** k undos move the cursor k back; k redos move it k on. */
  lemma OneMore(s: State, op: Op, k: nat)
    requires k > 0
    ensures Run(s, Repeat(op, k)) == Step(Run(s, Repeat(op, k - 1)), op)
  {
    assert Repeat(op, k)[..k - 1] == Repeat(op, k - 1);
  }

  lemma StepUndoRedo(s: State)
    ensures s.undo != [] ==> Step(s, Undo) == Undone(s)
    ensures s.redo != [] ==> Step(s, Redo) == Redone(s)
  {
  }

  lemma UndoneOnce(s: State)
    requires s.undo != []
    ensures var t := Step(s, Undo);
            Timeline(t) == Timeline(s) && |t.undo| == |s.undo| - 1 && |t.redo| == |s.redo| + 1
  {
    StepUndoRedo(s);
    UndoAndRedoKeepTheTimeline(s);
  }

  lemma RedoneOnce(s: State)
    requires s.redo != []
    ensures var t := Step(s, Redo);
            Timeline(t) == Timeline(s) && |t.undo| == |s.undo| + 1 && |t.redo| == |s.redo| - 1
  {
    StepUndoRedo(s);
    UndoAndRedoKeepTheTimeline(s);
  }

  lemma {:induction false} UndosMoveBack(s: State, k: nat)
    requires k <= |s.undo|
    ensures var t := Run(s, Repeat(Undo, k));
            Timeline(t) == Timeline(s) && |t.undo| == |s.undo| - k && |t.redo| == |s.redo| + k
  {
    if k > 0 {
      UndosMoveBack(s, k - 1);
      OneMore(s, Undo, k);
      UndoneOnce(Run(s, Repeat(Undo, k - 1)));
    }
  }

  lemma {:induction false} RedosMoveOn(s: State, k: nat)
    requires k <= |s.redo|
    ensures var t := Run(s, Repeat(Redo, k));
            Timeline(t) == Timeline(s) && |t.undo| == |s.undo| + k && |t.redo| == |s.redo| - k
  {
    if k > 0 {
      RedosMoveOn(s, k - 1);
      OneMore(s, Redo, k);
      RedoneOnce(Run(s, Repeat(Redo, k - 1)));
    }
  }

  /** After any edits, up to 200 undos go back exactly that many edits, and as many redos restore the last document. */
  lemma EditsAreUndone(s: State, ops: seq<Op>, j: nat)
    requires InCap(s) && AllEdits(s, ops) && j <= |ops| && j <= CAP
    ensures var t := Run(Run(s, ops), Repeat(Undo, j));
            && t.doc == Run(s, ops[..|ops| - j]).doc
            && Run(t, Repeat(Redo, j)).doc == Run(s, ops).doc
  {
    EditsPush(s, ops);
    EditRunIsUndone(States(s, ops), j);
    assert ops[..|ops|] == ops;
  }

  lemma EditRunIsUndone(ss: seq<State>, j: nat)
    requires IsEditRun(ss) && j < |ss| && j <= CAP
    ensures var e := ss[|ss| - 1];
            && Run(e, Repeat(Undo, j)).doc == ss[|ss| - 1 - j].doc
            && Run(Run(e, Repeat(Undo, j)), Repeat(Redo, j)).doc == e.doc
  {
    if j > 0 {
      EditsStack(ss, j);
    }
    BackAndForth(ss[|ss| - 1], j);
  }

  lemma BackAndForth(e: State, j: nat)
    requires j <= |e.undo|
    ensures Run(e, Repeat(Undo, j)).doc == if j == 0 then e.doc else e.undo[|e.undo| - j]
    ensures Run(Run(e, Repeat(Undo, j)), Repeat(Redo, j)).doc == e.doc
  {
    var t := Run(e, Repeat(Undo, j));
    UndosMoveBack(e, j);
    RedosMoveOn(t, j);
    UnderCursor(e, t, j);
    UnderCursor(e, Run(t, Repeat(Redo, j)), 0);
  }

  lemma UnderCursor(e: State, t: State, j: nat)
    requires j <= |e.undo| && Timeline(t) == Timeline(e) && |t.undo| == |e.undo| - j
    ensures t.doc == if j == 0 then e.doc else e.undo[|e.undo| - j]
  {
    assert Timeline(t)[|t.undo|] == t.doc;
    assert Timeline(e)[|e.undo|] == e.doc;
    assert j > 0 ==> Timeline(e)[|e.undo| - j] == e.undo[|e.undo| - j];
  }

  // ---------------------------------------------------------------- ids stay distinct

  ghost predicate DistinctIds(ms: seq<Module>) {
    Distinct(Ids(ms))
  }

  lemma IndexIsOwn(ms: seq<Module>, i: nat)
    requires DistinctIds(ms) && i < |ms|
    ensures IndexOf(ms, ms[i].id) == i
  {
    var j := IndexOf(ms, ms[i].id);
    assert Ids(ms)[i] == ms[i].id;
    assert Ids(ms)[j] == ms[j].id;
  }

  lemma RemovedStaysDistinct(ms: seq<Module>, i: nat)
    requires DistinctIds(ms) && i < |ms|
    ensures DistinctIds(Removed(ms, i)) && ms[i].id !in Ids(Removed(ms, i))
  {
    assert Ids(Removed(ms, i)) == Ids(ms)[..i] + Ids(ms)[i + 1..];
    assert Ids(ms)[i] == ms[i].id;
  }

  lemma InsertedStaysDistinct(ms: seq<Module>, m: Module, at: nat)
    requires DistinctIds(ms) && m.id !in Ids(ms) && at <= |ms|
    ensures DistinctIds(ms[..at] + [m] + ms[at..])
  {
    assert Ids(ms[..at] + [m] + ms[at..]) == Ids(ms)[..at] + [m.id] + Ids(ms)[at..];
  }

  lemma ReorderedStaysDistinct(ms: seq<Module>, order: seq<int>)
    requires DistinctIds(ms) && IsOrder(order, |ms|)
    ensures DistinctIds(Reordered(ms, order))
  {
    var ids := Ids(Reordered(ms, order));
    forall i, j | 0 <= i < j < |ms| ensures ids[i] != ids[j] {
      assert order[i] != order[j] && ids[i] == Ids(ms)[order[i]] && ids[j] == Ids(ms)[order[j]];
    }
  }

  lemma RenamedStaysDistinct(ms: seq<Module>, i: nat, id: string)
    requires DistinctIds(ms) && i < |ms| && id !in Ids(ms)
    ensures DistinctIds(ms[i := ms[i].(id := id)])
  {
    assert Ids(ms[i := ms[i].(id := id)]) == Ids(ms)[i := id];
  }

  lemma AfterStaysDistinct(d: Doc, op: Op)
    requires DistinctIds(d.modules) && Accepts(State(d, [], [], false, 0), op)
    requires op.Add? ==> |d.modules| <= LAST_SUFFIX
    ensures DistinctIds(After(d, op).modules)
  {
    var ms := d.modules;
    match op
    case Add(_, id, _, at) =>
      UniqueIdIsFresh(Ids(ms), id);
      var m := Module(UniqueId(Ids(ms), id), op.typ, ParamsOf(op.params), []);
      var k := if at < 0 || at >= |ms| then |ms| else at;
      InsertedStaysDistinct(ms, m, k);
      assert ms[..|ms|] + [m] + ms[|ms|..] == ms + [m];
    case Remove(id) =>
      RemovedStaysDistinct(ms, IndexOf(ms, id));
    case Move(from, to) =>
      RemovedStaysDistinct(ms, from);
      InsertedStaysDistinct(Removed(ms, from), ms[from], to);
    case Reorder(order) =>
      ReorderedStaysDistinct(ms, order);
    case Rename(was, becomes) =>
      RenamedStaysDistinct(ms, IndexOf(ms, was), becomes);
    case SetParam(_, _, _, _) => assert Ids(After(d, op).modules) == Ids(ms);
    case EraseParam(_, _) => assert Ids(After(d, op).modules) == Ids(ms);
    case _ =>
  }

  ghost predicate AllDistinct(s: State) {
    && DistinctIds(s.doc.modules)
    && (forall d :: d in s.undo ==> DistinctIds(d.modules))
    && (forall d :: d in s.redo ==> DistinctIds(d.modules))
  }

  /** No module is added to a document of 10,000 modules or more. */
  predicate Roomy(s: State, op: Op) {
    op.Add? ==> |s.doc.modules| <= LAST_SUFFIX
  }

  lemma StepStaysDistinct(s: State, op: Op)
    requires AllDistinct(s) && Roomy(s, op)
    ensures AllDistinct(Step(s, op))
  {
    if Accepts(s, op) && !op.Undo? && !op.Redo? && !op.Checkpoint? {
      AfterStaysDistinct(s.doc, op);
      WrittenStaysDistinct(s, op, After(s.doc, op));
    }
  }

  lemma WrittenStaysDistinct(s: State, op: Op, doc: Doc)
    requires AllDistinct(s) && DistinctIds(doc.modules)
    ensures AllDistinct(Written(s, op, doc))
  {
  }

  /** Ids stay distinct under every edit, undo and redo. */
  lemma {:induction false} IdsStayDistinct(s: State, ops: seq<Op>)
    requires AllDistinct(s)
    requires forall i :: 0 <= i < |ops| ==> Roomy(Run(s, ops[..i]), ops[i])
    ensures AllDistinct(Run(s, ops))
  {
    if ops != [] {
      var n := |ops| - 1;
      forall i | 0 <= i < n ensures Roomy(Run(s, ops[..n][..i]), ops[..n][i]) {
        assert ops[..n][..i] == ops[..i];
      }
      assert Roomy(Run(s, ops[..n]), ops[n]);
      IdsStayDistinct(s, ops[..n]);
      StepStaysDistinct(Run(s, ops[..n]), ops[n]);
    }
  }

  // ---------------------------------------------------------------- the suggested order

  lemma ReorderIsAccepted(s: State, order: seq<nat>)
    requires Order.IsPermutation(order, |s.doc.modules|)
    ensures Accepts(s, Reorder(order))
    ensures Ids(Step(s, Reorder(order)).doc.modules) == Order.Reordered(Ids(s.doc.modules), order)
  {
    assert IsOrder(order, |s.doc.modules|);
    assert Ids(Step(s, Reorder(order)).doc.modules) == Order.Reordered(Ids(s.doc.modules), order);
  }

  lemma SuggestsNothing(ids: seq<string>, links: seq<Wiring.Link>, order: seq<nat>, moved: seq<string>)
    requires Distinct(ids) && Order.IsSorted(Order.Adjacency(ids, links), order)
    requires Order.IsPermutation(order, |ids|) && moved == Order.Reordered(ids, order)
    ensures forall again: seq<nat> ::
              Order.IsSorted(Order.Adjacency(moved, links), again) <==> again == Order.Identity(|ids|)
  {
    forall again: seq<nat>
      ensures Order.IsSorted(Order.Adjacency(moved, links), again) <==> again == Order.Identity(|ids|)
    {
      Order.SortIsIdempotent(ids, links, order, again);
    }
  }

  /** Graph::reorder accepts exactly the permutations, the suggested order among them, and puts the modules in it. */
  lemma SuggestedOrderIsAccepted(s: State, links: seq<Wiring.Link>, order: seq<nat>)
    requires DistinctIds(s.doc.modules)
    requires Order.IsSorted(Order.Adjacency(Ids(s.doc.modules), links), order)
    ensures Accepts(s, Reorder(order))
    ensures Ids(Step(s, Reorder(order)).doc.modules) == Order.Reordered(Ids(s.doc.modules), order)
    ensures forall again: seq<nat> ::
              Order.IsSorted(Order.Adjacency(Ids(Step(s, Reorder(order)).doc.modules), links), again)
              <==> again == Order.Identity(|s.doc.modules|)
  {
    var ids := Ids(s.doc.modules);
    Order.SortIsIdempotent(ids, links, order, order);
    ReorderIsAccepted(s, order);
    SuggestsNothing(ids, links, order, Ids(Step(s, Reorder(order)).doc.modules));
  }

  lemma RemoveInserted(rest: seq<Module>, m: Module, at: nat)
    requires at <= |rest|
    ensures var ms := rest[..at] + [m] + rest[at..]; Removed(ms, at) == rest && ms[at] == m
  {
  }

  /** Moving a module and moving it back changes nothing. */
  lemma MoveBack(ms: seq<Module>, from: nat, to: nat)
    requires from < |ms| && to < |ms|
    ensures Moved(Moved(ms, from, to), to, from) == ms
  {
    var rest := Removed(ms, from);
    RemoveInserted(rest, ms[from], to);
    assert rest[..from] == ms[..from] && rest[from..] == ms[from + 1..];
  }

  /** Where module i stands after the move. */
  function PlaceAfter(from: nat, to: nat, i: nat): nat {
    if i == from then to
    else
      var rank := if i < from then i else i - 1;
      if rank < to then rank else rank + 1
  }

  /** A move puts the module at its new place and takes nothing away: every module is where PlaceAfter says, and the
      others are in the order they were in. */
  lemma MovedKeepsTheOthersInOrder(ms: seq<Module>, from: nat, to: nat)
    requires from < |ms| && to < |ms|
    ensures |Moved(ms, from, to)| == |ms| && Moved(ms, from, to)[to] == ms[from]
    ensures forall i :: 0 <= i < |ms| ==>
              PlaceAfter(from, to, i) < |ms| && Moved(ms, from, to)[PlaceAfter(from, to, i)] == ms[i]
    ensures forall i, j :: 0 <= i < j < |ms| && i != from && j != from ==>
              PlaceAfter(from, to, i) < PlaceAfter(from, to, j)
  {
    var rest := Removed(ms, from);
    forall i | 0 <= i < |ms|
      ensures PlaceAfter(from, to, i) < |ms| && Moved(ms, from, to)[PlaceAfter(from, to, i)] == ms[i]
    {
      if i != from {
        assert rest[if i < from then i else i - 1] == ms[i];
      }
    }
  }

  lemma EditWrites(s: State, op: Op)
    requires IsEdit(op) && Accepts(s, op)
    ensures Step(s, op).doc == After(s.doc, op)
  {
  }

  lemma AddInserts(d: Doc, typ: string, id: string, params: Json, at: int) returns (k: nat)
    ensures k <= |d.modules|
    ensures var m := Module(UniqueId(Ids(d.modules), id), typ, ParamsOf(params), []);
            After(d, Add(typ, id, params, at)).modules == d.modules[..k] + [m] + d.modules[k..]
  {
    k := if at < 0 || at >= |d.modules| then |d.modules| else at;
  }

  /** Removing the module just added takes it out again. */
  lemma RemoveUndoesAdd(s: State, typ: string, id: string, params: Json, at: int)
    requires |s.doc.modules| <= LAST_SUFFIX
    ensures var uid := UniqueId(Ids(s.doc.modules), id);
            Step(Step(s, Add(typ, id, params, at)), Remove(uid)).doc.modules == s.doc.modules
  {
    var ms, uid := s.doc.modules, UniqueId(Ids(s.doc.modules), id);
    var m, t := Module(uid, typ, ParamsOf(params), []), Step(s, Add(typ, id, params, at));
    UniqueIdIsFresh(Ids(ms), id);
    EditWrites(s, Add(typ, id, params, at));
    var k := AddInserts(s.doc, typ, id, params, at);
    InsertedStands(ms, m, k);
    RemoveInserted(ms, m, k);
    EditWrites(t, Remove(uid));
  }

  lemma InsertedStands(ms: seq<Module>, m: Module, k: nat)
    requires m.id !in Ids(ms) && k <= |ms|
    ensures IndexOf(ms[..k] + [m] + ms[k..], m.id) == k
  {
    var out := ms[..k] + [m] + ms[k..];
    forall j | 0 <= j < |ms| ensures ms[j].id != m.id {
      assert Ids(ms)[j] == ms[j].id;
    }
    assert out[k] == m;
    assert Ids(out)[k] == m.id;
  }

  /** Renaming a module and renaming it back changes no module. */
  lemma RenameBack(s: State, was: string, becomes: string)
    requires Accepts(s, Rename(was, becomes)) && was != ""
    requires DistinctIds(s.doc.modules)
    ensures Accepts(Step(s, Rename(was, becomes)), Rename(becomes, was))
    ensures Step(Step(s, Rename(was, becomes)), Rename(becomes, was)).doc.modules == s.doc.modules
  {
    var ms, i := s.doc.modules, IndexOf(s.doc.modules, was);
    var renamed := ms[i := ms[i].(id := becomes)];
    forall j | 0 <= j < |ms| ensures renamed[j].id != was && (renamed[j].id == becomes ==> j == i) {
      assert Ids(ms)[j] == ms[j].id && Ids(ms)[i] == was;
    }
    assert Ids(renamed)[i] == becomes;
    assert IndexOf(renamed, becomes) == i;
    assert was !in Ids(renamed);
    assert renamed[i := renamed[i].(id := was)] == ms;
  }

  function PlaceOf(metadata: Object, id: string): Option<Json> {
    Child(Child(Get(metadata, "builder"), "layout"), id)
  }

  /** Names are unique among the places. */
  ghost predicate PlacesUnique(metadata: Object) {
    var layout := Child(Get(metadata, "builder"), "layout");
    layout.Some? && layout.value.Obj? ==> UniqueKeys(layout.value.fields)
  }

  lemma NewLayoutReadsBack(metadata: Object, layout: Object, id: string)
    requires Get(metadata, "builder").Some? && Get(metadata, "builder").value.Obj?
    ensures PlaceOf(WithLayout(metadata, layout), id) == Get(layout, id)
  {
    var builder := Get(metadata, "builder").value.fields;
    GetPut(builder, "layout", Obj(layout), "layout");
    GetPut(metadata, "builder", Obj(Put(builder, "layout", Obj(layout))), "builder");
  }

  /** A removed module has no place on the canvas any more; every other module keeps its own. */
  lemma RemovedHasNoPlace(metadata: Object, id: string, other: string)
    requires PlacesUnique(metadata)
    ensures PlaceOf(DropPlace(metadata, id), other) == if other == id then None else PlaceOf(metadata, other)
  {
    var layout := Child(Get(metadata, "builder"), "layout");
    if layout.Some? && layout.value.Obj? {
      NewLayoutReadsBack(metadata, Erase(layout.value.fields, id), other);
      if other == id {
        ErasedIsGone(layout.value.fields, id);
      } else {
        GetErase(layout.value.fields, id, other);
      }
    }
  }

  /** Nor has the old name of a renamed one. */
  lemma RenamedLeavesItsPlace(metadata: Object, was: string, becomes: string)
    requires PlacesUnique(metadata) && was != becomes
    ensures PlaceOf(MovePlace(metadata, was, becomes), was).None?
  {
    if PlaceOf(metadata, was).Some? {
      var layout := Child(Get(metadata, "builder"), "layout").value.fields;
      var place := Get(layout, was).value;
      NewLayoutReadsBack(metadata, Erase(Put(layout, becomes, place), was), was);
      PutKeepsKeysUnique(layout, becomes, place);
      ErasedIsGone(Put(layout, becomes, place), was);
    }
  }

  /** A renamed module keeps its place on the canvas, and every other module its own. */
  lemma PlacesFollowTheName(metadata: Object, was: string, becomes: string, other: string)
    requires was != becomes && PlaceOf(metadata, was).Some? && other != was
    ensures PlaceOf(MovePlace(metadata, was, becomes), other) ==
            if other == becomes then PlaceOf(metadata, was) else PlaceOf(metadata, other)
  {
    var layout := Child(Get(metadata, "builder"), "layout").value.fields;
    var place := Get(layout, was).value;
    NewLayoutReadsBack(metadata, Erase(Put(layout, becomes, place), was), other);
    GetPut(layout, becomes, place, other);
    GetErase(Put(layout, becomes, place), was, other);
  }

  /** A param set reads back, the module's others and every other module are as they were. */
  lemma ParamReadsBack(s: State, id: string, key: string, value: Json, marked: bool, other: string)
    requires Accepts(s, Op.SetParam(id, key, value, marked))
    ensures var ms, i := Step(s, Op.SetParam(id, key, value, marked)).doc.modules, IndexOf(s.doc.modules, id);
            && |ms| == |s.doc.modules|
            && Get(ms[i].params, other) == (if other == key then Some(value) else Get(s.doc.modules[i].params, other))
            && forall j :: 0 <= j < |ms| && j != i ==> ms[j] == s.doc.modules[j]
  {
    GetPut(s.doc.modules[IndexOf(s.doc.modules, id)].params, key, value, other);
  }

  // ---------------------------------------------------------------- the class

  method FindIndex(ms: seq<Module>, id: string) returns (i: int)
    ensures i == IndexOf(ms, id)
  {
    for k := 0 to |ms|
      invariant forall j :: 0 <= j < k ==> ms[j].id != id
    {
      if ms[k].id == id {
        assert Ids(ms)[k] == id;
        return k;
      }
    }
    i := -1;
  }

  method FreshId(ms: seq<Module>, prefix: string) returns (id: string)
    ensures id == UniqueId(Ids(ms), prefix)
  {
    var at := FindIndex(ms, prefix);
    if at < 0 {
      return prefix;
    }
    var n := 2;
    while n < 10000
      invariant 2 <= n <= 10000
      invariant FirstFree(Ids(ms), prefix, n) == UniqueId(Ids(ms), prefix)
    {
      var cand := prefix + "_" + ToString(n);
      at := FindIndex(ms, cand);
      if at < 0 {
        return cand;
      }
      n := n + 1;
    }
    id := prefix + "_x";
  }

  class Graph {
    var doc: Doc
    var undo: seq<Doc>
    var redo: seq<Doc>
    var dirty: bool
    var revision: nat

    constructor (d: Doc)
      ensures Now() == State(d, [], [], false, 0)
    {
      doc, undo, redo, dirty, revision := d, [], [], false, 0;
    }

    ghost function Now(): State
      reads this
    {
      State(doc, undo, redo, dirty, revision)
    }

    method Mark()
      modifies this
      ensures Now() == Marked(old(Now()))
    {
      revision := revision + 1;
      undo := undo + [doc];
      if |undo| > CAP {
        undo := undo[1..];
      }
      redo := [];
    }

    method UndoOne() returns (ok: bool)
      modifies this
      ensures ok == Accepts(old(Now()), Undo) && Now() == Step(old(Now()), Undo)
    {
      if undo == [] { return false; }
      redo := redo + [doc];
      doc := undo[|undo| - 1];
      undo := undo[..|undo| - 1];
      dirty, revision := true, revision + 1;
      ok := true;
    }

    method RedoOne() returns (ok: bool)
      modifies this
      ensures ok == Accepts(old(Now()), Redo) && Now() == Step(old(Now()), Redo)
    {
      if redo == [] { return false; }
      undo := undo + [doc];
      doc := redo[|redo| - 1];
      redo := redo[..|redo| - 1];
      dirty, revision := true, revision + 1;
      ok := true;
    }

    /** The document written over, under an undo step. */
    method Write(d: Doc)
      modifies this
      ensures Now() == Marked(old(Now())).(doc := d, dirty := true)
    {
      Mark();
      doc := d;
      dirty := true;
    }

    method AddModule(typ: string, id: string, params: Json, at: int) returns (uid: string)
      modifies this
      ensures Now() == Step(old(Now()), Add(typ, id, params, at))
      ensures uid == UniqueId(Ids(old(doc.modules)), id)
    {
      uid := FreshId(doc.modules, id);
      var m := Module(uid, typ, if params.Obj? then params.fields else [], []);
      var ms := doc.modules;
      Write(doc.(modules := if at < 0 || at >= |ms| then ms + [m] else ms[..at] + [m] + ms[at..]));
    }

    method RemoveModule(id: string) returns (ok: bool)
      modifies this
      ensures ok == Accepts(old(Now()), Remove(id)) && Now() == Step(old(Now()), Remove(id))
    {
      var i := FindIndex(doc.modules, id);
      if i < 0 { return false; }
      Write(doc.(modules := doc.modules[..i] + doc.modules[i + 1..],
                 metadata := Some(Obj(DropPlace(Metadata(doc), id)))));
      ok := true;
    }

    method MoveModule(from: int, to: int) returns (ok: bool)
      modifies this
      ensures ok == Accepts(old(Now()), Move(from, to)) && Now() == Step(old(Now()), Move(from, to))
    {
      var n := |doc.modules|;
      if from < 0 || from >= n || to < 0 || to >= n || from == to { return false; }
      var m, ms := doc.modules[from], doc.modules;
      ms := ms[..from] + ms[from + 1..];
      ms := ms[..to] + [m] + ms[to..];
      Write(doc.(modules := ms));
      ok := true;
    }

    method ReorderModules(order: seq<int>) returns (ok: bool)
      modifies this
      ensures ok == Accepts(old(Now()), Reorder(order)) && Now() == Step(old(Now()), Reorder(order))
    {
      ok := ChecksOut(order, |doc.modules|);
      if !ok { return; }
      var mods := [];
      for k := 0 to |order|
        invariant |mods| == k && doc == old(doc) && Now() == old(Now())
        invariant forall j :: 0 <= j < k ==> mods[j] == doc.modules[order[j]]
      {
        mods := mods + [doc.modules[order[k]]];
      }
      assert mods == Reordered(doc.modules, order);
      Write(doc.(modules := mods));
    }

    method SetParam(id: string, key: string, value: Json, marked: bool)
      modifies this
      ensures Now() == Step(old(Now()), Op.SetParam(id, key, value, marked))
    {
      var i := FindIndex(doc.modules, id);
      if i < 0 { return; }
      var d := WithParams(doc, i, Put(doc.modules[i].params, key, value));
      if marked {
        Write(d);
      } else {
        revision, doc, dirty := revision + 1, d, true;
      }
    }

    method EraseParam(id: string, key: string)
      modifies this
      ensures Now() == Step(old(Now()), Op.EraseParam(id, key))
    {
      var i := FindIndex(doc.modules, id);
      if i < 0 || Get(doc.modules[i].params, key).None? { return; }
      Write(WithParams(doc, i, Erase(doc.modules[i].params, key)));
    }

    method RenameModule(was: string, becomes: string) returns (ok: bool)
      modifies this
      ensures ok == Accepts(old(Now()), Rename(was, becomes)) && Now() == Step(old(Now()), Rename(was, becomes))
    {
      var taken := FindIndex(doc.modules, becomes);
      if becomes == "" || was == becomes || taken >= 0 { return false; }
      var i := FindIndex(doc.modules, was);
      if i < 0 { return false; }
      Write(doc.(modules := doc.modules[i := doc.modules[i].(id := becomes)],
                 metadata := Some(Obj(MovePlace(Metadata(doc), was, becomes)))));
      ok := true;
    }

    /** Not an undo step, and no new revision. */
    method SetBodyManifest(body: string)
      modifies this`doc, this`dirty
      ensures Now() == Step(old(Now()), SetBody(body))
    {
      doc := doc.(metadata := Some(Obj(Put(Metadata(doc), "body_manifest", Str(body)))));
      dirty := true;
    }
  }

  /** v is among the first k of the order. */
  predicate Placed(order: seq<int>, k: nat, v: int)
    requires k <= |order|
  {
    exists j :: 0 <= j < k && order[j] == v
  }

  lemma PlacedNext(order: seq<int>, k: nat, v: int)
    requires k < |order|
    ensures Placed(order, k + 1, v) <==> Placed(order, k, v) || v == order[k]
  {
    if v == order[k] {
      assert order[k] == v;
    }
  }

  /** The marks of reorder: every index in range, and none seen twice. */
  method ChecksOut(order: seq<int>, n: nat) returns (ok: bool)
    ensures ok <==> IsOrder(order, n)
  {
    if |order| != n { return false; }
    var seen := new bool[n](_ => false);
    for k := 0 to n
      invariant forall j :: 0 <= j < k ==> 0 <= order[j] < n
      invariant forall i, j :: 0 <= i < j < k ==> order[i] != order[j]
      invariant forall v :: 0 <= v < n ==> (seen[v] <==> Placed(order, k, v))
    {
      var i := order[k];
      if i < 0 || i >= n { return false; }
      if seen[i] {
        var j :| 0 <= j < k && order[j] == i;
        return false;
      }
      forall v ensures Placed(order, k + 1, v) <==> Placed(order, k, v) || v == i {
        PlacedNext(order, k, v);
      }
      seen[i] := true;
    }
    ok := true;
  }
}
