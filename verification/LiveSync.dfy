/** brain_builder/src/LiveSync.cpp: the document against a running host, as patch ops; and the host adopted. */
module LiveSync {
  import opened Keys
  import opened Prelude

  /** A JSON value, up to the library's equality. */
  type Value(==, !new, 0)
  type Params = map<string, Value>

  /** A schema entry; a null default is None. */
  datatype ParamInfo = ParamInfo(hot: bool, def: Option<Value>)
  type Catalogue = map<string, map<string, ParamInfo>>

  datatype Module = Module(id: string, typ: string, params: Params)

  /** An element of the host's `modules` array: anything, or an object whose three keys may be absent. */
  datatype Entry = Junk | Entry(id: Option<string>, typ: Option<string>, params: Option<Params>)

  datatype Spec = Spec(typ: string, params: Params)
  type Host = map<string, Spec>

  datatype Op =
    | RemoveNode(id: string)
    | AddNode(id: string, typ: string, params: Params)
    | SetParam(id: string, key: string, value: Value)

  datatype LiveOps = LiveOps(ops: seq<Op>, recreate: seq<string>, notes: seq<string>)

  const ORDER_NOTE := "execution order differs from the host; a reorder applies at the next restart (save the file)"

  function SpecOf(e: Entry): Spec
    requires e.Entry?
  {
    Spec(if e.typ.Some? then e.typ.value else "", if e.params.Some? then e.params.value else map[])
  }

  predicate HasId(e: Entry) { e.Entry? && e.id.Some? }

  /** Later entries overwrite earlier ones of the same id. */
  function ById(synced: seq<Entry>): Host {
    if synced == [] then map[]
    else
      var host := ById(synced[..|synced| - 1]);
      var e := synced[|synced| - 1];
      if HasId(e) then host[e.id.value := SpecOf(e)] else host
  }

  function Local(doc: seq<Module>): Host {
    if doc == [] then map[]
    else
      var m := doc[|doc| - 1];
      Local(doc[..|doc| - 1])[m.id := Spec(m.typ, m.params)]
  }

  function Ids(doc: seq<Module>): seq<string> {
    seq(|doc|, i requires 0 <= i < |doc| => doc[i].id)
  }

  function HostOrder(synced: seq<Entry>): seq<string> {
    if synced == [] then []
    else
      var e := synced[|synced| - 1];
      HostOrder(synced[..|synced| - 1]) + if HasId(e) then [e.id.value] else []
  }

  function Shared(ids: seq<string>, others: Host): seq<string> {
    if ids == [] then []
    else
      var id := ids[|ids| - 1];
      Shared(ids[..|ids| - 1], others) + if id in others then [id] else []
  }

  // ---------------------------------------------------------------- one module's difference

  function Info(cat: Catalogue, typ: string, key: string): Option<ParamInfo> {
    if typ in cat && key in cat[typ] then Some(cat[typ][key]) else None
  }

  predicate Hot(cat: Catalogue, typ: string, key: string) {
    var pi := Info(cat, typ, key);
    pi.Some? && pi.value.hot
  }

  datatype Verdict = Same | Set(value: Value) | Recreate

  /** What one key calls for: lp is the document's params, hp the host's. */
  function Consider(cat: Catalogue, typ: string, lp: Params, hp: Params, key: string): Verdict {
    if key in lp && key in hp && lp[key] == hp[key] then Same
    else if key !in lp && key !in hp then Same
    else if key in lp && Hot(cat, typ, key) then Set(lp[key])
    else if key !in lp && Hot(cat, typ, key) && Info(cat, typ, key).value.def.Some?
    then Set(Info(cat, typ, key).value.def.value)
    else Recreate
  }

  function SetsFor(cat: Catalogue, id: string, typ: string, lp: Params, hp: Params, keys: seq<string>): seq<Op> {
    if keys == [] then []
    else
      var n := |keys| - 1;
      var v := Consider(cat, typ, lp, hp, keys[n]);
      SetsFor(cat, id, typ, lp, hp, keys[..n]) + if v.Set? then [SetParam(id, keys[n], v.value)] else []
  }

  ghost predicate NeedsRecreate(cat: Catalogue, typ: string, lp: Params, hp: Params) {
    exists key :: Consider(cat, typ, lp, hp, key) == Recreate
  }

  ghost function ParamOrder(lp: Params, hp: Params): seq<string> {
    Sorted(lp.Keys) + Sorted(hp.Keys - lp.Keys)
  }

  ghost predicate Recreates(cat: Catalogue, host: Host, id: string, l: Spec) {
    id in host && (host[id].typ != l.typ || NeedsRecreate(cat, l.typ, l.params, host[id].params))
  }

  ghost function ModuleOps(cat: Catalogue, host: Host, id: string, l: Spec): seq<Op> {
    if id !in host then [AddNode(id, l.typ, l.params)]
    else if Recreates(cat, host, id, l) then []
    else SetsFor(cat, id, l.typ, l.params, host[id].params, ParamOrder(l.params, host[id].params))
  }

  // ---------------------------------------------------------------- the whole batch

  function Removals(ids: seq<string>): seq<Op> {
    seq(|ids|, i requires 0 <= i < |ids| => RemoveNode(ids[i]))
  }

  ghost function Updates(cat: Catalogue, host: Host, local: Host, ids: seq<string>): seq<Op>
    requires forall id :: id in ids ==> id in local
  {
    if ids == [] then []
    else
      var n := |ids| - 1;
      Updates(cat, host, local, ids[..n]) + ModuleOps(cat, host, ids[n], local[ids[n]])
  }

  ghost function ToRecreate(cat: Catalogue, host: Host, local: Host, ids: seq<string>): seq<string>
    requires forall id :: id in ids ==> id in local
  {
    if ids == [] then []
    else
      var n := |ids| - 1;
      ToRecreate(cat, host, local, ids[..n]) + if Recreates(cat, host, ids[n], local[ids[n]]) then [ids[n]] else []
  }

  lemma {:induction false} LocalHasIds(doc: seq<Module>)
    ensures forall id :: id in Local(doc) <==> id in Ids(doc)
  {
    if doc != [] {
      var n := |doc| - 1;
      LocalHasIds(doc[..n]);
      assert Ids(doc) == Ids(doc[..n]) + [doc[n].id];
    }
  }

  ghost function Diff(doc: seq<Module>, cat: Catalogue, synced: seq<Entry>): LiveOps {
    LocalHasIds(doc);
    var host, local, ids := ById(synced), Local(doc), Ids(doc);
    LiveOps(Removals(Sorted(host.Keys - local.Keys)) + Updates(cat, host, local, ids),
            ToRecreate(cat, host, local, ids),
            if Shared(ids, host) != Shared(HostOrder(synced), local) then [ORDER_NOTE] else [])
  }

  // ---------------------------------------------------------------- the host's patch machine

  /** None: the host refuses the op. */
  function Apply(cat: Catalogue, host: Host, op: Op): Option<Host> {
    match op
    case RemoveNode(id) => if id in host then Some(host - {id}) else None
    case AddNode(id, typ, params) => if id in host then None else Some(host[id := Spec(typ, params)])
    case SetParam(id, key, value) =>
      if id in host && Hot(cat, host[id].typ, key)
      then Some(host[id := host[id].(params := host[id].params[key := value])])
      else None
  }

  function Exec(cat: Catalogue, host: Host, ops: seq<Op>): Option<Host> {
    if ops == [] then Some(host)
    else
      var h := Exec(cat, host, ops[..|ops| - 1]);
      if h.Some? then Apply(cat, h.value, ops[|ops| - 1]) else None
  }

  /** `index_of` finds the first module of the id. */
  function Find(doc: seq<Module>, id: string): Option<Spec> {
    if doc == [] then None
    else if doc[0].id == id then Some(Spec(doc[0].typ, doc[0].params))
    else Find(doc[1..], id)
  }

  function RecreateOps(doc: seq<Module>, id: string): seq<Op> {
    match Find(doc, id)
    case None => []
    case Some(l) => [RemoveNode(id), AddNode(id, l.typ, l.params)]
  }

  function RecreateAll(doc: seq<Module>, ids: seq<string>): seq<Op> {
    if ids == [] then []
    else RecreateAll(doc, ids[..|ids| - 1]) + RecreateOps(doc, ids[|ids| - 1])
  }

  /** The value a module runs with: the one given, else the schema's default. */
  function Effective(cat: Catalogue, s: Spec, key: string): Option<Value> {
    if key in s.params then Some(s.params[key])
    else if Info(cat, s.typ, key).Some? then Info(cat, s.typ, key).value.def
    else None
  }

  ghost predicate Matches(cat: Catalogue, h: Spec, l: Spec) {
    h.typ == l.typ && forall key :: Effective(cat, h, key) == Effective(cat, l, key)
  }

  lemma NextUpdates(cat: Catalogue, host: Host, local: Host, ids: seq<string>, i: nat)
    requires i < |ids| && forall id :: id in ids ==> id in local
    ensures Updates(cat, host, local, ids[..i + 1])
         == Updates(cat, host, local, ids[..i]) + ModuleOps(cat, host, ids[i], local[ids[i]])
    ensures ToRecreate(cat, host, local, ids[..i + 1])
         == ToRecreate(cat, host, local, ids[..i])
            + if Recreates(cat, host, ids[i], local[ids[i]]) then [ids[i]] else []
  {
    assert ids[..i + 1][..i] == ids[..i];
  }

  // ---------------------------------------------------------------- running a batch

  lemma {:induction false} ExecConcat(cat: Catalogue, host: Host, a: seq<Op>, b: seq<Op>)
    ensures Exec(cat, host, a + b) ==
            if Exec(cat, host, a).Some? then Exec(cat, Exec(cat, host, a).value, b) else None
  {
    if b == [] {
      assert a + b == a;
    } else {
      var n := |b| - 1;
      ExecConcat(cat, host, a, b[..n]);
      assert (a + b)[..|a + b| - 1] == a + b[..n];
    }
  }

  /** A batch the host accepts is accepted op by op. */
  lemma PrefixesApply(cat: Catalogue, host: Host, ops: seq<Op>, k: nat)
    requires k <= |ops| && Exec(cat, host, ops).Some?
    ensures Exec(cat, host, ops[..k]).Some?
  {
    assert ops == ops[..k] + ops[k..];
    ExecConcat(cat, host, ops[..k], ops[k..]);
  }

  function Dropped(host: Host, ids: seq<string>): Host {
    if ids == [] then host else Dropped(host, ids[..|ids| - 1]) - {ids[|ids| - 1]}
  }

  lemma {:induction false} DroppedAt(host: Host, ids: seq<string>, id: string)
    ensures id in Dropped(host, ids) <==> id in host && id !in ids
    ensures id in Dropped(host, ids) ==> Dropped(host, ids)[id] == host[id]
  {
    if ids != [] {
      DroppedAt(host, ids[..|ids| - 1], id);
      assert ids == ids[..|ids| - 1] + [ids[|ids| - 1]];
    }
  }

  lemma {:induction false} RemovalsRun(cat: Catalogue, host: Host, ids: seq<string>)
    requires Distinct(ids) && forall id :: id in ids ==> id in host
    ensures Exec(cat, host, Removals(ids)) == Some(Dropped(host, ids))
  {
    if ids != [] {
      var n := |ids| - 1;
      RemovalsRun(cat, host, ids[..n]);
      DroppedAt(host, ids[..n], ids[n]);
      assert Removals(ids)[..n] == Removals(ids[..n]);
    }
  }

  /** The params a module is left with when its sets are applied. */
  function Overlay(cat: Catalogue, typ: string, lp: Params, hp: Params, keys: seq<string>): Params {
    if keys == [] then hp
    else
      var n := |keys| - 1;
      var v := Consider(cat, typ, lp, hp, keys[n]);
      var p := Overlay(cat, typ, lp, hp, keys[..n]);
      if v.Set? then p[keys[n] := v.value] else p
  }

  lemma {:induction false} OverlayAt(cat: Catalogue, typ: string, lp: Params, hp: Params, keys: seq<string>,
                                     key: string)
    ensures var p, v := Overlay(cat, typ, lp, hp, keys), Consider(cat, typ, lp, hp, key);
            if key in keys && v.Set? then key in p && p[key] == v.value
            else (key in p <==> key in hp) && (key in hp ==> p[key] == hp[key])
  {
    if keys != [] {
      OverlayAt(cat, typ, lp, hp, keys[..|keys| - 1], key);
      assert keys == keys[..|keys| - 1] + [keys[|keys| - 1]];
    }
  }

  lemma {:induction false} SetsRun(cat: Catalogue, host: Host, id: string, lp: Params, hp: Params, keys: seq<string>)
    requires id in host && host[id].params == hp
    ensures Exec(cat, host, SetsFor(cat, id, host[id].typ, lp, hp, keys))
         == Some(host[id := host[id].(params := Overlay(cat, host[id].typ, lp, hp, keys))])
  {
    var typ := host[id].typ;
    if keys == [] {
      assert host[id := host[id].(params := hp)] == host;
    } else {
      var n := |keys| - 1;
      SetsRun(cat, host, id, lp, hp, keys[..n]);
      var front := SetsFor(cat, id, typ, lp, hp, keys[..n]);
      var v := Consider(cat, typ, lp, hp, keys[n]);
      if v.Set? {
        assert SetsFor(cat, id, typ, lp, hp, keys)[..|front|] == front;
        var p := Overlay(cat, typ, lp, hp, keys[..n]);
        assert host[id := host[id].(params := p)][id := host[id].(params := p[keys[n] := v.value])]
            == host[id := host[id].(params := p[keys[n] := v.value])];
      } else {
        assert SetsFor(cat, id, typ, lp, hp, keys) == front;
      }
    }
  }

  /** What the batch makes of a document module the host may or may not hold already. */
  ghost function Synced(cat: Catalogue, host: Host, id: string, l: Spec): Spec {
    if id !in host then l
    else if Recreates(cat, host, id, l) then host[id]
    else host[id].(params := Overlay(cat, l.typ, l.params, host[id].params, ParamOrder(l.params, host[id].params)))
  }

  lemma ModuleOpsRun(cat: Catalogue, host: Host, id: string, l: Spec, now: Host)
    requires id in now <==> id in host
    requires id in host ==> now[id] == host[id]
    ensures Exec(cat, now, ModuleOps(cat, host, id, l)) == Some(now[id := Synced(cat, host, id, l)])
  {
    if id !in host {
      assert ModuleOps(cat, host, id, l)[..0] == [];
    } else if Recreates(cat, host, id, l) {
      assert now[id := host[id]] == now;
    } else {
      SetsRun(cat, now, id, l.params, host[id].params, ParamOrder(l.params, host[id].params));
    }
  }

  /** The host after the first of `ids` have had their turn. */
  ghost function Progress(cat: Catalogue, host: Host, local: Host, kept: Host, ids: seq<string>): Host
    requires forall id :: id in ids ==> id in local
  {
    if ids == [] then kept
    else
      var n := |ids| - 1;
      Progress(cat, host, local, kept, ids[..n])[ids[n] := Synced(cat, host, ids[n], local[ids[n]])]
  }

  lemma {:induction false} ProgressAt(cat: Catalogue, host: Host, local: Host, kept: Host, ids: seq<string>, id: string)
    requires forall id :: id in ids ==> id in local
    ensures var p := Progress(cat, host, local, kept, ids);
            if id in ids then id in p && p[id] == Synced(cat, host, id, local[id])
            else (id in p <==> id in kept) && (id in kept ==> p[id] == kept[id])
  {
    if ids != [] {
      ProgressAt(cat, host, local, kept, ids[..|ids| - 1], id);
      assert ids == ids[..|ids| - 1] + [ids[|ids| - 1]];
    }
  }

  /** A recreated module runs as the first of its id says. */
  function Rebuilt(now: Host, doc: seq<Module>, ids: seq<string>): Host {
    if ids == [] then now
    else
      var before, l := Rebuilt(now, doc, ids[..|ids| - 1]), Find(doc, ids[|ids| - 1]);
      if l.Some? then before[ids[|ids| - 1] := l.value] else before
  }

  lemma {:induction false} RebuiltAt(now: Host, doc: seq<Module>, ids: seq<string>, id: string)
    requires forall i :: i in ids ==> Find(doc, i).Some?
    ensures id in Rebuilt(now, doc, ids) <==> id in now || id in ids
    ensures id in ids ==> Find(doc, id) == Some(Rebuilt(now, doc, ids)[id])
    ensures id in now && id !in ids ==> Rebuilt(now, doc, ids)[id] == now[id]
  {
    if ids != [] {
      RebuiltAt(now, doc, ids[..|ids| - 1], id);
      assert ids == ids[..|ids| - 1] + [ids[|ids| - 1]];
    }
  }

  lemma {:induction false} FindIsThere(doc: seq<Module>, id: string)
    ensures Find(doc, id).Some? <==> id in Ids(doc)
  {
    if doc != [] {
      FindIsThere(doc[1..], id);
      assert Ids(doc) == [doc[0].id] + Ids(doc[1..]);
    }
  }

  lemma {:induction false} FindIsLocal(doc: seq<Module>, i: nat)
    requires Distinct(Ids(doc)) && i < |doc|
    ensures Find(doc, doc[i].id) == Some(Spec(doc[i].typ, doc[i].params))
  {
    if i > 0 {
      assert Ids(doc)[0] != Ids(doc)[i];
      assert Ids(doc[1..]) == Ids(doc)[1..];
      FindIsLocal(doc[1..], i - 1);
    }
  }

  lemma {:induction false} LocalAt(doc: seq<Module>, i: nat)
    requires Distinct(Ids(doc)) && i < |doc|
    ensures doc[i].id in Local(doc) && Local(doc)[doc[i].id] == Spec(doc[i].typ, doc[i].params)
  {
    var n := |doc| - 1;
    assert Ids(doc[..n]) == Ids(doc)[..n];
    if i < n {
      assert Ids(doc)[i] != Ids(doc)[n];
      LocalAt(doc[..n], i);
    }
  }

  /** Of modules with one id a recreation takes the first, a difference the last; they agree when ids are distinct. */
  lemma FirstIsLast(doc: seq<Module>, id: string)
    requires Distinct(Ids(doc)) && id in Local(doc)
    ensures Find(doc, id) == Some(Local(doc)[id])
  {
    LocalHasIds(doc);
    var i :| 0 <= i < |doc| && Ids(doc)[i] == id;
    FindIsLocal(doc, i);
    LocalAt(doc, i);
  }

  lemma RecreateRuns(cat: Catalogue, doc: seq<Module>, now: Host, id: string)
    requires id in now && Find(doc, id).Some?
    ensures Exec(cat, now, RecreateOps(doc, id)) == Some(now[id := Find(doc, id).value])
  {
    var l := Find(doc, id).value;
    var pair := [RemoveNode(id), AddNode(id, l.typ, l.params)];
    assert RecreateOps(doc, id) == pair;
    assert Exec(cat, now, pair[..0]) == Some(now);
    assert Exec(cat, now, pair[..1]) == Some(now - {id}) by {
      assert pair[..1][..0] == pair[..0];
    }
    assert (now - {id})[id := l] == now[id := l];
  }

  lemma {:induction false} RecreatesRun(cat: Catalogue, doc: seq<Module>, now: Host, ids: seq<string>)
    requires forall id :: id in ids ==> id in now && Find(doc, id).Some?
    ensures Exec(cat, now, RecreateAll(doc, ids)) == Some(Rebuilt(now, doc, ids))
  {
    if ids != [] {
      var n := |ids| - 1;
      RecreatesRun(cat, doc, now, ids[..n]);
      var before := Rebuilt(now, doc, ids[..n]);
      RebuiltAt(now, doc, ids[..n], ids[n]);
      RecreateRuns(cat, doc, before, ids[n]);
      ExecConcat(cat, now, RecreateAll(doc, ids[..n]), RecreateOps(doc, ids[n]));
    }
  }

  lemma {:induction false} ToRecreateHas(cat: Catalogue, host: Host, local: Host, ids: seq<string>, id: string)
    requires forall i :: i in ids ==> i in local
    ensures id in ToRecreate(cat, host, local, ids) <==> id in ids && Recreates(cat, host, id, local[id])
  {
    if ids != [] {
      ToRecreateHas(cat, host, local, ids[..|ids| - 1], id);
      assert ids == ids[..|ids| - 1] + [ids[|ids| - 1]];
    }
  }

  // ---------------------------------------------------------------- convergence

  /** A second look finds nothing to do for this module but sets of values already held. */
  ghost predicate Quiet(cat: Catalogue, h: Spec, l: Spec) {
    h.typ == l.typ &&
    forall key ::
      var v := Consider(cat, l.typ, l.params, h.params, key);
      v.Same? || (v.Set? && key in h.params && h.params[key] == v.value)
  }

  lemma SyncedMatches(cat: Catalogue, host: Host, id: string, l: Spec)
    requires !Recreates(cat, host, id, l)
    ensures Matches(cat, Synced(cat, host, id, l), l) && Quiet(cat, Synced(cat, host, id, l), l)
  {
    if id in host {
      var hp := host[id].params;
      var keys := ParamOrder(l.params, hp);
      forall key
        ensures var h := Synced(cat, host, id, l);
                Effective(cat, h, key) == Effective(cat, l, key)
        ensures var h := Synced(cat, host, id, l);
                var v := Consider(cat, l.typ, l.params, h.params, key);
                v.Same? || (v.Set? && key in h.params && h.params[key] == v.value)
      {
        OverlayAt(cat, l.typ, l.params, hp, keys, key);
        assert Consider(cat, l.typ, l.params, hp, key) != Recreate;
        assert key in keys <==> key in l.params || key in hp;
      }
    }
  }

  lemma {:induction false} QuietUpdates(cat: Catalogue, host: Host, local: Host, ids: seq<string>)
    requires forall id :: id in ids ==> id in local && id in host && Quiet(cat, host[id], local[id])
    ensures ToRecreate(cat, host, local, ids) == []
    ensures forall op :: op in Updates(cat, host, local, ids) ==> IsNoOp(host, op)
  {
    if ids != [] {
      var n := |ids| - 1;
      QuietUpdates(cat, host, local, ids[..n]);
      var l := local[ids[n]];
      QuietSets(cat, host, ids[n], l, ParamOrder(l.params, host[ids[n]].params));
    }
  }

  ghost predicate IsNoOp(host: Host, op: Op) {
    op.SetParam? && op.id in host && op.key in host[op.id].params && host[op.id].params[op.key] == op.value
  }

  lemma {:induction false} QuietSets(cat: Catalogue, host: Host, id: string, l: Spec, keys: seq<string>)
    requires id in host && Quiet(cat, host[id], l)
    ensures forall op :: op in SetsFor(cat, id, l.typ, l.params, host[id].params, keys) ==> IsNoOp(host, op)
  {
    if keys != [] {
      QuietSets(cat, host, id, l, keys[..|keys| - 1]);
    }
  }

  /** A set of a value already held leaves the host alone. */
  lemma NoOpsChangeNothing(cat: Catalogue, host: Host, op: Op)
    requires IsNoOp(host, op) && Apply(cat, host, op).Some?
    ensures Apply(cat, host, op).value == host
  {
    var s := host[op.id];
    assert s.params[op.key := op.value] == s.params;
    assert host[op.id := s] == host;
  }

  /** Every id that the document has twice the host has. */
  ghost predicate TwiceIsThere(ids: seq<string>, host: Host) {
    forall i, j :: 0 <= i < j < |ids| && ids[i] == ids[j] ==> ids[i] in host
  }

  lemma {:induction false} NoOpsRun(cat: Catalogue, host: Host, ops: seq<Op>)
    requires forall op :: op in ops ==> IsNoOp(host, op) && Apply(cat, host, op).Some?
    ensures Exec(cat, host, ops) == Some(host)
  {
    if ops != [] {
      var n := |ops| - 1;
      NoOpsRun(cat, host, ops[..n]);
      NoOpsChangeNothing(cat, host, ops[n]);
    }
  }

  lemma {:induction false} SetsAreHot(cat: Catalogue, id: string, typ: string, lp: Params, hp: Params,
                                      keys: seq<string>, op: Op)
    requires op in SetsFor(cat, id, typ, lp, hp, keys)
    ensures op.SetParam? && op.id == id && op.key in keys && Hot(cat, typ, op.key)
    ensures Consider(cat, typ, lp, hp, op.key) == Set(op.value)
  {
    var n := |keys| - 1;
    if op in SetsFor(cat, id, typ, lp, hp, keys[..n]) {
      SetsAreHot(cat, id, typ, lp, hp, keys[..n], op);
    }
  }

  /** The second of two modules with one id sets the same values again. */
  lemma ModuleOpsRunAgain(cat: Catalogue, host: Host, id: string, l: Spec, now: Host)
    requires id in host && id in now && now[id] == Synced(cat, host, id, l)
    ensures Exec(cat, now, ModuleOps(cat, host, id, l)) == Some(now)
  {
    if !Recreates(cat, host, id, l) {
      var hp := host[id].params;
      var keys := ParamOrder(l.params, hp);
      var ops := SetsFor(cat, id, l.typ, l.params, hp, keys);
      forall op | op in ops ensures IsNoOp(now, op) && Apply(cat, now, op).Some? {
        SetsAreHot(cat, id, l.typ, l.params, hp, keys, op);
        OverlayAt(cat, l.typ, l.params, hp, keys, op.key);
      }
      NoOpsRun(cat, now, ops);
    }
  }

  /** One module's ops, on its first turn or a later one. */
  lemma ModuleTurn(cat: Catalogue, host: Host, id: string, l: Spec, now: Host)
    requires if id !in host then id !in now
             else id in now && (now[id] == host[id] || now[id] == Synced(cat, host, id, l))
    ensures Exec(cat, now, ModuleOps(cat, host, id, l)) == Some(now[id := Synced(cat, host, id, l)])
  {
    if id in host && now[id] == Synced(cat, host, id, l) {
      ModuleOpsRunAgain(cat, host, id, l, now);
      assert now[id := now[id]] == now;
    } else {
      ModuleOpsRun(cat, host, id, l, now);
    }
  }

  lemma {:induction false} UpdatesRun(cat: Catalogue, host: Host, local: Host, kept: Host, ids: seq<string>)
    requires TwiceIsThere(ids, host) && forall id :: id in ids ==> id in local
    requires forall id :: id in ids ==> (id in kept <==> id in host) && (id in host ==> kept[id] == host[id])
    ensures Exec(cat, kept, Updates(cat, host, local, ids)) == Some(Progress(cat, host, local, kept, ids))
  {
    if ids != [] {
      var n := |ids| - 1;
      var id, l, now := ids[n], local[ids[n]], Progress(cat, host, local, kept, ids[..n]);
      UpdatesRun(cat, host, local, kept, ids[..n]);
      ProgressAt(cat, host, local, kept, ids[..n], id);
      ModuleTurn(cat, host, id, l, now);
      ExecConcat(cat, kept, Updates(cat, host, local, ids[..n]), ModuleOps(cat, host, id, l));
    }
  }

  /** The host when the ids the document lacks are gone. */
  ghost function Kept(host: Host, local: Host): Host {
    Dropped(host, Sorted(host.Keys - local.Keys))
  }

  lemma KeptAt(host: Host, local: Host)
    ensures forall id :: id in Kept(host, local) <==> id in host && id in local
    ensures forall id :: id in Kept(host, local) ==> Kept(host, local)[id] == host[id]
  {
    forall id ensures id in Kept(host, local) <==> id in host && id in local
              ensures id in Kept(host, local) ==> Kept(host, local)[id] == host[id] {
      DroppedAt(host, Sorted(host.Keys - local.Keys), id);
    }
  }

  /** The batch is the removals, then the updates. */
  lemma BatchIsUpdates(doc: seq<Module>, cat: Catalogue, synced: seq<Entry>, host: Host, local: Host)
    requires host == ById(synced) && local == Local(doc)
    ensures forall id :: id in Ids(doc) <==> id in local
    ensures Exec(cat, host, Diff(doc, cat, synced).ops)
         == Exec(cat, Kept(host, local), Updates(cat, host, local, Ids(doc)))
  {
    LocalHasIds(doc);
    var gone := Sorted(host.Keys - local.Keys);
    RemovalsRun(cat, host, gone);
    ExecConcat(cat, host, Removals(gone), Updates(cat, host, local, Ids(doc)));
  }

  /** The host after the batch, module by module. */
  lemma BatchGives(doc: seq<Module>, cat: Catalogue, synced: seq<Entry>, host: Host, local: Host) returns (h: Host)
    requires host == ById(synced) && local == Local(doc) && TwiceIsThere(Ids(doc), host)
    ensures Exec(cat, host, Diff(doc, cat, synced).ops) == Some(h) && h.Keys == local.Keys
    ensures forall id :: id in local ==> h[id] == Synced(cat, host, id, local[id])
    ensures forall id :: id in Diff(doc, cat, synced).recreate <==> id in local && Recreates(cat, host, id, local[id])
  {
    BatchIsUpdates(doc, cat, synced, host, local);
    KeptAt(host, local);
    UpdatesRun(cat, host, local, Kept(host, local), Ids(doc));
    h := Progress(cat, host, local, Kept(host, local), Ids(doc));
    forall id
      ensures id in h <==> id in local
      ensures id in local ==> h[id] == Synced(cat, host, id, local[id])
      ensures id in ToRecreate(cat, host, local, Ids(doc)) <==> id in local && Recreates(cat, host, id, local[id])
    {
      ProgressAt(cat, host, local, Kept(host, local), Ids(doc), id);
      ToRecreateHas(cat, host, local, Ids(doc), id);
    }
  }

  /** The batch alone: it runs, leaves exactly the document's ids, and brings every module that is
      not listed for recreation to the document's type and effective params. */
  lemma {:induction false} BatchRuns(doc: seq<Module>, cat: Catalogue, synced: seq<Entry>)
    requires TwiceIsThere(Ids(doc), ById(synced))
    ensures var d, host, local := Diff(doc, cat, synced), ById(synced), Local(doc);
            var h := Exec(cat, host, d.ops);
            && h.Some? && h.value.Keys == local.Keys
            && (forall id :: id in local && id !in d.recreate ==>
                  Matches(cat, h.value[id], local[id]) && Quiet(cat, h.value[id], local[id]))
            && (forall id :: id in d.recreate ==> id in local && id in host && h.value[id] == host[id])
  {
    var host, local := ById(synced), Local(doc);
    var h := BatchGives(doc, cat, synced, host, local);
    forall id | id in local && !Recreates(cat, host, id, local[id])
      ensures Matches(cat, h[id], local[id]) && Quiet(cat, h[id], local[id])
    {
      SyncedMatches(cat, host, id, local[id]);
    }
  }

  // ---------------------------------------------------------------- ids the document has twice

  lemma {:induction false} SetsRemoveNothing(cat: Catalogue, now: Host, ops: seq<Op>)
    requires (forall op :: op in ops ==> !op.RemoveNode?) && Exec(cat, now, ops).Some?
    ensures now.Keys <= Exec(cat, now, ops).value.Keys
  {
    if ops != [] {
      SetsRemoveNothing(cat, now, ops[..|ops| - 1]);
    }
  }

  lemma ModuleIsThereAfter(cat: Catalogue, host: Host, id: string, l: Spec, now: Host)
    requires Exec(cat, now, ModuleOps(cat, host, id, l)).Some?
    ensures now.Keys <= Exec(cat, now, ModuleOps(cat, host, id, l)).value.Keys
    ensures id !in host ==> id !in now && id in Exec(cat, now, ModuleOps(cat, host, id, l)).value
  {
    var ops := ModuleOps(cat, host, id, l);
    if id !in host {
      assert ops[..0] == [];
    } else if !Recreates(cat, host, id, l) {
      forall op | op in ops ensures !op.RemoveNode? {
        SetsAreHot(cat, id, l.typ, l.params, host[id].params, ParamOrder(l.params, host[id].params), op);
      }
    }
    SetsRemoveNothing(cat, now, ops);
  }

  lemma TwiceIsThereNext(ids: seq<string>, host: Host)
    requires ids != [] && TwiceIsThere(ids[..|ids| - 1], host)
    requires ids[|ids| - 1] in ids[..|ids| - 1] ==> ids[|ids| - 1] in host
    ensures TwiceIsThere(ids, host)
  {
    var n := |ids| - 1;
    forall i, j | 0 <= i < j < |ids| && ids[i] == ids[j] ensures ids[i] in host {
      if j == n {
        assert ids[i] in ids[..n];
      } else {
        assert ids[..n][i] == ids[..n][j];
      }
    }
  }

  /** A batch that runs added every absent module, and none of them twice. */
  lemma {:induction false} RunningAddsOnce(cat: Catalogue, host: Host, local: Host, kept: Host, ids: seq<string>)
    requires (forall id :: id in ids ==> id in local) && Exec(cat, kept, Updates(cat, host, local, ids)).Some?
    ensures TwiceIsThere(ids, host)
    ensures forall id :: id in ids && id !in host ==> id in Exec(cat, kept, Updates(cat, host, local, ids)).value
  {
    if ids != [] {
      var n := |ids| - 1;
      ExecConcat(cat, kept, Updates(cat, host, local, ids[..n]), ModuleOps(cat, host, ids[n], local[ids[n]]));
      RunningAddsOnce(cat, host, local, kept, ids[..n]);
      var now := Exec(cat, kept, Updates(cat, host, local, ids[..n])).value;
      ModuleIsThereAfter(cat, host, ids[n], local[ids[n]], now);
      TwiceIsThereNext(ids, host);
    }
  }

  /** The host accepts the batch if and only if it has every id that the document has twice. */
  lemma {:induction false} BatchRunsIff(doc: seq<Module>, cat: Catalogue, synced: seq<Entry>)
    ensures Exec(cat, ById(synced), Diff(doc, cat, synced).ops).Some? <==> TwiceIsThere(Ids(doc), ById(synced))
  {
    var host, local := ById(synced), Local(doc);
    BatchIsUpdates(doc, cat, synced, host, local);
    if TwiceIsThere(Ids(doc), host) {
      var h := BatchGives(doc, cat, synced, host, local);
    } else if Exec(cat, Kept(host, local), Updates(cat, host, local, Ids(doc))).Some? {
      RunningAddsOnce(cat, host, local, Kept(host, local), Ids(doc));
    }
  }

  // ---------------------------------------------------------------- a second look

  lemma {:induction false} SetIsAmong(cat: Catalogue, id: string, typ: string, lp: Params, hp: Params,
                                      keys: seq<string>, key: string)
    requires key in keys && Consider(cat, typ, lp, hp, key).Set?
    ensures SetParam(id, key, Consider(cat, typ, lp, hp, key).value) in SetsFor(cat, id, typ, lp, hp, keys)
  {
    var n := |keys| - 1;
    assert keys == keys[..n] + [keys[n]];
    if key in keys[..n] {
      SetIsAmong(cat, id, typ, lp, hp, keys[..n], key);
    }
  }

  lemma {:induction false} UpdatesGrow(cat: Catalogue, host: Host, local: Host, ids: seq<string>, i: nat, k: nat)
    requires i <= k <= |ids| && forall id :: id in ids ==> id in local
    ensures Updates(cat, host, local, ids[..i]) <= Updates(cat, host, local, ids[..k])
  {
    if i < k {
      UpdatesGrow(cat, host, local, ids, i, k - 1);
      NextUpdates(cat, host, local, ids, k - 1);
    }
  }

  lemma HeldInAPart(front: seq<Op>, part: seq<Op>, whole: seq<Op>, op: Op)
    requires front + part <= whole && op in part
    ensures op in whole
  {
    var j :| 0 <= j < |part| && part[j] == op;
    assert (front + part)[|front| + j] == op;
  }

  lemma {:induction false} OpsAreAmong(cat: Catalogue, host: Host, local: Host, ids: seq<string>, i: nat, op: Op)
    requires i < |ids| && forall id :: id in ids ==> id in local
    requires op in ModuleOps(cat, host, ids[i], local[ids[i]])
    ensures op in Updates(cat, host, local, ids)
  {
    NextUpdates(cat, host, local, ids, i);
    UpdatesGrow(cat, host, local, ids, i + 1, |ids|);
    assert ids[..|ids|] == ids;
    HeldInAPart(Updates(cat, host, local, ids[..i]), ModuleOps(cat, host, ids[i], local[ids[i]]),
                Updates(cat, host, local, ids), op);
  }

  /** A module that is not quiet asks for its recreation, or for a set of a value not held. */
  lemma LoudModuleAsks(cat: Catalogue, host: Host, id: string, l: Spec)
    requires id in host && !Quiet(cat, host[id], l) && !Recreates(cat, host, id, l)
    ensures exists op :: op in ModuleOps(cat, host, id, l) && !IsNoOp(host, op)
  {
    var hp := host[id].params;
    var key :| var v := Consider(cat, l.typ, l.params, hp, key);
               !(v.Same? || (v.Set? && key in hp && hp[key] == v.value));
    var keys, v := ParamOrder(l.params, hp), Consider(cat, l.typ, l.params, hp, key);
    assert v != Recreate;
    assert key in keys <==> key in l.params || key in hp;
    SetIsAmong(cat, id, l.typ, l.params, hp, keys, key);
    assert !IsNoOp(host, SetParam(id, key, v.value));
  }

  /** Nothing is asked for but sets of values already held. */
  ghost predicate OnlyNoOps(host: Host, out: LiveOps) {
    out.recreate == [] && forall op :: op in out.ops ==> IsNoOp(host, op)
  }

  lemma {:induction false} LoudUpdatesAsk(cat: Catalogue, host: Host, local: Host, ids: seq<string>, i: nat)
    requires i < |ids| && forall id :: id in ids ==> id in local
    requires ids[i] in host && !Quiet(cat, host[ids[i]], local[ids[i]])
    ensures ToRecreate(cat, host, local, ids) != []
            || exists op :: op in Updates(cat, host, local, ids) && !IsNoOp(host, op)
  {
    var id, l := ids[i], local[ids[i]];
    if Recreates(cat, host, id, l) {
      ToRecreateHas(cat, host, local, ids, id);
    } else {
      LoudModuleAsks(cat, host, id, l);
      var op :| op in ModuleOps(cat, host, id, l) && !IsNoOp(host, op);
      OpsAreAmong(cat, host, local, ids, i, op);
    }
  }

  /** Against a host with the document's ids, a difference asks for nothing new exactly when every module is quiet. */
  lemma {:induction false} SecondLook(doc: seq<Module>, cat: Catalogue, again: seq<Entry>, host: Host, local: Host)
    requires host == ById(again) && local == Local(doc) && host.Keys == local.Keys
    ensures OnlyNoOps(host, Diff(doc, cat, again)) <==> forall id :: id in local ==> Quiet(cat, host[id], local[id])
  {
    LocalHasIds(doc);
    var ids := Ids(doc);
    assert host.Keys - local.Keys == {};
    assert Diff(doc, cat, again).ops == Updates(cat, host, local, ids);
    if forall id :: id in local ==> Quiet(cat, host[id], local[id]) {
      QuietUpdates(cat, host, local, ids);
    } else {
      var id :| id in local && !Quiet(cat, host[id], local[id]);
      var i :| 0 <= i < |ids| && ids[i] == id;
      LoudUpdatesAsk(cat, host, local, ids, i);
    }
  }

  // ---------------------------------------------------------------- convergence of the whole

  /** Of the modules of each id to be recreated the first, which the recreation takes, runs as the last, which the
      difference reads. */
  ghost predicate FirstsMatch(cat: Catalogue, doc: seq<Module>, ids: seq<string>) {
    forall id :: id in ids && id in Local(doc) && Find(doc, id).Some? ==>
      Matches(cat, Find(doc, id).value, Local(doc)[id])
  }

  /** And it holds the last's values, not just defaults. */
  ghost predicate FirstsQuiet(cat: Catalogue, doc: seq<Module>, ids: seq<string>) {
    forall id :: id in ids && id in Local(doc) && Find(doc, id).Some? ==>
      Quiet(cat, Find(doc, id).value, Local(doc)[id])
  }

  lemma DistinctFirsts(cat: Catalogue, doc: seq<Module>, ids: seq<string>)
    requires Distinct(Ids(doc))
    ensures FirstsMatch(cat, doc, ids) && FirstsQuiet(cat, doc, ids)
  {
    forall id | id in ids && id in Local(doc) ensures Find(doc, id) == Some(Local(doc)[id]) {
      FirstIsLast(doc, id);
    }
  }

  lemma {:induction false} RecreationsGive(doc: seq<Module>, cat: Catalogue, ids: seq<string>, now: Host)
    returns (h: Host)
    requires forall id :: id in ids ==> id in now && id in Ids(doc)
    ensures Exec(cat, now, RecreateAll(doc, ids)) == Some(h) && h.Keys == now.Keys
    ensures forall id :: id in now && id !in ids ==> h[id] == now[id]
    ensures forall id :: id in ids ==> Find(doc, id) == Some(h[id])
  {
    forall id | id in ids ensures Find(doc, id).Some? {
      FindIsThere(doc, id);
    }
    RecreatesRun(cat, doc, now, ids);
    h := Rebuilt(now, doc, ids);
    forall id
      ensures id in h <==> id in now
      ensures id in now && id !in ids ==> h[id] == now[id]
      ensures id in ids ==> Find(doc, id) == Some(h[id])
    {
      RebuiltAt(now, doc, ids, id);
    }
  }

  /** Batch and recreations run to the end, and this is the host they leave. */
  lemma {:induction false} SyncGives(doc: seq<Module>, cat: Catalogue, synced: seq<Entry>, out: LiveOps, local: Host)
    returns (h: Host)
    requires TwiceIsThere(Ids(doc), ById(synced)) && out == Diff(doc, cat, synced) && local == Local(doc)
    ensures Exec(cat, ById(synced), out.ops + RecreateAll(doc, out.recreate)) == Some(h) && h.Keys == local.Keys
    ensures forall id :: id in local && id !in out.recreate ==>
              Matches(cat, h[id], local[id]) && Quiet(cat, h[id], local[id])
    ensures forall id :: id in out.recreate ==> id in local && Find(doc, id) == Some(h[id])
  {
    BatchRuns(doc, cat, synced);
    LocalHasIds(doc);
    var now := Exec(cat, ById(synced), out.ops).value;
    ExecConcat(cat, ById(synced), out.ops, RecreateAll(doc, out.recreate));
    h := RecreationsGive(doc, cat, out.recreate, now);
  }

  /** Live sync converges: the batch and the recreations run to the end and leave the document's ids; the host then
      has the document's types and effective params, and whatever order it lists its modules in, a second difference
      asks for nothing but sets of values it already holds.  With distinct ids always; with an id twice that the host
      has, exactly when the first module of each id recreated runs as the last, and holds its values. */
  lemma {:induction false} Converges(doc: seq<Module>, cat: Catalogue, synced: seq<Entry>, again: seq<Entry>)
    requires Distinct(Ids(doc)) || TwiceIsThere(Ids(doc), ById(synced))
    ensures var d, local := Diff(doc, cat, synced), Local(doc);
            var h := Exec(cat, ById(synced), d.ops + RecreateAll(doc, d.recreate));
            && h.Some? && h.value.Keys == local.Keys
            && ((forall id :: id in local ==> Matches(cat, h.value[id], local[id])) <==>
                  FirstsMatch(cat, doc, d.recreate))
            && (ById(again) == h.value ==>
                  (OnlyNoOps(h.value, Diff(doc, cat, again)) <==> FirstsQuiet(cat, doc, d.recreate)))
    ensures Distinct(Ids(doc)) ==>
              FirstsMatch(cat, doc, Diff(doc, cat, synced).recreate)
              && FirstsQuiet(cat, doc, Diff(doc, cat, synced).recreate)
  {
    var d, local := Diff(doc, cat, synced), Local(doc);
    var h := SyncGives(doc, cat, synced, d, local);
    if Distinct(Ids(doc)) {
      DistinctFirsts(cat, doc, d.recreate);
    }
    if ById(again) == h {
      SecondLook(doc, cat, again, h, local);
    }
  }

  // ---------------------------------------------------------------- the loops

  /** The edited document, as far as the live link reads and writes it. */
  class Document {
    var modules: seq<Module>
    var runtime: Option<Value>
    var revision: nat
  }

  method IndexHost(synced: seq<Entry>) returns (host: Host)
    ensures host == ById(synced)
  {
    host := map[];
    for i := 0 to |synced|
      invariant host == ById(synced[..i])
    {
      assert synced[..i + 1][..i] == synced[..i];
      var e := synced[i];
      if HasId(e) {
        host := host[e.id.value := SpecOf(e)];
      }
    }
    assert synced[..|synced|] == synced;
  }

  method IndexDocument(doc: seq<Module>) returns (local: Host, order: seq<string>)
    ensures local == Local(doc) && order == Ids(doc)
  {
    local, order := map[], [];
    for i := 0 to |doc|
      invariant local == Local(doc[..i]) && order == Ids(doc[..i])
    {
      assert doc[..i + 1][..i] == doc[..i];
      local := local[doc[i].id := Spec(doc[i].typ, doc[i].params)];
      order := order + [doc[i].id];
    }
    assert doc[..|doc|] == doc;
  }

  method RemoveStale(host: Host, local: Host) returns (ops: seq<Op>)
    ensures ops == Removals(Sorted(host.Keys - local.Keys))
  {
    var stale := InOrder(host.Keys - local.Keys);
    ops := [];
    for i := 0 to |stale|
      invariant ops == Removals(stale[..i])
    {
      ops := ops + [RemoveNode(stale[i])];
    }
    assert stale[..|stale|] == stale;
  }

  predicate AnyRecreate(cat: Catalogue, typ: string, lp: Params, hp: Params, keys: seq<string>) {
    exists i :: 0 <= i < |keys| && Consider(cat, typ, lp, hp, keys[i]) == Recreate
  }

  lemma ParamOrderSuffices(cat: Catalogue, typ: string, lp: Params, hp: Params)
    ensures AnyRecreate(cat, typ, lp, hp, ParamOrder(lp, hp)) <==> NeedsRecreate(cat, typ, lp, hp)
  {
    if key :| Consider(cat, typ, lp, hp, key) == Recreate {
      assert key in ParamOrder(lp, hp);
    }
  }

  method ConsiderKeys(cat: Catalogue, id: string, typ: string, lp: Params, hp: Params, keys: seq<string>)
    returns (needs: bool, sets: seq<Op>)
    ensures sets == SetsFor(cat, id, typ, lp, hp, keys)
    ensures needs <==> AnyRecreate(cat, typ, lp, hp, keys)
  {
    needs, sets := false, [];
    for i := 0 to |keys|
      invariant sets == SetsFor(cat, id, typ, lp, hp, keys[..i])
      invariant needs <==> exists k :: 0 <= k < i && Consider(cat, typ, lp, hp, keys[k]) == Recreate
    {
      assert keys[..i + 1][..i] == keys[..i];
      match Consider(cat, typ, lp, hp, keys[i])
      case Same =>
      case Set(v) => sets := sets + [SetParam(id, keys[i], v)];
      case Recreate => needs := true;
    }
    assert keys[..|keys|] == keys;
  }

  /** One turn of the loop over the document's modules. */
  method DiffModule(cat: Catalogue, host: Host, id: string, l: Spec) returns (needs: bool, ops: seq<Op>)
    ensures needs <==> Recreates(cat, host, id, l)
    ensures ops == ModuleOps(cat, host, id, l)
  {
    if id !in host {
      return false, [AddNode(id, l.typ, l.params)];
    }
    var h := host[id];
    if h.typ != l.typ {
      return true, [];
    }
    var ours := InOrder(l.params.Keys);
    var theirs := InOrder(h.params.Keys - l.params.Keys);
    needs, ops := ConsiderKeys(cat, id, l.typ, l.params, h.params, ours + theirs);
    ParamOrderSuffices(cat, l.typ, l.params, h.params);
    if needs {
      ops := [];
    }
  }

  method KeepShared(ids: seq<string>, others: Host) returns (shared: seq<string>)
    ensures shared == Shared(ids, others)
  {
    shared := [];
    for i := 0 to |ids|
      invariant shared == Shared(ids[..i], others)
    {
      assert ids[..i + 1][..i] == ids[..i];
      if ids[i] in others {
        shared := shared + [ids[i]];
      }
    }
    assert ids[..|ids|] == ids;
  }

  method ListHost(synced: seq<Entry>) returns (order: seq<string>)
    ensures order == HostOrder(synced)
  {
    order := [];
    for i := 0 to |synced|
      invariant order == HostOrder(synced[..i])
    {
      assert synced[..i + 1][..i] == synced[..i];
      if HasId(synced[i]) {
        order := order + [synced[i].id.value];
      }
    }
    assert synced[..|synced|] == synced;
  }

  method UpdateAll(cat: Catalogue, host: Host, local: Host, order: seq<string>)
    returns (ops: seq<Op>, recreate: seq<string>)
    requires forall id :: id in order ==> id in local
    ensures ops == Updates(cat, host, local, order)
    ensures recreate == ToRecreate(cat, host, local, order)
  {
    ops, recreate := [], [];
    for i := 0 to |order|
      invariant ops == Updates(cat, host, local, order[..i])
      invariant recreate == ToRecreate(cat, host, local, order[..i])
    {
      NextUpdates(cat, host, local, order, i);
      var needs, its := DiffModule(cat, host, order[i], local[order[i]]);
      if needs {
        recreate := recreate + [order[i]];
      }
      ops := ops + its;
    }
    assert order[..|order|] == order;
  }

  method DiffForLive(g: Document, cat: Catalogue, synced: seq<Entry>) returns (out: LiveOps)
    ensures out == Diff(g.modules, cat, synced)
  {
    var host := IndexHost(synced);
    var local, order := IndexDocument(g.modules);
    LocalHasIds(g.modules);
    var removals := RemoveStale(host, local);
    var updates, recreate := UpdateAll(cat, host, local, order);
    var hostOrder := ListHost(synced);
    var sharedLocal := KeepShared(order, host);
    var sharedHost := KeepShared(hostOrder, local);
    out := LiveOps(removals + updates, recreate, if sharedLocal != sharedHost then [ORDER_NOTE] else []);
  }

  // ---------------------------------------------------------------- adopting the host's modules

  /** The argument of `adopt_live_modules`: not an object, or an object with or without a modules
      array and a runtime object. */
  datatype Config = NotAnObject | Config(modules: Option<seq<Entry>>, runtime: Option<Value>)

  function Adopted(e: Entry): Module
    requires e.Entry?
  {
    Module(if e.id.Some? then e.id.value else "", SpecOf(e).typ, SpecOf(e).params)
  }

  function AdoptedAll(entries: seq<Entry>): seq<Module>
    requires forall e :: e in entries ==> e.Entry?
  {
    seq(|entries|, i requires 0 <= i < |entries| => Adopted(entries[i]))
  }

  /** An element that is not an object makes the library throw before the document changes. */
  method AdoptLiveModules(g: Document, config: Config) returns (ok: bool)
    modifies g
    ensures ok <==> config.NotAnObject? || config.modules.None? || forall e :: e in config.modules.value ==> e.Entry?
    ensures ok && config.Config? ==>
      && g.modules == (if config.modules.Some? then AdoptedAll(config.modules.value) else [])
      && g.runtime == (if config.runtime.Some? then config.runtime else old(g.runtime))
      && g.revision == old(g.revision) + 1
    ensures !ok || config.NotAnObject? ==>
      g.modules == old(g.modules) && g.runtime == old(g.runtime) && g.revision == old(g.revision)
  {
    if config.NotAnObject? {
      return true;
    }
    var entries := if config.modules.Some? then config.modules.value else [];
    var mods := [];
    for i := 0 to |entries|
      invariant forall e :: e in entries[..i] ==> e.Entry?
      invariant mods == AdoptedAll(entries[..i])
    {
      if entries[i].Junk? {
        assert entries[i] in entries;
        return false;
      }
      assert entries[..i + 1] == entries[..i] + [entries[i]];
      mods := mods + [Adopted(entries[i])];
    }
    assert entries[..|entries|] == entries;
    g.modules := mods;
    if config.runtime.Some? {
      g.runtime := config.runtime;
    }
    g.revision := g.revision + 1;
    return true;
  }

  ghost predicate NothingToDo(d: LiveOps) {
    d.ops == [] && d.recreate == [] && d.notes == []
  }

  lemma {:induction false} AdoptedAgrees(entries: seq<Entry>)
    requires forall e :: e in entries ==> e.Entry?
    requires forall e :: e in entries ==> HasId(e)
    ensures Local(AdoptedAll(entries)) == ById(entries)
    ensures Ids(AdoptedAll(entries)) == HostOrder(entries)
  {
    if entries != [] {
      var n := |entries| - 1;
      AdoptedAgrees(entries[..n]);
      assert HasId(entries[n]);
      assert AdoptedAll(entries)[..n] == AdoptedAll(entries[..n]);
      assert Ids(AdoptedAll(entries)) == Ids(AdoptedAll(entries[..n])) + [entries[n].id.value];
    }
  }

  lemma {:induction false} SameNeedsNoSets(cat: Catalogue, id: string, typ: string, p: Params, keys: seq<string>)
    ensures SetsFor(cat, id, typ, p, p, keys) == []
  {
    if keys != [] {
      SameNeedsNoSets(cat, id, typ, p, keys[..|keys| - 1]);
    }
  }

  lemma {:induction false} SameNeedsNoUpdates(cat: Catalogue, host: Host, ids: seq<string>)
    requires forall id :: id in ids ==> id in host
    ensures Updates(cat, host, host, ids) == [] && ToRecreate(cat, host, host, ids) == []
  {
    if ids != [] {
      var n := |ids| - 1;
      SameNeedsNoUpdates(cat, host, ids[..n]);
      var l := host[ids[n]];
      SameNeedsNoSets(cat, ids[n], l.typ, l.params, ParamOrder(l.params, l.params));
    }
  }

  lemma {:induction false} MissingIsAdded(cat: Catalogue, host: Host, local: Host, ids: seq<string>, id: string)
    requires forall i :: i in ids ==> i in local
    requires id in ids && id !in host
    ensures Updates(cat, host, local, ids) != []
  {
    var n := |ids| - 1;
    NextUpdates(cat, host, local, ids, n);
    assert ids[..n + 1] == ids;
    if id != ids[n] {
      MissingIsAdded(cat, host, local, ids[..n], id);
    }
  }

  lemma {:induction false} SharedBounds(ids: seq<string>, others: Host)
    ensures |Shared(ids, others)| <= |ids|
    ensures (forall id :: id in ids ==> id in others) ==> Shared(ids, others) == ids
  {
    if ids != [] {
      SharedBounds(ids[..|ids| - 1], others);
    }
  }

  lemma {:induction false} HostOrderBounds(entries: seq<Entry>)
    ensures |HostOrder(entries)| <= |entries|
    ensures |HostOrder(entries)| == |entries| ==> forall e :: e in entries ==> HasId(e)
  {
    if entries != [] {
      HostOrderBounds(entries[..|entries| - 1]);
    }
  }

  lemma AdoptThenQuiet(entries: seq<Entry>, cat: Catalogue)
    requires forall e :: e in entries ==> e.Entry?
    requires forall e :: e in entries ==> HasId(e)
    ensures NothingToDo(Diff(AdoptedAll(entries), cat, entries))
  {
    var doc := AdoptedAll(entries);
    var host := ById(entries);
    LocalHasIds(doc);
    AdoptedAgrees(entries);
    SameNeedsNoUpdates(cat, host, Ids(doc));
    assert host.Keys - host.Keys == {};
  }

  lemma AdoptedWithoutId(entries: seq<Entry>, cat: Catalogue)
    requires forall e :: e in entries ==> e.Entry?
    requires !forall e :: e in entries ==> HasId(e)
    ensures !NothingToDo(Diff(AdoptedAll(entries), cat, entries))
  {
    var doc := AdoptedAll(entries);
    var host, local, ids := ById(entries), Local(doc), Ids(doc);
    LocalHasIds(doc);
    HostOrderBounds(entries);
    SharedBounds(ids, host);
    SharedBounds(HostOrder(entries), local);
    if id :| id in ids && id !in host {
      MissingIsAdded(cat, host, local, ids, id);
    }
  }

  /** Adopting the host's modules and then comparing with them finds nothing to send, recreate or
      report exactly when every adopted element has an id: one without is adopted under the empty
      id, which the comparison then misses in the host. */
  lemma AdoptThenDiffIsQuiet(entries: seq<Entry>, cat: Catalogue)
    requires forall e :: e in entries ==> e.Entry?
    ensures NothingToDo(Diff(AdoptedAll(entries), cat, entries)) <==> forall e :: e in entries ==> HasId(e)
  {
    if forall e :: e in entries ==> HasId(e) {
      AdoptThenQuiet(entries, cat);
    } else {
      AdoptedWithoutId(entries, cat);
    }
  }
}
