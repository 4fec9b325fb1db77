/** brain_builder/src/LiveSync.cpp, diff_for_live: what a difference asks for, told by the document and the host alone. */
module LiveDiff {
  import opened Keys
  import opened LiveSync
  import opened Prelude

  // ---------------------------------------------------------------- the two sides

  ghost predicate LastOf(doc: seq<Module>, i: nat) {
    i < |doc| && forall j :: i < j < |doc| ==> doc[j].id != doc[i].id
  }

  /** Of the document's modules with one id the last counts. */
  lemma {:induction false} LocalIsTheLast(doc: seq<Module>, i: nat)
    requires LastOf(doc, i)
    ensures doc[i].id in Local(doc) && Local(doc)[doc[i].id] == Spec(doc[i].typ, doc[i].params)
  {
    var n := |doc| - 1;
    if i < n {
      assert doc[n].id != doc[i].id;
      assert LastOf(doc[..n], i);
      LocalIsTheLast(doc[..n], i);
    }
  }

  ghost predicate LastEntryOf(synced: seq<Entry>, i: nat) {
    i < |synced| && HasId(synced[i])
    && forall j :: i < j < |synced| && HasId(synced[j]) ==> synced[j].id != synced[i].id
  }

  /** And of the host's; an entry without a type or params reads as the empty ones. */
  lemma {:induction false} HostIsTheLast(synced: seq<Entry>, i: nat)
    requires LastEntryOf(synced, i)
    ensures var e, host := synced[i], ById(synced);
            && e.id.value in host
            && host[e.id.value].typ == (match e.typ case Some(t) => t case None => "")
            && host[e.id.value].params == (match e.params case Some(p) => p case None => map[])
  {
    var n := |synced| - 1;
    if i < n {
      assert LastEntryOf(synced[..n], i);
      HostIsTheLast(synced[..n], i);
    }
  }

  /** The host has no other ids. */
  lemma {:induction false} HostHasIds(synced: seq<Entry>)
    ensures forall id :: id in ById(synced) <==> exists e :: e in synced && e.Entry? && e.id == Some(id)
  {
    if synced != [] {
      var n := |synced| - 1;
      HostHasIds(synced[..n]);
      assert synced == synced[..n] + [synced[n]];
    }
  }

  // ---------------------------------------------------------------- one key

  /** What the params hold under the key, if anything. */
  function Held(p: Params, key: string): Option<Value> {
    if key in p then Some(p[key]) else None
  }

  ghost predicate Differs(lp: Params, hp: Params, key: string) {
    Held(lp, key) != Held(hp, key)
  }

  /** The running module can take the key's new value: the param is hot and the document has a value for it, or else the
      schema a default. */
  predicate Takes(cat: Catalogue, typ: string, lp: Params, key: string) {
    typ in cat && key in cat[typ] && cat[typ][key].hot && (key in lp || cat[typ][key].def.Some?)
  }

  function NewValue(cat: Catalogue, typ: string, lp: Params, key: string): Value
    requires Takes(cat, typ, lp, key)
  {
    if key in lp then lp[key] else cat[typ][key].def.value
  }

  lemma ConsiderIs(cat: Catalogue, typ: string, lp: Params, hp: Params, key: string)
    ensures var v := Consider(cat, typ, lp, hp, key);
            && (v.Same? <==> !Differs(lp, hp, key))
            && (v.Set? <==> Differs(lp, hp, key) && Takes(cat, typ, lp, key))
            && (v.Set? ==> v.value == NewValue(cat, typ, lp, key))
  {
  }

  // ---------------------------------------------------------------- recreations

  /** The running module cannot become the document's: the types differ, or some differing param cannot be set. */
  ghost predicate MustRecreate(cat: Catalogue, h: Spec, l: Spec) {
    h.typ != l.typ || exists key :: Differs(l.params, h.params, key) && !Takes(cat, l.typ, l.params, key)
  }

  lemma RecreatesIff(cat: Catalogue, host: Host, id: string, l: Spec)
    ensures Recreates(cat, host, id, l) <==> id in host && MustRecreate(cat, host[id], l)
  {
    if id in host {
      forall key
        ensures Consider(cat, l.typ, l.params, host[id].params, key) == Recreate <==>
                  Differs(l.params, host[id].params, key) && !Takes(cat, l.typ, l.params, key)
      {
        ConsiderIs(cat, l.typ, l.params, host[id].params, key);
      }
    }
  }

  /** A module is recreated exactly when both sides have it and it cannot be brought to the document's params while it
      runs; so one whose differing params are all hot, with a value or a default to go to, keeps its state. */
  lemma RecreatedIff(doc: seq<Module>, cat: Catalogue, synced: seq<Entry>, id: string)
    ensures var host, local := ById(synced), Local(doc);
            id in Diff(doc, cat, synced).recreate <==>
              id in local && id in host && MustRecreate(cat, host[id], local[id])
  {
    var host, local := ById(synced), Local(doc);
    LocalHasIds(doc);
    ToRecreateHas(cat, host, local, Ids(doc), id);
    if id in local {
      RecreatesIff(cat, host, id, local[id]);
    }
  }

  // ---------------------------------------------------------------- the batch, op by op

  /** What calls for the op. */
  ghost predicate Asked(cat: Catalogue, host: Host, local: Host, op: Op) {
    match op
    case RemoveNode(id) => id in host && id !in local
    case AddNode(id, typ, params) => id in local && id !in host && local[id] == Spec(typ, params)
    case SetParam(id, key, value) =>
      && id in local && id in host && !MustRecreate(cat, host[id], local[id])
      && Differs(local[id].params, host[id].params, key)
      && Takes(cat, local[id].typ, local[id].params, key)
      && value == NewValue(cat, local[id].typ, local[id].params, key)
  }

  lemma RemovalsAre(ids: seq<string>, op: Op)
    ensures op in Removals(ids) <==> op.RemoveNode? && op.id in ids
  {
    if op.RemoveNode? && op.id in ids {
      var i :| 0 <= i < |ids| && ids[i] == op.id;
      assert Removals(ids)[i] == op;
    }
  }

  lemma SetsAre(cat: Catalogue, id: string, typ: string, lp: Params, hp: Params, op: Op)
    ensures op in SetsFor(cat, id, typ, lp, hp, ParamOrder(lp, hp)) <==>
              op.SetParam? && op.id == id && Consider(cat, typ, lp, hp, op.key) == Set(op.value)
  {
    if op in SetsFor(cat, id, typ, lp, hp, ParamOrder(lp, hp)) {
      SetsAreHot(cat, id, typ, lp, hp, ParamOrder(lp, hp), op);
    } else if op.SetParam? && op.id == id && Consider(cat, typ, lp, hp, op.key) == Set(op.value) {
      assert op.key in ParamOrder(lp, hp);
      SetIsAmong(cat, id, typ, lp, hp, ParamOrder(lp, hp), op.key);
    }
  }

  lemma ModuleOpsAre(cat: Catalogue, host: Host, local: Host, id: string, op: Op)
    requires id in local
    ensures op in ModuleOps(cat, host, id, local[id]) <==>
              Asked(cat, host, local, op) && !op.RemoveNode? && op.id == id
  {
    var l := local[id];
    RecreatesIff(cat, host, id, l);
    if id in host && !Recreates(cat, host, id, l) {
      SetsAre(cat, id, l.typ, l.params, host[id].params, op);
      if op.SetParam? {
        ConsiderIs(cat, l.typ, l.params, host[id].params, op.key);
      }
    }
  }

  lemma {:induction false} UpdatesAre(cat: Catalogue, host: Host, local: Host, ids: seq<string>, op: Op)
    requires forall id :: id in ids ==> id in local
    ensures op in Updates(cat, host, local, ids) <==>
              Asked(cat, host, local, op) && !op.RemoveNode? && op.id in ids
  {
    if ids != [] {
      var n := |ids| - 1;
      UpdatesAre(cat, host, local, ids[..n], op);
      ModuleOpsAre(cat, host, local, ids[n], op);
      assert ids == ids[..n] + [ids[n]];
    }
  }

  /** The batch holds exactly the ops asked for: a removal per id the document lacks, an addition per id the host lacks,
      and for every module not recreated a set per differing param, to the document's value or else the default. */
  lemma BatchIsWhatIsAsked(doc: seq<Module>, cat: Catalogue, synced: seq<Entry>, op: Op)
    ensures op in Diff(doc, cat, synced).ops <==> Asked(cat, ById(synced), Local(doc), op)
  {
    var host, local := ById(synced), Local(doc);
    LocalHasIds(doc);
    RemovalsAre(Sorted(host.Keys - local.Keys), op);
    UpdatesAre(cat, host, local, Ids(doc), op);
  }

  // ---------------------------------------------------------------- each op once

  lemma DistinctParts<T>(a: seq<T>, b: seq<T>)
    requires Distinct(a) && Distinct(b) && forall x :: x in a ==> x !in b
    ensures Distinct(a + b)
  {
    forall i, j | 0 <= i < j < |a + b| ensures (a + b)[i] != (a + b)[j] {
      if i < |a| <= j {
        assert (a + b)[i] in a && (a + b)[j] in b;
      }
    }
  }

  lemma {:induction false} SetsAreDistinct(cat: Catalogue, id: string, typ: string, lp: Params, hp: Params,
                                           keys: seq<string>)
    requires Distinct(keys)
    ensures Distinct(SetsFor(cat, id, typ, lp, hp, keys))
  {
    if keys != [] {
      var n := |keys| - 1;
      SetsAreDistinct(cat, id, typ, lp, hp, keys[..n]);
      forall op | op in SetsFor(cat, id, typ, lp, hp, keys[..n]) ensures op.SetParam? && op.key != keys[n] {
        SetsAreHot(cat, id, typ, lp, hp, keys[..n], op);
      }
    }
  }

  lemma ModuleOpsAreDistinct(cat: Catalogue, host: Host, id: string, l: Spec)
    ensures Distinct(ModuleOps(cat, host, id, l))
  {
    if id in host && !Recreates(cat, host, id, l) {
      DistinctParts(Sorted(l.params.Keys), Sorted(host[id].params.Keys - l.params.Keys));
      SetsAreDistinct(cat, id, l.typ, l.params, host[id].params, ParamOrder(l.params, host[id].params));
    }
  }

  lemma {:induction false} UpdatesAreDistinct(cat: Catalogue, host: Host, local: Host, ids: seq<string>)
    requires Distinct(ids) && forall id :: id in ids ==> id in local
    ensures Distinct(Updates(cat, host, local, ids))
  {
    if ids != [] {
      var n := |ids| - 1;
      UpdatesAreDistinct(cat, host, local, ids[..n]);
      ModuleOpsAreDistinct(cat, host, ids[n], local[ids[n]]);
      forall op | op in Updates(cat, host, local, ids[..n]) ensures op !in ModuleOps(cat, host, ids[n], local[ids[n]]) {
        UpdatesAre(cat, host, local, ids[..n], op);
        ModuleOpsAre(cat, host, local, ids[n], op);
      }
      DistinctParts(Updates(cat, host, local, ids[..n]), ModuleOps(cat, host, ids[n], local[ids[n]]));
    }
  }

  /** With distinct ids each op is asked for once, so a param is set once at most; and so is each recreation. */
  lemma BatchAsksOnce(doc: seq<Module>, cat: Catalogue, synced: seq<Entry>)
    requires Distinct(Ids(doc))
    ensures Distinct(Diff(doc, cat, synced).ops) && Distinct(Diff(doc, cat, synced).recreate)
  {
    var host, local := ById(synced), Local(doc);
    LocalHasIds(doc);
    var gone := Sorted(host.Keys - local.Keys);
    UpdatesAreDistinct(cat, host, local, Ids(doc));
    forall op | op in Removals(gone) ensures op !in Updates(cat, host, local, Ids(doc)) {
      RemovalsAre(gone, op);
      UpdatesAre(cat, host, local, Ids(doc), op);
    }
    DistinctParts(Removals(gone), Updates(cat, host, local, Ids(doc)));
    RecreatedOnce(cat, host, local, Ids(doc));
  }

  lemma {:induction false} RecreatedOnce(cat: Catalogue, host: Host, local: Host, ids: seq<string>)
    requires Distinct(ids) && forall id :: id in ids ==> id in local
    ensures Distinct(ToRecreate(cat, host, local, ids))
  {
    if ids != [] {
      var n := |ids| - 1;
      RecreatedOnce(cat, host, local, ids[..n]);
      ToRecreateHas(cat, host, local, ids[..n], ids[n]);
    }
  }

  // ---------------------------------------------------------------- the order note

  /** a comes before b in the list. */
  ghost predicate Before(list: seq<string>, a: string, b: string) {
    exists i, j :: 0 <= i < j < |list| && list[i] == a && list[j] == b
  }

  /** Two ids that both lists have, in opposite orders. */
  ghost predicate Swapped(s: seq<string>, t: seq<string>, a: string, b: string) {
    Before(s, a, b) && Before(t, b, a)
  }

  ghost predicate AnySwapped(s: seq<string>, t: seq<string>) {
    exists a, b :: Swapped(s, t, a, b)
  }

  lemma {:induction false} SharedHas(ids: seq<string>, others: Host, id: string)
    ensures id in Shared(ids, others) <==> id in ids && id in others
  {
    if ids != [] {
      SharedHas(ids[..|ids| - 1], others, id);
      assert ids == ids[..|ids| - 1] + [ids[|ids| - 1]];
    }
  }

  lemma BeforeInLonger(list: seq<string>, last: string, a: string, b: string)
    ensures Before(list + [last], a, b) <==> Before(list, a, b) || (a in list && b == last)
  {
    var longer := list + [last];
    if Before(longer, a, b) {
      var i, j :| 0 <= i < j < |longer| && longer[i] == a && longer[j] == b;
      assert list[i] == a;
      if j < |list| {
        assert list[j] == b;
      }
    }
    if Before(list, a, b) {
      var i, j :| 0 <= i < j < |list| && list[i] == a && list[j] == b;
      assert longer[i] == a && longer[j] == b;
    }
    if a in list && b == last {
      var i :| 0 <= i < |list| && list[i] == a;
      assert longer[i] == a && longer[|list|] == b;
    }
  }

  lemma {:induction false} SharedKeepsOrder(ids: seq<string>, others: Host, a: string, b: string)
    requires a in others && b in others
    ensures Before(Shared(ids, others), a, b) <==> Before(ids, a, b)
  {
    if ids != [] {
      var n := |ids| - 1;
      SharedKeepsOrder(ids[..n], others, a, b);
      SharedHas(ids[..n], others, a);
      assert ids == ids[..n] + [ids[n]];
      BeforeInLonger(ids[..n], ids[n], a, b);
      if ids[n] in others {
        BeforeInLonger(Shared(ids[..n], others), ids[n], a, b);
        assert Shared(ids, others) == Shared(ids[..n], others) + [ids[n]];
      } else {
        assert Shared(ids, others) == Shared(ids[..n], others);
      }
    }
  }

  lemma {:induction false} SharedIsDistinct(ids: seq<string>, others: Host)
    requires Distinct(ids)
    ensures Distinct(Shared(ids, others))
  {
    if ids != [] {
      var n := |ids| - 1;
      SharedIsDistinct(ids[..n], others);
      SharedHas(ids[..n], others, ids[n]);
    }
  }

  lemma BeforeAreIn(list: seq<string>, a: string, b: string)
    ensures Before(list, a, b) ==> a in list && b in list
  {
  }

  lemma NotBothWays(s: seq<string>, a: string, b: string)
    requires Distinct(s) && Before(s, a, b)
    ensures !Before(s, b, a)
  {
  }

  /** In a list without repeats nothing of the first k comes again. */
  lemma NotAgain(s: seq<string>, t: seq<string>, k: nat)
    requires Distinct(s) && k < |s| && k <= |t| && s[..k] == t[..k]
    ensures forall i :: 0 <= i < k ==> t[i] != s[k]
  {
    forall i | 0 <= i < k ensures t[i] != s[k] {
      assert s[..k][i] == t[..k][i];
    }
  }

  lemma NextIsNew(s: seq<string>, t: seq<string>)
    requires Distinct(t) && |s| <= |t| && t[..|s|] == s
    ensures |s| < |t| ==> t[|s|] !in s
  {
    if |s| < |t| {
      NotAgain(t, s, |s|);
    }
  }

  /** A list without repeats that begins as another and holds no more ids is that list. */
  lemma NothingFollows(s: seq<string>, t: seq<string>)
    requires Distinct(t) && |s| <= |t| && t[..|s|] == s && forall i :: 0 <= i < |t| ==> t[i] in s
    ensures s == t
  {
    NextIsNew(s, t);
    assert t[..|t|] == t;
  }

  lemma FirstApart(s: seq<string>, t: seq<string>) returns (k: nat)
    requires s != t && Distinct(s) && Distinct(t) && forall id :: id in s <==> id in t
    ensures k < |s| && k < |t| && s[k] != t[k] && s[..k] == t[..k]
  {
    k := 0;
    while k < |s| && k < |t| && s[k] == t[k]
      invariant k <= |s| && k <= |t| && s[..k] == t[..k]
    {
      k := k + 1;
    }
    if k == |s| {
      NothingFollows(s, t);
    } else if k == |t| {
      NothingFollows(t, s);
    }
  }

  /** Two lists without repeats of the same ids differ exactly when two of the ids have changed places. */
  lemma {:induction false} DifferIffSwapped(s: seq<string>, t: seq<string>)
    requires Distinct(s) && Distinct(t) && forall id :: id in s <==> id in t
    ensures s != t <==> AnySwapped(s, t)
  {
    if a, b :| Swapped(s, t, a, b) {
      NotBothWays(s, a, b);
    }
    if s != t {
      var k := FirstApart(s, t);
      NotAgain(s, t, k);
      NotAgain(t, s, k);
      assert s[k] in t && t[k] in s;
      var i :| 0 <= i < |t| && t[i] == s[k];
      var j :| 0 <= j < |s| && s[j] == t[k];
      assert Before(s, s[k], t[k]) && Before(t, t[k], s[k]);
      assert Swapped(s, t, s[k], t[k]);
    }
  }

  lemma {:induction false} HostOrderHas(synced: seq<Entry>)
    ensures forall id :: id in HostOrder(synced) <==> id in ById(synced)
  {
    if synced != [] {
      HostOrderHas(synced[..|synced| - 1]);
    }
  }

  /** With distinct ids on both sides the difference says that the order differs exactly when two modules that both have
      stand in opposite orders. */
  lemma OrderNoteIff(doc: seq<Module>, cat: Catalogue, synced: seq<Entry>)
    requires Distinct(Ids(doc)) && Distinct(HostOrder(synced))
    ensures Diff(doc, cat, synced).notes ==
              if AnySwapped(Ids(doc), HostOrder(synced)) then [ORDER_NOTE] else []
  {
    var host, local := ById(synced), Local(doc);
    var s, t := Shared(Ids(doc), host), Shared(HostOrder(synced), local);
    LocalHasIds(doc);
    HostOrderHas(synced);
    SharedIsDistinct(Ids(doc), host);
    SharedIsDistinct(HostOrder(synced), local);
    forall id ensures id in s <==> id in t {
      SharedHas(Ids(doc), host, id);
      SharedHas(HostOrder(synced), local, id);
    }
    DifferIffSwapped(s, t);
    assert Diff(doc, cat, synced).notes == if s != t then [ORDER_NOTE] else [];
    forall a, b ensures Swapped(s, t, a, b) <==> Swapped(Ids(doc), HostOrder(synced), a, b) {
      SharedSwaps(Ids(doc), HostOrder(synced), host, local, a, b);
    }
  }

  lemma SharedSwaps(ids: seq<string>, order: seq<string>, host: Host, local: Host, a: string, b: string)
    requires (forall id :: id in ids <==> id in local) && forall id :: id in order <==> id in host
    ensures Swapped(Shared(ids, host), Shared(order, local), a, b) <==> Swapped(ids, order, a, b)
  {
    SharedHas(ids, host, a);
    SharedHas(ids, host, b);
    BeforeAreIn(ids, a, b);
    BeforeAreIn(order, b, a);
    BeforeAreIn(Shared(ids, host), a, b);
    if a in host && b in host && a in local && b in local {
      SharedKeepsOrder(ids, host, a, b);
      SharedKeepsOrder(order, local, b, a);
    }
  }
}
