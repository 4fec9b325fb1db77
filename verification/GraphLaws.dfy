/** brain_builder/src/Graph.cpp: what each edit leaves as it was, on the document: other modules, other keys and other
    places on the canvas. */
module GraphLaws {
  import opened Graph
  import opened Json
  import opened Prelude

  // ---------------------------------------------------------------- modules

  /** Where an added module goes: before the one at `at`, or to the end. */
  function SlotFor(n: nat, at: int): nat {
    if 0 <= at < n then at else n
  }

  /** An added module has the type and the params given, none when they are no object, under the fresh id, at its place;
      the others keep theirs in order, and the rest of the document is as it was. */
  lemma AddedModuleIs(s: State, typ: string, id: string, params: Json, at: int)
    ensures var t, n, k := Step(s, Add(typ, id, params, at)), |s.doc.modules|, SlotFor(|s.doc.modules|, at);
            && |t.doc.modules| == n + 1
            && t.doc.modules[k].id == UniqueId(Ids(s.doc.modules), id) && t.doc.modules[k].typ == typ
            && t.doc.modules[k].params == (match params case Obj(fields) => fields case _ => [])
            && (forall i :: 0 <= i < n ==> t.doc.modules[if i < k then i else i + 1] == s.doc.modules[i])
            && t.doc.metadata == s.doc.metadata && t.doc.rest == s.doc.rest
  {
    var t, n, k := Step(s, Add(typ, id, params, at)), |s.doc.modules|, SlotFor(|s.doc.modules|, at);
    assert t.doc == After(s.doc, Add(typ, id, params, at));
    forall i | 0 <= i < n ensures t.doc.modules[if i < k then i else i + 1] == s.doc.modules[i] {
    }
  }

  /** A removed module is gone, and the others are in the order they were in. */
  lemma OthersStayInOrder(s: State, id: string)
    requires Accepts(s, Remove(id))
    ensures var t, n, k := Step(s, Remove(id)), |s.doc.modules|, IndexOf(s.doc.modules, id);
            && |t.doc.modules| == n - 1
            && (forall i :: 0 <= i < n && i != k ==> t.doc.modules[if i < k then i else i - 1] == s.doc.modules[i])
            && t.doc.rest == s.doc.rest
  {
  }

  /** A rename changes one id and nothing else of the modules. */
  lemma OnlyTheIdChanges(s: State, was: string, becomes: string)
    requires Accepts(s, Rename(was, becomes))
    ensures var t, k := Step(s, Rename(was, becomes)), IndexOf(s.doc.modules, was);
            && |t.doc.modules| == |s.doc.modules| && t.doc.rest == s.doc.rest
            && t.doc.modules[k] == s.doc.modules[k].(id := becomes)
            && forall i :: 0 <= i < |s.doc.modules| && i != k ==> t.doc.modules[i] == s.doc.modules[i]
  {
  }

  /** Edits of params and of the order touch nothing but the modules. */
  lemma TheRestStays(s: State, op: Op)
    requires op.Move? || op.Reorder? || op.SetParam? || op.EraseParam?
    ensures Step(s, op).doc.metadata == s.doc.metadata && Step(s, op).doc.rest == s.doc.rest
  {
  }

  /** An erased param is gone, the module's others and every other module are as they were. */
  lemma ErasedParamIsGone(s: State, id: string, key: string, other: string)
    requires Accepts(s, Op.EraseParam(id, key))
    requires UniqueKeys(s.doc.modules[IndexOf(s.doc.modules, id)].params)
    ensures var t, k := Step(s, Op.EraseParam(id, key)), IndexOf(s.doc.modules, id);
            && |t.doc.modules| == |s.doc.modules|
            && Get(t.doc.modules[k].params, other)
               == (if other == key then None else Get(s.doc.modules[k].params, other))
            && forall i :: 0 <= i < |s.doc.modules| && i != k ==> t.doc.modules[i] == s.doc.modules[i]
  {
    var params := s.doc.modules[IndexOf(s.doc.modules, id)].params;
    ErasedIsGone(params, key);
    if other != key {
      GetErase(params, key, other);
    }
  }

  // ---------------------------------------------------------------- metadata

  /** The place of a module on the canvas, if it has one. */
  function PlaceIn(d: Doc, id: string): Option<Json> {
    Child(Child(Child(d.metadata, "builder"), "layout"), id)
  }

  /** All of the metadata but the places of modules: what the builder keeps of it besides, and what others keep there. */
  ghost predicate SameBesidesPlaces(d: Doc, e: Doc) {
    && (forall key :: key != "builder" ==> Child(e.metadata, key) == Child(d.metadata, key))
    && (forall key :: key != "layout" ==>
          Child(Child(e.metadata, "builder"), key) == Child(Child(d.metadata, "builder"), key))
  }

  ghost predicate UniquePlaces(d: Doc) {
    var layout := Child(Child(d.metadata, "builder"), "layout");
    layout.Some? && layout.value.Obj? ==> UniqueKeys(layout.value.fields)
  }

  lemma MetadataIs(d: Doc, key: string)
    ensures Get(Metadata(d), key) == Child(d.metadata, key)
  {
  }

  lemma WrittenLayoutStays(d: Doc, e: Doc, layout: Object)
    requires e.metadata == Some(Obj(WithLayout(Metadata(d), layout)))
    ensures SameBesidesPlaces(d, e)
  {
    forall key ensures key != "builder" ==> Child(e.metadata, key) == Child(d.metadata, key) {
      MetadataIs(d, key);
      OtherKeysStay(Metadata(d), layout, key);
    }
    forall key
      ensures key != "layout" ==>
                Child(Child(e.metadata, "builder"), key) == Child(Child(d.metadata, "builder"), key)
    {
      MetadataIs(d, "builder");
      OtherBuilderKeysStay(Metadata(d), layout, key);
    }
  }

  lemma OtherKeysStay(metadata: Object, layout: Object, key: string)
    ensures key != "builder" ==> Get(WithLayout(metadata, layout), key) == Get(metadata, key)
  {
    var builder := Get(metadata, "builder");
    if builder.Some? && builder.value.Obj? {
      GetPut(metadata, "builder", Obj(Put(builder.value.fields, "layout", Obj(layout))), key);
    }
  }

  lemma OtherBuilderKeysStay(metadata: Object, layout: Object, key: string)
    ensures key != "layout" ==>
              Child(Get(WithLayout(metadata, layout), "builder"), key) == Child(Get(metadata, "builder"), key)
  {
    var builder := Get(metadata, "builder");
    if builder.Some? && builder.value.Obj? {
      GetPut(metadata, "builder", Obj(Put(builder.value.fields, "layout", Obj(layout))), "builder");
      GetPut(builder.value.fields, "layout", Obj(layout), key);
    }
  }

  lemma SamePlacesElsewhere(d: Doc, e: Doc)
    requires e.metadata == Some(Obj(Metadata(d)))
    ensures SameBesidesPlaces(d, e) && forall id :: PlaceIn(e, id) == PlaceIn(d, id)
  {
    forall key ensures Child(e.metadata, key) == Child(d.metadata, key) {
      MetadataIs(d, key);
    }
  }

  lemma PlaceIsPlace(d: Doc, id: string)
    ensures PlaceIn(d, id) == PlaceOf(Metadata(d), id)
    ensures UniquePlaces(d) ==> PlacesUnique(Metadata(d))
  {
    MetadataIs(d, "builder");
  }

  /** Removing a module takes its place off the canvas, and nothing else from the metadata. */
  lemma RemoveDropsOnlyThePlace(s: State, id: string, other: string)
    requires Accepts(s, Remove(id)) && UniquePlaces(s.doc)
    ensures var d, e := s.doc, Step(s, Remove(id)).doc;
            SameBesidesPlaces(d, e) && PlaceIn(e, other) == if other == id then None else PlaceIn(d, other)
  {
    var d, e := s.doc, Step(s, Remove(id)).doc;
    var layout := Child(Get(Metadata(d), "builder"), "layout");
    if layout.Some? && layout.value.Obj? {
      WrittenLayoutStays(d, e, Erase(layout.value.fields, id));
    } else {
      SamePlacesElsewhere(d, e);
    }
    PlaceIsPlace(d, other);
    PlaceIsPlace(e, other);
    RemovedHasNoPlace(Metadata(d), id, other);
  }

  /** Renaming a module moves its place to the new name, and changes nothing else in the metadata. */
  lemma RenameMovesOnlyThePlace(s: State, was: string, becomes: string, other: string)
    requires Accepts(s, Rename(was, becomes)) && UniquePlaces(s.doc) && PlaceIn(s.doc, was).Some?
    ensures var d, e := s.doc, Step(s, Rename(was, becomes)).doc;
            && SameBesidesPlaces(d, e)
            && PlaceIn(e, other) == if other == was then None
                                    else if other == becomes then PlaceIn(d, was) else PlaceIn(d, other)
  {
    var d, e := s.doc, Step(s, Rename(was, becomes)).doc;
    PlaceIsPlace(d, was);
    var layout := Child(Get(Metadata(d), "builder"), "layout").value.fields;
    WrittenLayoutStays(d, e, Erase(Put(layout, becomes, Get(layout, was).value), was));
    PlaceIsPlace(d, other);
    PlaceIsPlace(e, other);
    if other == was {
      RenamedLeavesItsPlace(Metadata(d), was, becomes);
    } else {
      PlacesFollowTheName(Metadata(d), was, becomes, other);
    }
  }

  /** A module without a place is renamed without one. */
  lemma RenameWithoutPlace(s: State, was: string, becomes: string)
    requires Accepts(s, Rename(was, becomes)) && PlaceIn(s.doc, was).None?
    ensures var d, e := s.doc, Step(s, Rename(was, becomes)).doc;
            SameBesidesPlaces(d, e) && forall id :: PlaceIn(e, id) == PlaceIn(d, id)
  {
    PlaceIsPlace(s.doc, was);
    SamePlacesElsewhere(s.doc, Step(s, Rename(was, becomes)).doc);
  }

  /** Writing the body manifest changes that key of the metadata alone, and neither the modules nor the history. */
  lemma BodyIsOneKey(s: State, body: string, key: string)
    ensures var t := Step(s, SetBody(body));
            && Child(t.doc.metadata, key)
               == (if key == "body_manifest" then Some(Str(body)) else Child(s.doc.metadata, key))
            && t.doc.modules == s.doc.modules && t.doc.rest == s.doc.rest
            && t.undo == s.undo && t.redo == s.redo && t.revision == s.revision
  {
    MetadataIs(s.doc, key);
    GetPut(Metadata(s.doc), "body_manifest", Str(body), key);
  }

  // ---------------------------------------------------------------- undo steps, dirty and revision

  /** The edits a user makes are undo steps, each with the document before it on top and nothing to redo; the manifest and
      a param set under somebody else's step leave the history alone. */
  lemma WhichEditsAreSteps(s: State, op: Op)
    requires Accepts(s, op) && !op.Undo? && !op.Redo? && !op.Checkpoint?
    ensures var t := Step(s, op);
            if op.SetBody? || (op.SetParam? && !op.marked) then t.undo == s.undo && t.redo == s.redo
            else t.undo != [] && t.undo[|t.undo| - 1] == s.doc && t.redo == []
  {
  }

  /** Everything accepted raises the revision by one but the writing of the manifest, which leaves it; all but a bare
      checkpoint mark the document dirty; what is refused changes nothing. */
  lemma RevisionCountsEdits(s: State, op: Op)
    ensures var t := Step(s, op);
            && (!Accepts(s, op) ==> t == s)
            && (Accepts(s, op) ==> t.revision == s.revision + (if op.SetBody? then 0 else 1))
            && (Accepts(s, op) ==> (t.dirty <==> s.dirty || !op.Checkpoint?))
  {
  }
}
