/** brain_builder/src/Wiring.cpp, resolve: where among a module's params a topic is found, as a whole param or as an
    entry of a list. */
module Slots {
  import opened Json
  import opened Prelude

  /** The first param that is the topic. */
  function FirstScalar(params: Object, topic: string): Option<string> {
    if params == [] then None
    else if params[0].value == Str(topic) then Some(params[0].key)
    else FirstScalar(params[1..], topic)
  }

  function FirstIn(items: seq<Json>, topic: string): Option<nat> {
    if items == [] then None
    else if items[0] == Str(topic) then Some(0)
    else
      var i := FirstIn(items[1..], topic);
      if i.Some? then Some(i.value + 1) else None
  }

  function IndexIn(v: Json, topic: string): Option<nat> {
    if v.Arr? then FirstIn(v.items, topic) else None
  }

  /** The first param that is a list holding the topic, and where. */
  function FirstEntry(params: Object, topic: string): Option<(string, nat)> {
    if params == [] then None
    else
      var i := IndexIn(params[0].value, topic);
      if i.Some? then Some((params[0].key, i.value)) else FirstEntry(params[1..], topic)
  }

  // ---------------------------------------------------------------- what is found

  predicate HoldsTopic(v: Json, topic: string, i: nat) {
    v.Arr? && i < |v.items| && v.items[i] == Str(topic)
  }

  lemma {:induction false} IndexInIs(items: seq<Json>, topic: string)
    ensures match FirstIn(items, topic)
            case Some(i) => i < |items| && items[i] == Str(topic)
            case None => Str(topic) !in items
  {
    if items != [] && items[0] != Str(topic) {
      IndexInIs(items[1..], topic);
      assert items == [items[0]] + items[1..];
    }
  }

  /** The k-th param is the topic and no earlier one is. */
  predicate FirstHolds(params: Object, key: string, topic: string, k: nat) {
    k < |params| && params[k] == Field(key, Str(topic)) && forall j :: 0 <= j < k ==> params[j].value != Str(topic)
  }

  predicate Lists(v: Json, topic: string) {
    v.Arr? && Str(topic) in v.items
  }

  /** The k-th param is a list that holds the topic, and no earlier one is. */
  predicate FirstLists(params: Object, key: string, topic: string, k: nat) {
    k < |params| && params[k].key == key && Lists(params[k].value, topic)
    && forall j :: 0 <= j < k ==> !Lists(params[j].value, topic)
  }

  lemma {:induction false} FirstScalarIs(params: Object, topic: string)
    ensures FirstScalar(params, topic).Some? ==>
              exists k: nat :: FirstHolds(params, FirstScalar(params, topic).value, topic, k)
    ensures FirstScalar(params, topic).None? ==> forall f :: f in params ==> f.value != Str(topic)
  {
    if params != [] && params[0].value != Str(topic) {
      FirstScalarIs(params[1..], topic);
      assert params == [params[0]] + params[1..];
      if FirstScalar(params[1..], topic).Some? {
        var key := FirstScalar(params[1..], topic).value;
        var k: nat :| FirstHolds(params[1..], key, topic, k);
        assert FirstHolds(params, key, topic, k + 1);
      }
    } else if params != [] {
      assert FirstHolds(params, params[0].key, topic, 0);
    }
  }

  lemma {:induction false} FirstEntryIs(params: Object, topic: string)
    ensures match FirstEntry(params, topic)
            case Some((key, i)) =>
              exists k: nat :: FirstLists(params, key, topic, k) && HoldsTopic(params[k].value, topic, i)
            case None => forall f :: f in params ==> !Lists(f.value, topic)
  {
    if params != [] {
      if params[0].value.Arr? {
        IndexInIs(params[0].value.items, topic);
      }
      if IndexIn(params[0].value, topic).None? {
        FirstEntryIs(params[1..], topic);
        assert params == [params[0]] + params[1..];
        if FirstEntry(params[1..], topic).Some? {
          var (key, i) := FirstEntry(params[1..], topic).value;
          var k: nat :| FirstLists(params[1..], key, topic, k) && HoldsTopic(params[1..][k].value, topic, i);
          assert FirstLists(params, key, topic, k + 1) && HoldsTopic(params[k + 1].value, topic, i);
        }
      } else {
        var i := IndexIn(params[0].value, topic).value;
        assert FirstLists(params, params[0].key, topic, 0) && HoldsTopic(params[0].value, topic, i);
      }
    }
  }

  lemma FirstScalarIff(params: Object, key: string, topic: string)
    ensures FirstScalar(params, topic) == Some(key) <==> exists k: nat :: FirstHolds(params, key, topic, k)
  {
    FirstScalarIs(params, topic);
    if k: nat :| FirstHolds(params, key, topic, k) {
      assert params[k] in params;
      var k': nat :| FirstHolds(params, FirstScalar(params, topic).value, topic, k');
      assert k == k';
    }
  }

  lemma FirstEntryIff(params: Object, key: string, topic: string)
    ensures FirstEntry(params, topic).Some? && FirstEntry(params, topic).value.0 == key <==>
            exists k: nat :: FirstLists(params, key, topic, k)
  {
    FirstEntryIs(params, topic);
    if k: nat :| FirstLists(params, key, topic, k) {
      assert params[k] in params;
      var k': nat :| FirstLists(params, FirstEntry(params, topic).value.0, topic, k');
      assert k == k';
    }
  }

  // ---------------------------------------------------------------- what was just written is found

  /** The topic is in none of the params, neither alone nor in a list. */
  predicate Nowhere(params: Object, topic: string) {
    forall f :: f in params ==> f.value != Str(topic) && IndexIn(f.value, topic).None?
  }

  lemma {:induction false} ScalarIsFound(params: Object, key: string, topic: string)
    requires Nowhere(params, topic)
    ensures FirstScalar(Put(params, key, Str(topic)), topic) == Some(key)
  {
    if params != [] && params[0].key != key {
      assert params[0] in params;
      assert Put(params, key, Str(topic))[1..] == Put(params[1..], key, Str(topic));
      ScalarIsFound(params[1..], key, topic);
    }
  }

  lemma {:induction false} NoScalar(params: Object, topic: string)
    requires Nowhere(params, topic)
    ensures FirstScalar(params, topic).None?
  {
    if params != [] {
      assert params[0] in params;
      NoScalar(params[1..], topic);
    }
  }

  lemma {:induction false} ListHasNoScalar(params: Object, key: string, items: seq<Json>, topic: string)
    requires Nowhere(params, topic)
    ensures FirstScalar(Put(params, key, Arr(items)), topic).None?
  {
    if params != [] {
      assert params[0] in params;
      if params[0].key == key {
        assert Put(params, key, Arr(items))[1..] == params[1..];
        NoScalar(params[1..], topic);
      } else {
        assert Put(params, key, Arr(items))[1..] == Put(params[1..], key, Arr(items));
        ListHasNoScalar(params[1..], key, items, topic);
      }
    }
  }

  lemma {:induction false} LastIsFirst(items: seq<Json>, topic: string)
    requires FirstIn(items, topic).None?
    ensures FirstIn(items + [Str(topic)], topic) == Some(|items|)
  {
    if items != [] {
      assert (items + [Str(topic)])[1..] == items[1..] + [Str(topic)];
      LastIsFirst(items[1..], topic);
    } else {
      assert items + [Str(topic)] == [Str(topic)];
    }
  }

  lemma {:induction false} EntryIsFound(params: Object, key: string, items: seq<Json>, topic: string)
    requires Nowhere(params, topic) && FirstIn(items, topic).None?
    ensures FirstEntry(Put(params, key, Arr(items + [Str(topic)])), topic) == Some((key, |items|))
  {
    LastIsFirst(items, topic);
    if params != [] && params[0].key != key {
      assert params[0] in params;
      assert Put(params, key, Arr(items + [Str(topic)]))[1..] == Put(params[1..], key, Arr(items + [Str(topic)]));
      EntryIsFound(params[1..], key, items, topic);
    }
  }

  lemma {:induction false} HeldTopicIsElsewhere(params: Object, key: string, topic: string)
    requires Nowhere(params, topic)
    ensures Get(params, key).Some? ==> IndexIn(Get(params, key).value, topic).None?
    ensures Get(params, key) != Some(Str(topic))
  {
    if params != [] {
      assert params[0] in params;
      HeldTopicIsElsewhere(params[1..], key, topic);
    }
  }
}
