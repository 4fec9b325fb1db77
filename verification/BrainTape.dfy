/** mj_host/src/BrainTape.cpp: whole tapes, the writer that appends to one and the reader that walks one.

    The laws are about bytes: what was written reads back, and a tape cut short reads as the whole records left in it.
    The classes keep the source's cursor, counters and record object, and are tied to the parsers step by step. */
module BrainTape {
  import opened Parsers
  import opened Tape

  // ---------------------------------------------------------------- whole tapes

  ghost function ReadAll(s: Bytes): (seq<Record>, bool) {
    RecordsShrink();
    ReadMany(GetRecord(), s)
  }

  ghost function ReadTape(file: Bytes): (seq<Record>, bool) {
    if MAGIC <= file then ReadAll(file[|MAGIC|..]) else ([], true)
  }

  function WriteTape(rs: seq<Record>): Bytes {
    MAGIC + EncodeAll(rs)
  }

  ghost predicate AllFit(rs: seq<Record>) {
    forall r :: r in rs ==> Fits(r)
  }

  /** A record takes bytes from the file, so reading a tape comes to an end. */
  lemma RecordsShrink()
    ensures Shrinks(GetRecord())
  {
    forall s | GetRecord()(s).Got? ensures |GetRecord()(s).rest| < |s| {
      var f := (h: (nat, nat)) => GetPayload(h.0, h.1);
      var head := Pair(Number(1), Number(1));
      assert GetRecord()(s) == Then(head, f)(s);
      var Got(h, rest) := head(s);
      StablePayload(h.0, h.1);
      assert StableAt(GetPayload(h.0, h.1), rest, []);
    }
  }

  lemma NothingIsShort()
    ensures GetRecord()([]) == Short
  {
    var f := (h: (nat, nat)) => GetPayload(h.0, h.1);
    assert Number(1)([]) == Short;
    assert Pair(Number(1), Number(1))([]) == Short;
    assert GetRecord()([]) == Then(Pair(Number(1), Number(1)), f)([]);
  }

  lemma ReadAllOfCut(rs: seq<Record>, n: nat)
    requires AllFit(rs) && n <= |EncodeAll(rs)|
    ensures ReadAll(EncodeAll(rs)[..n]) == (rs[..Whole(Encode, rs, n)], true)
  {
    forall r | r in rs ensures Reads(GetRecord(), Encode(r), r) {
      ReadsRecord(r);
    }
    RecordsShrink();
    StableRecord();
    NothingIsShort();
    ReadManyOfCut<Record>(GetRecord(), Encode, rs, n);
  }

  /** A written tape reads back as exactly its records, then ends. */
  lemma TapeRoundTrip(rs: seq<Record>)
    requires AllFit(rs)
    ensures ReadTape(WriteTape(rs)) == (rs, true)
  {
    var n := |EncodeAll(rs)|;
    ReadAllOfCut(rs, n);
    assert EncodeAll(rs)[..n] == EncodeAll(rs) == WriteTape(rs)[|MAGIC|..];
    WholeOfAll<Record>(Encode, rs);
    assert rs[..|rs|] == rs;
  }

  /** Cut anywhere, a tape reads as the records whose last byte survived: a prefix of what was written that
      fits in the cut and could not be one longer. */
  lemma TruncatedTape(rs: seq<Record>, n: nat)
    requires AllFit(rs) && n <= |WriteTape(rs)|
    ensures ReadTape(WriteTape(rs)[..n]).1
    ensures IsWholePart(rs, n, ReadTape(WriteTape(rs)[..n]).0)
  {
    if n < |MAGIC| {
      assert !(MAGIC <= WriteTape(rs)[..n]);
    } else {
      var m := n - |MAGIC|;
      CutAfterMagic(EncodeAll(rs), n);
      TapeBody(WriteTape(rs)[..n], EncodeAll(rs)[..m]);
      ReadAllOfCut(rs, m);
      WholeIsWholePart(rs, n);
    }
  }

  predicate IsWholePart(rs: seq<Record>, n: nat, got: seq<Record>) {
    && got <= rs
    && (n < |MAGIC| ==> got == [])
    && (n >= |MAGIC| ==> |WriteTape(got)| <= n)
    && (n >= |MAGIC| && |got| < |rs| ==> n < |WriteTape(rs[..|got| + 1])|)
  }

  lemma WholeIsWholePart(rs: seq<Record>, n: nat)
    requires n >= |MAGIC|
    ensures IsWholePart(rs, n, rs[..Whole(Encode, rs, n - |MAGIC|)])
  {
    var k := Whole(Encode, rs, n - |MAGIC|);
    MagicIsExtra(rs[..k]);
    if k < |rs| {
      MagicIsExtra(rs[..k + 1]);
    }
  }

  lemma MagicIsExtra(rs: seq<Record>)
    ensures |WriteTape(rs)| == |MAGIC| + |PutAll(Encode, rs)|
  {
  }

  lemma TapeBody(file: Bytes, body: Bytes)
    requires MAGIC <= file && file[|MAGIC|..] == body
    ensures ReadTape(file) == ReadAll(body)
  {
  }

  lemma CutAfterMagic(body: Bytes, n: nat)
    requires |MAGIC| <= n <= |MAGIC + body|
    ensures MAGIC <= (MAGIC + body)[..n]
    ensures (MAGIC + body)[..n][|MAGIC|..] == body[..n - |MAGIC|]
  {
  }

  /** Two tapes that are the same bytes hold the same records. */
  lemma WriteTapeIsInjective(rs: seq<Record>, rs': seq<Record>)
    requires AllFit(rs) && AllFit(rs') && WriteTape(rs) == WriteTape(rs')
    ensures rs == rs'
  {
    TapeRoundTrip(rs);
    TapeRoundTrip(rs');
  }

  // ---------------------------------------------------------------- the writer

  lemma Regroup(f: Bytes, r: Record, kind: Byte, payload: Bytes)
    requires kind == KindOf(r) && payload == Payload(r)
    ensures f + [kind] + [r.brain % 256] + payload == f + Encode(r)
  {
    Regroup3(f, [kind], [r.brain % 256], payload);
  }

  class Writer {
    var file: Bytes
    var opened_: bool
    var bytes: nat

    /** bytes() is the size of the file. */
    ghost predicate Valid()
      reads this
    {
      bytes == |file|
    }

    constructor (canOpen: bool)
      ensures Valid() && opened_ == canOpen
      ensures file == if canOpen then MAGIC else []
    {
      file := if canOpen then MAGIC else [];
      opened_ := canOpen;
      bytes := if canOpen then |MAGIC| else 0;
    }

    method Write(s: Bytes)
      requires Valid()
      modifies this`file, this`bytes
      ensures Valid() && file == old(file) + s
    {
      file := file + s;
      bytes := bytes + |s|;
    }

    method Str(s: Bytes)
      requires Valid()
      modifies this`file, this`bytes
      ensures Valid() && file == old(file) + PutStr(s)
    {
      Write(Le(|s| % TWO32, 4));
      Write(s);
      Regroup2(old(file), Le(|s| % TWO32, 4), s);
    }

    method Head(kind: Byte, brain: int)
      requires Valid()
      modifies this`file, this`bytes
      ensures Valid() && file == old(file) + [kind] + [brain % 256]
    {
      Write([kind]);
      Write([brain % 256]);
    }

    method Names(a: Bytes, b: Bytes, c: Bytes)
      requires Valid()
      modifies this`file, this`bytes
      ensures Valid() && file == old(file) + PutNames(a, b, c)
    {
      Str(a);
      Str(b);
      Str(c);
      Regroup3(old(file), PutStr(a), PutStr(b), PutStr(c));
    }

    method Floats(v: seq<nat>)
      requires Valid()
      modifies this`file, this`bytes
      ensures Valid() && file == old(file) + PutList(PutFloat, v)
    {
      Write(Le(|v| % TWO32, 4));
      Write(PutAll(PutFloat, v));
      Regroup2(old(file), Le(|v| % TWO32, 4), PutAll(PutFloat, v));
    }

    method PutConfig(brain: int, json: Bytes)
      requires Valid()
      modifies this`file, this`bytes
      ensures Valid() && file == old(file) + if opened_ then Encode(Config(brain, json)) else []
    {
      if !opened_ { return; }
      Head(1, brain);
      Str(json);
      Regroup(old(file), Config(brain, json), 1, PutStr(json));
    }

    method PutRestore(brain: int, json: Bytes)
      requires Valid()
      modifies this`file, this`bytes
      ensures Valid() && file == old(file) + if opened_ then Encode(Restore(brain, json)) else []
    {
      if !opened_ { return; }
      Head(2, brain);
      Str(json);
      Regroup(old(file), Restore(brain, json), 2, PutStr(json));
    }

    method PutToken(brain: int, tick: nat, topic: Bytes, sensor: Bytes, producer: Bytes, v: seq<nat>)
      requires Valid()
      modifies this`file, this`bytes
      ensures Valid()
      ensures file == old(file) + if opened_ then Encode(Token(brain, tick, topic, sensor, producer, v)) else []
    {
      if !opened_ { return; }
      Head(3, brain);
      ghost var start := file;
      Write(Le(tick, 8));
      Names(topic, sensor, producer);
      Floats(v);
      Regroup3(start, Le(tick, 8), PutNames(topic, sensor, producer), PutList(PutFloat, v));
      Regroup(old(file), Token(brain, tick, topic, sensor, producer, v),
              3, Le(tick, 8) + (PutNames(topic, sensor, producer) + PutList(PutFloat, v)));
    }

    method PutEvent(brain: int, tick: nat, topic: Bytes, name: Bytes, producer: Bytes, intensity: nat)
      requires Valid()
      modifies this`file, this`bytes
      ensures Valid()
      ensures file == old(file) + if opened_ then Encode(Event(brain, tick, topic, name, producer, intensity)) else []
    {
      if !opened_ { return; }
      Head(4, brain);
      ghost var start := file;
      Write(Le(tick, 8));
      Names(topic, name, producer);
      Write(Le(intensity, 4));
      Regroup3(start, Le(tick, 8), PutNames(topic, name, producer), Le(intensity, 4));
      Regroup(old(file), Event(brain, tick, topic, name, producer, intensity),
              4, Le(tick, 8) + (PutNames(topic, name, producer) + Le(intensity, 4)));
    }

    method PutParam(brain: int, mod: Bytes, key: Bytes, json: Bytes)
      requires Valid()
      modifies this`file, this`bytes
      ensures Valid() && file == old(file) + if opened_ then Encode(Param(brain, mod, key, json)) else []
    {
      if !opened_ { return; }
      Head(5, brain);
      Names(mod, key, json);
      Regroup(old(file), Param(brain, mod, key, json), 5, PutNames(mod, key, json));
    }

    method PutTick(brain: int, tick: nat)
      requires Valid()
      modifies this`file, this`bytes
      ensures Valid() && file == old(file) + if opened_ then Encode(Tick(brain, tick)) else []
    {
      if !opened_ { return; }
      Head(6, brain);
      Write(Le(tick, 8));
      Regroup(old(file), Tick(brain, tick), 6, Le(tick, 8));
    }

    method PutCall(brain: int, mod: Bytes, meth: Bytes, arg: nat)
      requires Valid()
      modifies this`file, this`bytes
      ensures Valid() && file == old(file) + if opened_ then Encode(Call(brain, mod, meth, arg)) else []
    {
      if !opened_ { return; }
      Head(8, brain);
      ghost var start := file;
      Str(mod);
      Str(meth);
      Write(Le(arg, 8));
      Regroup3(start, PutStr(mod), PutStr(meth), Le(arg, 8));
      Regroup(old(file), Call(brain, mod, meth, arg), 8, PutStr(mod) + (PutStr(meth) + Le(arg, 8)));
    }

    /** `out` and `digest` are what the brain's bus held. */
    method PutActions(brain: int, out: seq<Action>, digest: nat)
      requires Valid()
      modifies this`file, this`bytes
      ensures Valid() && file == old(file) + if opened_ then Encode(Actions(brain, out, digest)) else []
    {
      if !opened_ { return; }
      Head(7, brain);
      ghost var start := file;
      Write(Le(|out| % TWO32, 4));
      PutOut(out);
      Regroup2(start, Le(|out| % TWO32, 4), PutAll(PutAction, out));
      Write(Le(digest, 8));
      Regroup2(start, PutList(PutAction, out), Le(digest, 8));
      Regroup(old(file), Actions(brain, out, digest), 7, PutList(PutAction, out) + Le(digest, 8));
    }

    method PutOut(out: seq<Action>)
      requires Valid()
      modifies this`file, this`bytes
      ensures Valid() && file == old(file) + PutAll(PutAction, out)
    {
      for i := 0 to |out|
        invariant Valid() && file == old(file) + PutAll(PutAction, out[..i])
      {
        PutActionBytes(out[i]);
        PutAllStep(old(file), PutAction, out, i);
      }
      assert out[..|out|] == out;
    }

    method PutActionBytes(a: Action)
      requires Valid()
      modifies this`file, this`bytes
      ensures Valid() && file == old(file) + PutAction(a)
    {
      Str(a.topic);
      Write(Le(a.accel, 4));
      Regroup2(old(file), PutStr(a.topic), Le(a.accel, 4));
    }
  }

  // ---------------------------------------------------------------- the reader

  // What reading the parts of a record says about reading the record.

  lemma JsonDid(kind: nat, brain: int, s: Bytes, good: bool, json: Bytes, rest: Bytes)
    requires kind == 1 || kind == 2
    requires Did(GetStr(), s, good, json, rest)
    ensures Did(GetPayload(kind, brain), s, good, if kind == 1 then Config(brain, json) else Restore(brain, json), rest)
  {
    if kind == 1 {
      DidMap(GetStr(), ConfigOf(brain), GetPayload(1, brain), s, good, json, Config(brain, json), rest);
    } else {
      DidMap(GetStr(), RestoreOf(brain), GetPayload(2, brain), s, good, json, Restore(brain, json), rest);
    }
  }

  lemma RecordDid(s: Bytes, headed: bool, k: nat, b: nat, mid: Bytes, good: bool, rec: Record, rest: Bytes)
    requires Did(Pair(Number(1), Number(1)), s, headed, (k, b), mid)
    requires if headed then Did(GetPayload(k, b), mid, good, rec, rest) else !good && rest == mid
    ensures Did(GetRecord(), s, good, rec, rest)
  {
    var f := (h: (nat, nat)) => GetPayload(h.0, h.1);
    assert f((k, b)) == GetPayload(k, b);
    DidThen(Pair(Number(1), Number(1)), f, s, headed, (k, b), mid, good, rec, rest);
  }

  /** What a successful or failed Next says about everything left to read. */
  lemma DidReadAll(s: Bytes, good: bool, rec: Record, rest: Bytes)
    requires Did(GetRecord(), s, good, rec, rest)
    ensures ReadAll(s).0 == if good then [rec] + ReadAll(rest).0 else []
    ensures good ==> |rest| < |s|
  {
    RecordsShrink();
    DidReadMany(GetRecord(), s, good, rec, rest);
  }

  /** TapeRecord: filled in place; only the fields of its kind mean anything. */
  class TapeRecord {
    var kind: nat
    var brain: nat
    var tick: nat
    var a: Bytes
    var b: Bytes
    var c: Bytes
    var json: Bytes
    var values: seq<nat>
    var actions: seq<Action>
    var digest: nat
    var arg: nat

    constructor ()
    {
      kind, brain, tick, digest, arg := 0, 0, 0, 0, 0;
      a, b, c, json, values, actions := [], [], [], [], [], [];
    }

    /** The record in the fields, for the eight kinds. */
    function View(): Record
      reads this
    {
      if kind == 1 then Config(brain, json)
      else if kind == 2 then Restore(brain, json)
      else if kind == 3 then Token(brain, tick, a, b, c, values)
      else if kind == 4 then Event(brain, tick, a, b, c, if |values| == 1 then values[0] else 0)
      else if kind == 5 then Param(brain, a, b, json)
      else if kind == 6 then Tick(brain, tick)
      else if kind == 7 then Actions(brain, actions, digest)
      else Call(brain, a, b, arg)
    }

    // Filling in the fields of one kind.

    method SetJson(j: Bytes)
      requires kind == 1 || kind == 2
      modifies this`json
      ensures View() == if kind == 1 then Config(brain, j) else Restore(brain, j)
    {
      json := j;
    }

    method SetTick(t: nat)
      requires kind == 6
      modifies this`tick
      ensures View() == Tick(brain, t)
    {
      tick := t;
    }

    method SetParam(x: Bytes, y: Bytes, j: Bytes)
      requires kind == 5
      modifies this`a, this`b, this`json
      ensures View() == Param(brain, x, y, j)
    {
      a, b, json := x, y, j;
    }

    method SetCall(x: Bytes, y: Bytes, v: nat)
      requires kind == 8
      modifies this`a, this`b, this`arg
      ensures View() == Call(brain, x, y, v)
    {
      a, b, arg := x, y, v;
    }

    method SetActions(v: seq<Action>, d: nat)
      requires kind == 7
      modifies this`actions, this`digest
      ensures View() == Actions(brain, v, d)
    {
      actions, digest := v, d;
    }

    method SetToken(t: nat, x: Bytes, y: Bytes, z: Bytes, v: seq<nat>)
      requires kind == 3
      modifies this`tick, this`a, this`b, this`c, this`values
      ensures View() == Token(brain, t, x, y, z, v)
    {
      tick, a, b, c, values := t, x, y, z, v;
    }

    method SetEvent(t: nat, x: Bytes, y: Bytes, z: Bytes, v: nat)
      requires kind == 4
      modifies this`tick, this`a, this`b, this`c, this`values
      ensures View() == Event(brain, t, x, y, z, v)
    {
      tick, a, b, c, values := t, x, y, z, [v];
    }
  }

  class Reader {
    const data: Bytes
    const found: bool
    var pos: nat
    var goodHeader: bool
    var n: nat

    ghost predicate Valid()
      reads this
    {
      pos <= |data|
    }

    /** What is left of the file. */
    ghost function Left(): Bytes
      requires Valid()
      reads this
    {
      data[pos..]
    }

    constructor (file: Bytes, canOpen: bool)
      ensures Valid() && n == 0 && data == file && found == canOpen
      ensures found ==> (goodHeader <==> MAGIC <= file)
      ensures goodHeader ==> found && Left() == file[|MAGIC|..]
    {
      data := file;
      found := canOpen;
      n := 0;
      if canOpen {
        goodHeader := |MAGIC| <= |file| && file[..|MAGIC|] == MAGIC;
        pos := if |MAGIC| <= |file| then |MAGIC| else |file|;
      } else {
        goodHeader := false;
        pos := 0;
      }
    }

    /** fread: all of it, or what there is and failure. */
    method Rd(k: nat) returns (good: bool, v: Bytes)
      requires Valid()
      modifies this`pos
      ensures Valid() && Did(Take(k), old(Left()), good, v, Left())
    {
      if k <= |data| - pos {
        assert data[pos..][..k] == data[pos..pos + k] && data[pos..][k..] == data[pos + k..];
        good, v := true, data[pos..pos + k];
        pos := pos + k;
      } else {
        good, v := false, [];
        pos := |data|;
      }
    }

    method Num(k: nat) returns (good: bool, v: nat)
      requires Valid()
      modifies this`pos
      ensures Valid() && Did(Number(k), old(Left()), good, v, Left())
    {
      var raw;
      good, raw := Rd(k);
      v := FromLe(raw);
      DidMap(Take(k), FromLe, Number(k), old(Left()), good, raw, v, Left());
    }

    method Counted(limit: nat) returns (good: bool, k: nat)
      requires Valid()
      modifies this`pos
      ensures Valid() && Did(Count(limit), old(Left()), good, k, Left())
    {
      good, k := Num(4);
      DidIs(Number(4), old(Left()), good, k, Left());
      good := good && k <= limit;
      DidIs(Count(limit), old(Left()), good, k, Left());
    }

    method Str() returns (good: bool, v: Bytes)
      requires Valid()
      modifies this`pos
      ensures Valid() && Did(GetStr(), old(Left()), good, v, Left())
    {
      var k;
      v := [];
      good, k := Counted(MAX_STR);
      ghost var counted, mid := good, Left();
      if good {
        good, v := Rd(k);
      }
      DidThen<nat, Bytes>(Count(MAX_STR), Take, old(Left()), counted, k, mid, good, v, Left());
    }

    method Names() returns (good: bool, a: Bytes, b: Bytes, c: Bytes)
      requires Valid()
      modifies this`pos
      ensures Valid() && Did(GetNames(), old(Left()), good, (a, (b, c)), Left())
    {
      b, c := [], [];
      good, a := Str();
      ghost var first, mid := good, Left();
      if good {
        good, b := Str();
        ghost var second, mid' := good, Left();
        if good {
          good, c := Str();
        }
        DidPair(GetStr(), GetStr(), mid, second, b, mid', good, c, Left());
      }
      DidPair(GetStr(), Pair(GetStr(), GetStr()), old(Left()), first, a, mid, good, (b, c), Left());
    }

    /** A count, then the whole block at once. */
    method Floats() returns (good: bool, values: seq<nat>)
      requires Valid()
      modifies this`pos
      ensures Valid() && Did(List(Number(4), MAX_FLOATS), old(Left()), good, values, Left())
    {
      var k;
      values := [];
      good, k := Counted(MAX_FLOATS);
      ghost var counted, mid := good, Left();
      ghost var f := (k: nat) => Many(Number(4), k);
      if good {
        var raw;
        good, raw := Rd(4 * k);
        values := FloatsOf(raw);
        BlockOfFloats(k, mid);
        DidIs(Take(4 * k), mid, good, raw, Left());
        DidIs(Many(Number(4), k), mid, good, values, Left());
      }
      DidThen<nat, seq<nat>>(Count(MAX_FLOATS), f, old(Left()), counted, k, mid, good, values, Left());
    }

    method OneAction() returns (good: bool, a: Action)
      requires Valid()
      modifies this`pos
      ensures Valid() && Did(GetAction(), old(Left()), good, a, Left())
    {
      var topic, accel := [], 0;
      good, topic := Str();
      ghost var first, mid := good, Left();
      if good {
        good, accel := Num(4);
      }
      a := Action(topic, accel);
      DidPair(GetStr(), Number(4), old(Left()), first, topic, mid, good, accel, Left());
      DidMap(Pair(GetStr(), Number(4)), (v: (Bytes, nat)) => Action(v.0, v.1), GetAction(),
             old(Left()), good, (topic, accel), a, Left());
    }

    method ActionList() returns (good: bool, actions: seq<Action>)
      requires Valid()
      modifies this`pos
      ensures Valid() && Did(List(GetAction(), MAX_ACTIONS), old(Left()), good, actions, Left())
    {
      var k;
      actions := [];
      good, k := Counted(MAX_ACTIONS);
      ghost var counted, mid := good, Left();
      if good {
        good, actions := SomeActions(k);
      }
      ghost var f := (k: nat) => Many(GetAction(), k);
      DidThen<nat, seq<Action>>(Count(MAX_ACTIONS), f, old(Left()), counted, k, mid, good, actions, Left());
    }

    method SomeActions(k: nat) returns (good: bool, actions: seq<Action>)
      requires Valid()
      modifies this`pos
      ensures Valid() && Did(Many(GetAction(), k), old(Left()), good, actions, Left())
    {
      good, actions := true, [];
      SoFarStarts(GetAction(), k, Left());
      var i := 0;
      while good && i < k
        invariant Valid() && i <= k
        invariant good ==> |actions| == i && SoFar(GetAction(), k, old(Left()), actions, Left())
        invariant !good ==> Did(Many(GetAction(), k), old(Left()), false, actions, Left())
        decreases k - i
      {
        ghost var before := Left();
        var a;
        good, a := OneAction();
        SoFarStep(GetAction(), k, old(Left()), actions, before, good, a, Left());
        actions := actions + [a];
        i := i + 1;
      }
      if good {
        SoFarEnds(GetAction(), k, old(Left()), actions, Left());
      }
    }

    method NamesAndFloats() returns (good: bool, a: Bytes, b: Bytes, c: Bytes, values: seq<nat>)
      requires Valid()
      modifies this`pos
      ensures Valid()
      ensures Did(Pair(GetNames(), List(Number(4), MAX_FLOATS)), old(Left()), good, ((a, (b, c)), values), Left())
    {
      values := [];
      good, a, b, c := Names();
      ghost var named, mid := good, Left();
      if good {
        good, values := Floats();
      }
      DidPair(GetNames(), List(Number(4), MAX_FLOATS), old(Left()), named, (a, (b, c)), mid, good, values, Left());
    }

    method TokenParts() returns (good: bool, tick: nat, a: Bytes, b: Bytes, c: Bytes, values: seq<nat>)
      requires Valid()
      modifies this`pos
      ensures Valid() && Did(TokenFields(), old(Left()), good, (tick, ((a, (b, c)), values)), Left())
    {
      a, b, c, values := [], [], [], [];
      good, tick := Num(8);
      ghost var first, mid := good, Left();
      if good {
        good, a, b, c, values := NamesAndFloats();
      }
      DidPair(Number(8), Pair(GetNames(), List(Number(4), MAX_FLOATS)),
              old(Left()), first, tick, mid, good, ((a, (b, c)), values), Left());
    }

    method NamesAndFloat() returns (good: bool, a: Bytes, b: Bytes, c: Bytes, x: nat)
      requires Valid()
      modifies this`pos
      ensures Valid()
      ensures Did(Pair(GetNames(), Number(4)), old(Left()), good, ((a, (b, c)), x), Left())
    {
      x := 0;
      good, a, b, c := Names();
      ghost var named, mid := good, Left();
      if good {
        good, x := Num(4);
      }
      DidPair(GetNames(), Number(4), old(Left()), named, (a, (b, c)), mid, good, x, Left());
    }

    method EventParts() returns (good: bool, tick: nat, a: Bytes, b: Bytes, c: Bytes, x: nat)
      requires Valid()
      modifies this`pos
      ensures Valid() && Did(EventFields(), old(Left()), good, (tick, ((a, (b, c)), x)), Left())
    {
      a, b, c, x := [], [], [], 0;
      good, tick := Num(8);
      ghost var first, mid := good, Left();
      if good {
        good, a, b, c, x := NamesAndFloat();
      }
      DidPair(Number(8), Pair(GetNames(), Number(4)),
              old(Left()), first, tick, mid, good, ((a, (b, c)), x), Left());
    }

    method StrAndArg() returns (good: bool, b: Bytes, arg: nat)
      requires Valid()
      modifies this`pos
      ensures Valid() && Did(Pair(GetStr(), Number(8)), old(Left()), good, (b, arg), Left())
    {
      arg := 0;
      good, b := Str();
      ghost var first, mid := good, Left();
      if good {
        good, arg := Num(8);
      }
      DidPair(GetStr(), Number(8), old(Left()), first, b, mid, good, arg, Left());
    }

    method CallParts() returns (good: bool, a: Bytes, b: Bytes, arg: nat)
      requires Valid()
      modifies this`pos
      ensures Valid() && Did(CallFields(), old(Left()), good, (a, (b, arg)), Left())
    {
      b, arg := [], 0;
      good, a := Str();
      ghost var first, mid := good, Left();
      if good {
        good, b, arg := StrAndArg();
      }
      DidPair(GetStr(), Pair(GetStr(), Number(8)), old(Left()), first, a, mid, good, (b, arg), Left());
    }

    method ActionsParts() returns (good: bool, actions: seq<Action>, digest: nat)
      requires Valid()
      modifies this`pos
      ensures Valid() && Did(ActionsFields(), old(Left()), good, (actions, digest), Left())
    {
      digest := 0;
      good, actions := ActionList();
      ghost var first, mid := good, Left();
      if good {
        good, digest := Num(8);
      }
      DidPair(List(GetAction(), MAX_ACTIONS), Number(8), old(Left()), first, actions, mid, good, digest, Left());
    }

    // Each of these reads one kind of record into r.

    method JsonRecord(r: TapeRecord) returns (good: bool)
      requires Valid() && (r.kind == 1 || r.kind == 2)
      modifies this`pos, r`json
      ensures Valid() && Did(GetPayload(r.kind, r.brain), old(Left()), good, r.View(), Left())
    {
      var json;
      good, json := Str();
      JsonDid(r.kind, r.brain, old(Left()), good, json, Left());
      r.SetJson(json);
    }

    method TickRecord(r: TapeRecord) returns (good: bool)
      requires Valid() && r.kind == 6
      modifies this`pos, r`tick
      ensures Valid() && Did(GetPayload(6, r.brain), old(Left()), good, r.View(), Left())
    {
      var tick;
      good, tick := Num(8);
      DidMap(Number(8), TickOf(r.brain), GetPayload(6, r.brain), old(Left()), good, tick, Tick(r.brain, tick), Left());
      r.SetTick(tick);
    }

    method ParamRecord(r: TapeRecord) returns (good: bool)
      requires Valid() && r.kind == 5
      modifies this`pos, r`a, r`b, r`json
      ensures Valid() && Did(GetPayload(5, r.brain), old(Left()), good, r.View(), Left())
    {
      var a, b, json;
      good, a, b, json := Names();
      DidMap(GetNames(), ParamOf(r.brain), GetPayload(5, r.brain), old(Left()), good, (a, (b, json)),
             Param(r.brain, a, b, json), Left());
      r.SetParam(a, b, json);
    }

    method CallRecord(r: TapeRecord) returns (good: bool)
      requires Valid() && r.kind == 8
      modifies this`pos, r`a, r`b, r`arg
      ensures Valid() && Did(GetPayload(8, r.brain), old(Left()), good, r.View(), Left())
    {
      var a, b, arg;
      good, a, b, arg := CallParts();
      DidMap(CallFields(), CallOf(r.brain), GetPayload(8, r.brain), old(Left()), good, (a, (b, arg)),
             Call(r.brain, a, b, arg), Left());
      r.SetCall(a, b, arg);
    }

    method ActionsRecord(r: TapeRecord) returns (good: bool)
      requires Valid() && r.kind == 7
      modifies this`pos, r`actions, r`digest
      ensures Valid() && Did(GetPayload(7, r.brain), old(Left()), good, r.View(), Left())
    {
      var actions, digest;
      good, actions, digest := ActionsParts();
      DidMap(ActionsFields(), ActionsOf(r.brain), GetPayload(7, r.brain), old(Left()), good, (actions, digest),
             Actions(r.brain, actions, digest), Left());
      r.SetActions(actions, digest);
    }

    method TokenRecord(r: TapeRecord) returns (good: bool)
      requires Valid() && r.kind == 3
      modifies this`pos, r`tick, r`a, r`b, r`c, r`values
      ensures Valid() && Did(GetPayload(3, r.brain), old(Left()), good, r.View(), Left())
    {
      var tick, a, b, c, values;
      good, tick, a, b, c, values := TokenParts();
      DidMap(TokenFields(), TokenOf(r.brain), GetPayload(3, r.brain), old(Left()),
             good, (tick, ((a, (b, c)), values)), Token(r.brain, tick, a, b, c, values), Left());
      r.SetToken(tick, a, b, c, values);
    }

    method EventRecord(r: TapeRecord) returns (good: bool)
      requires Valid() && r.kind == 4
      modifies this`pos, r`tick, r`a, r`b, r`c, r`values
      ensures Valid() && Did(GetPayload(4, r.brain), old(Left()), good, r.View(), Left())
    {
      var tick, a, b, c, x;
      good, tick, a, b, c, x := EventParts();
      DidMap(EventFields(), EventOf(r.brain), GetPayload(4, r.brain), old(Left()), good,
             (tick, ((a, (b, c)), x)), Event(r.brain, tick, a, b, c, x), Left());
      r.SetEvent(tick, a, b, c, x);
    }

    method PayloadRecord(r: TapeRecord) returns (good: bool)
      requires Valid()
      modifies this`pos, r`tick, r`a, r`b, r`c, r`json, r`values, r`actions, r`digest, r`arg
      ensures Valid() && Did(GetPayload(r.kind, r.brain), old(Left()), good, r.View(), Left())
    {
      if r.kind == 1 || r.kind == 2 {
        good := JsonRecord(r);
      } else if r.kind == 3 {
        good := TokenRecord(r);
      } else if r.kind == 4 {
        good := EventRecord(r);
      } else if r.kind == 5 {
        good := ParamRecord(r);
      } else if r.kind == 6 {
        good := TickRecord(r);
      } else if r.kind == 7 {
        good := ActionsRecord(r);
      } else if r.kind == 8 {
        good := CallRecord(r);
      } else {
        good := false;
      }
    }

    /** The kind byte and the brain byte. */
    method HeadBytes() returns (good: bool, k: nat, b: nat)
      requires Valid()
      modifies this`pos
      ensures Valid() && Did(Pair(Number(1), Number(1)), old(Left()), good, (k, b), Left())
    {
      b := 0;
      good, k := Num(1);
      ghost var first, mid := good, Left();
      if good {
        good, b := Num(1);
      }
      DidPair(Number(1), Number(1), old(Left()), first, k, mid, good, b, Left());
    }

    /** The next record into r, or false at the end of the file, in a cut record or at a corrupt one. */
    method Next(r: TapeRecord) returns (good: bool)
      requires Valid()
      modifies this`pos, this`n, r
      ensures Valid()
      ensures !old(goodHeader) ==> !good && Left() == old(Left())
      ensures old(goodHeader) ==> Did(GetRecord(), old(Left()), good, r.View(), Left())
      ensures n == old(n) + if good then 1 else 0
    {
      if !goodHeader { return false; }
      var k, b;
      good, k, b := HeadBytes();
      ghost var headed, mid := good, Left();
      if good {
        r.kind, r.brain := k, b;
        r.values, r.actions := [], [];
        good := PayloadRecord(r);
        if good {
          n := n + 1;
        }
      }
      RecordDid(old(Left()), headed, k, b, mid, good, r.View(), Left());
    }
  }

  /** Walking a tape with Next gives its records one by one. */
  method Replay(file: Bytes) returns (records: seq<Record>, count: nat)
    ensures records == ReadTape(file).0 && count == |records|
  {
    var tape := new Reader(file, true);
    var r := new TapeRecord();
    records := [];
    if !tape.goodHeader {
      return [], 0;
    }
    TapeBody(file, tape.Left());
    var more := true;
    while more
      invariant tape.Valid() && tape.goodHeader && tape.n == |records|
      invariant records + (if more then ReadAll(tape.Left()).0 else []) == ReadTape(file).0
      decreases more, |tape.Left()|
    {
      ghost var rest := tape.Left();
      more := tape.Next(r);
      DidReadAll(rest, more, r.View(), tape.Left());
      if more {
        Regroup2(records, [r.View()], ReadAll(tape.Left()).0);
        records := records + [r.View()];
      }
    }
    count := tape.n;
  }
}
