/** mj_host/src/BrainTape.cpp: the recording of every call into the brains, as bytes.

    Writing is a function from records to bytes; reading is made of small parsers, one for each step the reader takes, so
    that what holds of a step holds of a record.  Floats and doubles are their bit patterns; strings are their bytes. */
module Tape {
  import opened Parsers

  const MAX_STR := 0x1000_0000
  const MAX_FLOATS := 0x100_0000
  const MAX_ACTIONS := 4096

  /** "OGMATAPE2\n" */
  const MAGIC: Bytes := [79, 71, 77, 65, 84, 65, 80, 69, 50, 10]

  datatype Action = Action(topic: Bytes, accel: nat)

  datatype Record =
    | Config(brain: int, json: Bytes)
    | Restore(brain: int, json: Bytes)
    | Token(brain: int, tick: nat, topic: Bytes, sensor: Bytes, producer: Bytes, values: seq<nat>)
    | Event(brain: int, tick: nat, topic: Bytes, name: Bytes, producer: Bytes, intensity: nat)
    | Param(brain: int, mod: Bytes, key: Bytes, json: Bytes)
    | Tick(brain: int, tick: nat)
    | Actions(brain: int, actions: seq<Action>, digest: nat)
    | Call(brain: int, mod: Bytes, meth: Bytes, arg: nat)

  function KindOf(r: Record): Byte {
    match r
    case Config(_, _) => 1
    case Restore(_, _) => 2
    case Token(_, _, _, _, _, _) => 3
    case Event(_, _, _, _, _, _) => 4
    case Param(_, _, _, _) => 5
    case Tick(_, _) => 6
    case Actions(_, _, _) => 7
    case Call(_, _, _, _) => 8
  }

  // ---------------------------------------------------------------- writing

  /** A length and the bytes; the length is cut to 32 bits. */
  function PutStr(s: Bytes): Bytes {
    Le(|s| % TWO32, 4) + s
  }

  function PutFloat(v: nat): Bytes {
    Le(v, 4)
  }

  function PutAction(a: Action): Bytes {
    PutStr(a.topic) + Le(a.accel, 4)
  }

  function PutNames(a: Bytes, b: Bytes, c: Bytes): Bytes {
    PutStr(a) + (PutStr(b) + PutStr(c))
  }

  function Payload(r: Record): Bytes {
    match r
    case Config(_, json) => PutStr(json)
    case Restore(_, json) => PutStr(json)
    case Token(_, tick, a, b, c, v) => Le(tick, 8) + (PutNames(a, b, c) + PutList(PutFloat, v))
    case Event(_, tick, a, b, c, v) => Le(tick, 8) + (PutNames(a, b, c) + Le(v, 4))
    case Param(_, a, b, json) => PutNames(a, b, json)
    case Tick(_, tick) => Le(tick, 8)
    case Actions(_, a, digest) => PutList(PutAction, a) + Le(digest, 8)
    case Call(_, a, b, arg) => PutStr(a) + (PutStr(b) + Le(arg, 8))
  }

  /** The kind byte, the brain cut to a byte, the payload. */
  function Encode(r: Record): Bytes {
    Headed(KindOf(r), r.brain % 256, Payload(r))
  }

  function Headed(kind: Byte, brain: Byte, payload: Bytes): Bytes {
    [kind] + ([brain] + payload)
  }

  function EncodeAll(rs: seq<Record>): Bytes {
    PutAll(Encode, rs)
  }

  // ---------------------------------------------------------------- reading

  function GetStr(): Parser<Bytes> {
    Then(Count(MAX_STR), Take)
  }

  function GetAction(): Parser<Action> {
    Map(Pair(GetStr(), Number(4)), (v: (Bytes, nat)) => Action(v.0, v.1))
  }

  /** The three strings of a token or an event. */
  function GetNames(): Parser<(Bytes, (Bytes, Bytes))> {
    Pair(GetStr(), Pair(GetStr(), GetStr()))
  }

  // The payload of each kind: the parser of its fields, and the record they make.

  function TokenFields(): Parser<(nat, ((Bytes, (Bytes, Bytes)), seq<nat>))> {
    Pair(Number(8), Pair(GetNames(), List(Number(4), MAX_FLOATS)))
  }

  function TokenOf(brain: int): ((nat, ((Bytes, (Bytes, Bytes)), seq<nat>))) -> Record {
    (v: (nat, ((Bytes, (Bytes, Bytes)), seq<nat>))) => Token(brain, v.0, v.1.0.0, v.1.0.1.0, v.1.0.1.1, v.1.1)
  }

  function EventFields(): Parser<(nat, ((Bytes, (Bytes, Bytes)), nat))> {
    Pair(Number(8), Pair(GetNames(), Number(4)))
  }

  function EventOf(brain: int): ((nat, ((Bytes, (Bytes, Bytes)), nat))) -> Record {
    (v: (nat, ((Bytes, (Bytes, Bytes)), nat))) => Event(brain, v.0, v.1.0.0, v.1.0.1.0, v.1.0.1.1, v.1.1)
  }

  function ParamOf(brain: int): ((Bytes, (Bytes, Bytes))) -> Record {
    (v: (Bytes, (Bytes, Bytes))) => Param(brain, v.0, v.1.0, v.1.1)
  }

  function ActionsFields(): Parser<(seq<Action>, nat)> {
    Pair(List(GetAction(), MAX_ACTIONS), Number(8))
  }

  function ActionsOf(brain: int): ((seq<Action>, nat)) -> Record {
    (v: (seq<Action>, nat)) => Actions(brain, v.0, v.1)
  }

  function CallFields(): Parser<(Bytes, (Bytes, nat))> {
    Pair(GetStr(), Pair(GetStr(), Number(8)))
  }

  function CallOf(brain: int): ((Bytes, (Bytes, nat))) -> Record {
    (v: (Bytes, (Bytes, nat))) => Call(brain, v.0, v.1.0, v.1.1)
  }

  function ConfigOf(brain: int): Bytes -> Record {
    (j: Bytes) => Config(brain, j)
  }

  function RestoreOf(brain: int): Bytes -> Record {
    (j: Bytes) => Restore(brain, j)
  }

  function TickOf(brain: int): nat -> Record {
    (t: nat) => Tick(brain, t)
  }

  function GetPayload(kind: nat, brain: int): Parser<Record> {
    if kind == 1 then Map(GetStr(), ConfigOf(brain))
    else if kind == 2 then Map(GetStr(), RestoreOf(brain))
    else if kind == 3 then Map(TokenFields(), TokenOf(brain))
    else if kind == 4 then Map(EventFields(), EventOf(brain))
    else if kind == 5 then Map(GetNames(), ParamOf(brain))
    else if kind == 6 then Map(Number(8), TickOf(brain))
    else if kind == 7 then Map(ActionsFields(), ActionsOf(brain))
    else if kind == 8 then Map(CallFields(), CallOf(brain))
    else s => Corrupt(s)
  }

  function GetRecord(): Parser<Record> {
    Then(Pair(Number(1), Number(1)), (h: (nat, nat)) => GetPayload(h.0, h.1))
  }

  // ---------------------------------------------------------------- more bytes change nothing

  lemma StableStr()
    ensures Stable(GetStr())
  {
    StableCount(MAX_STR);
    forall n ensures Stable(Take(n)) {
      StableTake(n);
    }
    StableThen(Count(MAX_STR), Take);
  }

  lemma StableNames()
    ensures Stable(GetNames())
  {
    StableStr();
    StablePair(GetStr(), GetStr());
    StablePair(GetStr(), Pair(GetStr(), GetStr()));
  }

  lemma StableTokenFields()
    ensures Stable(TokenFields())
  {
    StableNames();
    StableNumber(4);
    StableNumber(8);
    StableList(Number(4), MAX_FLOATS);
    StablePair(GetNames(), List(Number(4), MAX_FLOATS));
    StablePair(Number(8), Pair(GetNames(), List(Number(4), MAX_FLOATS)));
  }

  lemma StableEventFields()
    ensures Stable(EventFields())
  {
    StableNames();
    StableNumber(4);
    StableNumber(8);
    StablePair(GetNames(), Number(4));
    StablePair(Number(8), Pair(GetNames(), Number(4)));
  }

  lemma StableActionsFields()
    ensures Stable(ActionsFields())
  {
    StableStr();
    StableNumber(4);
    StableNumber(8);
    StablePair(GetStr(), Number(4));
    StableMap(Pair(GetStr(), Number(4)), (v: (Bytes, nat)) => Action(v.0, v.1));
    StableList(GetAction(), MAX_ACTIONS);
    StablePair(List(GetAction(), MAX_ACTIONS), Number(8));
  }

  lemma StableCallFields()
    ensures Stable(CallFields())
  {
    StableStr();
    StableNumber(8);
    StablePair(GetStr(), Number(8));
    StablePair(GetStr(), Pair(GetStr(), Number(8)));
  }

  lemma StablePayload(kind: nat, brain: int)
    ensures Stable(GetPayload(kind, brain))
  {
    if kind == 1 {
      StableStr();
      StableMap(GetStr(), ConfigOf(brain));
    } else if kind == 2 {
      StableStr();
      StableMap(GetStr(), RestoreOf(brain));
    } else if kind == 3 {
      StableTokenFields();
      StableMap(TokenFields(), TokenOf(brain));
    } else if kind == 4 {
      StableEventFields();
      StableMap(EventFields(), EventOf(brain));
    } else if kind == 5 {
      StableNames();
      StableMap(GetNames(), ParamOf(brain));
    } else if kind == 6 {
      StableNumber(8);
      StableMap(Number(8), TickOf(brain));
    } else if kind == 7 {
      StableActionsFields();
      StableMap(ActionsFields(), ActionsOf(brain));
    } else if kind == 8 {
      StableCallFields();
      StableMap(CallFields(), CallOf(brain));
    }
  }

  lemma StableRecord()
    ensures Stable(GetRecord())
  {
    StableNumber(1);
    StablePair(Number(1), Number(1));
    var f := (h: (nat, nat)) => GetPayload(h.0, h.1);
    forall h ensures Stable(f(h)) {
      StablePayload(h.0, h.1);
    }
    StableThen(Pair(Number(1), Number(1)), f);
  }

  // ---------------------------------------------------------------- reading back what was written

  lemma ReadsStr(s: Bytes)
    requires |s| <= MAX_STR
    ensures Reads(GetStr(), PutStr(s), s)
  {
    ReadsCount(MAX_STR, |s|);
    ReadsTake(s);
    ReadsThen<nat, Bytes>(Count(MAX_STR), Take, Le(|s| % TWO32, 4), |s|, s, s);
  }

  /** What the record methods are given and the reader's limits allow. */
  ghost predicate Fits(r: Record) {
    0 <= r.brain < 256 &&
    match r
    case Config(_, json) => |json| <= MAX_STR
    case Restore(_, json) => |json| <= MAX_STR
    case Token(_, tick, a, b, c, v) =>
      && tick < TWO64 && FitNames(a, b, c) && |v| <= MAX_FLOATS
      && forall x :: x in v ==> x < TWO32
    case Event(_, tick, a, b, c, v) => tick < TWO64 && FitNames(a, b, c) && v < TWO32
    case Param(_, a, b, json) => FitNames(a, b, json)
    case Tick(_, tick) => tick < TWO64
    case Actions(_, a, digest) =>
      && |a| <= MAX_ACTIONS && digest < TWO64
      && forall x :: x in a ==> |x.topic| <= MAX_STR && x.accel < TWO32
    case Call(_, a, b, arg) => |a| <= MAX_STR && |b| <= MAX_STR && arg < TWO64
  }

  predicate FitNames(a: Bytes, b: Bytes, c: Bytes) {
    |a| <= MAX_STR && |b| <= MAX_STR && |c| <= MAX_STR
  }

  lemma ReadsNames(a: Bytes, b: Bytes, c: Bytes)
    requires FitNames(a, b, c)
    ensures Reads(GetNames(), PutNames(a, b, c), (a, (b, c)))
  {
    ReadsStr(a);
    ReadsStr(b);
    ReadsStr(c);
    ReadsPair(GetStr(), GetStr(), PutStr(b), b, PutStr(c), c);
    ReadsPair(GetStr(), Pair(GetStr(), GetStr()), PutStr(a), a, PutStr(b) + PutStr(c), (b, c));
  }

  lemma ReadsToken(r: Record)
    requires Fits(r) && r.Token?
    ensures Reads(GetPayload(3, r.brain), Payload(r), r)
  {
    var Token(brain, tick, a, b, c, vs) := r;
    PowersOf256();
    forall v | v in vs ensures Reads(Number(4), PutFloat(v), v) {
      ReadsNumber(v, 4);
    }
    ReadsNumber(tick, 8);
    ReadsNames(a, b, c);
    ReadsList(Number(4), PutFloat, vs, MAX_FLOATS);
    var tail := Pair(GetNames(), List(Number(4), MAX_FLOATS));
    ReadsPair(GetNames(), List(Number(4), MAX_FLOATS), PutNames(a, b, c), (a, (b, c)), PutList(PutFloat, vs), vs);
    ReadsPair(Number(8), tail, Le(tick, 8), tick, PutNames(a, b, c) + PutList(PutFloat, vs), ((a, (b, c)), vs));
  }

  lemma ReadsEvent(r: Record)
    requires Fits(r) && r.Event?
    ensures Reads(GetPayload(4, r.brain), Payload(r), r)
  {
    var Event(brain, tick, a, b, c, x) := r;
    PowersOf256();
    ReadsNumber(tick, 8);
    ReadsNumber(x, 4);
    ReadsNames(a, b, c);
    ReadsPair(GetNames(), Number(4), PutNames(a, b, c), (a, (b, c)), Le(x, 4), x);
    ReadsPair(Number(8), Pair(GetNames(), Number(4)), Le(tick, 8), tick, PutNames(a, b, c) + Le(x, 4), ((a, (b, c)), x));
  }

  lemma ReadsAction(a: Action)
    requires |a.topic| <= MAX_STR && a.accel < TWO32
    ensures Reads(GetAction(), PutAction(a), a)
  {
    PowersOf256();
    ReadsStr(a.topic);
    ReadsNumber(a.accel, 4);
    ReadsPair(GetStr(), Number(4), PutStr(a.topic), a.topic, Le(a.accel, 4), a.accel);
  }

  lemma ReadsActions(r: Record)
    requires Fits(r) && r.Actions?
    ensures Reads(GetPayload(7, r.brain), Payload(r), r)
  {
    var Actions(brain, a, d) := r;
    PowersOf256();
    forall x | x in a ensures Reads(GetAction(), PutAction(x), x) {
      ReadsAction(x);
    }
    ReadsList(GetAction(), PutAction, a, MAX_ACTIONS);
    ReadsNumber(d, 8);
    ReadsPair(List(GetAction(), MAX_ACTIONS), Number(8), PutList(PutAction, a), a, Le(d, 8), d);
  }

  lemma ReadsCall(r: Record)
    requires Fits(r) && r.Call?
    ensures Reads(GetPayload(8, r.brain), Payload(r), r)
  {
    var Call(brain, a, b, x) := r;
    PowersOf256();
    ReadsStr(a);
    ReadsStr(b);
    ReadsNumber(x, 8);
    ReadsPair(GetStr(), Number(8), PutStr(b), b, Le(x, 8), x);
    ReadsPair(GetStr(), Pair(GetStr(), Number(8)), PutStr(a), a, PutStr(b) + Le(x, 8), (b, x));
  }

  lemma ReadsConfig(brain: int, json: Bytes)
    requires |json| <= MAX_STR
    ensures Reads(GetPayload(1, brain), PutStr(json), Config(brain, json))
    ensures Reads(GetPayload(2, brain), PutStr(json), Restore(brain, json))
  {
    ReadsStr(json);
  }

  lemma ReadsParam(brain: int, a: Bytes, b: Bytes, json: Bytes)
    requires FitNames(a, b, json)
    ensures Reads(GetPayload(5, brain), PutNames(a, b, json), Param(brain, a, b, json))
  {
    ReadsNames(a, b, json);
  }

  lemma ReadsTick(brain: int, tick: nat)
    requires tick < TWO64
    ensures Reads(GetPayload(6, brain), Le(tick, 8), Tick(brain, tick))
  {
    PowersOf256();
    ReadsNumber(tick, 8);
  }

  lemma ReadsPayload(r: Record)
    requires Fits(r)
    ensures Reads(GetPayload(KindOf(r), r.brain), Payload(r), r)
  {
    match r
    case Config(brain, json) => ReadsConfig(brain, json);
    case Restore(brain, json) => ReadsConfig(brain, json);
    case Token(_, _, _, _, _, _) => ReadsToken(r);
    case Event(_, _, _, _, _, _) => ReadsEvent(r);
    case Param(brain, a, b, json) => ReadsParam(brain, a, b, json);
    case Tick(brain, tick) => ReadsTick(brain, tick);
    case Actions(_, _, _) => ReadsActions(r);
    case Call(_, _, _, _) => ReadsCall(r);
  }

  lemma ReadsHeaded(kind: Byte, brain: Byte, payload: Bytes, r: Record)
    requires Reads(GetPayload(kind, brain), payload, r)
    ensures Reads(GetRecord(), Headed(kind, brain, payload), r)
  {
    ReadsByte(kind);
    ReadsByte(brain);
    ReadsPair(Number(1), Number(1), [kind], kind, [brain], brain);
    var f := (h: (nat, nat)) => GetPayload(h.0, h.1);
    ReadsThen(Pair(Number(1), Number(1)), f, [kind] + [brain], (kind, brain), payload, r);
    assert [kind] + [brain] + payload == Headed(kind, brain, payload);
  }

  lemma ReadsRecord(r: Record)
    requires Fits(r)
    ensures Reads(GetRecord(), Encode(r), r)
  {
    ReadsPayload(r);
    ReadsHeaded(KindOf(r), r.brain, Payload(r), r);
    assert r.brain % 256 == r.brain;
  }
}
