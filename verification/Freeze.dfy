/** Freezing learning through the rates, in mj_host/src/OgmaBrainAdapter.cpp, mj_host/src/IntentAdapter.cpp and
    mj_host/src/HeadAdapter.cpp. */
module Freeze {
  import opened Prelude

  /** A parameter's value; Other stands for the booleans, strings and vectors. */
  datatype Value = Real(v: real) | Int(i: int) | Other(text: string)

  /** `motor`: its type is MotorEPM or MotorEPMv2. */
  datatype Module = Module(id: string, motor: bool, params: map<string, Value>)

  const RATES: seq<string> :=
    ["model_lr", "ctrl_lr", "bias_lr", "sat_lr", "state_prior_lr", "state_prior_h_lr", "state_model_lr"]

  function Key(id: string, rate: string): string {
    id + ":" + rate
  }

  predicate NoColon(s: string) {
    forall i :: 0 <= i < |s| ==> s[i] != ':'
  }

  ghost predicate ColonFree(rates: seq<string>) {
    forall r :: r in rates ==> NoColon(r)
  }

  lemma RatesAreColonFree()
    ensures ColonFree(RATES)
  {
  }

  /** Rates have no colon, so a key tells its module and its rate apart, whatever the ids hold. */
  lemma KeyIsInjective(id: string, rate: string, id': string, rate': string)
    requires NoColon(rate) && NoColon(rate') && Key(id, rate) == Key(id', rate')
    ensures id == id' && rate == rate'
  {
    LongerIdNeedsAColon(id, rate, id', rate');
    LongerIdNeedsAColon(id', rate', id, rate);
    var k := Key(id, rate);
    assert id == k[..|id|] && id' == k[..|id'|] && rate == k[|id| + 1..] && rate' == k[|id'| + 1..];
  }

  lemma LongerIdNeedsAColon(id: string, rate: string, id': string, rate': string)
    requires NoColon(rate) && Key(id, rate) == Key(id', rate')
    ensures |id'| <= |id|
  {
    var k := Key(id, rate);
    assert k == Key(id', rate') && k[|id'|] == ':';
    assert forall i :: |id| < i < |k| ==> k[i] == rate[i - |id| - 1];
  }

  /** What a freeze writes down of a rate: the joint adapter keeps doubles only, the other two convert integers and
      keep zero for the rest. */
  function Kept(convert: bool, v: Value): Option<real> {
    match v
    case Real(x) => Some(x)
    case Int(i) => if convert then Some(i as real) else None
    case Other(_) => if convert then Some(0.0) else None
  }

  /** The values of those of the rates that there are, zeroed. */
  function Zero(params: map<string, Value>, rates: seq<string>): map<string, Value> {
    if rates == [] then params
    else
      var last, before := rates[|rates| - 1], Zero(params, rates[..|rates| - 1]);
      if last in params then before[last := Real(0.0)] else before
  }

  /** `was` with those of the rates that there are written down. */
  function Note(convert: bool, id: string, params: map<string, Value>, rates: seq<string>, was: map<string, real>)
    : map<string, real>
  {
    if rates == [] then was
    else
      var last, before := rates[|rates| - 1], Note(convert, id, params, rates[..|rates| - 1], was);
      if last in params && Kept(convert, params[last]).Some? then
        before[Key(id, last) := Kept(convert, params[last]).value]
      else before
  }

  /** The rates that were written down, put back. */
  function PutBack(id: string, params: map<string, Value>, rates: seq<string>, saved: map<string, real>)
    : map<string, Value>
  {
    if rates == [] then params
    else
      var last, before := rates[|rates| - 1], PutBack(id, params, rates[..|rates| - 1], saved);
      if last in params && Key(id, last) in saved then before[last := Real(saved[Key(id, last)])] else before
  }

  lemma {:induction false} ZeroAt(params: map<string, Value>, rates: seq<string>, k: string)
    ensures k in Zero(params, rates) <==> k in params
    ensures k in params ==> Zero(params, rates)[k] == if k in rates then Real(0.0) else params[k]
  {
    if rates != [] {
      ZeroAt(params, rates[..|rates| - 1], k);
      assert rates == rates[..|rates| - 1] + [rates[|rates| - 1]];
    }
  }

  lemma {:induction false} PutBackAt(id: string, params: map<string, Value>, rates: seq<string>, saved: map<string,
                                     real>,
                                     k: string)
    ensures k in PutBack(id, params, rates, saved) <==> k in params
    ensures k in params ==>
              PutBack(id, params, rates, saved)[k] ==
              if k in rates && Key(id, k) in saved then Real(saved[Key(id, k)]) else params[k]
  {
    if rates != [] {
      PutBackAt(id, params, rates[..|rates| - 1], saved, k);
      assert rates == rates[..|rates| - 1] + [rates[|rates| - 1]];
    }
  }

  predicate SameAt(was: map<string, real>, saved: map<string, real>, key: string) {
    (key in saved <==> key in was) && (key in was ==> saved[key] == was[key])
  }

  predicate Writes(convert: bool, params: map<string, Value>, rates: seq<string>, k: string) {
    k in rates && k in params && Kept(convert, params[k]).Some?
  }

  lemma {:induction false} NoteAt(convert: bool, id: string, params: map<string, Value>, rates: seq<string>,
                                  was: map<string, real>, id': string, k: string)
    requires NoColon(k) && ColonFree(rates)
    ensures var saved := Note(convert, id, params, rates, was);
            if id' == id && Writes(convert, params, rates, k) then
              Key(id', k) in saved && saved[Key(id', k)] == Kept(convert, params[k]).value
            else SameAt(was, saved, Key(id', k))
  {
    if rates != [] {
      var last := rates[|rates| - 1];
      assert last in rates && rates == rates[..|rates| - 1] + [last];
      NoteAt(convert, id, params, rates[..|rates| - 1], was, id', k);
      if Key(id', k) == Key(id, last) {
        KeyIsInjective(id', k, id, last);
      }
    }
  }

  function Zeroed(rates: seq<string>, m: Module): Module {
    m.(params := Zero(m.params, rates))
  }

  function Noted(rates: seq<string>, convert: bool, m: Module, was: map<string, real>): map<string, real> {
    Note(convert, m.id, m.params, rates, was)
  }

  function Thawed(rates: seq<string>, m: Module, saved: map<string, real>): Module {
    m.(params := PutBack(m.id, m.params, rates, saved))
  }

  /** One module's rates written down and zeroed, one after another. */
  method FreezeOne(rates: seq<string>, convert: bool, m: Module, was: map<string, real>)
    returns (frozen: Module, saved: map<string, real>)
    ensures frozen == Zeroed(rates, m) && saved == Noted(rates, convert, m, was)
  {
    var params := m.params;
    saved := was;
    for j := 0 to |rates|
      invariant params == Zero(m.params, rates[..j]) && saved == Note(convert, m.id, m.params, rates[..j], was)
    {
      var rate := rates[j];
      assert rates[..j + 1][..j] == rates[..j];
      if rate in m.params {
        var v := Kept(convert, m.params[rate]);
        if v.Some? {
          saved := saved[Key(m.id, rate) := v.value];
        }
        params := params[rate := Real(0.0)];
      }
    }
    assert rates[..|rates|] == rates;
    frozen := m.(params := params);
  }

  method ThawOne(rates: seq<string>, m: Module, saved: map<string, real>) returns (thawed: Module)
    ensures thawed == Thawed(rates, m, saved)
  {
    var params := m.params;
    for j := 0 to |rates|
      invariant params == PutBack(m.id, m.params, rates[..j], saved)
    {
      var rate := rates[j];
      assert rates[..j + 1][..j] == rates[..j];
      if rate in m.params && Key(m.id, rate) in saved {
        params := params[rate := Real(saved[Key(m.id, rate)])];
      }
    }
    assert rates[..|rates|] == rates;
    thawed := m.(params := params);
  }

  // ---------------------------------------------------------------- every module of a brain

  /** Every motor module in turn: its rates written down, then zeroed. */
  function FreezeAll(rates: seq<string>, convert: bool, ms: seq<Module>, was: map<string, real>)
    : (seq<Module>, map<string, real>)
  {
    if ms == [] then ([], was)
    else
      var last, (before, saved) := ms[|ms| - 1], FreezeAll(rates, convert, ms[..|ms| - 1], was);
      if last.motor then (before + [Zeroed(rates, last)], Noted(rates, convert, last, saved))
      else (before + [last], saved)
  }

  function ThawAll(rates: seq<string>, ms: seq<Module>, saved: map<string, real>, forever: set<string>): seq<Module> {
    if ms == [] then []
    else
      var last := ms[|ms| - 1];
      ThawAll(rates, ms[..|ms| - 1], saved, forever)
      + [if last.motor && last.id !in forever then Thawed(rates, last, saved) else last]
  }

  /** Every module of that id, motor or not. */
  function FreezeNamed(rates: seq<string>, id: string, ms: seq<Module>, was: map<string, real>)
    : (seq<Module>, map<string, real>)
  {
    if ms == [] then ([], was)
    else
      var last, (before, saved) := ms[|ms| - 1], FreezeNamed(rates, id, ms[..|ms| - 1], was);
      if last.id == id then (before + [Zeroed(rates, last)], Noted(rates, false, last, saved))
      else (before + [last], saved)
  }

  function Ids(ms: seq<Module>): seq<string> {
    seq(|ms|, i requires 0 <= i < |ms| => ms[i].id)
  }

  lemma {:induction false} FreezeAllAt(rates: seq<string>, convert: bool, ms: seq<Module>, was: map<string, real>,
                                       i: nat)
    requires i < |ms|
    ensures |FreezeAll(rates, convert, ms, was).0| == |ms|
    ensures FreezeAll(rates, convert, ms, was).0[i] == if ms[i].motor then Zeroed(rates, ms[i]) else ms[i]
  {
    if i < |ms| - 1 {
      FreezeAllAt(rates, convert, ms[..|ms| - 1], was, i);
    } else {
      FreezeAllLength(rates, convert, ms[..|ms| - 1], was);
    }
  }

  lemma {:induction false} FreezeAllLength(rates: seq<string>, convert: bool, ms: seq<Module>, was: map<string, real>)
    ensures |FreezeAll(rates, convert, ms, was).0| == |ms|
  {
    if ms != [] {
      FreezeAllLength(rates, convert, ms[..|ms| - 1], was);
    }
  }

  lemma {:induction false} ThawAllAt(rates: seq<string>, ms: seq<Module>, saved: map<string, real>,
                                     forever: set<string>, i: nat)
    requires i < |ms|
    ensures |ThawAll(rates, ms, saved, forever)| == |ms|
    ensures ThawAll(rates, ms, saved, forever)[i] ==
            if ms[i].motor && ms[i].id !in forever then Thawed(rates, ms[i], saved) else ms[i]
  {
    if i < |ms| - 1 {
      ThawAllAt(rates, ms[..|ms| - 1], saved, forever, i);
    } else {
      ThawAllLength(rates, ms[..|ms| - 1], saved, forever);
    }
  }

  lemma {:induction false} ThawAllLength(rates: seq<string>, ms: seq<Module>, saved: map<string, real>,
                                         forever: set<string>)
    ensures |ThawAll(rates, ms, saved, forever)| == |ms|
  {
    if ms != [] {
      ThawAllLength(rates, ms[..|ms| - 1], saved, forever);
    }
  }

  lemma {:induction false} FreezeNamedAt(rates: seq<string>, id: string, ms: seq<Module>, was: map<string, real>,
                                         i: nat)
    requires i < |ms|
    ensures |FreezeNamed(rates, id, ms, was).0| == |ms|
    ensures FreezeNamed(rates, id, ms, was).0[i] == if ms[i].id == id then Zeroed(rates, ms[i]) else ms[i]
  {
    if i < |ms| - 1 {
      FreezeNamedAt(rates, id, ms[..|ms| - 1], was, i);
    } else {
      FreezeNamedLength(rates, id, ms[..|ms| - 1], was);
    }
  }

  lemma {:induction false} FreezeNamedLength(rates: seq<string>, id: string, ms: seq<Module>, was: map<string, real>)
    ensures |FreezeNamed(rates, id, ms, was).0| == |ms|
  {
    if ms != [] {
      FreezeNamedLength(rates, id, ms[..|ms| - 1], was);
    }
  }

  lemma NotedAt(rates: seq<string>, convert: bool, m: Module, was: map<string, real>, id: string, k: string)
    requires ColonFree(rates) && NoColon(k)
    ensures var saved := Noted(rates, convert, m, was);
            if id == m.id && Writes(convert, m.params, rates, k) then
              Key(id, k) in saved && saved[Key(id, k)] == Kept(convert, m.params[k]).value
            else SameAt(was, saved, Key(id, k))
  {
    NoteAt(convert, m.id, m.params, rates, was, id, k);
  }

  /** A freeze leaves alone what is written down of ids it does not meet. */
  lemma {:induction false} FreezeAllKeeps(rates: seq<string>, convert: bool, ms: seq<Module>, was: map<string, real>,
                                          id: string, k: string)
    requires ColonFree(rates) && NoColon(k) && forall i :: 0 <= i < |ms| ==> ms[i].id != id
    ensures SameAt(was, FreezeAll(rates, convert, ms, was).1, Key(id, k))
  {
    if ms != [] {
      FreezeAllKeeps(rates, convert, ms[..|ms| - 1], was, id, k);
      NotedAt(rates, convert, ms[|ms| - 1], FreezeAll(rates, convert, ms[..|ms| - 1], was).1, id, k);
    }
  }

  lemma {:induction false} FreezeNamedKeeps(rates: seq<string>, named: string, ms: seq<Module>, was: map<string,
                                            real>, id: string, k: string)
    requires ColonFree(rates) && NoColon(k) && id != named
    ensures SameAt(was, FreezeNamed(rates, named, ms, was).1, Key(id, k))
  {
    if ms != [] {
      FreezeNamedKeeps(rates, named, ms[..|ms| - 1], was, id, k);
      NotedAt(rates, false, ms[|ms| - 1], FreezeNamed(rates, named, ms[..|ms| - 1], was).1, id, k);
    }
  }

  /** A freeze writes down each motor module's own rates. */
  lemma {:induction false} FreezeAllNotes(rates: seq<string>, convert: bool, ms: seq<Module>, was: map<string, real>,
                                          i: nat, k: string)
    requires ColonFree(rates) && NoColon(k) && Distinct(Ids(ms)) && i < |ms| && ms[i].motor
    ensures var saved := FreezeAll(rates, convert, ms, was).1;
            if Writes(convert, ms[i].params, rates, k) then
              Key(ms[i].id, k) in saved && saved[Key(ms[i].id, k)] == Kept(convert, ms[i].params[k]).value
            else SameAt(was, saved, Key(ms[i].id, k))
  {
    var n := |ms| - 1;
    var before := FreezeAll(rates, convert, ms[..n], was).1;
    NotedAt(rates, convert, ms[n], before, ms[i].id, k);
    assert Ids(ms[..n]) == Ids(ms)[..n];
    assert forall j :: 0 <= j < |ms| ==> Ids(ms)[j] == ms[j].id;
    if i < n {
      FreezeAllNotes(rates, convert, ms[..n], was, i, k);
    } else {
      FreezeAllKeeps(rates, convert, ms[..n], was, ms[i].id, k);
    }
  }

  // ---------------------------------------------------------------- an adapter

  /** `rates` are the seven names; `convert` tells the adapters apart; the joint adapter has both switches and the modules
      frozen for good, the others use one switch only.  `ever`, that there has been a freeze, is not in the source. */
  datatype State = State(rates: seq<string>, convert: bool, modules: seq<Module>, saved: map<string, real>,
                         learning: bool, regime: bool, frozen: bool, forever: set<string>, ever: bool)

  datatype Call = SetLearning(on: bool) | SetRegime(on: bool) | FreezeModule(id: string)

  function Start(rates: seq<string>, convert: bool, configured: seq<Module>): State {
    State(rates, convert, configured, map[], true, true, false, {}, false)
  }

  /** apply_freeze_state: frozen iff either switch says so, and nothing to do when it already is that way. */
  function Settle(s: State): State {
    var on := s.learning && s.regime;
    if on == !s.frozen then s
    else if on then s.(frozen := false, modules := ThawAll(s.rates, s.modules, s.saved, s.forever))
    else
      var (modules, saved) := FreezeAll(s.rates, s.convert, s.modules, s.saved);
      s.(frozen := true, ever := true, modules := modules, saved := saved)
  }

  function Step(s: State, c: Call): State {
    match c
    case SetLearning(on) => Settle(s.(learning := on))
    case SetRegime(on) => Settle(s.(regime := on))
    case FreezeModule(id) =>
      var (modules, saved) := FreezeNamed(s.rates, id, s.modules, s.saved);
      s.(forever := s.forever + {id}, modules := modules, saved := saved)
  }

  function Run(s: State, calls: seq<Call>): State {
    if calls == [] then s else Step(Run(s, calls[..|calls| - 1]), calls[|calls| - 1])
  }

  /** What survives of a configured rate once it has been frozen: the joint adapter loses what is not a double. */
  function Base(convert: bool, v: Value): real {
    match v
    case Real(x) => x
    case Int(i) => if convert then i as real else 0.0
    case Other(_) => 0.0
  }

  /** The value a parameter has: as configured, but for the rates of frozen modules, and of thawed ones that held
      something else than a double. */
  function Expected(s: State, c: Module, k: string): Value
    requires k in c.params
  {
    if k !in s.rates then c.params[k]
    else if c.id in s.forever then Real(0.0)
    else if !c.motor then c.params[k]
    else if s.frozen then Real(0.0)
    else if s.ever then Real(Base(s.convert, c.params[k]))
    else c.params[k]
  }

  predicate RateOk(s: State, c: Module, m: Module, k: string)
    requires k in c.params
  {
    var key := Key(c.id, k);
    && k in m.params && m.params[k] == Expected(s, c, k)
    && (k in s.rates && c.motor && c.id !in s.forever ==>
          && (key in s.saved ==> s.saved[key] == Base(s.convert, c.params[k]))
          && (s.frozen && key !in s.saved ==> Base(s.convert, c.params[k]) == 0.0))
  }

  predicate SameModule(c: Module, m: Module) {
    m.id == c.id && m.motor == c.motor && m.params.Keys == c.params.Keys
  }

  /** All but the switches' own equation. */
  ghost predicate RatesOk(configured: seq<Module>, s: State) {
    && |s.modules| == |configured| && Distinct(Ids(configured)) && ColonFree(s.rates)
    && (s.frozen ==> s.ever)
    && (forall i :: 0 <= i < |configured| ==> SameModule(configured[i], s.modules[i]))
    && (forall i, k :: 0 <= i < |configured| && k in configured[i].params ==>
          RateOk(s, configured[i], s.modules[i], k))
  }

  ghost predicate Inv(configured: seq<Module>, s: State) {
    RatesOk(configured, s) && s.frozen == !(s.learning && s.regime)
  }

  lemma ZeroedIsSame(rates: seq<string>, m: Module)
    ensures SameModule(m, Zeroed(rates, m))
  {
    forall k ensures k in Zero(m.params, rates) <==> k in m.params {
      ZeroAt(m.params, rates, k);
    }
  }

  lemma ThawedIsSame(rates: seq<string>, m: Module, saved: map<string, real>)
    ensures SameModule(m, Thawed(rates, m, saved))
  {
    forall k ensures k in PutBack(m.id, m.params, rates, saved) <==> k in m.params {
      PutBackAt(m.id, m.params, rates, saved, k);
    }
  }

  lemma FreezeRate(s: State, t: State, c: Module, m: Module, k: string)
    requires k in c.params && SameModule(c, m) && RateOk(s, c, m, k)
    requires !s.frozen && t == s.(frozen := true, ever := true, modules := t.modules, saved := t.saved)
    requires k in s.rates && c.motor && c.id !in s.forever ==>
               if Writes(s.convert, m.params, s.rates, k) then
                 Key(c.id, k) in t.saved && t.saved[Key(c.id, k)] == Kept(s.convert, m.params[k]).value
               else SameAt(s.saved, t.saved, Key(c.id, k))
    ensures RateOk(t, c, if m.motor then Zeroed(s.rates, m) else m, k)
  {
    ZeroAt(m.params, s.rates, k);
  }

  lemma FreezeKeeps(configured: seq<Module>, s: State)
    requires RatesOk(configured, s) && !s.frozen
    ensures var (modules, saved) := FreezeAll(s.rates, s.convert, s.modules, s.saved);
            RatesOk(configured, s.(frozen := true, ever := true, modules := modules, saved := saved))
  {
    var (modules, saved) := FreezeAll(s.rates, s.convert, s.modules, s.saved);
    var t := s.(frozen := true, ever := true, modules := modules, saved := saved);
    FreezeAllLength(s.rates, s.convert, s.modules, s.saved);
    forall i | 0 <= i < |configured| ensures SameModule(configured[i], t.modules[i]) {
      FreezeAllAt(s.rates, s.convert, s.modules, s.saved, i);
      ZeroedIsSame(s.rates, s.modules[i]);
    }
    forall i, k | 0 <= i < |configured| && k in configured[i].params
      ensures RateOk(t, configured[i], t.modules[i], k)
    {
      var c, m := configured[i], s.modules[i];
      assert SameModule(c, m) && RateOk(s, c, m, k);
      FreezeAllAt(s.rates, s.convert, s.modules, s.saved, i);
      if k in s.rates && c.motor {
        SameIdsAreDistinct(configured, s.modules);
        FreezeAllNotes(s.rates, s.convert, s.modules, s.saved, i, k);
      }
      FreezeRate(s, t, c, m, k);
    }
  }

  lemma SameIdsAreDistinct(configured: seq<Module>, ms: seq<Module>)
    requires |ms| == |configured| && Distinct(Ids(configured))
    requires forall i :: 0 <= i < |configured| ==> SameModule(configured[i], ms[i])
    ensures Distinct(Ids(ms))
  {
    forall i | 0 <= i < |ms| ensures Ids(ms)[i] == Ids(configured)[i] {
      assert SameModule(configured[i], ms[i]);
    }
  }

  lemma ThawRate(s: State, t: State, c: Module, m: Module, k: string)
    requires k in c.params && SameModule(c, m) && RateOk(s, c, m, k)
    requires s.frozen && s.ever && t == s.(frozen := false, modules := t.modules)
    ensures RateOk(t, c, if m.motor && m.id !in s.forever then Thawed(s.rates, m, s.saved) else m, k)
  {
    PutBackAt(m.id, m.params, s.rates, s.saved, k);
  }

  lemma ThawKeeps(configured: seq<Module>, s: State)
    requires RatesOk(configured, s) && s.frozen
    ensures RatesOk(configured, s.(frozen := false, modules := ThawAll(s.rates, s.modules, s.saved, s.forever)))
  {
    var t := s.(frozen := false, modules := ThawAll(s.rates, s.modules, s.saved, s.forever));
    ThawAllLength(s.rates, s.modules, s.saved, s.forever);
    forall i | 0 <= i < |configured| ensures SameModule(configured[i], t.modules[i]) {
      ThawAllAt(s.rates, s.modules, s.saved, s.forever, i);
      ThawedIsSame(s.rates, s.modules[i], s.saved);
    }
    forall i, k | 0 <= i < |configured| && k in configured[i].params
      ensures RateOk(t, configured[i], t.modules[i], k)
    {
      assert SameModule(configured[i], s.modules[i]) && RateOk(s, configured[i], s.modules[i], k);
      ThawAllAt(s.rates, s.modules, s.saved, s.forever, i);
      ThawRate(s, t, configured[i], s.modules[i], k);
    }
  }

  lemma NamedRate(s: State, t: State, id: string, c: Module, m: Module, k: string)
    requires k in c.params && SameModule(c, m) && RateOk(s, c, m, k)
    requires t == s.(forever := s.forever + {id}, modules := t.modules, saved := t.saved)
    requires k in s.rates && c.id != id ==> SameAt(s.saved, t.saved, Key(c.id, k))
    ensures RateOk(t, c, if m.id == id then Zeroed(s.rates, m) else m, k)
  {
    ZeroAt(m.params, s.rates, k);
  }

  lemma NamedKeeps(configured: seq<Module>, s: State, id: string)
    requires RatesOk(configured, s)
    ensures RatesOk(configured, Step(s, FreezeModule(id)))
  {
    var t := Step(s, FreezeModule(id));
    FreezeNamedLength(s.rates, id, s.modules, s.saved);
    forall i | 0 <= i < |configured| ensures SameModule(configured[i], t.modules[i]) {
      FreezeNamedAt(s.rates, id, s.modules, s.saved, i);
      ZeroedIsSame(s.rates, s.modules[i]);
    }
    forall i, k | 0 <= i < |configured| && k in configured[i].params
      ensures RateOk(t, configured[i], t.modules[i], k)
    {
      var c, m := configured[i], s.modules[i];
      assert SameModule(c, m) && RateOk(s, c, m, k);
      FreezeNamedAt(s.rates, id, s.modules, s.saved, i);
      if k in s.rates && c.id != id {
        FreezeNamedKeeps(s.rates, id, s.modules, s.saved, c.id, k);
      }
      NamedRate(s, t, id, c, m, k);
    }
  }

  lemma SettleKeeps(configured: seq<Module>, s: State)
    requires RatesOk(configured, s)
    ensures Inv(configured, Settle(s))
  {
    if s.learning && s.regime {
      if s.frozen {
        ThawKeeps(configured, s);
      }
    } else if !s.frozen {
      FreezeKeeps(configured, s);
    }
  }

  lemma SwitchChangesNoRate(configured: seq<Module>, s: State, learning: bool, regime: bool)
    requires RatesOk(configured, s)
    ensures RatesOk(configured, s.(learning := learning, regime := regime))
  {
    var t := s.(learning := learning, regime := regime);
    forall i, k | 0 <= i < |configured| && k in configured[i].params
      ensures RateOk(t, configured[i], t.modules[i], k)
    {
      assert RateOk(s, configured[i], s.modules[i], k);
    }
  }

  lemma StepKeepsInv(configured: seq<Module>, s: State, c: Call)
    requires Inv(configured, s)
    ensures Inv(configured, Step(s, c))
  {
    match c
    case SetLearning(on) =>
      SwitchChangesNoRate(configured, s, on, s.regime);
      SettleKeeps(configured, s.(learning := on));
    case SetRegime(on) =>
      SwitchChangesNoRate(configured, s, s.learning, on);
      SettleKeeps(configured, s.(regime := on));
    case FreezeModule(id) =>
      NamedKeeps(configured, s, id);
  }

  /** Every interleaving of the calls keeps the invariant. */
  lemma {:induction false} RunKeepsInv(rates: seq<string>, configured: seq<Module>, convert: bool, calls: seq<Call>)
    requires Distinct(Ids(configured)) && ColonFree(rates)
    ensures Inv(configured, Run(Start(rates, convert, configured), calls))
    ensures Run(Start(rates, convert, configured), calls).convert == convert
    ensures Run(Start(rates, convert, configured), calls).rates == rates
  {
    if calls != [] {
      RunKeepsInv(rates, configured, convert, calls[..|calls| - 1]);
      StepKeepsInv(configured, Run(Start(rates, convert, configured), calls[..|calls| - 1]), calls[|calls| - 1]);
    }
  }

  predicate Frozen(s: State, m: Module) {
    m.id in s.forever || (m.motor && s.frozen)
  }

  /** A rate given as a double is zero while its module is frozen and otherwise equal to its configured value, whatever
      calls came before; a parameter that is not a rate is never touched. */
  lemma FreezingNeverLosesARate(rates: seq<string>, configured: seq<Module>, convert: bool, calls: seq<Call>, i: nat,
                                k: string)
    requires ColonFree(rates) && Distinct(Ids(configured)) && i < |configured| && k in configured[i].params
    requires k in rates ==> configured[i].params[k].Real?
    ensures var s := Run(Start(rates, convert, configured), calls);
            && |s.modules| == |configured| && k in s.modules[i].params
            && s.modules[i].params[k] ==
               (if k in rates && Frozen(s, configured[i]) then Real(0.0) else configured[i].params[k])
            && s.frozen == !(s.learning && s.regime)
  {
    RunKeepsInv(rates, configured, convert, calls);
    var s := Run(Start(rates, convert, configured), calls);
    assert RateOk(s, configured[i], s.modules[i], k);
  }

  /** What one call adds to the adapter's memory. */
  lemma StepNotes(s: State, call: Call)
    ensures var t := Step(s, call);
            && t.forever == s.forever + (if call.FreezeModule? then {call.id} else {})
            && (t.ever <==> s.ever || (t.frozen && !s.frozen))
            && (call.FreezeModule? ==> t.frozen == s.frozen)
  {
  }

  /** Some of the calls left the adapter frozen. */
  ghost predicate WasFrozen(s: State, calls: seq<Call>) {
    exists j :: 0 <= j <= |calls| && Run(s, calls[..j]).frozen
  }

  lemma WasFrozenNext(s: State, calls: seq<Call>)
    requires calls != []
    ensures WasFrozen(s, calls) <==> WasFrozen(s, calls[..|calls| - 1]) || Run(s, calls).frozen
  {
    var n := |calls| - 1;
    var front := calls[..n];
    assert calls[..n + 1] == calls;
    assert forall j :: 0 <= j <= n ==> front[..j] == calls[..j];
    if WasFrozen(s, front) {
      var j :| 0 <= j <= n && Run(s, front[..j]).frozen;
      assert Run(s, calls[..j]).frozen;
    }
    if WasFrozen(s, calls) {
      var j :| 0 <= j <= n + 1 && Run(s, calls[..j]).frozen;
      assert j <= n ==> Run(s, front[..j]).frozen;
    }
  }

  lemma {:induction false} EverIsFrozen(s: State, calls: seq<Call>)
    requires !s.frozen && !s.ever
    ensures Run(s, calls).ever <==> WasFrozen(s, calls)
    ensures Run(s, calls).frozen ==> Run(s, calls).ever
  {
    if calls == [] {
      assert calls[..0] == [];
    } else {
      EverIsFrozen(s, calls[..|calls| - 1]);
      WasFrozenNext(s, calls);
      StepNotes(Run(s, calls[..|calls| - 1]), calls[|calls| - 1]);
    }
  }

  lemma {:induction false} ForeverIsCalled(s: State, calls: seq<Call>, id: string)
    ensures id in Run(s, calls).forever <==> id in s.forever || FreezeModule(id) in calls
  {
    if calls != [] {
      var n := |calls| - 1;
      ForeverIsCalled(s, calls[..n], id);
      StepNotes(Run(s, calls[..n]), calls[n]);
      assert calls == calls[..n] + [calls[n]];
    }
  }

  /** Whatever the calls, a motor module that is thawed and was never frozen for good has its rate back exactly when the
      rate is a double, or there was no freeze: the joint adapter leaves an integer rate at zero, the others turn it into
      a double. */
  lemma FreezeAndThaw(rates: seq<string>, configured: seq<Module>, convert: bool, calls: seq<Call>, i: nat, k: string)
    requires ColonFree(rates) && Distinct(Ids(configured)) && i < |configured| && k in rates && k in configured[i].params
    requires configured[i].motor && FreezeModule(configured[i].id) !in calls
    requires !Run(Start(rates, convert, configured), calls).frozen
    ensures var start, c := Start(rates, convert, configured), configured[i].params[k];
            var s := Run(start, calls);
            && |s.modules| == |configured| && k in s.modules[i].params
            && s.modules[i].params[k] == (if WasFrozen(start, calls) then Real(Base(convert, c)) else c)
            && (s.modules[i].params[k] == c <==> c.Real? || !WasFrozen(start, calls))
  {
    var start := Start(rates, convert, configured);
    RunKeepsInv(rates, configured, convert, calls);
    EverIsFrozen(start, calls);
    ForeverIsCalled(start, calls, configured[i].id);
    assert RateOk(Run(start, calls), configured[i], Run(start, calls).modules[i], k);
  }

  lemma {:induction false} ForeverGrows(s: State, calls: seq<Call>)
    ensures s.forever <= Run(s, calls).forever
  {
    if calls != [] {
      ForeverGrows(s, calls[..|calls| - 1]);
      StepNotes(Run(s, calls[..|calls| - 1]), calls[|calls| - 1]);
    }
  }

  lemma {:induction false} RunAppend(s: State, before: seq<Call>, after: seq<Call>)
    ensures Run(s, before + after) == Run(Run(s, before), after)
  {
    if after == [] {
      assert before + after == before;
    } else {
      var n := |after| - 1;
      assert (before + after)[..|before + after| - 1] == before + after[..n];
      RunAppend(s, before, after[..n]);
    }
  }

  /** From freeze_module on, a module's rates are zero, whatever they were and whatever is called afterwards. */
  lemma FrozenForGood(rates: seq<string>, configured: seq<Module>, convert: bool, before: seq<Call>,
                      after: seq<Call>, i: nat, k: string)
    requires ColonFree(rates) && Distinct(Ids(configured)) && i < |configured| && k in rates && k in configured[i].params
    ensures var s := Run(Start(rates, convert, configured), before + [FreezeModule(configured[i].id)] + after);
            && |s.modules| == |configured| && k in s.modules[i].params
            && s.modules[i].params[k] == Real(0.0)
  {
    var frozen := before + [FreezeModule(configured[i].id)];
    var start := Start(rates, convert, configured);
    assert frozen[..|frozen| - 1] == before;
    assert configured[i].id in Run(start, frozen).forever;
    RunAppend(start, frozen, after);
    ForeverGrows(Run(start, frozen), after);
    RunKeepsInv(rates, configured, convert, frozen + after);
    var s := Run(start, frozen + after);
    assert RateOk(s, configured[i], s.modules[i], k);
  }

  // ---------------------------------------------------------------- the classes

  method FreezeEvery(rates: seq<string>, convert: bool, ms: seq<Module>, was: map<string, real>)
    returns (modules: seq<Module>, saved: map<string, real>)
    ensures (modules, saved) == FreezeAll(rates, convert, ms, was)
  {
    modules, saved := [], was;
    for i := 0 to |ms|
      invariant (modules, saved) == FreezeAll(rates, convert, ms[..i], was)
    {
      assert ms[..i + 1][..i] == ms[..i];
      var m := ms[i];
      if m.motor {
        m, saved := FreezeOne(rates, convert, m, saved);
      }
      modules := modules + [m];
    }
    assert ms[..|ms|] == ms;
  }

  method ThawEvery(rates: seq<string>, ms: seq<Module>, saved: map<string, real>, forever: set<string>)
    returns (modules: seq<Module>)
    ensures modules == ThawAll(rates, ms, saved, forever)
  {
    modules := [];
    for i := 0 to |ms|
      invariant modules == ThawAll(rates, ms[..i], saved, forever)
    {
      assert ms[..i + 1][..i] == ms[..i];
      var m := ms[i];
      if m.motor && m.id !in forever {
        m := ThawOne(rates, m, saved);
      }
      modules := modules + [m];
    }
    assert ms[..|ms|] == ms;
  }

  /** OgmaBrainAdapter. */
  class JointAdapter {
    var modules: seq<Module>
    var saved: map<string, real>
    var forever: set<string>
    var learning: bool
    var regime: bool
    var frozen: bool
    ghost var ever: bool

    constructor (configured: seq<Module>)
      ensures Now() == Start(RATES, false, configured)
    {
      modules, saved, forever := configured, map[], {};
      learning, regime, frozen, ever := true, true, false, false;
    }

    ghost function Now(): State
      reads this
    {
      State(RATES, false, modules, saved, learning, regime, frozen, forever, ever)
    }

    method SwitchLearning(on: bool)
      modifies this
      ensures Now() == Step(old(Now()), SetLearning(on))
    {
      learning := on;
      Apply();
    }

    method SwitchRegime(on: bool)
      modifies this
      ensures Now() == Step(old(Now()), SetRegime(on))
    {
      regime := on;
      Apply();
    }

    method Apply()
      modifies this`frozen, this`modules, this`saved, this`ever
      ensures Now() == Settle(old(Now()))
    {
      var on := learning && regime;
      if on == !frozen { return; }
      frozen := !on;
      if on {
        modules := ThawEvery(RATES, modules, saved, forever);
      } else {
        modules, saved := FreezeEvery(RATES, false, modules, saved);
        ever := true;
      }
    }

    method FreezeForGood(id: string)
      modifies this`modules, this`saved, this`forever
      ensures Now() == Step(old(Now()), FreezeModule(id))
    {
      forever := forever + {id};
      var ms := modules;
      modules := [];
      for i := 0 to |ms|
        invariant forever == old(forever) + {id}
        invariant (modules, saved) == FreezeNamed(RATES, id, ms[..i], old(saved))
      {
        assert ms[..i + 1][..i] == ms[..i];
        var m := ms[i];
        if m.id == id {
          m, saved := FreezeOne(RATES, false, m, saved);
        }
        modules := modules + [m];
      }
      assert ms[..|ms|] == ms;
    }
  }

  /** IntentAdapter; HeadAdapter is the same without the latch. */
  class WalkerAdapter {
    var modules: seq<Module>
    var saved: map<string, real>
    var frozen: bool
    var latched: bool
    ghost var ever: bool

    constructor (configured: seq<Module>)
      ensures Now() == Start(RATES, true, configured) && !latched
    {
      modules, saved := configured, map[];
      frozen, latched, ever := false, false, false;
    }

    ghost predicate Valid()
      reads this
    {
      latched ==> frozen
    }

    ghost function Now(): State
      reads this
    {
      State(RATES, true, modules, saved, !frozen, true, frozen, {}, ever)
    }

    /** Once the walker is frozen for the run nothing turns it back on. */
    method SwitchLearning(on: bool)
      requires Valid()
      modifies this
      ensures Valid() && latched == old(latched)
      ensures Now() == if on && latched then old(Now()) else Step(old(Now()), SetLearning(on))
      ensures latched ==> Now() == old(Now())
    {
      if on && latched { return; }
      if on == !frozen { return; }
      frozen := !on;
      if frozen {
        modules, saved := FreezeEvery(RATES, true, modules, saved);
        ever := true;
      } else {
        modules := ThawEvery(RATES, modules, saved, {});
      }
    }

    method FreezeWalker()
      requires Valid()
      modifies this
      ensures Valid() && latched && frozen
      ensures Now() == Step(old(Now()), SetLearning(false))
    {
      SwitchLearning(false);
      latched := true;
    }
  }
}
