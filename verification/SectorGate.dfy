/** mj_host/src/IntentAdapter.cpp: the sector the seek gate erases, held with hysteresis so that it does not
    chatter. */
module SectorGate {
  import opened Prelude

  /** Sectors are 0 left, 1 ahead, 2 right; -1 is none held.  Bearings are positive to the right. */
  function Raw(mid: real, ego: real): (s: int)
    ensures 0 <= s <= 2
  {
    if ego < -mid then 0 else if ego > mid then 2 else 1
  }

  /** What one tick does to the gate: the seek loop holds the reference on a target at `ego`, or it does not and the
      held sector lapses. */
  datatype Tick = Held(ego: real) | Lapsed

  datatype State = State(slot: int, switches: nat)

  const START := State(-1, 0)

  /** Past the boundary between the held sector and the bearing's own by h. */
  predicate Leaves(mid: real, h: real, s: int, ego: real) {
    var raw := Raw(mid, ego);
    if s == 1 && raw == 0 then ego < -mid - h
    else if s == 1 && raw == 2 then ego > mid + h
    else if s == 0 && raw == 1 then ego > -mid + h
    else if s == 2 && raw == 1 then ego < mid - h
    else raw != s
  }

  function Step(mid: real, h: real, s: State, t: Tick): State {
    match t
    case Lapsed => s.(slot := -1)
    case Held(ego) =>
      if h <= 0.0 then s
      else if s.slot < 0 then s.(slot := Raw(mid, ego))
      else if Leaves(mid, h, s.slot, ego) then State(Raw(mid, ego), s.switches + 1)
      else s
  }

  function Run(mid: real, h: real, ticks: seq<Tick>): State {
    if ticks == [] then START
    else Step(mid, h, Run(mid, h, ticks[..|ticks| - 1]), ticks[|ticks| - 1])
  }

  /** How far the bearing moved while held: the total variation of each uninterrupted hold, summed. */
  function Variation(ticks: seq<Tick>): (v: real)
    ensures v >= 0.0
  {
    if |ticks| < 2 then 0.0
    else
      var before := Variation(ticks[..|ticks| - 1]);
      match (ticks[|ticks| - 2], ticks[|ticks| - 1])
      case (Held(a), Held(b)) => before + Abs(b - a)
      case _ => before
  }

  /** k switches at m each. */
  function Cost(k: nat, m: real): real {
    if k == 0 then 0.0 else Cost(k - 1, m) + m
  }

  lemma {:induction false} CostIsProduct(k: nat, m: real)
    ensures Cost(k, m) == k as real * m
  {
    if k > 0 {
      CostIsProduct(k - 1, m);
      assert (k - 1) as real * m + m == ((k - 1) as real + 1.0) * m;
    }
  }

  /** The held sector was the bearing's own at some anchor; every switch so far has been paid for by movement, and the
      way from the anchor to the current bearing by movement since. */
  ghost predicate Paid(mid: real, h: real, m: real, ticks: seq<Tick>, anchor: real) {
    var s := Run(mid, h, ticks);
    if ticks != [] && ticks[|ticks| - 1].Held? then
      && s.slot == Raw(mid, anchor)
      && Cost(s.switches, m) + Abs(ticks[|ticks| - 1].ego - anchor) <= Variation(ticks)
    else s.slot == -1 && Cost(s.switches, m) <= Variation(ticks)
  }

  /** A switch needs a bearing at least h or 2 mid away from every bearing of the sector it leaves. */
  lemma SwitchIsFar(mid: real, h: real, m: real, anchor: real, ego: real)
    requires h > 0.0 && m <= h && m <= 2.0 * mid && Leaves(mid, h, Raw(mid, anchor), ego)
    ensures Abs(ego - anchor) >= m
  {
  }

  lemma {:induction false} SwitchesArePaid(mid: real, h: real, m: real, ticks: seq<Tick>) returns (anchor: real)
    requires h > 0.0 && m <= h && m <= 2.0 * mid
    ensures Paid(mid, h, m, ticks, anchor)
  {
    anchor := 0.0;
    if ticks != [] {
      var n := |ticks| - 1;
      var before := SwitchesArePaid(mid, h, m, ticks[..n]);
      var s := Run(mid, h, ticks[..n]);
      match ticks[n]
      case Lapsed =>
      case Held(ego) =>
        if n == 0 || ticks[n - 1].Lapsed? {
          anchor := ego;
        } else if Leaves(mid, h, s.slot, ego) {
          anchor := ego;
          SwitchIsFar(mid, h, m, before, ego);
        } else {
          anchor := before;
        }
    }
  }

  lemma {:induction false} SwitchesAreCovered(mid: real, h: real, m: real, ticks: seq<Tick>)
    requires m <= h && m <= 2.0 * mid
    ensures Cost(Run(mid, h, ticks).switches, m) <= Variation(ticks)
  {
    if h > 0.0 {
      var anchor := SwitchesArePaid(mid, h, m, ticks);
    } else {
      NeverSwitches(mid, h, ticks);
    }
  }

  /** The gate cannot chatter: over any run, the switches times the smaller of h and 2 mid (m, and a fortiori anything
      smaller) are at most the bearing's movement. */
  lemma {:induction false} CannotChatter(mid: real, h: real, m: real, ticks: seq<Tick>)
    requires m <= h && m <= 2.0 * mid
    ensures Run(mid, h, ticks).switches as real * m <= Variation(ticks)
  {
    SwitchesAreCovered(mid, h, m, ticks);
    CostIsProduct(Run(mid, h, ticks).switches, m);
  }

  lemma {:induction false} NeverSwitches(mid: real, h: real, ticks: seq<Tick>)
    requires h <= 0.0
    ensures Run(mid, h, ticks) == START
  {
    if ticks != [] {
      NeverSwitches(mid, h, ticks[..|ticks| - 1]);
    }
  }

  /** Without the hysteresis the sector can change on any movement, however small. */
  lemma BareGateChatters(mid: real, d: real) returns (a: real, b: real)
    requires mid > 0.0 && d > 0.0
    ensures Abs(b - a) <= d && Raw(mid, a) != Raw(mid, b)
  {
    a, b := mid, mid + d;
  }

  /** While held, the sector in use is never more than h from the bearing's own: it is the raw one, or the bearing is
      within h of the boundary between the two. */
  lemma {:induction false} HeldSectorIsNear(mid: real, h: real, ticks: seq<Tick>)
    requires h > 0.0 && mid > 0.0 && ticks != [] && ticks[|ticks| - 1].Held?
    ensures var s, ego := Run(mid, h, ticks).slot, ticks[|ticks| - 1].ego;
            && 0 <= s <= 2
            && (s == Raw(mid, ego)
                || (s + Raw(mid, ego) == 1 && Abs(ego + mid) <= h)
                || (s + Raw(mid, ego) == 3 && Abs(ego - mid) <= h))
  {
    var n := |ticks| - 1;
    if n > 0 && ticks[n - 1].Held? {
      HeldSectorIsNear(mid, h, ticks[..n]);
    } else if n > 0 {
      assert Run(mid, h, ticks[..n]).slot == -1;
    }
  }

  class Gate {
    const mid: real
    const hyst: real
    var slot: int
    var switches: nat

    constructor (mid: real, hyst: real)
      ensures this.mid == mid && this.hyst == hyst && Now() == START
    {
      this.mid, this.hyst := mid, hyst;
      slot, switches := -1, 0;
    }

    ghost function Now(): State
      reads this
    {
      State(slot, switches)
    }

    /** gate_slot_for; only ever called with a sector held or none. */
    method SlotFor(ego: real) returns (s: int)
      requires -1 <= slot <= 2
      modifies this
      ensures Now() == Step(mid, hyst, old(Now()), Held(ego))
      ensures s == if hyst > 0.0 then slot else Raw(mid, ego)
      ensures 0 <= s <= 2 && -1 <= slot <= 2
    {
      var raw := if ego < -mid then 0 else if ego > mid then 2 else 1;
      if hyst <= 0.0 { return raw; }
      s := if slot < 0 then raw else slot;
      if raw != s {
        var go := true;
        if s == 1 && raw == 0 {
          go := ego < -mid - hyst;
        } else if s == 1 && raw == 2 {
          go := ego > mid + hyst;
        } else if s == 0 && raw == 1 {
          go := ego > -mid + hyst;
        } else if s == 2 && raw == 1 {
          go := ego < mid - hyst;
        }
        if go {
          s := raw;
          switches := switches + 1;
        }
      }
      slot := s;
    }

    /** The sector the heading reflex erases later in the tick: the held one, or with none held the bearing's own. */
    method ReflexSlot(ego: real) returns (s: int)
      ensures s == if hyst > 0.0 && slot >= 0 then slot else Raw(mid, ego)
    {
      s := if hyst > 0.0 && slot >= 0 then slot else if ego < -mid then 0 else if ego > mid then 2 else 1;
    }

    method Lapse()
      modifies this`slot
      ensures Now() == Step(mid, hyst, old(Now()), Lapsed)
    {
      slot := -1;
    }

    /** One tick's gating; the reflex then works on the very sector that was gated, whatever the bearing is by then. */
    method TickGate(t: Tick, laterEgo: real) returns (gated: int, reflex: int)
      requires -1 <= slot <= 2 && hyst > 0.0
      modifies this
      ensures Now() == Step(mid, hyst, old(Now()), t)
      ensures -1 <= slot <= 2
      ensures t.Held? ==> reflex == gated
    {
      match t {
        case Lapsed =>
          Lapse();
          gated := -1;
        case Held(ego) =>
          gated := SlotFor(ego);
      }
      reflex := ReflexSlot(laterEgo);
    }
  }
}
