/** mj_host/src/IntentAdapter.cpp: a detour starts anew only after enough ticks in a row that saw the return. */
module Arming {
  import opened Detour
  import opened Prelude

  // ---------------------------------------------------------------- the ticks that count

  /** The tick reopens a walk out: one is held and goes on, and the way ahead has closed. */
  predicate Closes(c: Config, s: State, e: Event) {
    e.Ticked? && c.reopen > 0.0 && s.hold.walking && s.hold.left > 1 && e.senses.ahead > c.reopen
  }

  /** The tick comes to the arming: nothing turns, and no hold is left once it has counted down. */
  predicate Tries(c: Config, s: State, e: Event) {
    e.Ticked? && if Closes(c, s, e) then c.max == 0 else s.turn.left == 0 && s.hold.left <= 1
  }

  /** And it sees the return: the seek loop steers, no hold ran, and something is nearer than the target. */
  predicate Saw(s: State, e: Event) {
    e.Ticked? && s.hold.left == 0 && e.senses.seek && e.senses.nearer
  }

  /** The event starts a detour that is no walk out reopened. */
  predicate StartsFresh(c: Config, s: State, e: Event) {
    var t := Apply(c, s, e);
    t.counts.starts - s.counts.starts > t.counts.reopens - s.counts.reopens
  }

  function At(c: Config, events: seq<Event>, k: nat): State
    requires k <= |events|
  {
    Run(c, START, events[..k])
  }

  predicate TriesAt(c: Config, events: seq<Event>, k: nat)
    requires k < |events|
  {
    Tries(c, At(c, events, k), events[k])
  }

  /** The tick saw the return and started nothing. */
  predicate CountsAt(c: Config, events: seq<Event>, k: nat)
    requires k < |events|
  {
    Saw(At(c, events, k), events[k]) && !StartsFresh(c, At(c, events, k), events[k])
  }

  /** How many of the events from `from` up to `to` come to the arming. */
  function TriesIn(c: Config, events: seq<Event>, from: nat, to: nat): nat
    requires from <= to <= |events|
  {
    if from == to then 0 else TriesIn(c, events, from, to - 1) + if TriesAt(c, events, to - 1) then 1 else 0
  }

  /** Among the first n events m ticks or more came to the arming, and the last m of those all saw the return and started
      nothing. */
  ghost predicate LastSaw(c: Config, events: seq<Event>, n: nat, m: nat)
    requires n <= |events|
  {
    && m <= TriesIn(c, events, 0, n)
    && forall k :: 0 <= k < n && TriesAt(c, events, k) && TriesIn(c, events, k + 1, n) < m ==> CountsAt(c, events, k)
  }

  // ---------------------------------------------------------------- the count is the row

  lemma StepArms(c: Config, s: State, e: Event)
    ensures Apply(c, s, e).armed ==
            if !Tries(c, s, e) then s.armed
            else if StartsFresh(c, s, e) || !Saw(s, e) then 0 else s.armed + 1
    ensures Tries(c, s, e) ==> (StartsFresh(c, s, e) <==> (if Saw(s, e) then s.armed + 1 else 0) >= c.arm)
    ensures StartsFresh(c, s, e) ==> Tries(c, s, e)
  {
    if e.Ticked? {
      var s1 := s.(hold := CountDown(s.hold));
      var s2 := Reopen(c, s1, e.senses);
      var s3 := Arm(c, s2, e.senses, Sees(s, e.senses));
      assert Tries(c, s, e) <==> Idle(s2);
      TurnKeepsCourse(c, s3, e.senses);
      TurnKeepsArmed(c, s3, e.senses);
    }
  }

  lemma TurnKeepsArmed(c: Config, s: State, i: Senses)
    ensures TurnStep(c, s, i).armed == s.armed
  {
  }

  /** One event more. */
  lemma NextEvent(c: Config, events: seq<Event>, n: nat, m: nat)
    requires n < |events|
    ensures LastSaw(c, events, n + 1, m) <==>
              if !TriesAt(c, events, n) then LastSaw(c, events, n, m)
              else m == 0 || (CountsAt(c, events, n) && LastSaw(c, events, n, m - 1))
  {
    var tried := if TriesAt(c, events, n) then 1 else 0;
    assert forall k: nat :: k <= n ==> TriesIn(c, events, k, n + 1) == TriesIn(c, events, k, n) + tried;
    assert TriesIn(c, events, n + 1, n + 1) == 0;
  }

  /** Over any run the arming count is the length of the row: of the ticks that came to the arming, the last so many saw
      the return and started nothing, and no longer row did. */
  lemma {:induction false} ArmedIsTheRow(c: Config, events: seq<Event>, n: nat, m: nat)
    requires n <= |events|
    ensures LastSaw(c, events, n, m) <==> m <= At(c, events, n).armed
    decreases n
  {
    if n > 0 {
      NextEvent(c, events, n - 1, m);
      ArmedIsTheRow(c, events, n - 1, m);
      if m > 0 {
        ArmedIsTheRow(c, events, n - 1, m - 1);
      }
      RunNext(c, START, events, n - 1);
      StepArms(c, At(c, events, n - 1), events[n - 1]);
    }
  }

  /** After any run a tick starts a detour anew if and only if it comes to the arming and, unless arming takes no ticks,
      it and the arm - 1 ticks before it that came to the arming all saw the return, with no start among those: one tick
      that comes to the arming and misses the return makes the count begin again. */
  lemma FreshStartIff(c: Config, before: seq<Event>, e: Event)
    ensures var s := Run(c, START, before);
            StartsFresh(c, s, e) <==>
              Tries(c, s, e) && (c.arm == 0 || (Saw(s, e) && LastSaw(c, before, |before|, c.arm - 1)))
  {
    StepArms(c, Run(c, START, before), e);
    assert before[..|before|] == before;
    if c.arm > 0 {
      ArmedIsTheRow(c, before, |before|, c.arm - 1);
    }
  }

  // ---------------------------------------------------------------- without the host they are consecutive

  predicate Sighting(e: Event) {
    e.Ticked? && e.senses.seek && e.senses.nearer
  }

  /** The last `armed` events were sightings, and while the count stands nothing turns or holds. */
  predicate RowOk(s: State, events: seq<Event>) {
    && s.armed <= |events|
    && (forall k :: |events| - s.armed <= k < |events| ==> Sighting(events[k]))
    && (s.armed > 0 ==> Idle(s))
  }

  lemma StepKeepsRow(c: Config, s: State, before: seq<Event>, e: Event)
    requires RowOk(s, before) && e.Ticked?
    ensures RowOk(Step(c, s, e.senses), before + [e])
    ensures StartsFresh(c, s, e) && c.arm > 0 ==> Sighting(e) && s.armed + 1 >= c.arm
  {
    StepArms(c, s, e);
  }

  lemma {:induction false} RowIsConsecutive(c: Config, events: seq<Event>)
    requires forall e :: e in events ==> e.Ticked?
    ensures RowOk(Run(c, START, events), events)
  {
    if events != [] {
      var n := |events| - 1;
      RowIsConsecutive(c, events[..n]);
      RunNext(c, START, events, n);
      assert events[..|events|] == events && events == events[..n] + [events[n]];
      StepKeepsRow(c, Run(c, START, events[..n]), events[..n], events[n]);
    }
  }

  /** When the host asks for no hold, a fresh start needs `arm` ticks in a row, the last being its own, on each of which
      the seek loop steers and a return is nearer than its target. */
  lemma FreshStartNeedsARow(c: Config, events: seq<Event>)
    requires events != [] && forall e :: e in events ==> e.Ticked?
    requires StartsFresh(c, Run(c, START, events[..|events| - 1]), events[|events| - 1])
    ensures c.arm <= |events| && forall k :: |events| - c.arm <= k < |events| ==> Sighting(events[k])
  {
    var n := |events| - 1;
    RowIsConsecutive(c, events[..n]);
    StepKeepsRow(c, Run(c, START, events[..n]), events[..n], events[n]);
    if c.arm > 0 {
      forall k | |events| - c.arm <= k < |events| ensures Sighting(events[k]) {
        assert k < n ==> events[..n][k] == events[k];
      }
    }
  }
}
