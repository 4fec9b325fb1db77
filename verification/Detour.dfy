/** mj_host/src/IntentAdapter.cpp: backing away while turning, then a held heading that walks out. */
module Detour {
  import opened Prelude

  /** 10 s of ticks: a detour starting within them of the last one's end meets the same obstacle. */
  const AGAIN := 500

  /** Set once before the run: the ticks to arm, the most a turn takes, the walk out's ticks, and the options. */
  datatype Config = Config(arm: nat, max: nat, out: nat, commit: bool, reopen: real, forget: nat)

  /** What a tick sees: whether the seek loop would win the reference, whether a return is nearer than its target, the
      three sectors' proximities and the target's bearing (positive to the right). */
  datatype Senses = Senses(seek: bool, nearer: bool, left: real, ahead: real, right: real, ego: real)

  /** The reference hold counting down.  `mine` is not in the source: the hold is this machine's walk out, not one the
      host asked for. */
  datatype Hold = Hold(left: nat, mine: bool, walking: bool)

  datatype Turn = Turn(left: nat, age: nat)

  /** Which way the detour turns, how long it walks out, and when the last walk out is over. */
  datatype Course = Course(dir: real, out: nat, lastEnd: int)

  datatype Counts = Counts(starts: nat, repeats: nat, clears: nat, reopens: nat, forgets: nat)

  datatype State = State(tick: nat, hold: Hold, turn: Turn, armed: nat, course: Course, chain: nat, counts: Counts)

  const START := State(0, Hold(0, false, false), Turn(0, 0), 0, Course(0.0, 0, -1000000), 0, Counts(0, 0, 0, 0, 0))

  // ---------------------------------------------------------------- one tick

  function CountDown(h: Hold): Hold {
    if h.left <= 1 then Hold(0, false, false) else h.(left := h.left - 1)
  }

  /** The chain of detours is now `length` long; at the limit the held target is forgotten and the chain ends. */
  function Chained(c: Config, s: State, length: nat): nat {
    if c.forget == 0 then s.chain else if length >= c.forget then 0 else length
  }

  function Forgets(c: Config, length: nat): nat {
    if c.forget > 0 && length >= c.forget then 1 else 0
  }

  function Again(c: Config, course: Course): Course {
    course.(out := Min(2 * course.out, 4 * c.out))
  }

  predicate Reopens(c: Config, s: State, i: Senses) {
    c.reopen > 0.0 && s.hold.walking && s.hold.left > 0 && i.ahead > c.reopen
  }

  function Reopen(c: Config, s: State, i: Senses): State {
    if Reopens(c, s, i) then
      State(s.tick, Hold(0, false, false), Turn(c.max, 0), s.armed, Again(c, s.course), Chained(c, s, s.chain + 1),
            Counts(s.counts.starts + 1, s.counts.repeats + 1, s.counts.clears, s.counts.reopens + 1,
                   s.counts.forgets + Forgets(c, s.chain + 1)))
    else s
  }

  /** Toward the lower proximity, the target's side on a tie; positive is left. */
  function FreerSide(i: Senses): real {
    if i.left < i.right then 1.0 else if i.right < i.left then -1.0 else if i.ego > 0.0 then -1.0 else 1.0
  }

  predicate Soon(s: State) {
    s.tick - s.course.lastEnd <= AGAIN
  }

  function Armed(s: State, sees: bool): nat {
    if sees then s.armed + 1 else 0
  }

  predicate Idle(s: State) {
    s.turn.left == 0 && s.hold.left == 0
  }

  function Length(s: State): nat {
    if Soon(s) then s.chain + 1 else 1
  }

  function StartTurn(c: Config, s: State, i: Senses): State {
    var again := c.commit && Soon(s);
    State(s.tick, s.hold, Turn(c.max, 0), 0,
          if again then Again(c, s.course) else Course(FreerSide(i), c.out, s.course.lastEnd),
          Chained(c, s, Length(s)),
          Counts(s.counts.starts + 1, s.counts.repeats + (if again then 1 else 0), s.counts.clears, s.counts.reopens,
                 s.counts.forgets + Forgets(c, Length(s))))
  }

  function Arm(c: Config, s: State, i: Senses, sees: bool): State {
    if !Idle(s) then s
    else if Armed(s, sees) >= c.arm then StartTurn(c, s, i)
    else s.(armed := Armed(s, sees))
  }

  predicate Clear(s: State, i: Senses) {
    s.turn.age + 1 >= 10 && i.ahead <= 0.0 && (if s.course.dir > 0.0 then i.right else i.left) <= 0.0
  }

  function OutTicks(c: Config, s: State): nat {
    if c.commit then s.course.out else c.out
  }

  /** The heading found is held. */
  function WalkOut(c: Config, s: State, clear: bool): State {
    var out := OutTicks(c, s);
    State(s.tick, Hold(out, out > 0, s.hold.walking || c.reopen > 0.0), Turn(0, s.turn.age + 1), s.armed,
          s.course.(lastEnd := s.tick + out), s.chain,
          s.counts.(clears := s.counts.clears + if clear then 1 else 0))
  }

  function TurnStep(c: Config, s: State, i: Senses): State {
    if s.turn.left == 0 then s
    else if Clear(s, i) || s.turn.left == 1 then WalkOut(c, s, Clear(s, i))
    else s.(turn := Turn(s.turn.left - 1, s.turn.age + 1))
  }

  /** A held reference is not the seek loop's, so nothing arms on the tick a hold ends. */
  predicate Sees(s: State, i: Senses) {
    s.hold.left == 0 && i.seek && i.nearer
  }

  function Step(c: Config, s: State, i: Senses): State {
    var s1 := s.(hold := CountDown(s.hold));
    var s2 := Reopen(c, s1, i);
    var s3 := Arm(c, s2, i, Sees(s, i));
    var s4 := TurnStep(c, s3, i);
    s4.(tick := s.tick + 1)
  }

  /** A run: ticks, and the holds the host asks for between them. */
  datatype Event = Ticked(senses: Senses) | HostHold(ticks: nat)

  function Apply(c: Config, s: State, e: Event): State {
    match e
    case Ticked(i) => Step(c, s, i)
    case HostHold(ticks) => s.(hold := Hold(ticks, false, s.hold.walking))
  }

  function Run(c: Config, s: State, events: seq<Event>): State
    decreases |events|
  {
    if events == [] then s else Run(c, Apply(c, s, events[0]), events[1..])
  }

  // ---------------------------------------------------------------- what every run keeps

  predicate HoldOk(c: Config, s: State) {
    && (s.turn.left > 0 ==> !s.hold.mine)
    && (s.hold.mine ==> 0 < s.hold.left <= 4 * c.out)
    && (s.turn.left > 0 ==> s.turn.left + s.turn.age == c.max)
  }

  predicate CourseOk(c: Config, s: State) {
    && (s.counts.starts == 0 ==>
          s.course.out == 0 && s.turn.left == 0 && s.course.lastEnd == -1000000 && !s.hold.walking)
    && (s.counts.starts > 0 ==>
          && (s.course.out == c.out || s.course.out == 2 * c.out || s.course.out == 4 * c.out)
          && (s.course.dir == 1.0 || s.course.dir == -1.0))
  }

  predicate ChainOk(c: Config, s: State) {
    if c.forget == 0 then s.chain == 0 else s.chain < c.forget
  }

  predicate Inv(c: Config, s: State) {
    HoldOk(c, s) && CourseOk(c, s) && ChainOk(c, s)
  }

  lemma ReopenKeepsInv(c: Config, s: State, i: Senses)
    requires Inv(c, s)
    ensures Inv(c, Reopen(c, s, i))
  {
  }

  lemma ArmKeepsInv(c: Config, s: State, i: Senses, sees: bool)
    requires Inv(c, s)
    ensures Inv(c, Arm(c, s, i, sees))
  {
  }

  lemma TurnKeepsInv(c: Config, s: State, i: Senses)
    requires Inv(c, s)
    ensures Inv(c, TurnStep(c, s, i))
  {
  }

  lemma StepKeepsInv(c: Config, s: State, i: Senses)
    requires Inv(c, s)
    ensures Inv(c, Step(c, s, i))
  {
    var s1 := s.(hold := CountDown(s.hold));
    ReopenKeepsInv(c, s1, i);
    ArmKeepsInv(c, Reopen(c, s1, i), i, Sees(s, i));
    TurnKeepsInv(c, Arm(c, Reopen(c, s1, i), i, Sees(s, i)), i);
  }

  lemma {:induction false} RunKeepsInv(c: Config, s: State, events: seq<Event>)
    requires Inv(c, s)
    ensures Inv(c, Run(c, s, events))
    decreases |events|
  {
    if events != [] {
      if events[0].Ticked? {
        StepKeepsInv(c, s, events[0].senses);
      }
      RunKeepsInv(c, Apply(c, s, events[0]), events[1..]);
    }
  }

  /** A turn and the walk out it ends in are never both active, and once a detour has started its walk out is one, two
      or four times the configured one. */
  lemma TurnAndWalkOutNeverOverlap(c: Config, events: seq<Event>)
    ensures var s := Run(c, START, events);
            && !(s.turn.left > 0 && s.hold.mine)
            && (s.counts.starts > 0 ==> s.course.out in {c.out, 2 * c.out, 4 * c.out})
            && s.turn.left <= c.max && (s.hold.mine ==> s.hold.left <= 4 * c.out)
            && (c.forget > 0 ==> s.chain < c.forget)
  {
    RunKeepsInv(c, START, events);
  }

  /** Every hold is this machine's, and none runs beside a turn. */
  predicate Alone(s: State) {
    (s.hold.left > 0 ==> s.hold.mine) && !(s.turn.left > 0 && s.hold.left > 0)
  }

  lemma StepKeepsAlone(c: Config, s: State, i: Senses)
    requires Alone(s)
    ensures Alone(Step(c, s, i))
  {
    var s1 := s.(hold := CountDown(s.hold));
    var s2 := Reopen(c, s1, i);
    assert Alone(s2);
    assert Alone(Arm(c, s2, i, Sees(s, i)));
  }

  /** When the host asks for no hold, turning and any hold at all exclude each other. */
  lemma {:induction false} AloneTheyExclude(c: Config, s: State, events: seq<Event>)
    requires Alone(s) && forall e :: e in events ==> e.Ticked?
    ensures Alone(Run(c, s, events))
    decreases |events|
  {
    if events != [] {
      assert events[0] in events;
      StepKeepsAlone(c, s, events[0].senses);
      AloneTheyExclude(c, Apply(c, s, events[0]), events[1..]);
    }
  }

  /** A turn and a reference hold at once. */
  predicate Overlaps(s: State) {
    s.turn.left > 0 && s.hold.left > 0
  }

  /** The host asks for a hold while the detour turns. */
  predicate CutsIn(s: State, e: Event) {
    e.HostHold? && e.ticks > 0 && s.turn.left > 0
  }

  ghost predicate EverOverlaps(c: Config, events: seq<Event>) {
    exists k :: 0 <= k <= |events| && Overlaps(Run(c, START, events[..k]))
  }

  ghost predicate EverCutsIn(c: Config, events: seq<Event>) {
    exists k :: 0 <= k < |events| && CutsIn(Run(c, START, events[..k]), events[k])
  }

  lemma {:induction false} RunThen(c: Config, s: State, events: seq<Event>, more: seq<Event>)
    ensures Run(c, s, events + more) == Run(c, Run(c, s, events), more)
    decreases |events|
  {
    if events == [] {
      assert events + more == more;
    } else {
      assert (events + more)[1..] == events[1..] + more;
      RunThen(c, Apply(c, s, events[0]), events[1..], more);
    }
  }

  lemma RunOne(c: Config, s: State, e: Event)
    ensures Run(c, s, [e]) == Apply(c, s, e)
  {
    assert [e][1..] == [];
  }

  lemma RunNext(c: Config, s: State, events: seq<Event>, k: nat)
    requires k < |events|
    ensures Run(c, s, events[..k + 1]) == Apply(c, Run(c, s, events[..k]), events[k])
  {
    RunThen(c, s, events[..k], [events[k]]);
    RunOne(c, Run(c, s, events[..k]), events[k]);
    assert events[..k + 1] == events[..k] + [events[k]];
  }

  lemma StepKeepsApart(c: Config, s: State, i: Senses)
    requires !Overlaps(s)
    ensures !Overlaps(Step(c, s, i))
  {
    var s1 := s.(hold := CountDown(s.hold));
    var s2 := Reopen(c, s1, i);
    assert !Overlaps(s2);
    assert !Overlaps(Arm(c, s2, i, Sees(s, i)));
  }

  lemma {:induction false} OverlapWasAskedFor(c: Config, events: seq<Event>, k: nat)
    requires k <= |events| && !EverCutsIn(c, events)
    ensures !Overlaps(Run(c, START, events[..k]))
  {
    if k > 0 {
      OverlapWasAskedFor(c, events, k - 1);
      RunNext(c, START, events, k - 1);
      var s, e := Run(c, START, events[..k - 1]), events[k - 1];
      assert !CutsIn(s, e);
      if e.Ticked? {
        StepKeepsApart(c, s, e.senses);
      }
    }
  }

  /** Over any run a turn and a hold are at some time both active if and only if the host asks for a hold while the
      detour turns. */
  lemma HostHoldDuringATurn(c: Config, events: seq<Event>)
    ensures EverOverlaps(c, events) <==> EverCutsIn(c, events)
  {
    if EverCutsIn(c, events) {
      var k :| 0 <= k < |events| && CutsIn(Run(c, START, events[..k]), events[k]);
      RunNext(c, START, events, k);
      assert Overlaps(Run(c, START, events[..k + 1]));
    } else if EverOverlaps(c, events) {
      var k :| 0 <= k <= |events| && Overlaps(Run(c, START, events[..k]));
      OverlapWasAskedFor(c, events, k);
    }
  }

  /** The seek loop wins and a return is nearer than its target, nothing else in sight. */
  const NEARER := Ticked(Senses(true, true, 0.0, 0.0, 0.0, 0.0))

  lemma {:induction false} ArmingTakesItsTicks(c: Config, n: nat)
    requires n < c.arm
    ensures Run(c, START, seq(n, _ => NEARER)) == START.(tick := n, armed := n)
  {
    if n > 0 {
      ArmingTakesItsTicks(c, n - 1);
      RunThen(c, START, seq(n - 1, _ => NEARER), [NEARER]);
      RunOne(c, START.(tick := n - 1, armed := n - 1), NEARER);
      assert seq(n, _ => NEARER) == seq(n - 1, _ => NEARER) + [NEARER];
    } else {
      assert seq(n, _ => NEARER) == [];
    }
  }

  /** Such runs exist whenever a turn can take two ticks: arm, turn, and ask. */
  lemma OverlapIsReached(c: Config, ticks: nat) returns (events: seq<Event>)
    requires c.max >= 2 && ticks > 0
    ensures EverOverlaps(c, events)
  {
    var n := if c.arm == 0 then 0 else c.arm - 1;
    var arming := seq(n, _ => NEARER);
    if n > 0 {
      ArmingTakesItsTicks(c, n);
    }
    var s := Run(c, START, arming);
    RunThen(c, START, arming, [NEARER]);
    RunOne(c, s, NEARER);
    RunThen(c, START, arming + [NEARER], [HostHold(ticks)]);
    RunOne(c, Step(c, s, NEARER.senses), HostHold(ticks));
    events := arming + [NEARER] + [HostHold(ticks)];
    assert events[..|events|] == events;
  }

  /** A turn that ends before its time has taken 10 ticks at least, and sees nothing ahead nor on the side the obstacle
      swings into. */
  lemma EarlyEndIsClear(c: Config, before: seq<Event>, i: Senses)
    requires var s := Run(c, START, before); s.turn.left > 1 && Step(c, s, i).turn.left == 0
    requires Step(c, Run(c, START, before), i).counts.starts == Run(c, START, before).counts.starts
    ensures var s := Run(c, START, before);
            && c.max - s.turn.left + 1 >= 10
            && i.ahead <= 0.0 && (if s.course.dir == 1.0 then i.right else i.left) <= 0.0
            && Step(c, s, i).counts.clears == s.counts.clears + 1
  {
    RunKeepsInv(c, START, before);
  }

  /** With a limit of N, the target has been forgotten at most once in N detours. */
  ghost predicate ForgetsOk(c: Config, s: State) {
    c.forget > 0 ==> s.counts.forgets * c.forget + s.chain <= s.counts.starts
  }

  lemma ChainedForgets(n: nat, forgets: nat, chain: nat, length: nat, starts: nat)
    requires n > 0 && chain < n && length <= chain + 1 && forgets * n + chain <= starts
    ensures length >= n ==> (forgets + 1) * n <= starts + 1
    ensures length < n ==> forgets * n + length <= starts + 1
  {
    assert (forgets + 1) * n == forgets * n + n;
  }

  lemma StartForgets(c: Config, s: State, t: State, length: nat)
    requires ForgetsOk(c, s) && ChainOk(c, s) && length <= s.chain + 1
    requires t.chain == Chained(c, s, length) && t.counts.forgets == s.counts.forgets + Forgets(c, length)
    requires t.counts.starts == s.counts.starts + 1
    ensures ForgetsOk(c, t)
  {
    if c.forget > 0 {
      ChainedForgets(c.forget, s.counts.forgets, s.chain, length, s.counts.starts);
    }
  }

  lemma StepForgets(c: Config, s: State, i: Senses)
    requires Inv(c, s) && ForgetsOk(c, s)
    ensures ForgetsOk(c, Step(c, s, i))
  {
    var s1 := s.(hold := CountDown(s.hold));
    var s2 := Reopen(c, s1, i);
    var s3 := Arm(c, s2, i, Sees(s, i));
    ReopenKeepsInv(c, s1, i);
    if Reopens(c, s1, i) {
      StartForgets(c, s1, s2, s1.chain + 1);
    }
    if Idle(s2) && Armed(s2, Sees(s, i)) >= c.arm {
      StartForgets(c, s2, s3, Length(s2));
    }
    TurnForgetsNothing(c, s3, i);
  }

  lemma TurnForgetsNothing(c: Config, s: State, i: Senses)
    ensures var t := TurnStep(c, s, i);
            t.chain == s.chain && t.counts.forgets == s.counts.forgets && t.counts.starts == s.counts.starts
  {
  }

  /** Over any run. */
  lemma {:induction false} ForgetsAreRare(c: Config, s: State, events: seq<Event>)
    requires Inv(c, s) && ForgetsOk(c, s)
    ensures ForgetsOk(c, Run(c, s, events))
    decreases |events|
  {
    if events != [] {
      if events[0].Ticked? {
        StepKeepsInv(c, s, events[0].senses);
        StepForgets(c, s, events[0].senses);
      }
      ForgetsAreRare(c, Apply(c, s, events[0]), events[1..]);
    }
  }

  // ---------------------------------------------------------------- which way

  /** Detours started anew, not as repeats. */
  function Fresh(s: State): int {
    s.counts.starts - s.counts.repeats
  }

  /** From s to t: at most one fresh start, and the direction is kept unless there is one. */
  predicate Keeps(c: Config, s: State, t: State) {
    && Fresh(s) <= Fresh(t)
    && (Fresh(t) == Fresh(s) ==> t.course.dir == s.course.dir)
    && (t.counts.starts == s.counts.starts + 1 && t.counts.repeats == s.counts.repeats + 1 ==>
          t.course.out == Min(2 * s.course.out, 4 * c.out))
    && (t.counts.starts == s.counts.starts ==> t.course.out == s.course.out && t.counts.repeats == s.counts.repeats)
  }

  lemma TurnKeepsCourse(c: Config, s: State, i: Senses)
    ensures var t := TurnStep(c, s, i); t.course.dir == s.course.dir && t.course.out == s.course.out
    ensures var t := TurnStep(c, s, i);
            && t.counts.starts == s.counts.starts && t.counts.repeats == s.counts.repeats
            && t.counts.reopens == s.counts.reopens
  {
  }

  /** A fresh start turns to the freer side with the configured walk out; a repeat keeps the direction and doubles it. */
  lemma StepCourse(c: Config, s: State, i: Senses)
    ensures Keeps(c, s, Step(c, s, i))
    ensures Fresh(Step(c, s, i)) > Fresh(s) ==>
              Step(c, s, i).course.dir == FreerSide(i) && Step(c, s, i).course.out == c.out
  {
    var s1 := s.(hold := CountDown(s.hold));
    TurnKeepsCourse(c, Arm(c, Reopen(c, s1, i), i, Sees(s, i)), i);
  }

  /** However long a chain of repeats is, every turn in it goes the same way. */
  lemma {:induction false} RepeatsKeepDirection(c: Config, s: State, events: seq<Event>)
    ensures Fresh(s) <= Fresh(Run(c, s, events))
    ensures Fresh(Run(c, s, events)) == Fresh(s) ==> Run(c, s, events).course.dir == s.course.dir
    decreases |events|
  {
    if events != [] {
      if events[0].Ticked? {
        StepCourse(c, s, events[0].senses);
      }
      RepeatsKeepDirection(c, Apply(c, s, events[0]), events[1..]);
    }
  }

  /** A start is a repeat exactly when it reopens a walk out or, with commit, comes within 10 s of the last one's end. */
  lemma SoonIsARepeat(c: Config, s: State, i: Senses)
    requires Step(c, s, i).counts.starts > s.counts.starts
    ensures Step(c, s, i).counts.repeats > s.counts.repeats <==>
              Step(c, s, i).counts.reopens > s.counts.reopens || (c.commit && s.tick <= s.course.lastEnd + 500)
  {
    var s1 := s.(hold := CountDown(s.hold));
    TurnKeepsCourse(c, Arm(c, Reopen(c, s1, i), i, Sees(s, i)), i);
  }

  /** How near the obstacles are on the side turned to. */
  function Toward(i: Senses, dir: real): real {
    if dir > 0.0 then i.left else i.right
  }

  /** However many repeats follow a fresh start, the turn still goes to the side that was the freer one then, the
      target's on a tie. */
  lemma FreshTurnIsToTheFreerSide(c: Config, before: seq<Event>, i: Senses, after: seq<Event>)
    requires var s := Run(c, START, before);
             Fresh(s) < Fresh(Step(c, s, i)) == Fresh(Run(c, Step(c, s, i), after))
    ensures var dir := Run(c, Step(c, Run(c, START, before), i), after).course.dir;
            && (dir == 1.0 || dir == -1.0)
            && Toward(i, dir) <= Toward(i, -dir)
            && (i.left == i.right ==> (dir > 0.0 <==> i.ego <= 0.0))
  {
    var s := Run(c, START, before);
    StepCourse(c, s, i);
    RepeatsKeepDirection(c, Step(c, s, i), after);
  }

  // ---------------------------------------------------------------- it ends

  /** The most ticks the running detour can still take: the turn's, then the longest walk out. */
  function Remaining(c: Config, s: State): nat {
    if s.turn.left > 0 then s.turn.left + 4 * c.out else if s.hold.mine then s.hold.left else 0
  }

  lemma TurnRemaining(c: Config, s: State, i: Senses)
    requires Inv(c, s)
    ensures s.turn.left > 0 ==> Remaining(c, TurnStep(c, s, i)) < Remaining(c, s)
    ensures s.turn.left == 0 ==> TurnStep(c, s, i) == s
  {
  }

  lemma StepRemaining(c: Config, s: State, i: Senses)
    requires Inv(c, s)
    ensures var t := Step(c, s, i);
            && t.counts.starts >= s.counts.starts
            && (t.counts.starts == s.counts.starts ==>
                  Remaining(c, t) <= if Remaining(c, s) > 0 then Remaining(c, s) - 1 else 0)
            && (t.counts.starts > s.counts.starts ==> Remaining(c, t) <= if c.max > 0 then c.max - 1 + 4 * c.out else 0)
  {
    var s1 := s.(hold := CountDown(s.hold));
    var s2 := Reopen(c, s1, i);
    var s3 := Arm(c, s2, i, Sees(s, i));
    ReopenKeepsInv(c, s1, i);
    ArmKeepsInv(c, s2, i, Sees(s, i));
    TurnRemaining(c, s3, i);
    TurnKeepsCourse(c, s3, i);
    BeforeTurn(c, s1, i, Sees(s, i));
  }

  /** Up to the turn's own step: a start leaves a whole turn and no walk out, anything else what there was. */
  lemma BeforeTurn(c: Config, s: State, i: Senses, sees: bool)
    requires Inv(c, s)
    ensures var t := Arm(c, Reopen(c, s, i), i, sees);
            && t.counts.starts >= s.counts.starts
            && (t.counts.starts == s.counts.starts ==> t.turn == s.turn && t.hold == s.hold)
            && (t.counts.starts > s.counts.starts ==> t.turn.left == c.max && !t.hold.mine)
  {
  }

  function Ticks(events: seq<Event>): nat {
    if events == [] then 0 else (if events[0].Ticked? then 1 else 0) + Ticks(events[1..])
  }

  lemma {:induction false} StartsGrow(c: Config, s: State, events: seq<Event>)
    requires Inv(c, s)
    ensures Run(c, s, events).counts.starts >= s.counts.starts
    decreases |events|
  {
    if events != [] {
      if events[0].Ticked? {
        StepRemaining(c, s, events[0].senses);
        StepKeepsInv(c, s, events[0].senses);
      }
      StartsGrow(c, Apply(c, s, events[0]), events[1..]);
    }
  }

  lemma {:induction false} RemainingRunsOut(c: Config, s: State, events: seq<Event>)
    requires Inv(c, s) && Run(c, s, events).counts.starts == s.counts.starts
    ensures Remaining(c, Run(c, s, events)) <=
            if Remaining(c, s) > Ticks(events) then Remaining(c, s) - Ticks(events) else 0
    decreases |events|
  {
    if events != [] {
      var t := Apply(c, s, events[0]);
      if events[0].Ticked? {
        StepRemaining(c, s, events[0].senses);
        StepKeepsInv(c, s, events[0].senses);
      }
      StartsGrow(c, t, events[1..]);
      RemainingRunsOut(c, t, events[1..]);
    }
  }

  /** A detour that is not reopened ends: counting the tick that starts it, max + 4 out ticks later there is neither a
      turn nor a walk out of its own, whatever holds the host asks for meanwhile. */
  lemma DetourEnds(c: Config, before: seq<Event>, i: Senses, after: seq<Event>)
    requires Step(c, Run(c, START, before), i).counts.starts > Run(c, START, before).counts.starts
    requires Run(c, Step(c, Run(c, START, before), i), after).counts.starts ==
             Step(c, Run(c, START, before), i).counts.starts
    requires 1 + Ticks(after) >= c.max + 4 * c.out
    ensures var s := Run(c, Step(c, Run(c, START, before), i), after); s.turn.left == 0 && !s.hold.mine
  {
    var s := Run(c, START, before);
    RunKeepsInv(c, START, before);
    StepKeepsInv(c, s, i);
    StepRemaining(c, s, i);
    RemainingRunsOut(c, Step(c, s, i), after);
    RunKeepsInv(c, Step(c, s, i), after);
  }

  /** While a detour turns or a hold goes on, only a walk out reopened starts another; but a detour that arms in no ticks
      starts on the very tick a hold ends. */
  lemma OneAtATime(c: Config, s: State, i: Senses)
    requires s.turn.left > 0 || s.hold.left > 0
    ensures Step(c, s, i).counts.starts > s.counts.starts <==>
              Step(c, s, i).counts.reopens > s.counts.reopens || (c.arm == 0 && s.turn.left == 0 && s.hold.left == 1)
  {
    var s1 := s.(hold := CountDown(s.hold));
    TurnKeepsCourse(c, Arm(c, Reopen(c, s1, i), i, Sees(s, i)), i);
  }

  // ---------------------------------------------------------------- the machine

  class Machine {
    const config: Config
    var tick: nat
    var hold: nat
    ghost var mine: bool
    var walking: bool
    var turn: nat
    var age: nat
    var armed: nat
    var dir: real
    var outNow: nat
    var lastEnd: int
    var chain: nat
    var starts: nat
    var repeats: nat
    var clears: nat
    var reopens: nat
    var forgets: nat

    constructor (c: Config)
      ensures config == c && Now() == START
    {
      config := c;
      tick, hold, mine, walking, turn, age, armed := 0, 0, false, false, 0, 0, 0;
      dir, outNow, lastEnd, chain := 0.0, 0, -1000000, 0;
      starts, repeats, clears, reopens, forgets := 0, 0, 0, 0, 0;
    }

    ghost function Now(): State
      reads this
    {
      State(tick, Hold(hold, mine, walking), Turn(turn, age), armed, Course(dir, outNow, lastEnd), chain,
            Counts(starts, repeats, clears, reopens, forgets))
    }

    /** set_ref_hold, from the host between ticks. */
    method SetRefHold(ticks: nat)
      modifies this`hold, this`mine
      ensures Now() == Apply(config, old(Now()), HostHold(ticks))
    {
      hold := ticks;
      mine := false;
    }

    method HoldTick()
      modifies this`hold, this`mine, this`walking
      ensures Hold(hold, mine, walking) == CountDown(old(Hold(hold, mine, walking)))
    {
      if hold > 0 {
        hold := hold - 1;
      }
      if walking && hold == 0 {
        walking := false;
      }
      mine := mine && hold > 0;
    }

    method Refute(length: nat)
      modifies this`chain, this`forgets
      ensures var s := old(Now());
              Now() == s.(chain := Chained(config, s, length),
                          counts := s.counts.(forgets := s.counts.forgets + Forgets(config, length)))
    {
      if config.forget > 0 {
        chain := length;
        if chain >= config.forget {
          forgets := forgets + 1;
          chain := 0;
        }
      }
    }

    method DoubleOut()
      modifies this`outNow, this`repeats
      ensures var s := old(Now());
              Now() == s.(course := Again(config, s.course), counts := s.counts.(repeats := s.counts.repeats + 1))
    {
      outNow := if 2 * outNow < 4 * config.out then 2 * outNow else 4 * config.out;
      repeats := repeats + 1;
    }

    method ReopenTick(i: Senses)
      modifies this
      ensures Now() == Reopen(config, old(Now()), i)
    {
      if config.reopen > 0.0 && walking && hold > 0 && i.ahead > config.reopen {
        DropHold();
        Refute(chain + 1);
        BeginTurn();
        DoubleOut();
      }
    }

    method DropHold()
      modifies this`hold, this`mine, this`walking, this`reopens
      ensures var s := old(Now());
              Now() == s.(hold := Hold(0, false, false), counts := s.counts.(reopens := s.counts.reopens + 1))
    {
      hold, mine, walking, reopens := 0, false, false, reopens + 1;
    }

    method BeginTurn()
      modifies this`turn, this`age, this`starts
      ensures var s := old(Now());
              Now() == s.(turn := Turn(config.max, 0), counts := s.counts.(starts := s.counts.starts + 1))
    {
      turn, age, starts := config.max, 0, starts + 1;
    }

    method ArmTick(i: Senses, sees: bool)
      modifies this
      ensures Now() == Arm(config, old(Now()), i, sees)
    {
      if turn == 0 && hold == 0 {
        var count := if sees then armed + 1 else 0;
        if count >= config.arm {
          TurnStart(i);
        } else {
          armed := count;
        }
      }
    }

    method TurnStart(i: Senses)
      modifies this
      ensures Now() == StartTurn(config, old(Now()), i)
    {
      var soon := tick - lastEnd <= AGAIN;
      Refute(if soon then chain + 1 else 1);
      armed := 0;
      BeginTurn();
      if config.commit && soon {
        DoubleOut();
      } else {
        outNow := config.out;
        dir := if i.left < i.right then 1.0 else if i.right < i.left then -1.0 else if i.ego > 0.0 then -1.0 else 1.0;
      }
    }

    method TurnTick(i: Senses)
      modifies this
      ensures Now() == TurnStep(config, old(Now()), i)
    {
      ghost var s := Now();
      if turn > 0 {
        turn, age := turn - 1, age + 1;
        var clear := age >= 10 && i.ahead <= 0.0 && (if dir > 0.0 then i.right else i.left) <= 0.0;
        if clear || turn == 0 {
          assert clear == Clear(s, i);
          if clear {
            clears := clears + 1;
          }
          HoldHeading();
          assert Now() == WalkOut(config, s, clear);
        }
      }
    }

    method HoldHeading()
      modifies this`turn, this`hold, this`mine, this`lastEnd, this`walking
      ensures var s := old(Now());
              var out := OutTicks(config, s);
              Now() == s.(turn := s.turn.(left := 0), hold := Hold(out, out > 0, s.hold.walking || config.reopen > 0.0),
                          course := s.course.(lastEnd := s.tick + out))
    {
      turn := 0;
      hold := if config.commit then outNow else config.out;
      mine := hold > 0;
      lastEnd := tick + if config.commit then outNow else config.out;
      if config.reopen > 0.0 {
        walking := true;
      }
    }

    method Tick(i: Senses)
      modifies this
      ensures Now() == Step(config, old(Now()), i)
    {
      var sees := hold == 0 && i.seek && i.nearer;
      HoldTick();
      ReopenTick(i);
      ArmTick(i, sees);
      TurnTick(i);
      tick := tick + 1;
    }
  }
}
