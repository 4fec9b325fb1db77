/** mj_host/src/IntentAdapter.cpp: how long a detour turns and walks out, and when it makes the target
    forgotten. */
module DetourRuns {
  import opened Arming
  import opened Detour
  import opened Prelude

  // ---------------------------------------------------------------- one tick

  /** After ten ticks of turning: nothing ahead, nor on the side the obstacle swings into. */
  predicate SeesClear(c: Config, s: State, i: Senses) {
    c.max - s.turn.left + 1 >= 10 && i.ahead <= 0.0 && (if s.course.dir > 0.0 then i.right else i.left) <= 0.0
  }

  predicate Starts(c: Config, s: State, e: Event) {
    Apply(c, s, e).counts.starts > s.counts.starts
  }

  lemma UpToTheTurn(c: Config, s: State, i: Senses)
    requires Inv(c, s)
    ensures var t := Arm(c, Reopen(c, s.(hold := CountDown(s.hold)), i), i, Sees(s, i));
            && Inv(c, t) && t.tick == s.tick && t.counts.clears == s.counts.clears
            && t.counts.reopens == s.counts.reopens + (if Closes(c, s, Ticked(i)) then 1 else 0)
            && if Starts(c, s, Ticked(i)) then t.turn == Turn(c.max, 0) && t.course.lastEnd == s.course.lastEnd
               else t.turn == s.turn && t.hold == CountDown(s.hold) && t.course == s.course
  {
    var s1 := s.(hold := CountDown(s.hold));
    ReopenKeepsInv(c, s1, i);
    ArmKeepsInv(c, Reopen(c, s1, i), i, Sees(s, i));
    TurnKeepsCourse(c, Arm(c, Reopen(c, s1, i), i, Sees(s, i)), i);
  }

  /** Only a walk out with more than its last tick to go, and the way ahead closed, is reopened. */
  lemma ReopensIffItCloses(c: Config, s: State, i: Senses)
    requires Inv(c, s)
    ensures Step(c, s, i).counts.reopens == s.counts.reopens + (if Closes(c, s, Ticked(i)) then 1 else 0)
    ensures Closes(c, s, Ticked(i)) ==> Starts(c, s, Ticked(i))
    ensures Closes(c, s, Ticked(i)) && c.max > 1 ==>
              Step(c, s, i).turn == Turn(c.max - 1, 1) && Step(c, s, i).course.dir == s.course.dir
              && Step(c, s, i).course.out == Min(2 * s.course.out, 4 * c.out)
  {
    UpToTheTurn(c, s, i);
    var t := Arm(c, Reopen(c, s.(hold := CountDown(s.hold)), i), i, Sees(s, i));
    TurnKeepsCourse(c, t, i);
  }

  /** A running turn ends on the tick that sees the way clear, or else on its last; then the walk out begins, of the
      course's length with commit and of the configured one without, and only then is the clear counted. */
  lemma TurnEndsIffClearOrOver(c: Config, s: State, i: Senses)
    requires Inv(c, s) && s.turn.left > 0 && !Starts(c, s, Ticked(i))
    ensures var t, clear := Step(c, s, i), SeesClear(c, s, i);
            && (t.turn.left == 0 <==> clear || s.turn.left == 1)
            && (t.turn.left > 0 ==> t.turn.left == s.turn.left - 1 && t.hold == CountDown(s.hold))
            && t.counts.clears == s.counts.clears + (if clear then 1 else 0)
            && (t.turn.left == 0 ==>
                  && t.hold.left == (if c.commit then s.course.out else c.out) && (t.hold.mine <==> t.hold.left > 0)
                  && t.course.lastEnd == s.tick + t.hold.left
                  && (t.hold.walking <==> c.reopen > 0.0 || CountDown(s.hold).walking))
  {
    UpToTheTurn(c, s, i);
  }

  /** With no turn running nothing is cleared and no walk out begins. */
  lemma NothingEndsWithoutATurn(c: Config, s: State, i: Senses)
    requires Inv(c, s) && s.turn.left == 0 && !Starts(c, s, Ticked(i))
    ensures var t := Step(c, s, i);
            t.turn == s.turn && t.hold == CountDown(s.hold) && t.course == s.course && t.counts.clears == s.counts.clears
  {
    UpToTheTurn(c, s, i);
  }

  /** The tick that starts a detour is the first of its turn. */
  lemma StartBeginsTheTurn(c: Config, s: State, i: Senses)
    requires Inv(c, s) && Starts(c, s, Ticked(i)) && c.max > 1
    ensures Step(c, s, i).turn == Turn(c.max - 1, 1) && Step(c, s, i).counts.clears == s.counts.clears
  {
    UpToTheTurn(c, s, i);
  }

  // ---------------------------------------------------------------- the turn and the walk out over runs

  /** Ticks on which nothing starts and no turn is seen clear. */
  ghost predicate Blocked(c: Config, s: State, events: seq<Event>) {
    forall k :: 0 <= k < |events| ==>
      events[k].Ticked? && !Starts(c, Run(c, s, events[..k]), events[k])
      && !SeesClear(c, Run(c, s, events[..k]), events[k].senses)
  }

  ghost predicate Undisturbed(c: Config, s: State, events: seq<Event>) {
    forall k :: 0 <= k < |events| ==> events[k].Ticked? && !Starts(c, Run(c, s, events[..k]), events[k])
  }

  /** A turn that never sees the way clear takes all of its ticks, one by one. */
  lemma {:induction false} BlockedTurnTakesItsTicks(c: Config, s: State, events: seq<Event>)
    requires Inv(c, s) && Blocked(c, s, events) && |events| < s.turn.left
    ensures Run(c, s, events).turn.left == s.turn.left - |events|
    decreases |events|
  {
    if events != [] {
      var n := |events| - 1;
      assert Blocked(c, s, events[..n]) by {
        assert forall k :: 0 <= k < n ==> events[..n][..k] == events[..k];
      }
      BlockedTurnTakesItsTicks(c, s, events[..n]);
      RunKeepsInv(c, s, events[..n]);
      RunNext(c, s, events, n);
      assert events[..|events|] == events;
      TurnEndsIffClearOrOver(c, Run(c, s, events[..n]), events[n].senses);
    }
  }

  /** So a detour started on this tick and never cleared is still turning until its max ticks are up. */
  lemma DetourTurnsItsTime(c: Config, before: seq<Event>, i: Senses, events: seq<Event>)
    requires c.max > 1 && Starts(c, Run(c, START, before), Ticked(i))
    requires Blocked(c, Step(c, Run(c, START, before), i), events) && |events| + 1 < c.max
    ensures Run(c, Step(c, Run(c, START, before), i), events).turn.left == c.max - 1 - |events|
  {
    var s := Run(c, START, before);
    RunKeepsInv(c, START, before);
    StepKeepsInv(c, s, i);
    StartBeginsTheTurn(c, s, i);
    BlockedTurnTakesItsTicks(c, Step(c, s, i), events);
  }

  /** A walk out that nothing disturbs holds for its ticks, one by one, and not one longer. */
  lemma {:induction false} WalkOutTakesItsTicks(c: Config, s: State, events: seq<Event>)
    requires Inv(c, s) && s.hold.mine && Undisturbed(c, s, events) && |events| <= s.hold.left
    ensures var t := Run(c, s, events);
            && t.hold.left == s.hold.left - |events| && (t.hold.mine <==> |events| < s.hold.left) && t.turn.left == 0
            && (t.hold.walking <==> s.hold.walking && t.hold.left > 0)
    decreases |events|
  {
    if events != [] {
      var n := |events| - 1;
      assert Undisturbed(c, s, events[..n]) by {
        assert forall k :: 0 <= k < n ==> events[..n][..k] == events[..k];
      }
      WalkOutTakesItsTicks(c, s, events[..n]);
      RunKeepsInv(c, s, events[..n]);
      RunNext(c, s, events, n);
      assert events[..|events|] == events;
      NothingEndsWithoutATurn(c, Run(c, s, events[..n]), events[n].senses);
    }
  }

  /** The end noted is the tick on which the walk out, left alone, runs out. */
  predicate EndOk(s: State) {
    s.hold.mine ==> s.course.lastEnd == s.tick - 1 + s.hold.left
  }

  lemma StepKeepsEnd(c: Config, s: State, i: Senses)
    requires Inv(c, s) && EndOk(s)
    ensures EndOk(Step(c, s, i))
  {
    UpToTheTurn(c, s, i);
    var t := Arm(c, Reopen(c, s.(hold := CountDown(s.hold)), i), i, Sees(s, i));
    if Starts(c, s, Ticked(i)) && t.turn.left == 0 {
      StartDropsTheHold(c, s, i);
    }
  }

  lemma StartDropsTheHold(c: Config, s: State, i: Senses)
    requires Inv(c, s) && Starts(c, s, Ticked(i))
    ensures !Arm(c, Reopen(c, s.(hold := CountDown(s.hold)), i), i, Sees(s, i)).hold.mine
  {
    var s1 := s.(hold := CountDown(s.hold));
    ReopenKeepsInv(c, s1, i);
    TurnKeepsCourse(c, Arm(c, Reopen(c, s1, i), i, Sees(s, i)), i);
  }

  lemma {:induction false} NotedEndIsTheEnd(c: Config, events: seq<Event>)
    ensures EndOk(Run(c, START, events))
  {
    if events != [] {
      var n := |events| - 1;
      NotedEndIsTheEnd(c, events[..n]);
      RunKeepsInv(c, START, events[..n]);
      RunNext(c, START, events, n);
      assert events[..|events|] == events;
      if events[n].Ticked? {
        StepKeepsEnd(c, Run(c, START, events[..n]), events[n].senses);
      }
    }
  }

  // ---------------------------------------------------------------- forgetting

  /** Every start of the tick follows on the last detour: it reopens a walk out, or comes within 10 s of the last end. */
  predicate FollowsOn(c: Config, s: State, e: Event) {
    StartsFresh(c, s, e) ==> s.tick <= s.course.lastEnd + 500
  }

  ghost predicate OneChain(c: Config, s: State, events: seq<Event>) {
    forall k :: 0 <= k < |events| ==> FollowsOn(c, Run(c, s, events[..k]), events[k])
  }

  /** Forgets are counted out of starts, N at a time. */
  predicate Tallies(c: Config, s: State, t: State) {
    if c.forget == 0 then t.chain == s.chain && t.counts.forgets == s.counts.forgets
    else t.counts.forgets * c.forget + t.chain - t.counts.starts == s.counts.forgets * c.forget + s.chain - s.counts.starts
  }

  lemma OneMoreForget(n: nat, forgets: nat)
    ensures (forgets + 1) * n == forgets * n + n
  {
  }

  lemma StartTallies(c: Config, s: State, t: State)
    requires ChainOk(c, s) && t.chain == Chained(c, s, s.chain + 1) && t.counts.starts == s.counts.starts + 1
    requires t.counts.forgets == s.counts.forgets + Forgets(c, s.chain + 1)
    ensures Tallies(c, s, t)
  {
    OneMoreForget(c.forget, s.counts.forgets);
  }

  lemma StepTallies(c: Config, s: State, i: Senses)
    requires Inv(c, s) && FollowsOn(c, s, Ticked(i))
    ensures Tallies(c, s, Step(c, s, i))
  {
    var s1 := s.(hold := CountDown(s.hold));
    var s2 := Reopen(c, s1, i);
    var s3 := Arm(c, s2, i, Sees(s, i));
    ReopenKeepsInv(c, s1, i);
    TurnForgetsNothing(c, s3, i);
    TurnKeepsCourse(c, s3, i);
    if Reopens(c, s1, i) {
      StartTallies(c, s1, s2);
    }
    if s3.counts.starts > s2.counts.starts {
      assert StartsFresh(c, s, Ticked(i));
      StartTallies(c, s2, s3);
    }
  }

  /** In a chain of detours, each following on the one before, the target is forgotten on every N-th start exactly: over
      any such run N times the forgets and the starts since the last one make up all the starts. */
  lemma {:induction false} EveryNthStartForgets(c: Config, s: State, events: seq<Event>)
    requires Inv(c, s) && OneChain(c, s, events)
    ensures Tallies(c, s, Run(c, s, events))
    ensures c.forget > 0 ==> Run(c, s, events).chain < c.forget
    decreases |events|
  {
    RunKeepsInv(c, s, events);
    if events != [] {
      var n := |events| - 1;
      assert OneChain(c, s, events[..n]) by {
        assert forall k :: 0 <= k < n ==> events[..n][..k] == events[..k];
      }
      EveryNthStartForgets(c, s, events[..n]);
      RunKeepsInv(c, s, events[..n]);
      RunNext(c, s, events, n);
      assert events[..|events|] == events;
      assert FollowsOn(c, Run(c, s, events[..n]), events[n]);
      if events[n].Ticked? {
        StepTallies(c, Run(c, s, events[..n]), events[n].senses);
      }
    }
  }

  /** A start that does not follow on begins the chain at one, and with a limit above one forgets nothing. */
  lemma StrangerBeginsTheChain(c: Config, s: State, i: Senses)
    requires Inv(c, s) && !FollowsOn(c, s, Ticked(i)) && c.forget > 1 && !Closes(c, s, Ticked(i))
    ensures Step(c, s, i).chain == 1 && Step(c, s, i).counts.forgets == s.counts.forgets
  {
    var s1 := s.(hold := CountDown(s.hold));
    var s2 := Reopen(c, s1, i);
    TurnForgetsNothing(c, Arm(c, s2, i, Sees(s, i)), i);
    TurnKeepsCourse(c, Arm(c, s2, i, Sees(s, i)), i);
  }
}
