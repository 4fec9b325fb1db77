/** brain_builder/src/LiveClient.cpp and cpp_core/src/control_server.cpp: what is sent back, what is logged, and when the
    client hangs up. */
module ProtocolLaws {
  import opened LiveProtocol
  import opened Prelude
  import opened Text

  // ---------------------------------------------------------------- the bytes sent back

  function Answers(answer: (nat, string) -> string, lines: seq<string>): seq<string> {
    seq(|lines|, k requires 0 <= k < |lines| => answer(k, lines[k]))
  }

  lemma RepliesAreUnlines(answer: (nat, string) -> string, lines: seq<string>)
    ensures Replies(answer, lines) == Unlines(Answers(answer, lines))
  {
    if lines == [] {
      assert Answers(answer, lines) == [];
    } else {
      var n := |lines| - 1;
      var before, last := Answers(answer, lines[..n]), answer(n, lines[n]);
      RepliesAreUnlines(answer, lines[..n]);
      assert Answers(answer, lines) == before + [last];
      UnlinesAppend(before, last, "");
      assert Unlines(before + [last]) + "" == Unlines(before + [last]);
      assert Line(last, "") == last + "\n";
      Reassociate(Unlines(before), last, "\n");
    }
  }

  /** With answers free of newlines, the bytes sent back split into one line per request line, each the answer to it, in
      order, and nothing is left over. */
  lemma OneReplyPerLine(answer: (nat, string) -> string, lines: seq<string>)
    requires forall k, l {:trigger answer(k, l)} :: OneLine(answer(k, l))
    ensures Lines(Replies(answer, lines)) == Answers(answer, lines) && Rest(Replies(answer, lines)) == ""
  {
    var all := Answers(answer, lines);
    forall l | l in all ensures OneLine(l) {
      var k :| 0 <= k < |all| && all[k] == l;
    }
    RepliesAreUnlines(answer, lines);
    assert !HasLine("") && Lines("") == [] && Rest("") == "";
    LinesOfUnlines(all, "", [], "");
    assert Unlines(all) + "" == Unlines(all) && all + [] == all;
  }

  // ---------------------------------------------------------------- the log

  function CountReturns(events: seq<Event>): nat {
    if events == [] then 0
    else CountReturns(events[..|events| - 1]) + if events[|events| - 1].Returns? then 1 else 0
  }

  /** Only a return writes to the log, and it writes one entry: the call under way, its request, and the first line of the
      buffer, which is what the caller gets. */
  lemma OnlyReturnsLog(s: State, e: Event)
    requires Step(s, e).Some?
    ensures var t := Step(s, e).value;
            if e.Returns? then
              s.phase.Waiting? && s.fd.Some? && HasLine(s.buf)
              && t.log == s.log + [Entry(s.fd.value, s.calls, s.phase.req, FirstLine(s.buf))]
              && t.calls == s.calls + 1 && t.phase.Idle? && t.fd == s.fd
            else t.log == s.log
  {
  }

  /** Over any run the log only grows, and by exactly one entry per return. */
  lemma {:induction false} LogIsTheReturns(s: State, events: seq<Event>)
    requires Run(s, events).Some?
    ensures s.log <= Run(s, events).value.log
    ensures |Run(s, events).value.log| == |s.log| + CountReturns(events)
  {
    if events != [] {
      var n := |events| - 1;
      LogIsTheReturns(s, events[..n]);
      OnlyReturnsLog(Run(s, events[..n]).value, events[n]);
    }
  }

  // ---------------------------------------------------------------- the client's cap

  predicate ClientInCap(s: State) {
    s.fd.Some? ==> |s.buf| <= CLIENT_CAP
  }

  /** Receiving keeps the connection exactly when the buffer stays within the cap; a failed send or receive never does. */
  lemma HangsUpOverTheCap(s: State, e: Event)
    requires Step(s, e).Some?
    ensures e.Receives? ==> (Step(s, e).value.fd == s.fd <==> |s.buf| + |e.chunk| <= CLIENT_CAP)
    ensures e.Receives? && Step(s, e).value.fd != s.fd ==> Step(s, e).value.fd.None? && Step(s, e).value.phase.Idle?
    ensures e.SendFails? || e.ReceiveFails? || e.Closes? ==> Step(s, e).value.fd.None? && Step(s, e).value.phase.Idle?
  {
  }

  /** While it is connected the client never holds more than the cap. */
  lemma {:induction false} ClientStaysInCap(events: seq<Event>)
    requires Run(START, events).Some?
    ensures ClientInCap(Run(START, events).value)
  {
    if events != [] {
      var n := |events| - 1;
      ClientStaysInCap(events[..n]);
      StepStaysInCap(Run(START, events[..n]).value, events[n]);
    }
  }

  lemma StepStaysInCap(s: State, e: Event)
    requires ClientInCap(s) && Step(s, e).Some?
    ensures ClientInCap(Step(s, e).value)
  {
  }

  // ---------------------------------------------------------------- a call goes through

  /** One call on a new connection, nothing cut and nothing failing. */
  function PlainCall(req: string, reply: string): seq<Event> {
    [Connects, CallStarts(req), Sends(|req| + 1), ServerReads(0, |req| + 1), ServerHandles(0, reply),
     Receives(reply + "\n"), Returns]
  }

  lemma RunThenStep(s: State, events: seq<Event>, k: nat, now: State)
    requires k < |events| && Run(s, events[..k]) == Some(now)
    ensures Run(s, events[..k + 1]) == Step(now, events[k])
  {
    assert events[..k + 1][..k] == events[..k];
  }

  /** The one connection, and the client's side, in the course of the call. */
  function During(c: Conn, phase: Phase, buf: string): State {
    State([c], Some(0), buf, phase, 0, [])
  }

  function Fresh(): Conn { Conn("", "", true, "", [], "", [], []) }

  function Asked(req: string, toServer: string, serverBuf: string): Conn {
    Conn(toServer, serverBuf, true, "", [req], "", [], [])
  }

  function Replied(req: string, reply: string, toClient: string): Conn {
    Conn("", "", true, toClient, [req], "", [req], [reply])
  }

  lemma CallBegins(req: string)
    requires OneLine(req)
    ensures Step(START, Connects) == Some(During(Fresh(), Idle, ""))
    ensures Step(During(Fresh(), Idle, ""), CallStarts(req)) == Some(During(Fresh(), Sending(req, 0), ""))
  {
    assert START.conns + [Fresh()] == [Fresh()];
  }

  lemma RequestIsSent(req: string)
    ensures Step(During(Fresh(), Sending(req, 0), ""), Sends(|req| + 1))
         == Some(During(Asked(req, req + "\n", ""), Waiting(req), ""))
  {
    var msg := req + "\n";
    assert msg[0..0 + (|req| + 1)] == msg && "" + msg == msg;
    assert [Fresh()][0 := Asked(req, msg, "")] == [Asked(req, msg, "")];
    assert Fresh().(toServer := msg, asked := [] + [req], partial := "") == Asked(req, msg, "");
  }

  lemma RequestIsRead(req: string)
    requires |req| + 1 <= SERVER_CAP
    ensures Step(During(Asked(req, req + "\n", ""), Waiting(req), ""), ServerReads(0, |req| + 1))
         == Some(During(Asked(req, "", req + "\n"), Waiting(req), ""))
  {
    var msg := req + "\n";
    assert msg[..|req| + 1] == msg && msg[|req| + 1..] == "" && "" + msg == msg;
    assert [Asked(req, msg, "")][0 := Asked(req, "", msg)] == [Asked(req, "", msg)];
  }

  lemma RequestIsAnswered(req: string, reply: string)
    requires OneLine(req) && OneLine(reply)
    ensures Step(During(Asked(req, "", req + "\n"), Waiting(req), ""), ServerHandles(0, reply))
         == Some(During(Replied(req, reply, reply + "\n"), Waiting(req), ""))
  {
    FirstLineIs(req, "");
    assert Line(req, "") == req + "\n" && "" + reply == reply && [] + [req] == [req] && [] + [reply] == [reply];
    assert [Asked(req, "", req + "\n")][0 := Replied(req, reply, reply + "\n")] == [Replied(req, reply, reply + "\n")];
  }

  lemma ReplyIsReceived(req: string, reply: string)
    requires |reply| + 1 <= CLIENT_CAP
    ensures Step(During(Replied(req, reply, reply + "\n"), Waiting(req), ""), Receives(reply + "\n"))
         == Some(During(Replied(req, reply, ""), Waiting(req), reply + "\n"))
  {
    var msg := reply + "\n";
    assert msg[|msg|..] == "" && "" + msg == msg && !HasLine("");
    assert [Replied(req, reply, msg)][0 := Replied(req, reply, "")] == [Replied(req, reply, "")];
  }

  lemma ReplyIsReturned(req: string, reply: string)
    requires OneLine(reply)
    ensures Step(During(Replied(req, reply, ""), Waiting(req), reply + "\n"), Returns)
         == Some(State([Replied(req, reply, "")], Some(0), "", Idle, 1, [Entry(0, 0, req, reply)]))
  {
    FirstLineIs(reply, "");
    assert Line(reply, "") == reply + "\n" && [] + [Entry(0, 0, req, reply)] == [Entry(0, 0, req, reply)];
  }

  lemma RequestArrives(req: string, events: seq<Event>)
    requires OneLine(req) && |req| + 1 <= SERVER_CAP && 4 <= |events|
    requires events[..4] == [Connects, CallStarts(req), Sends(|req| + 1), ServerReads(0, |req| + 1)]
    ensures Run(START, events[..4]) == Some(During(Asked(req, "", req + "\n"), Waiting(req), ""))
  {
    assert events[..4][0] == events[0] && events[..4][1] == events[1]
        && events[..4][2] == events[2] && events[..4][3] == events[3];
    assert events[..0] == [];
    RunThenStep(START, events, 0, START);
    CallBegins(req);
    RunThenStep(START, events, 1, During(Fresh(), Idle, ""));
    RunThenStep(START, events, 2, During(Fresh(), Sending(req, 0), ""));
    RequestIsSent(req);
    RunThenStep(START, events, 3, During(Asked(req, req + "\n", ""), Waiting(req), ""));
    RequestIsRead(req);
  }

  /** A request and a reply of any length within the caps get through: a call on a new connection, nothing cut and nothing
      failing, is a run that returns the reply and leaves the client connected. */
  lemma CallGoesThrough(req: string, reply: string)
    requires OneLine(req) && OneLine(reply) && |req| + 1 <= SERVER_CAP && |reply| + 1 <= CLIENT_CAP
    ensures Run(START, PlainCall(req, reply)).Some?
    ensures Run(START, PlainCall(req, reply)).value.log == [Entry(0, 0, req, reply)]
    ensures Run(START, PlainCall(req, reply)).value.fd == Some(0)
  {
    var events := PlainCall(req, reply);
    RequestArrives(req, events);
    RunThenStep(START, events, 4, During(Asked(req, "", req + "\n"), Waiting(req), ""));
    RequestIsAnswered(req, reply);
    RunThenStep(START, events, 5, During(Replied(req, reply, reply + "\n"), Waiting(req), ""));
    ReplyIsReceived(req, reply);
    RunThenStep(START, events, 6, During(Replied(req, reply, ""), Waiting(req), reply + "\n"));
    ReplyIsReturned(req, reply);
    assert events[..7] == events;
  }
}
