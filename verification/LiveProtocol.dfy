/** The request and reply protocol of brain_builder/src/LiveClient.cpp and cpp_core/src/control_server.cpp, over byte
    streams that may be cut anywhere. */
module LiveProtocol {
  import opened Prelude
  import opened Text

  // ---------------------------------------------------------------- framing

  // A string stands for the bytes of a stream.

  predicate OneLine(s: string) { !Contains(s, '\n') }

  predicate HasLine(s: string) { Contains(s, '\n') }

  function FirstLine(s: string): string {
    Break(s, '\n').0
  }

  /** What is left after the first line and its newline. */
  function AfterLine(s: string): (r: string)
    requires HasLine(s)
    ensures |r| < |s|
  {
    BreakAtLine(s);
    Break(s, '\n').1[1..]
  }

  lemma BreakAtLine(s: string)
    requires HasLine(s)
    ensures Break(s, '\n').1 != ""
  {
    BreakIs(s, '\n');
    assert Break(s, '\n').1 == "" ==> s == Break(s, '\n').0;
  }

  lemma FirstLineSplits(s: string)
    requires HasLine(s)
    ensures s == Line(FirstLine(s), AfterLine(s)) && OneLine(FirstLine(s))
  {
    BreakAtLine(s);
    BreakIs(s, '\n');
    var tail := Break(s, '\n').1;
    assert tail == "\n" + tail[1..];
  }

  /** The complete lines of a stream, and the unfinished one. */
  function Lines(s: string): seq<string>
    decreases |s|
  {
    if HasLine(s) then [FirstLine(s)] + Lines(AfterLine(s)) else []
  }

  function Rest(s: string): string
    decreases |s|
  {
    if HasLine(s) then Rest(AfterLine(s)) else s
  }

  function Unlines(lines: seq<string>): string {
    if lines == [] then "" else Line(lines[0], Unlines(lines[1..]))
  }

  /** A line, its newline, and more. */
  function Line(l: string, tail: string): string {
    l + "\n" + tail
  }

  lemma LinesOfLine(l: string, tail: string)
    requires OneLine(l)
    ensures Lines(Line(l, tail)) == [l] + Lines(tail) && Rest(Line(l, tail)) == Rest(tail)
  {
    FirstLineIs(l, tail);
  }

  lemma LineThenMore(l: string, u: string, b: string)
    ensures Line(l, u) + b == Line(l, u + b)
  {
  }

  /** Putting one more line in front. */
  lemma InFront(l: string, u: string, b: string, ls: seq<string>, bs: seq<string>)
    requires OneLine(l) && Lines(u + b) == ls + bs
    ensures Lines(Line(l, u) + b) == [l] + ls + bs && Rest(Line(l, u) + b) == Rest(u + b)
  {
    LineThenMore(l, u, b);
    LinesOfLine(l, u + b);
    assert [l] + ls + bs == [l] + (ls + bs);
  }

  lemma {:induction false} LinesOfUnlines(lines: seq<string>, b: string, bs: seq<string>, r: string)
    requires forall l :: l in lines ==> OneLine(l)
    requires bs == Lines(b) && r == Rest(b)
    ensures Lines(Unlines(lines) + b) == lines + bs
    ensures Rest(Unlines(lines) + b) == r
  {
    if lines == [] {
      assert Unlines(lines) + b == b;
      assert lines + bs == bs;
    } else {
      assert lines[0] in lines;
      assert forall l :: l in lines[1..] ==> l in lines;
      LinesOfUnlines(lines[1..], b, bs, r);
      InFront(lines[0], Unlines(lines[1..]), b, lines[1..], bs);
      assert lines == [lines[0]] + lines[1..];
    }
  }

  lemma FirstLineIs(l: string, tail: string)
    requires OneLine(l)
    ensures var s := Line(l, tail); HasLine(s) && FirstLine(s) == l && AfterLine(s) == tail
  {
    var s := Line(l, tail);
    assert s[|l|] == '\n';
    assert forall i :: 0 <= i < |l| ==> s[i] == l[i];
    IndexOfIs(s, '\n');
    assert IndexOf(s, '\n') == |l|;
    assert s[..|l|] == l && s[|l|..][1..] == tail;
  }

  lemma {:induction false} UnlinesAppend(lines: seq<string>, l: string, tail: string)
    ensures Unlines(lines + [l]) + tail == Unlines(lines) + Line(l, tail)
  {
    if lines == [] {
      assert lines + [l] == [l] && [l][1..] == [];
      LineThenMore(l, "", tail);
      assert "" + tail == tail && "" + Line(l, tail) == Line(l, tail);
    } else {
      UnlinesAppend(lines[1..], l, tail);
      assert (lines + [l])[1..] == lines[1..] + [l];
      LineThenMore(lines[0], Unlines(lines[1..] + [l]), tail);
      LineThenMore(lines[0], Unlines(lines[1..]), Line(l, tail));
    }
  }

  function Concat(chunks: seq<string>): string {
    if chunks == [] then "" else Concat(chunks[..|chunks| - 1]) + chunks[|chunks| - 1]
  }

  // ---------------------------------------------------------------- the server's end

  const SERVER_CAP := 4 * 1024 * 1024
  const SERVER_CHUNK := 4096

  /** The replies to a connection's lines: answer(k, line) is what the handler makes of the k-th. */
  function Replies(answer: (nat, string) -> string, lines: seq<string>): string {
    if lines == [] then ""
    else
      var n := |lines| - 1;
      Replies(answer, lines[..n]) + answer(n, lines[n]) + "\n"
  }

  /** No read brings the buffer over the cap while it still waits for a newline. */
  ghost predicate FitsCap(chunks: seq<string>) {
    forall i :: 0 <= i < |chunks| ==> |Rest(Concat(chunks[..i]))| + |chunks[i]| <= SERVER_CAP
  }

  lemma {:induction false} ConcatSplits(chunks: seq<string>, i: nat)
    requires i <= |chunks|
    ensures Concat(chunks) == Concat(chunks[..i]) + Concat(chunks[i..])
    decreases |chunks|
  {
    if i == |chunks| {
      assert chunks[..i] == chunks;
    } else {
      var n := |chunks| - 1;
      ConcatSplits(chunks[..n], i);
      assert chunks[..n][..i] == chunks[..i] && chunks[i..][..n - i] == chunks[..n][i..];
    }
  }

  /** Where the loop is: the lines handled, then the buffer, make up the bytes read. */
  ghost predicate ReadSoFar(chunks: seq<string>, i: nat, handled: seq<string>, buf: string) {
    && i <= |chunks|
    && (forall l :: l in handled ==> OneLine(l))
    && Unlines(handled) + buf == Concat(chunks[..i])
  }

  lemma Reassociate<T>(a: seq<T>, b: seq<T>, c: seq<T>)
    ensures (a + b) + c == a + (b + c)
  {
  }

  lemma HandledComesFirst(handled: seq<string>, x: string)
    requires forall l :: l in handled ==> OneLine(l)
    ensures handled <= Lines(Unlines(handled) + x)
    ensures !HasLine(x) ==> Lines(Unlines(handled) + x) == handled && Rest(Unlines(handled) + x) == x
  {
    LinesOfUnlines(handled, x, Lines(x), Rest(x));
  }

  lemma {:induction false} HandledOf(handled: seq<string>, buf: string, read: string, more: string, all: string)
    requires forall l :: l in handled ==> OneLine(l)
    requires Unlines(handled) + buf == read && read + more == all
    ensures handled <= Lines(all)
    ensures !HasLine(buf) ==> Rest(read) == buf
    ensures !HasLine(buf) && more == "" ==> handled == Lines(all)
  {
    HandledComesFirst(handled, buf);
    HandledComesFirst(handled, buf + more);
    Reassociate(Unlines(handled), buf, more);
    assert buf + "" == buf;
  }

  lemma ReadsLines(chunks: seq<string>, i: nat, handled: seq<string>, buf: string)
    requires ReadSoFar(chunks, i, handled, buf)
    ensures handled <= Lines(Concat(chunks))
    ensures !HasLine(buf) ==> Rest(Concat(chunks[..i])) == buf
    ensures !HasLine(buf) && i == |chunks| ==> handled == Lines(Concat(chunks))
  {
    ConcatSplits(chunks, i);
    HandledOf(handled, buf, Concat(chunks[..i]), Concat(chunks[i..]), Concat(chunks));
  }

  lemma ReadsChunk(chunks: seq<string>, i: nat, handled: seq<string>, buf: string)
    requires ReadSoFar(chunks, i, handled, buf) && i < |chunks|
    ensures ReadSoFar(chunks, i + 1, handled, buf + chunks[i])
  {
    assert chunks[..i + 1][..i] == chunks[..i];
    assert Unlines(handled) + (buf + chunks[i]) == (Unlines(handled) + buf) + chunks[i];
  }

  lemma HandlesLine(chunks: seq<string>, i: nat, handled: seq<string>, buf: string)
    requires ReadSoFar(chunks, i, handled, buf) && HasLine(buf)
    ensures ReadSoFar(chunks, i, handled + [FirstLine(buf)], AfterLine(buf))
  {
    FirstLineSplits(buf);
    UnlinesAppend(handled, FirstLine(buf), AfterLine(buf));
  }

  /** Messages well under the cap fit it, however the stream is cut: each line, and the unfinished
      one, leaves room for a whole chunk. */
  lemma ShortLinesFit(chunks: seq<string>)
    requires forall c :: c in chunks ==> |c| <= SERVER_CHUNK
    requires forall l :: l in Lines(Concat(chunks)) ==> |l| <= SERVER_CAP - SERVER_CHUNK
    requires |Rest(Concat(chunks))| <= SERVER_CAP - SERVER_CHUNK
    ensures FitsCap(chunks)
  {
    forall i | 0 <= i < |chunks| ensures |Rest(Concat(chunks[..i]))| + |chunks[i]| <= SERVER_CAP {
      ConcatSplits(chunks, i);
      RestIsBounded(Concat(chunks[..i]), Concat(chunks[i..]), SERVER_CAP - SERVER_CHUNK);
      assert chunks[i] in chunks;
    }
  }

  lemma {:induction false} RestIsBounded(p: string, q: string, n: nat)
    requires forall l :: l in Lines(p + q) ==> |l| <= n
    requires |Rest(p + q)| <= n
    ensures |Rest(p)| <= n
    decreases |p|
  {
    if HasLine(p) {
      var l, r := FirstLine(p), AfterLine(p);
      FirstLineSplits(p);
      LineThenMore(l, r, q);
      LinesOfLine(l, r + q);
      LinesOfLine(l, r);
      assert forall x :: x in Lines(r + q) ==> x in Lines(p + q);
      RestIsBounded(r, q, n);
    } else if HasLine(p + q) {
      FirstLineIsLong(p, q);
      assert FirstLine(p + q) in Lines(p + q);
    }
  }

  lemma FirstLineIsLong(p: string, q: string)
    requires !HasLine(p) && HasLine(p + q)
    ensures |FirstLine(p + q)| >= |p|
  {
    var l := FirstLine(p + q);
    FirstLineSplits(p + q);
    assert (p + q)[|l|] == '\n';
    assert forall i :: 0 <= i < |p| ==> p[i] == (p + q)[i];
  }

  // ---------------------------------------------------------------- the two ends joined

  const CLIENT_CAP := 64 * 1024 * 1024

  /** One accepted connection: the bytes in flight each way, the server thread's buffer, and the
      record of what was asked on it and how the server dealt with it. */
  datatype Conn = Conn(toServer: string, serverBuf: string, serverUp: bool, toClient: string,
                       asked: seq<string>, partial: string, handled: seq<string>, replies: seq<string>)

  datatype Phase = Idle | Sending(req: string, sent: nat) | Waiting(req: string)

  /** A call that returned a line: the place-th call of its connection. */
  datatype Entry = Entry(conn: nat, place: nat, req: string, line: string)

  /** Every connection ever made, the client's socket, buffer and phase, the number of calls
      returned on the current connection, and all calls that returned a line. */
  datatype State = State(conns: seq<Conn>, fd: Option<nat>, buf: string, phase: Phase, calls: nat, log: seq<Entry>)

  const START := State([], None, "", Idle, 0, [])

  datatype Event =
    | Connects
    | ConnectFails
    | Closes
    | CallStarts(req: string)
    | Sends(n: nat)
    | SendFails
    | Receives(chunk: string)
    | ReceiveFails
    | Returns
    | ServerReads(conn: nat, n: nat)
    | ServerHandles(conn: nat, reply: string)
    | ServerLeaves(conn: nat)

  predicate IsServerEvent(e: Event) {
    e.ServerReads? || e.ServerHandles? || e.ServerLeaves?
  }

  function ServerStep(c: Conn, e: Event): Option<Conn>
    requires IsServerEvent(e)
  {
    if !c.serverUp then None
    else match e
      case ServerReads(_, n) =>
        if HasLine(c.serverBuf) || n == 0 || n > |c.toServer| then None
        else
          var buf := c.serverBuf + c.toServer[..n];
          Some(c.(serverBuf := buf, toServer := c.toServer[n..], serverUp := |buf| <= SERVER_CAP))
      case ServerHandles(_, reply) =>
        if !HasLine(c.serverBuf) || !OneLine(reply) then None
        else Some(c.(serverBuf := AfterLine(c.serverBuf), handled := c.handled + [FirstLine(c.serverBuf)],
                     replies := c.replies + [reply], toClient := c.toClient + reply + "\n"))
      case ServerLeaves(_) => Some(c.(serverUp := false))
  }

  function Hangup(s: State): State {
    s.(fd := None, phase := Idle)
  }

  function Connected(s: State): State {
    s.(conns := s.conns + [Conn("", "", true, "", [], "", [], [])], fd := Some(|s.conns|), buf := "", calls := 0)
  }

  function OnServer(s: State, e: Event): Option<State>
    requires IsServerEvent(e)
  {
    if e.conn < |s.conns| && ServerStep(s.conns[e.conn], e).Some?
    then Some(s.(conns := s.conns[e.conn := ServerStep(s.conns[e.conn], e).value]))
    else None
  }

  /** `send` took n more bytes of the request and its newline. */
  function SendSome(s: State, fd: nat, req: string, from: nat, n: nat): State
    requires fd < |s.conns| && from + n <= |req| + 1
  {
    var msg, c := req + "\n", s.conns[fd];
    var d := c.(toServer := c.toServer + msg[from..from + n]);
    if from + n == |msg|
    then s.(conns := s.conns[fd := d.(asked := c.asked + [req], partial := "")], phase := Waiting(req))
    else s.(conns := s.conns[fd := d.(partial := msg[..from + n])], phase := Sending(req, from + n))
  }

  function Receive(s: State, fd: nat, chunk: string): State
    requires fd < |s.conns| && chunk <= s.conns[fd].toClient
  {
    var c := s.conns[fd];
    var t := s.(conns := s.conns[fd := c.(toClient := c.toClient[|chunk|..])], buf := s.buf + chunk);
    if |t.buf| > CLIENT_CAP then Hangup(t) else t
  }

  function ReturnLine(s: State, fd: nat, req: string): State
    requires HasLine(s.buf)
  {
    s.(buf := AfterLine(s.buf), phase := Idle, calls := s.calls + 1,
       log := s.log + [Entry(fd, s.calls, req, FirstLine(s.buf))])
  }

  /** What one event does; None where it cannot happen. */
  function Step(s: State, e: Event): Option<State> {
    if IsServerEvent(e) then OnServer(s, e)
    else match s.phase
      case Idle =>
        (match e
         case Connects => Some(Connected(s))
         case ConnectFails => Some(Hangup(s))
         case Closes => Some(Hangup(s))
         case CallStarts(req) => if s.fd.Some? && OneLine(req) then Some(s.(phase := Sending(req, 0))) else None
         case _ => None)
      case Sending(req, sent) =>
        if s.fd.None? || s.fd.value >= |s.conns| then None
        else
          (match e
           case Sends(n) =>
             if 0 < n && sent + n <= |req| + 1 then Some(SendSome(s, s.fd.value, req, sent, n)) else None
           case SendFails => Some(Hangup(s))
           case _ => None)
      case Waiting(req) =>
        if s.fd.None? || s.fd.value >= |s.conns| then None
        else
          (match e
           case Receives(chunk) =>
             if !HasLine(s.buf) && chunk != "" && chunk <= s.conns[s.fd.value].toClient
             then Some(Receive(s, s.fd.value, chunk)) else None
           case ReceiveFails => if !HasLine(s.buf) then Some(Hangup(s)) else None
           case Returns => if HasLine(s.buf) then Some(ReturnLine(s, s.fd.value, req)) else None
           case _ => None)
  }

  function Run(s: State, events: seq<Event>): Option<State> {
    if events == [] then Some(s)
    else
      var t := Run(s, events[..|events| - 1]);
      if t.Some? then Step(t.value, events[|events| - 1]) else None
  }

  // ---------------------------------------------------------------- the invariant

  /** Between what was asked and what was handled lie exactly the bytes under way. */
  ghost predicate ConnInv(c: Conn) {
    && |c.handled| == |c.replies|
    && c.handled <= c.asked
    && OneLine(c.partial)
    && (forall l :: l in c.asked ==> OneLine(l))
    && (forall l :: l in c.replies ==> OneLine(l))
    && c.serverBuf + c.toServer == Unlines(c.asked[|c.handled|..]) + c.partial
  }

  /** The current connection owes the client nothing but the reply to the call under way. */
  ghost predicate Live(c: Conn, buf: string, phase: Phase, calls: nat) {
    match phase
    case Idle => c.asked == c.handled && |c.asked| == calls && c.partial == "" && c.toClient == "" && buf == ""
    case Sending(req, sent) =>
      && OneLine(req) && sent <= |req| && c.partial == req[..sent]
      && c.asked == c.handled && |c.asked| == calls && c.toClient == "" && buf == ""
    case Waiting(req) =>
      && OneLine(req) && |c.asked| == calls + 1 && c.asked[calls] == req && c.partial == ""
      && if |c.handled| == calls then c.toClient == "" && buf == ""
         else |c.handled| == |c.replies| == calls + 1 && buf + c.toClient == Line(c.replies[calls], "")
  }

  /** The entry's line is what the server answered, on the entry's own connection, to the
      entry's own request: the place-th asked, the place-th handled, the place-th reply. */
  ghost predicate Answered(conns: seq<Conn>, e: Entry) {
    && e.conn < |conns|
    && e.place < |conns[e.conn].asked| && e.place < |conns[e.conn].handled| && e.place < |conns[e.conn].replies|
    && conns[e.conn].asked[e.place] == conns[e.conn].handled[e.place] == e.req
    && conns[e.conn].replies[e.place] == e.line
  }

  ghost predicate Inv(s: State) {
    && (forall i :: 0 <= i < |s.conns| ==> ConnInv(s.conns[i]))
    && (s.fd.None? ==> s.phase.Idle?)
    && (s.fd.Some? ==> s.fd.value < |s.conns| && Live(s.conns[s.fd.value], s.buf, s.phase, s.calls))
    && (forall e :: e in s.log ==> Answered(s.conns, e))
  }

  lemma FirstLineOfPrefix(a: string, b: string, l: string, t: string)
    requires HasLine(a) && OneLine(l) && a + b == Line(l, t)
    ensures FirstLine(a) == l && AfterLine(a) + b == t
  {
    FirstLineSplits(a);
    LineThenMore(FirstLine(a), AfterLine(a), b);
    FirstLineIs(FirstLine(a), AfterLine(a) + b);
    FirstLineIs(l, t);
  }

  lemma HasLineAppend(a: string, b: string)
    requires HasLine(a)
    ensures HasLine(a + b)
  {
    var i :| 0 <= i < |a| && a[i] == '\n';
    assert (a + b)[i] == '\n';
  }

  /** The server's end keeps the books of its connection straight. */
  lemma ServerKeepsConn(c: Conn, e: Event)
    requires ConnInv(c) && IsServerEvent(e) && ServerStep(c, e).Some?
    ensures ConnInv(ServerStep(c, e).value)
    ensures e.ServerHandles? ==> |c.handled| < |c.asked| && FirstLine(c.serverBuf) == c.asked[|c.handled|]
  {
    match e
    case ServerReads(_, n) =>
      assert c.serverBuf + c.toServer[..n] + c.toServer[n..] == c.serverBuf + c.toServer;
    case ServerHandles(_, reply) =>
      var h := |c.handled|;
      HasLineAppend(c.serverBuf, c.toServer);
      assert h == |c.asked| ==> Unlines(c.asked[h..]) + c.partial == c.partial;
      assert c.asked[h..] == [c.asked[h]] + c.asked[h + 1..];
      LineThenMore(c.asked[h], Unlines(c.asked[h + 1..]), c.partial);
      assert c.asked[h] in c.asked;
      FirstLineOfPrefix(c.serverBuf, c.toServer, c.asked[h], Unlines(c.asked[h + 1..]) + c.partial);
    case ServerLeaves(_) =>
  }

  lemma ServerKeepsLive(c: Conn, e: Event, buf: string, phase: Phase, calls: nat)
    requires ConnInv(c) && Live(c, buf, phase, calls) && IsServerEvent(e) && ServerStep(c, e).Some?
    ensures Live(ServerStep(c, e).value, buf, phase, calls)
  {
    ServerKeepsConn(c, e);
    if e.ServerHandles? {
      assert "" + ("" + e.reply + "\n") == Line(e.reply, "");
    }
  }

  /** A connection only ever gains requests, handled lines and replies. */
  ghost predicate Grows(c: Conn, d: Conn) {
    c.asked <= d.asked && c.handled <= d.handled && c.replies <= d.replies
  }

  lemma AnsweredStays(s: State, conns: seq<Conn>)
    requires Inv(s) && |s.conns| <= |conns|
    requires forall i :: 0 <= i < |s.conns| ==> Grows(s.conns[i], conns[i])
    ensures forall e :: e in s.log ==> Answered(conns, e)
  {
    forall e | e in s.log ensures Answered(conns, e) {
      assert Answered(s.conns, e) && Grows(s.conns[e.conn], conns[e.conn]);
    }
  }

  /** Changing one connection, upwards, and the client's side with it. */
  lemma UpdateKeepsInv(s: State, i: nat, d: Conn, t: State)
    requires Inv(s) && i < |s.conns| && t.conns == s.conns[i := d] && t.log == s.log
    requires ConnInv(d) && Grows(s.conns[i], d)
    requires t.fd.None? ==> t.phase.Idle?
    requires t.fd.Some? ==> t.fd.value < |s.conns| && Live(t.conns[t.fd.value], t.buf, t.phase, t.calls)
    ensures Inv(t)
  {
    AnsweredStays(s, t.conns);
  }

  lemma ServerStepKeepsInv(s: State, e: Event)
    requires Inv(s) && IsServerEvent(e) && OnServer(s, e).Some?
    ensures Inv(OnServer(s, e).value)
  {
    var t := OnServer(s, e).value;
    var c := s.conns[e.conn];
    ServerKeepsConn(c, e);
    if s.fd == Some(e.conn) {
      ServerKeepsLive(c, e, s.buf, s.phase, s.calls);
    }
    UpdateKeepsInv(s, e.conn, ServerStep(c, e).value, t);
  }

  lemma ConnectKeepsInv(s: State)
    requires Inv(s) && s.phase.Idle?
    ensures Inv(Connected(s))
  {
    var t := Connected(s);
    assert ConnInv(t.conns[|s.conns|]);
    AnsweredStays(s, t.conns);
  }

  /** Sending a piece of the request, the last one with its newline included. */
  lemma SendKeepsInv(s: State, fd: nat, req: string, sent: nat, n: nat)
    requires Inv(s) && s.fd == Some(fd) && s.phase == Sending(req, sent)
    requires 0 < n && sent + n <= |req| + 1
    ensures Inv(SendSome(s, fd, req, sent, n))
  {
    var c, t := s.conns[fd], SendSome(s, fd, req, sent, n);
    var d := t.conns[fd];
    var msg := req + "\n";
    var piece := msg[sent..sent + n];
    assert c.serverBuf + c.toServer == msg[..sent] by {
      assert c.asked[|c.handled|..] == [];
      assert req[..sent] == msg[..sent];
    }
    assert d.serverBuf + d.toServer == msg[..sent + n] by {
      assert c.serverBuf + (c.toServer + piece) == (c.serverBuf + c.toServer) + piece;
    }
    if sent + n == |msg| {
      assert d.asked[|c.handled|..] == [req];
      assert msg[..sent + n] == msg == Unlines([req]) + "" by {
        assert [req][1..] == [];
      }
    } else {
      assert d.asked[|c.handled|..] == [];
      assert msg[..sent + n] == req[..sent + n];
    }
    UpdateKeepsInv(s, fd, d, t);
  }

  lemma ReceiveKeepsInv(s: State, fd: nat, req: string, chunk: string)
    requires Inv(s) && s.fd == Some(fd) && s.phase == Waiting(req)
    requires chunk <= s.conns[fd].toClient
    ensures Inv(Receive(s, fd, chunk))
  {
    var c, t := s.conns[fd], Receive(s, fd, chunk);
    assert chunk + c.toClient[|chunk|..] == c.toClient;
    assert (s.buf + chunk) + c.toClient[|chunk|..] == s.buf + c.toClient;
    UpdateKeepsInv(s, fd, t.conns[fd], t);
  }

  /** A line can only be in the buffer once the server has replied; it is the reply, whole, and
      nothing is left behind it. */
  lemma ReturnKeepsInv(s: State, fd: nat, req: string)
    requires Inv(s) && s.fd == Some(fd) && s.phase == Waiting(req) && HasLine(s.buf)
    ensures Inv(ReturnLine(s, fd, req))
  {
    var c := s.conns[fd];
    assert |c.handled| == s.calls + 1;
    assert c.replies[s.calls] in c.replies;
    FirstLineOfPrefix(s.buf, c.toClient, c.replies[s.calls], "");
    assert c.asked == c.handled;
  }

  lemma ClientStepKeepsInv(s: State, e: Event)
    requires Inv(s) && !IsServerEvent(e) && Step(s, e).Some?
    ensures Inv(Step(s, e).value)
  {
    match s.phase
    case Idle =>
      if e.Connects? {
        ConnectKeepsInv(s);
      }
    case Sending(req, sent) =>
      if e.Sends? {
        SendKeepsInv(s, s.fd.value, req, sent, e.n);
      }
    case Waiting(req) =>
      if e.Receives? {
        ReceiveKeepsInv(s, s.fd.value, req, e.chunk);
      } else if e.Returns? {
        ReturnKeepsInv(s, s.fd.value, req);
      }
  }

  lemma {:induction false} RunKeepsInv(s: State, events: seq<Event>)
    requires Inv(s) && Run(s, events).Some?
    ensures Inv(Run(s, events).value)
  {
    if events != [] {
      var n := |events| - 1;
      RunKeepsInv(s, events[..n]);
      var t := Run(s, events[..n]).value;
      if IsServerEvent(events[n]) {
        ServerStepKeepsInv(t, events[n]);
      } else {
        ClientStepKeepsInv(t, events[n]);
      }
    }
  }

  /** For every way the streams are cut and every sequence of failures and reconnects: a line a
      call returned is the server's reply to that call's own request, never a late or earlier one;
      and on every connection the server has handled exactly the first of the lines asked, in
      order, with one reply each. */
  lemma EveryReplyIsItsOwn(events: seq<Event>)
    requires Run(START, events).Some?
    ensures var s := Run(START, events).value;
            && (forall e :: e in s.log ==> Answered(s.conns, e))
            && (forall c :: c in s.conns ==> c.handled <= c.asked && |c.replies| == |c.handled|)
  {
    RunKeepsInv(START, events);
  }

  // ---------------------------------------------------------------- the server's code

  /** Events of the server's thread on one connection. */
  ghost predicate OnConn(events: seq<Event>, conn: nat) {
    forall e :: e in events ==> IsServerEvent(e) && e.conn == conn
  }

  function ServerRun(c: Conn, events: seq<Event>): Option<Conn>
    requires forall e :: e in events ==> IsServerEvent(e)
  {
    if events == [] then Some(c)
    else
      var d := ServerRun(c, events[..|events| - 1]);
      if d.Some? then ServerStep(d.value, events[|events| - 1]) else None
  }

  /** What the server's thread does on its own connection is a run of the joint machine that leaves all else alone. */
  lemma {:induction false} ServerRunIsARun(s: State, conn: nat, events: seq<Event>)
    requires conn < |s.conns| && OnConn(events, conn) && ServerRun(s.conns[conn], events).Some?
    ensures Run(s, events) == Some(s.(conns := s.conns[conn := ServerRun(s.conns[conn], events).value]))
  {
    if events == [] {
      assert s.conns[conn := s.conns[conn]] == s.conns;
    } else {
      var n := |events| - 1;
      ServerRunIsARun(s, conn, events[..n]);
      var c := ServerRun(s.conns[conn], events[..n]).value;
      var d := ServerRun(s.conns[conn], events).value;
      assert events[n] in events;
      assert s.conns[conn := c][conn := d] == s.conns[conn := d];
    }
  }

  lemma LaterBytesStep(c: Conn, e: Event, more: string)
    requires IsServerEvent(e) && ServerStep(c, e).Some?
    ensures var d := ServerStep(c, e).value;
            ServerStep(c.(toServer := c.toServer + more), e) == Some(d.(toServer := d.toServer + more))
  {
    if e.ServerReads? {
      assert (c.toServer + more)[..e.n] == c.toServer[..e.n];
      assert (c.toServer + more)[e.n..] == c.toServer[e.n..] + more;
    }
  }

  /** Bytes that arrive later change nothing of what the server does on the earlier ones. */
  lemma {:induction false} LaterBytesWait(c: Conn, events: seq<Event>, more: string)
    requires (forall e :: e in events ==> IsServerEvent(e)) && ServerRun(c, events).Some?
    ensures var d := ServerRun(c, events).value;
            ServerRun(c.(toServer := c.toServer + more), events) == Some(d.(toServer := d.toServer + more))
  {
    if events != [] {
      var n := |events| - 1;
      LaterBytesWait(c, events[..n], more);
      LaterBytesStep(ServerRun(c, events[..n]).value, events[n], more);
    }
  }

  /** c is just accepted, with all the bytes it will ever bring; reads return bytes, and replies hold no raw newline. */
  ghost predicate Proper(c: Conn, chunks: seq<string>, answer: (nat, string) -> string) {
    && c.serverUp && c.serverBuf == "" && c.toServer == Concat(chunks)
    && "" !in chunks && forall k, l {:trigger answer(k, l)} :: OneLine(answer(k, l))
  }

  /** How far the server's thread is, from connection c on: the events so far, and the connection now. */
  ghost predicate Serving(c: Conn, conn: nat, chunks: seq<string>, i: nat, buf: string, handled: seq<string>,
                          sent: string, events: seq<Event>, now: Conn) {
    && OnConn(events, conn) && ServerRun(c, events) == Some(now)
    && i <= |chunks| && now.serverUp && now.serverBuf == buf && now.toServer == Concat(chunks[i..])
    && now.handled == c.handled + handled && now.toClient == c.toClient + sent
  }

  lemma ServerRunNext(c: Conn, conn: nat, events: seq<Event>, now: Conn, e: Event)
    requires OnConn(events, conn) && ServerRun(c, events) == Some(now) && IsServerEvent(e) && e.conn == conn
    ensures OnConn(events + [e], conn) && ServerRun(c, events + [e]) == ServerStep(now, e)
  {
    assert (events + [e])[..|events|] == events;
  }

  lemma ConcatHead(chunks: seq<string>, i: nat)
    requires i < |chunks|
    ensures Concat(chunks[i..]) == chunks[i] + Concat(chunks[i + 1..])
  {
    ConcatSplits(chunks[i..], 1);
    assert chunks[i..][..1] == [chunks[i]] && chunks[i..][1..] == chunks[i + 1..];
    assert [chunks[i]][..0] == [] && "" + chunks[i] == chunks[i];
  }

  lemma ServingReads(c: Conn, conn: nat, chunks: seq<string>, i: nat, buf: string, handled: seq<string>, sent: string,
                     events: seq<Event>, now: Conn) returns (more: seq<Event>, next: Conn)
    requires Serving(c, conn, chunks, i, buf, handled, sent, events, now)
    requires i < |chunks| && chunks[i] != "" && !HasLine(buf)
    ensures OnConn(more, conn) && ServerRun(c, more) == Some(next)
    ensures next.handled == now.handled && next.toClient == now.toClient
    ensures next.serverUp <==> |buf + chunks[i]| <= SERVER_CAP
    ensures next.serverUp ==> Serving(c, conn, chunks, i + 1, buf + chunks[i], handled, sent, more, next)
  {
    var e := ServerReads(conn, |chunks[i]|);
    ConcatHead(chunks, i);
    assert now.toServer[..|chunks[i]|] == chunks[i] && now.toServer[|chunks[i]|..] == Concat(chunks[i + 1..]);
    ServerRunNext(c, conn, events, now, e);
    more, next := events + [e], ServerStep(now, e).value;
  }

  lemma ServingHandles(c: Conn, conn: nat, chunks: seq<string>, i: nat, buf: string, handled: seq<string>, sent: string,
                       events: seq<Event>, now: Conn, reply: string) returns (more: seq<Event>, next: Conn)
    requires Serving(c, conn, chunks, i, buf, handled, sent, events, now) && HasLine(buf) && OneLine(reply)
    ensures Serving(c, conn, chunks, i, AfterLine(buf), handled + [FirstLine(buf)], sent + reply + "\n", more, next)
  {
    var e := ServerHandles(conn, reply);
    ServerRunNext(c, conn, events, now, e);
    more, next := events + [e], ServerStep(now, e).value;
    Reassociate(c.handled, handled, [FirstLine(buf)]);
    Reassociate(c.toClient, sent, reply);
    Reassociate(c.toClient, sent + reply, "\n");
  }

  lemma ServingLeaves(c: Conn, conn: nat, events: seq<Event>, now: Conn) returns (more: seq<Event>)
    requires OnConn(events, conn) && ServerRun(c, events) == Some(now) && now.serverUp
    ensures OnConn(more, conn) && ServerRun(c, more) == Some(now.(serverUp := false))
  {
    ServerRunNext(c, conn, events, now, ServerLeaves(conn));
    more := events + [ServerLeaves(conn)];
  }

  /** The thread is done with the connection: it has left, its lines handled and its replies sent. */
  ghost predicate Served(c: Conn, conn: nat, handled: seq<string>, sent: string, events: seq<Event>) {
    && OnConn(events, conn) && ServerRun(c, events).Some?
    && var d := ServerRun(c, events).value;
       !d.serverUp && d.handled == c.handled + handled && d.toClient == c.toClient + sent
  }

  /** `handle_client`: `chunks` are what successive reads return before the client is gone, and
      `turns` is how many times the outer loop finds the server running.  `events` are the same steps in the joint
      machine, on connection c. */
  method HandleClient(chunks: seq<string>, answer: (nat, string) -> string, turns: nat, ghost c: Conn, ghost conn: nat)
    returns (handled: seq<string>, sent: string, ghost events: seq<Event>)
    ensures handled <= Lines(Concat(chunks)) && |handled| <= turns
    ensures FitsCap(chunks) && turns >= |Lines(Concat(chunks))| ==> handled == Lines(Concat(chunks))
    ensures sent == Replies(answer, handled)
    ensures Proper(c, chunks, answer) ==> Served(c, conn, handled, sent, events)
  {
    var buf, i := "", 0;
    handled, sent := [], "";
    ghost var now := c;
    events := [];
    assert chunks[0..] == chunks;
    while |handled| < turns
      invariant |handled| <= turns
      invariant ReadSoFar(chunks, i, handled, buf)
      invariant sent == Replies(answer, handled)
      invariant Proper(c, chunks, answer) ==> Serving(c, conn, chunks, i, buf, handled, sent, events, now)
      decreases turns - |handled|
    {
      var ok: bool;
      ok, buf, i, events, now := FillBuffer(chunks, i, handled, buf, answer, sent, c, conn, events, now);
      if !ok {
        return;
      }
      var line := FirstLine(buf);
      HandlesLine(chunks, i, handled, buf);
      if Proper(c, chunks, answer) {
        events, now := ServingHandles(c, conn, chunks, i, buf, handled, sent, events, now, answer(|handled|, line));
      }
      buf := AfterLine(buf);
      sent := sent + answer(|handled|, line) + "\n";
      assert (handled + [line])[..|handled|] == handled;
      handled := handled + [line];
    }
    ReadsLines(chunks, i, handled, buf);
    if Proper(c, chunks, answer) {
      events := ServingLeaves(c, conn, events, now);
    }
  }

  /** The inner loop: read until the buffer holds a newline.  It gives up when the client is gone,
      all its lines handled, or when the buffer passes the cap. */
  method FillBuffer(chunks: seq<string>, start: nat, ghost handled: seq<string>, had: string,
                    ghost answer: (nat, string) -> string, ghost sent: string, ghost c: Conn, ghost conn: nat,
                    ghost before: seq<Event>, ghost was: Conn)
    returns (ok: bool, buf: string, i: nat, ghost events: seq<Event>, ghost now: Conn)
    requires ReadSoFar(chunks, start, handled, had)
    requires Proper(c, chunks, answer) ==> Serving(c, conn, chunks, start, had, handled, sent, before, was)
    ensures ok ==> ReadSoFar(chunks, i, handled, buf) && HasLine(buf)
    ensures handled <= Lines(Concat(chunks))
    ensures !ok && FitsCap(chunks) ==> handled == Lines(Concat(chunks))
    ensures Proper(c, chunks, answer) ==>
              if ok then Serving(c, conn, chunks, i, buf, handled, sent, events, now)
              else Served(c, conn, handled, sent, events)
  {
    buf, i, events, now := had, start, before, was;
    while !HasLine(buf)
      invariant ReadSoFar(chunks, i, handled, buf)
      invariant Proper(c, chunks, answer) ==> Serving(c, conn, chunks, i, buf, handled, sent, events, now)
      decreases |chunks| - i
    {
      ReadsLines(chunks, i, handled, buf);
      if i == |chunks| {
        if Proper(c, chunks, answer) {
          events := ServingLeaves(c, conn, events, now);
        }
        return false, buf, i, events, now;
      }
      ReadsChunk(chunks, i, handled, buf);
      if Proper(c, chunks, answer) {
        events, now := ServingReads(c, conn, chunks, i, buf, handled, sent, events, now);
      }
      buf, i := buf + chunks[i], i + 1;
      if |buf| > SERVER_CAP {
        return false, buf, i, events, now;
      }
    }
    ReadsLines(chunks, i, handled, buf);
    return true, buf, i, events, now;
  }

  // ---------------------------------------------------------------- the client's code

  /** The call is under way. */
  function Begun(s: State, req: string): State {
    s.(phase := Sending(req, 0))
  }

  /** `io` is what happens from the start of one call to its return, and nothing more. */
  ghost predicate OneCall(begun: State, io: seq<Event>) {
    && Run(begun, io).Some? && Run(begun, io).value.phase.Idle?
    && forall k :: 0 <= k < |io| ==> Run(begun, io[..k]).Some? && !Run(begun, io[..k]).value.phase.Idle?
  }

  lemma NextEvent(begun: State, io: seq<Event>, i: nat, now: State)
    requires OneCall(begun, io) && i <= |io| && Run(begun, io[..i]) == Some(now) && !now.phase.Idle?
    ensures i < |io| && Step(now, io[i]).Some? && Run(begun, io[..i + 1]) == Step(now, io[i])
    ensures Step(now, io[i]).value.phase.Idle? <==> i + 1 == |io|
  {
    assert io[..|io|] == io;
    assert io[..i + 1][..i] == io[..i];
  }

  ghost predicate Reached(begun: State, io: seq<Event>, i: nat, now: State) {
    i <= |io| && Run(begun, io[..i]) == Some(now)
  }

  /** The log after a call that returned `line`, or an error reply. */
  function Logged(s: State, fd: nat, req: string, line: Option<string>): seq<Entry> {
    if line.Some? then s.log + [Entry(fd, s.calls, req, line.value)] else s.log
  }

  class LiveClient {
    var connected: bool
    var buf: string

    constructor ()
      ensures At(START)
    {
      connected, buf := false, "";
    }

    /** The object holds the client's side of s, between calls. */
    ghost predicate At(s: State)
      reads this
    {
      connected == s.fd.Some? && buf == s.buf && s.phase.Idle?
    }

    /** In the middle of a call. */
    ghost predicate Amid(s: State, fd: nat)
      reads this
    {
      connected && s.fd == Some(fd) && fd < |s.conns| && buf == s.buf
    }

    /** Waiting for the reply, with nothing returned since s. */
    ghost predicate Hears(now: State, s: State, fd: nat, req: string)
      reads this
    {
      Amid(now, fd) && now.phase == Waiting(req) && now.log == s.log && now.calls == s.calls
    }

    /** The call under way at s has returned the line, or an error. */
    ghost predicate Heard(now: State, s: State, fd: nat, req: string, line: Option<string>)
      reads this
    {
      At(now) && now.log == Logged(s, fd, req, line)
    }

    /** The receive loop has taken the first i outcomes, and goes on. */
    ghost predicate Receiving(begun: State, io: seq<Event>, i: nat, now: State, s: State, fd: nat, req: string)
      reads this
    {
      Reached(begun, io, i, now) && Hears(now, s, fd, req)
    }

    /** It has taken them all, and is done. */
    ghost predicate Received(begun: State, io: seq<Event>, now: State, s: State, fd: nat, req: string,
                             line: Option<string>)
      reads this
    {
      Reached(begun, io, |io|, now) && Heard(now, s, fd, req, line)
    }

    method Close(ghost s: State)
      requires connected == s.fd.Some? && buf == s.buf
      modifies this
      ensures At(Hangup(s))
    {
      if connected {
        connected := false;
      }
    }

    method Connect(reachable: bool, ghost s: State) returns (ok: bool)
      requires At(s)
      modifies this
      ensures ok == reachable && At(if reachable then Connected(s) else Hangup(s))
    {
      Close(s);
      if !reachable {
        return false;
      }
      connected, buf := true, "";
      return true;
    }

    /** The send loop: whether all of the request went out, and how much of `io` that took. */
    method SendAll(req: string, io: seq<Event>, ghost s: State, ghost fd: nat)
      returns (ok: bool, i: nat, ghost now: State)
      requires Amid(s, fd) && s.phase == Sending(req, 0) && OneCall(s, io)
      modifies this
      ensures i <= |io| && Run(s, io[..i]) == Some(now) && now.log == s.log && now.calls == s.calls
      ensures if ok then Amid(now, fd) && now.phase == Waiting(req) else At(now) && i == |io|
    {
      var msg := req + "\n";
      var sent: nat := 0;
      now, i := s, 0;
      while sent < |msg|
        invariant sent <= |msg| && i <= |io| && Run(s, io[..i]) == Some(now)
        invariant Amid(now, fd) && now.log == s.log && now.calls == s.calls
        invariant sent < |msg| ==> now.phase == Sending(req, sent)
        invariant sent == |msg| ==> now.phase == Waiting(req)
        decreases |io| - i
      {
        NextEvent(s, io, i, now);
        i := i + 1;
        if io[i - 1].SendFails? {
          Close(now);
          now := Hangup(now);
          return false, i, now;
        }
        if io[i - 1].Sends? {
          sent := sent + io[i - 1].n;
        }
        now := Step(now, io[i - 1]).value;
      }
      return true, i, now;
    }

    /** One turn of the receive loop, on the i-th outcome. */
    method OnOutcome(req: string, io: seq<Event>, i: nat, ghost begun: State, ghost now: State, ghost s: State,
                     ghost fd: nat)
      returns (done: bool, line: Option<string>, ghost t: State)
      requires OneCall(begun, io) && Receiving(begun, io, i, now, s, fd, req)
      modifies this
      ensures i < |io|
      ensures if done then Received(begun, io, t, s, fd, req, line) else Receiving(begun, io, i + 1, t, s, fd, req)
    {
      NextEvent(begun, io, i, now);
      t := Step(now, io[i]).value;
      if IsServerEvent(io[i]) {
        return false, None, t;
      } else if HasLine(buf) {
        line := Some(FirstLine(buf));
        buf := AfterLine(buf);
        return true, line, t;
      } else if io[i].ReceiveFails? {
        connected := false;
        return true, None, t;
      } else {
        buf := buf + io[i].chunk;
        if |buf| > CLIENT_CAP {
          connected := false;
          return true, None, t;
        }
        return false, None, t;
      }
    }

    /** The receive loop. */
    method ReceiveLine(req: string, io: seq<Event>, at: nat, ghost s: State, ghost fd: nat, ghost begun: State)
      returns (line: Option<string>, ghost now: State)
      requires OneCall(begun, io) && Receiving(begun, io, at, s, s, fd, req)
      modifies this
      ensures Received(begun, io, now, s, fd, req, line)
    {
      var i, done := at, false;
      line, now := None, s;
      while !done
        invariant i <= |io|
        invariant if done then Received(begun, io, now, s, fd, req, line) else Receiving(begun, io, i, now, s, fd, req)
        decreases |io| - i
      {
        done, line, now := OnOutcome(req, io, i, begun, now, s, fd);
        i := i + 1;
      }
    }

    /** `call`, on the outcomes in `io` of its system calls; None is an error reply. */
    method Call(req: string, io: seq<Event>, ghost s: State) returns (line: Option<string>)
      requires At(s) && OneLine(req)
      requires s.fd.Some? ==> s.fd.value < |s.conns| && OneCall(Begun(s, req), io)
      modifies this
      ensures s.fd.None? ==> line.None? && At(s)
      ensures s.fd.Some? ==>
        var t := Run(Begun(s, req), io).value;
        At(t) && t.log == Logged(s, s.fd.value, req, line)
    {
      if !connected {
        return None;
      }
      ghost var fd, begun := s.fd.value, Begun(s, req);
      var ok, i;
      ghost var now;
      ok, i, now := SendAll(req, io, begun, fd);
      if ok {
        line, now := ReceiveLine(req, io, i, now, fd, begun);
      } else {
        line := None;
      }
      assert io[..|io|] == io;
    }
  }
}
