/** The `Client` object and the nested loops of its `handle`. */
module ClientObject {
  import opened Wire
  import opened Connection
  import opened Session
  import ServerObject

  class Client {
    const st: Settings
    var held: seq<Frame>
    var writes: nat
    var sends: seq<Request>
    var returned: seq<Conn>
    var output: seq<seq<Frame>>    // what has been written to the client of the servers' replies

    function View(phase: Phase): Session.Client
      reads this
    {
      Session.Client.Client(held, writes, phase, sends, returned)
    }

    constructor (st: Settings, writes: nat)
      ensures this.st == st && View(Outer) == Fresh(writes)
    {
      this.st := st;
      this.writes := writes;
      held, sends, returned, output := [], [], [], [];
    }

    /** Two writes to the client: an answer by the pooler and a ReadyForQuery. */
    method Respond() returns (ok: bool)
      modifies this`writes
      ensures ok <==> old(writes) >= 2
      ensures writes == if ok then old(writes) - 2 else 0
    {
      ok := writes >= 2;
      writes := if ok then writes - 2 else 0;
    }

    /** `receive_server_message` and the write to the client: the body of the reply loop. */
    method Forward(server: ServerObject.Server) returns (r: Progress)
      modifies this`writes, this`output, server
      ensures var p := OneChunk(old(server.View()), st.timed, old(writes));
              && server.View() == p.conn && Sink.Client(writes) == p.sink
              && output == old(output) + p.chunks
              && r == if p.Broken? then Failure
                      else if p.conn.dataAvailable then More(p.chunks[0]) else Over(p.chunks[0])
    {
      var response := server.Recv(st.timed);
      if !response.Handed? {
        server.MarkBad();
        return Failure;
      }
      if writes == 0 {
        server.MarkBad();
        return Failure;
      }
      writes := writes - 1;
      output := output + [response.frames];
      r := if server.dataAvailable then More(response.frames) else Over(response.frames);
    }

    /** The reply loop. */
    method ReceiveLoop(server: ServerObject.Server) returns (ok: bool)
      modifies this`writes, this`output, server
      ensures var p := Pump(old(server.View()), st.timed, Sink.Client(old(writes)));
              && server.View() == p.conn && ok == p.Done?
              && output == old(output) + p.chunks && writes == Writes(p.sink)
    {
      ghost var whole := Pump(server.View(), st.timed, Sink.Client(writes));
      ghost var chunks: seq<seq<Frame>> := [];
      while true
        invariant output == old(output) + chunks
        invariant Continues(whole, chunks, Pump(server.View(), st.timed, Sink.Client(writes)))
        decreases |server.inbox|
      {
        ghost var rest := Pump(server.View(), st.timed, Sink.Client(writes));
        PumpByChunks(server.View(), st.timed, writes);
        var r := Forward(server);
        if r.Failure? {
          ContinuesEnd(whole, chunks, rest);
          return false;
        }
        if r.Over? {
          return true;
        }
        ContinuesMore(whole, chunks, rest, r.frames, Pump(server.View(), st.timed, Sink.Client(writes)));
        chunks := chunks + [r.frames];
      }
    }

    method SendAndReceiveLoop(server: ServerObject.Server, request: Request) returns (ok: bool)
      modifies this`writes, this`sends, this`output, server
      ensures var p := Exchange(old(server.View()), request, st.timed, Sink.Client(old(writes)));
              && server.View() == p.conn && ok == p.Done?
              && output == old(output) + p.chunks && writes == Writes(p.sink)
      ensures sends == old(sends) + [request]
    {
      sends := sends + [request];
      ok := server.Send(request);
      if ok {
        ok := ReceiveLoop(server);
      }
    }

    /** One turn of the inner loop: what the client's next input does to the connection it holds. */
    method TakeTurn(server: ServerObject.Server, input: Input) returns (next: Next)
      modifies this`held, this`writes, this`sends, this`output, server
      ensures var t := Iterate(st, old(server.View()), old(held), old(writes), input);
              && server.View() == t.conn && next == t.next
              && held == t.held && writes == t.writes
              && sends == old(sends) + t.sends && output == old(output) + t.chunks
    {
      match input
      case Disconnect =>
        var _ := server.CheckinCleanup();
        next := Quit(Disconnected);
      case IdleTimeout =>
        var told := Respond();
        next := if told then Leave else Quit(IdleNoticeFailed);
      case Message(message) =>
        if IsCode(message, 'X') {
          var _ := server.CheckinCleanup();
          next := Quit(Terminated);
        } else if Extended(message) {
          held := held + [message];
          next := Stay;
        } else {
          next := TakeSendingTurn(server, message);
        }
    }

    method TakeSendingTurn(server: ServerObject.Server, message: Frame) returns (next: Next)
      requires !IsCode(message, 'X') && !Extended(message)
      modifies this`held, this`writes, this`sends, this`output, server
      ensures var t := Iterate(st, old(server.View()), old(held), old(writes), Message(message));
              && server.View() == t.conn && next == t.next
              && held == t.held && writes == t.writes
              && sends == old(sends) + t.sends && output == old(output) + t.chunks
    {
      next := Stay;
      if IsCode(message, 'Q') {
        var ok := SendAndReceiveLoop(server, [message]);
        next := EndOfReply(ok, server.inTransaction);
      } else if IsCode(message, 'S') {
        held := held + [message];
        if StartsNamed(held) {
          server.MarkDirty();
        }
        var ok := SendAndReceiveLoop(server, held);
        if ok {
          held := [];
        }
        next := EndOfReply(ok, server.inTransaction);
      } else if IsCode(message, 'd') {
        held := held + [message];
        if Size(held) > COPY_LIMIT {
          next := SendHeld(server);
        }
      } else if IsCode(message, 'c') || IsCode(message, 'f') {
        held := held + [message];
        next := SendCopyEnd(server);
      }
    }

    /** CopyDone or CopyFail: forward the buffer, then one chunk of the answer. */
    method SendCopyEnd(server: ServerObject.Server) returns (next: Next)
      modifies this`held, this`writes, this`sends, this`output, server
      ensures var c := old(server.View());
              var more := old(held);
              var t := if SendFails(c, more) then Turn(Send(c, more), more, old(writes), Quit(Failed), [more], [])
                       else AfterReply(st, OneChunk(Send(c, more), st.timed, old(writes)), [], more);
              && server.View() == t.conn && next == t.next
              && held == t.held && writes == t.writes
              && sends == old(sends) + t.sends && output == old(output) + t.chunks
    {
      next := SendHeld(server);
      if next == Stay {
        var r := Forward(server);
        next := EndOfReply(!r.Failure?, server.inTransaction);
      }
    }

    /** Forward the buffer without waiting for an answer. */
    method SendHeld(server: ServerObject.Server) returns (next: Next)
      modifies this`held, this`sends, server
      ensures server.View() == Send(old(server.View()), old(held))
      ensures if SendFails(old(server.View()), old(held)) then next == Quit(Failed) && held == old(held)
              else next == Stay && held == []
      ensures sends == old(sends) + [old(held)]
    {
      sends := sends + [held];
      var ok := server.Send(held);
      if !ok {
        return Quit(Failed);
      }
      held := [];
      next := Stay;
    }

    /**
     * The inner loop: the connection belongs to the client until a turn ends it. `first` is the
     * message that made the client borrow it.
     */
    method HoldConnection(server: ServerObject.Server, first: Frame, events: seq<Event>)
      returns (phase: Phase, taken: nat)
      modifies this`held, this`writes, this`sends, this`output, this`returned, server
      ensures taken <= |events|
      ensures Run(st, View(phase), events[taken..]) ==
              Run(st, Inside(st, old(View(Outer)), old(server.View()), Message(first)), events)
      ensures phase.Inner? ==> taken == |events|
    {
      ghost var goal := Run(st, Inside(st, View(Outer), server.View(), Message(first)), events);
      taken := 0;
      var initial := true;
      while true
        invariant taken <= |events|
        invariant initial ==>
                    taken == 0 && Run(st, Inside(st, View(Outer), server.View(), Message(first)), events) == goal
        invariant !initial ==> Run(st, View(Inner(server.View())), events[taken..]) == goal
        decreases |events| - taken, initial
      {
        var input := Message(first);
        ghost var before := View(if initial then Outer else Inner(server.View()));
        ghost var c := server.View();
        if initial {
          initial := false;
          assert events[taken..] == events;
        } else {
          if taken == |events| {
            return Inner(server.View()), taken;
          }
          input := events[taken].input;
          assert events[taken..][0] == events[taken];
          assert events[taken..][1..] == events[taken + 1..];
          taken := taken + 1;
        }
        var next := TakeTurn(server, input);
        InsideFrame(st, before, c, input);
        if next.Quit? {
          returned := returned + [server.View()];
          return Gone(next.how), taken;
        }
        if next == Leave {
          var ok := server.CheckinCleanup();
          returned := returned + [server.View()];
          return if ok then Outer else Gone(Failed), taken;
        }
      }
    }

    /** `handle`: the outer loop. */
    method Handle(events: seq<Event>) returns (phase: Phase)
      modifies this`held, this`writes, this`sends, this`output, this`returned
      ensures View(phase) == Run(st, old(View(Outer)), events)
    {
      ghost var goal := Run(st, View(Outer), events);
      phase := Outer;
      var i := 0;
      while i < |events|
        invariant 0 <= i <= |events|
        invariant !phase.Gone? && (phase.Inner? ==> i == |events|)
        invariant Run(st, View(phase), events[i..]) == goal
      {
        var e := events[i];
        assert events[i..][0] == e && events[i..][1..] == events[i + 1..];
        i := i + 1;
        if e.input.Disconnect? {
          phase := Gone(Disconnected);
        } else if e.input.Message? {
          var message := e.input.frame;
          if Extended(message) {
            held := held + [message];
          } else if IsCode(message, 'X') {
            phase := Gone(Terminated);
          } else {
            var taken;
            phase, taken := Borrow(message, e.offer, events[i..]);
            assert events[i..][taken..] == events[i + taken..];
            i := i + taken;
          }
        }
        if phase.Gone? {
          GoneStays(st, View(phase), events[i..]);
          return;
        }
      }
    }

    /** What the outer loop does with a message that may need a connection. */
    method Borrow(message: Frame, offer: Offer, events: seq<Event>) returns (phase: Phase, taken: nat)
      modifies this`held, this`writes, this`sends, this`output, this`returned
      ensures taken <= |events|
      ensures Run(st, View(phase), events[taken..]) ==
              Run(st, Session.Borrow(st, old(View(Outer)), message, offer), events)
      ensures phase.Inner? ==> taken == |events|
    {
      taken := 0;
      assert events[0..] == events;
      match offer
      case NoPool =>
        phase := Gone(Failed);
      case Command =>
        var ok := Respond();
        phase := if ok then Outer else Gone(Failed);
      case Refused =>
        if IsCode(message, 'S') {
          held := [];
        }
        var ok := Respond();
        phase := if ok then Outer else Gone(Failed);
      case Granted(conn) =>
        var server := new ServerObject.Server(conn);
        var ok := server.SetName(st.name);
        if !ok {
          returned := returned + [server.View()];
          phase := Gone(Failed);
        } else {
          phase, taken := HoldConnection(server, message, events);
        }
    }

    function EndOfReply(ok: bool, inTransaction: bool): Next {
      if !ok then Quit(Failed) else if !inTransaction && st.transactionMode then Leave else Stay
    }
  }

  datatype Progress = More(frames: seq<Frame>) | Over(frames: seq<Frame>) | Failure

  /** `whole` is what is left of a reply, `rest`, after `chunks` have been forwarded. */
  ghost predicate Continues(whole: Pumped, chunks: seq<seq<Frame>>, rest: Pumped) {
    && whole.conn == rest.conn && whole.sink == rest.sink && whole.Done? == rest.Done?
    && whole.chunks == chunks + rest.chunks
  }

  /** The reply loop, one chunk at a time. */
  lemma PumpByChunks(c: Conn, timed: bool, writes: nat)
    ensures var p := Pump(c, timed, Sink.Client(writes));
            var one := OneChunk(c, timed, writes);
            if one.Broken? || !one.conn.dataAvailable then p == one
            else
              && |one.conn.inbox| < |c.inbox|
              && |one.chunks| == 1
              && Continues(p, one.chunks, Pump(one.conn, timed, one.sink))
  {
  }

  lemma ContinuesMore(whole: Pumped, chunks: seq<seq<Frame>>, p: Pumped, frames: seq<Frame>, q: Pumped)
    requires Continues(whole, chunks, p) && Continues(p, [frames], q)
    ensures Continues(whole, chunks + [frames], q)
  {
  }

  lemma ContinuesEnd(whole: Pumped, chunks: seq<seq<Frame>>, p: Pumped)
    requires Continues(whole, chunks, p) && p.chunks == []
    ensures whole.chunks == chunks
  {
  }

  /** What a turn does to a session does not depend on the loop it was entered from. */
  lemma InsideFrame(st: Settings, s: Session.Client, c: Conn, input: Input)
    ensures var t := Iterate(st, c, s.held, s.writes, input);
            var d := Inside(st, s, c, input);
            && d.held == t.held && d.writes == t.writes && d.sends == s.sends + t.sends
            && match t.next
               case Stay => d.phase == Inner(t.conn) && d.returned == s.returned
               case Leave =>
                 && d.phase == (if Cleanup(t.conn).Done? then Outer else Gone(Failed))
                 && d.returned == s.returned + [Cleanup(t.conn).conn]
               case Quit(how) => d.phase == Gone(how) && d.returned == s.returned + [t.conn]
  {
  }
}
