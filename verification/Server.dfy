/** The `Server` object, whose methods update its flags in place as they talk over the socket. */
module ServerObject {
  import opened Text
  import opened Wire
  import opened Connection

  datatype Outcome = Handed(frames: seq<Frame>) | SocketError | Timeout
  datatype Verdict = ReadMore | HandOn | GiveUp

  class Server {
    const backend: Backend
    var sent: seq<Request>
    var inbox: seq<Inbound>
    var buffer: seq<Frame>
    var inTransaction: bool
    var dataAvailable: bool
    var needsCleanup: bool
    var bad: bool
    var name: Bytes

    function View(): Conn
      reads this
    {
      Conn(backend, sent, inbox, buffer, inTransaction, dataAvailable, needsCleanup, bad, name)
    }

    /** A connection as it comes out of the pool. */
    constructor (c: Conn)
      ensures View() == c
    {
      backend, sent, inbox, buffer := c.backend, c.sent, c.inbox, c.buffer;
      inTransaction, dataAvailable, needsCleanup, bad := c.inTransaction, c.dataAvailable, c.needsCleanup, c.bad;
      name := c.name;
    }

    method MarkBad()
      modifies this
      ensures View() == old(View()).(bad := true)
    {
      bad := true;
    }

    method MarkDirty()
      modifies this
      ensures View() == old(View()).(needsCleanup := true)
    {
      needsCleanup := true;
    }

    method Send(messages: Request) returns (ok: bool)
      modifies this
      ensures View() == Connection.Send(old(View()), messages)
      ensures ok <==> !SendFails(old(View()), messages)
    {
      match backend.respond(sent + [messages])
      case Some(answer) =>
        sent := sent + [messages];
        inbox := inbox + answer;
        ok := true;
      case None =>
        bad := true;
        ok := false;
    }

    /** What `recv` does with one message: keep reading, hand the buffer on, or give up. */
    method Note(message: Frame) returns (next: Verdict)
      modifies this
      ensures if message.code == READY && !KnownStatus(message) then
                next == GiveUp && View() == old(View()).(buffer := old(buffer) + [message], bad := true)
              else
                && View() == Absorb(old(View()), message)
                && next == if Flushes(buffer, message) then HandOn else ReadMore
    {
      buffer := buffer + [message];
      next := ReadMore;
      if message.code == READY {
        var state := Status(message);
        if state == IN_BLOCK {
          inTransaction := true;
        } else if state == IDLE {
          inTransaction := false;
        } else if state == FAILED_BLOCK {
          inTransaction := true;
        } else {
          bad := true;
          return GiveUp;
        }
        dataAvailable := false;
        next := HandOn;
      } else if message.code == COMPLETE {
        if message.body == SET_TAG {
          if !inTransaction {
            needsCleanup := true;
          }
        } else if message.body == PREPARE_TAG {
          needsCleanup := true;
        }
      } else if message.code == ROW {
        dataAvailable := true;
        if Size(buffer) >= FLUSH_LIMIT {
          next := HandOn;
        }
      } else if message.code == COPY_IN {
        next := HandOn;
      } else if message.code == COPY_OUT {
        dataAvailable := true;
        next := HandOn;
      } else if message.code == COPY_DATA {
        if Size(buffer) >= FLUSH_LIMIT {
          next := HandOn;
        }
      }
    }

    method Recv(timed: bool) returns (r: Outcome)
      modifies this
      ensures match Connection.Recv(old(View()), timed)
              case Chunk(c, frames) => View() == c && r == Handed(frames)
              case ReadFailed(c) => View() == c && r == SocketError
              case TimedOut(c) => View() == c && r == Timeout
    {
      while true
        invariant Connection.Recv(View(), timed) == Connection.Recv(old(View()), timed)
        decreases |inbox|
      {
        if |inbox| == 0 {
          bad := true;
          return SocketError;
        }
        var message := inbox[0];
        inbox := inbox[1..];
        if message.Stall? {
          if timed {
            return Timeout;
          }
        } else {
          var next := Note(message.frame);
          if next == GiveUp {
            return SocketError;
          } else if next == HandOn {
            r := Handed(buffer);
            buffer := [];
            return;
          }
        }
      }
    }

    /** `query`. */
    method Ask(request: Request) returns (ok: bool)
      modifies this
      ensures View() == Connection.Ask(old(View()), request).conn
      ensures ok <==> Connection.Ask(old(View()), request).Done?
    {
      ok := Send(request);
      if !ok {
        return;
      }
      ghost var start := View();
      while true
        invariant Pump(View(), false, Nobody).conn == Pump(start, false, Nobody).conn
        invariant Pump(View(), false, Nobody).Done? <==> Pump(start, false, Nobody).Done?
        decreases |inbox|
      {
        ghost var before := View();
        assert Connection.Recv(before, false).Chunk? ==> |Connection.Recv(before, false).conn.inbox| < |inbox|;
        var r := Recv(false);
        if !r.Handed? {
          NeverTimesOut(before);
          return false;
        }
        if !dataAvailable {
          return true;
        }
      }
    }

    method CheckinCleanup() returns (ok: bool)
      modifies this
      ensures View() == Cleanup(old(View())).conn
      ensures ok <==> Cleanup(old(View())).Done?
    {
      if inTransaction {
        ok := Ask(Rollback());
        if !ok {
          return;
        }
      }
      if needsCleanup {
        ok := Ask(DiscardAll());
        if !ok {
          return;
        }
        needsCleanup := false;
      }
      ok := true;
    }

    method SetName(newName: Bytes) returns (ok: bool)
      modifies this
      ensures View() == Renamed(old(View()), newName).conn
      ensures ok <==> Renamed(old(View()), newName).Done?
    {
      if name != newName {
        name := newName;
        var needsCleanupBefore := needsCleanup;
        ok := Ask(Connection.SetName(newName));
        if !ok {
          return;
        }
        needsCleanup := needsCleanupBefore;
      } else {
        ok := true;
      }
    }
  }

  /** Without a timeout `recv` ends with a chunk or with a failed, and so bad, connection. */
  lemma {:induction false} NeverTimesOut(c: Conn)
    ensures var r := Connection.Recv(c, false);
            !r.TimedOut? && (r.ReadFailed? ==> r.conn.bad)
    decreases |c.inbox|
  {
    if c.inbox != [] {
      NeverTimesOut(TakeOne(c));
    }
  }
}
