/** Messages over a TCP connection to a name server: two bytes of length, then the message.
    Models read_tcp_data of ext/noderb_extension/libuv/src/ares/ares_process.c for one server, and the framing of
    ares_send.c. */
module TcpReader {
  import opened Bytes
  import opened Sequences

  /** A message with its length in front. */
  function Frame(m: seq<byte>): seq<byte>
    requires |m| < 0x1_0000
  {
    [|m| / 256, |m| % 256] + m
  }

  predicate Sendable(messages: seq<seq<byte>>) {
    forall i :: 0 <= i < |messages| ==> |messages[i]| < 0x1_0000
  }

  function Frames(messages: seq<seq<byte>>): seq<byte>
    requires Sendable(messages)
  {
    if messages == [] then [] else Frame(messages[0]) + Frames(messages[1..])
  }

  function LengthOf(hi: byte, lo: byte): int {
    256 * (hi as int) + lo as int
  }

  /** A frame that is not complete; a length of zero never is. */
  predicate Incomplete(p: seq<byte>) {
    |p| < 2 || |p| == 2 || |p| - 2 < LengthOf(p[0], p[1])
  }

  lemma FramesStep(messages: seq<seq<byte>>)
    requires Sendable(messages)
    ensures messages == [] ==> Frames(messages) == []
    ensures messages != [] ==> Frames(messages) == Frame(messages[0]) + Frames(messages[1..])
  {
  }

  lemma {:induction false} FramesSnoc(messages: seq<seq<byte>>, m: seq<byte>)
    requires Sendable(messages) && |m| < 0x1_0000
    ensures Sendable(messages + [m]) && Frames(messages + [m]) == Frames(messages) + Frame(m)
  {
    hide Frames, Frame;
    var all := messages + [m];
    FramesStep(messages);
    FramesStep(all);
    if messages == [] {
      assert all == [m] && all[1..] == [];
      FramesStep(all[1..]);
      assert Frame(m) + [] == Frame(m) && [] + Frame(m) == Frame(m);
    } else {
      FramesSnoc(messages[1..], m);
      assert all[1..] == messages[1..] + [m] && all[0] == messages[0];
      Regroup(Frame(messages[0]), Frames(messages[1..]), Frame(m));
    }
  }

  /** Two frames in front of two streams that agree are the same. */
  lemma {:induction false} FrameUnique(m: seq<byte>, s: seq<byte>, n: seq<byte>, t: seq<byte>)
    requires |m| < 0x1_0000 && |n| < 0x1_0000 && Frame(m) + s == Frame(n) + t
    ensures m == n && s == t
  {
    var u := Frame(m) + s;
    assert u[0] == |m| / 256 == |n| / 256 && u[1] == |m| % 256 == |n| % 256;
    assert |m| == |n|;
    assert m == u[2..2 + |m|] == n;
    assert s == u[2 + |m|..] == t;
  }

  lemma {:induction false} NotIncomplete(m: seq<byte>, s: seq<byte>)
    requires 1 <= |m| < 0x1_0000
    ensures !Incomplete(Frame(m) + s)
  {
    var p := Frame(m) + s;
    assert p[0] == |m| / 256 && p[1] == |m| % 256;
  }

  /** Whatever has been read of the frames of `sent`: the messages taken from it are the first of those sent, and all
      of them once everything has been read. */
  lemma {:induction false} Reassembled(sent: seq<seq<byte>>, answers: seq<seq<byte>>, partial: seq<byte>,
      more: seq<byte>)
    requires Sendable(sent) && Sendable(answers) && Incomplete(partial)
    requires forall i :: 0 <= i < |sent| ==> |sent[i]| >= 1
    requires forall i :: 0 <= i < |answers| ==> |answers[i]| >= 1
    requires Frames(answers) + partial + more == Frames(sent)
    ensures answers <= sent && (more == [] ==> answers == sent && partial == [])
    decreases |answers|
  {
    hide Incomplete, Frames, Frame;
    FramesStep(answers);
    FramesStep(sent);
    if answers == [] {
      assert [] + partial + more == partial + more;
      if more == [] {
        assert partial + [] == partial;
        if sent != [] {
          NotIncomplete(sent[0], Frames(sent[1..]));
        }
      }
    } else {
      var rest := Frames(answers[1..]) + partial + more;
      Regroup(Frame(answers[0]), Frames(answers[1..]), partial);
      Regroup(Frame(answers[0]), Frames(answers[1..]) + partial, more);
      FrameSize(answers[0]);
      FrameUnique(answers[0], rest, sent[0], Frames(sent[1..]));
      Reassembled(sent[1..], answers[1..], partial, more);
      assert sent == [sent[0]] + sent[1..] && answers == [answers[0]] + answers[1..];
    }
  }

  /** The first two bytes of a frame, the high one first, are the number of those behind them. */
  lemma {:induction false} FrameRead(m: seq<byte>)
    requires |m| < 0x1_0000
    ensures |Frame(m)| == 2 + |m| && Frame(m)[2..] == m
    ensures (Frame(m)[0] as int) * 256 + Frame(m)[1] == |m|
  {
  }

  lemma FrameSize(m: seq<byte>)
    requires |m| < 0x1_0000
    ensures |Frame(m)| >= 2
  {
  }

  lemma PartIncomplete(p: seq<byte>, length: nat)
    requires |p| >= 2 && LengthOf(p[0], p[1]) == length && |p| - 2 < length
    ensures Incomplete(p)
  {
  }

  lemma FrameIs(hi: byte, lo: byte, m: seq<byte>, p: seq<byte>)
    requires |m| == LengthOf(hi, lo) && p == [hi, lo] + m
    ensures |m| < 0x1_0000 && p == Frame(m)
  {
  }

  // ------------------------------------------------------------------------
  // What happens on the connection
  // ------------------------------------------------------------------------

  /** A read of up to `want` bytes returned `count`, or -1, perhaps because there is nothing yet; or a message was
      handed over, upon which process_answer has closed the connection or not. */
  datatype Event = Got(want: nat, count: int, again: bool) | Handed(message: seq<byte>, closed: bool)

  /** Why the connection is closed: its other end has closed it, or a read has failed, or process_answer wants it. */
  predicate Closes(e: Event) {
    match e
    case Got(_, count, again) => count <= 0 && !(count == -1 && again)
    case Handed(_, closed) => closed
  }

  /** The number of bytes read. */
  function Count(events: seq<Event>): nat {
    if events == [] then 0
    else
      var e := events[|events| - 1];
      Count(events[..|events| - 1]) + if e.Got? && e.count > 0 then e.count else 0
  }

  /** The messages handed over. */
  function Messages(events: seq<Event>): seq<seq<byte>> {
    if events == [] then []
    else
      var e := events[|events| - 1];
      Messages(events[..|events| - 1]) + if e.Handed? then [e.message] else []
  }

  /** The connection is open until something closes it, and then nothing happens on it any more. */
  ghost predicate OpenUntil(events: seq<Event>, open: bool) {
    && (forall i :: 0 <= i < |events| - 1 ==> !Closes(events[i]))
    && (open <==> events == [] || !Closes(events[|events| - 1]))
  }

  lemma EventsSnoc(events: seq<Event>, e: Event)
    requires OpenUntil(events, true)
    ensures OpenUntil(events + [e], !Closes(e))
    ensures Count(events + [e]) == Count(events) + if e.Got? && e.count > 0 then e.count else 0
    ensures Messages(events + [e]) == Messages(events) + if e.Handed? then [e.message] else []
  {
    assert (events + [e])[..|events|] == events;
  }

  /** What has been read is the frames of the answers and a part of one more. */
  ghost predicate Framed(received: seq<byte>, answers: seq<seq<byte>>, partial: seq<byte>) {
    && Sendable(answers) && (forall i :: 0 <= i < |answers| ==> |answers[i]| >= 1)
    && received == Frames(answers) + partial && Incomplete(partial)
  }

  /** More has been read, and still no message is whole. */
  lemma {:induction false} FramedPart(received: seq<byte>, answers: seq<seq<byte>>, partial: seq<byte>, more: seq<byte>)
    requires Framed(received, answers, partial) && Incomplete(partial + more)
    ensures Framed(received + more, answers, partial + more)
  {
    hide Frames, Incomplete;
    Regroup(Frames(answers), partial, more);
  }

  /** More has been read, and a message is whole. */
  lemma {:induction false} FramedWhole(received: seq<byte>, answers: seq<seq<byte>>, partial: seq<byte>,
      more: seq<byte>, m: seq<byte>)
    requires Framed(received, answers, partial) && 1 <= |m| < 0x1_0000 && partial + more == Frame(m)
    ensures Framed(received + more, answers + [m], [])
  {
    FramesSnoc(answers, m);
    hide Frames, Frame;
    Regroup(Frames(answers), partial, more);
    assert Frames(answers + [m]) + [] == Frames(answers + [m]);
  }

  lemma {:induction false} FramedReassembled(sent: seq<seq<byte>>, received: seq<byte>, answers: seq<seq<byte>>,
      partial: seq<byte>, more: seq<byte>)
    requires Sendable(sent) && forall i :: 0 <= i < |sent| ==> |sent[i]| >= 1
    requires Framed(received, answers, partial) && received + more == Frames(sent)
    ensures answers <= sent && (more == [] ==> answers == sent && partial == [])
  {
    hide Frames, Incomplete;
    Reassembled(sent, answers, partial, more);
  }

  class Server {
    const lenbuf: array<byte>
    var lenbufPos: nat
    var length: nat
    var buffer: array?<byte>
    var bufferPos: nat
    var open: bool
    // The messages handed to process_answer, all the bytes read from the connection, those of them that belong to no
    // answer, and what has happened.
    var answers: seq<seq<byte>>
    ghost var received: seq<byte>
    ghost var partial: seq<byte>
    ghost var events: seq<Event>

    ghost predicate Valid()
      reads this, lenbuf, buffer
    {
      && lenbuf.Length == 2 && buffer != lenbuf
      && Framed(received, answers, partial) && Logged()
      && (open ==> Ready())
    }

    ghost predicate Logged()
      reads this
    {
      OpenUntil(events, open) && Count(events) == |received| && Messages(events) == answers
    }

    /** The buffers hold the bytes of the next message that have been read. */
    ghost predicate Ready()
      requires lenbuf.Length == 2
      reads this, lenbuf, buffer
    {
      && lenbufPos <= 2
      && if lenbufPos < 2 then partial == lenbuf[..lenbufPos]
         else
           && length == LengthOf(lenbuf[0], lenbuf[1]) && buffer != null && buffer.Length == length
           && (bufferPos < length || bufferPos == length == 0)
           && partial == lenbuf[..] + buffer[..bufferPos]
    }

    constructor ()
      ensures Valid() && fresh(lenbuf) && open && answers == [] && received == [] && buffer == null && events == []
    {
      lenbuf := new byte[2](_ => 0);
      lenbufPos, length, buffer, bufferPos, open, answers, received := 0, 0, null, 0, true, [], [];
      partial, events := [], [];
    }

    /** What a read asks for: the length word, or what is missing of it; or the message, or what is missing of it. */
    ghost function Want(): nat
      reads this
    {
      if lenbufPos < 2 then 2 - lenbufPos else if bufferPos <= length then length - bufferPos else 0
    }

    /** ares__close_sockets, as far as reading goes */
    method Close()
      modifies this`open, this`buffer, this`lenbufPos, this`bufferPos
      ensures !open && buffer == null
    {
      open, buffer, lenbufPos, bufferPos := false, null, 0, 0;
    }

    /** What a read of up to `want` bytes returns when `ready` bytes are to come: how many it took, 0 or -1. */
    method Sread(want: nat, ready: nat) returns (count: int, again: bool)
      requires OpenUntil(events, true)
      modifies this`events
      ensures -1 <= count <= want && count <= ready && events == old(events) + [Got(want, count, again)]
      ensures OpenUntil(events, !Closes(Got(want, count, again)))
      ensures Count(events) == old(Count(events)) + if count > 0 then count else 0
      ensures Messages(events) == old(Messages(events))
    {
      var c: int := *;
      again := *;
      count := if c < -1 then -1 else if c > want then want else c;
      count := if count > ready then ready else count;
      EventsSnoc(events, Got(want, count, again));
      events := events + [Got(want, count, again)];
    }

    /** The bytes that a read puts into a buffer. */
    static method CopyIn(dst: array<byte>, at: nat, stream: seq<byte>, count: nat)
      requires at + count <= dst.Length && count <= |stream|
      modifies dst
      ensures dst[..at + count] == old(dst[..at]) + stream[..count]
    {
      forall j | 0 <= j < count {
        dst[at + j] := stream[j];
      }
    }

    method ReadLength(stream: seq<byte>) returns (taken: nat)
      requires Valid() && open && lenbufPos != 2
      modifies this, lenbuf
      ensures Valid() && (buffer == old(buffer) || buffer == null || fresh(buffer)) && answers == old(answers)
      ensures |events| == |old(events)| + 1 && events[..|old(events)|] == old(events)
      ensures var e := events[|old(events)|];
              && e.Got? && e.want == old(Want()) && (open <==> !Closes(e))
              && taken == if e.count > 0 then e.count else 0
      ensures taken <= |stream| && received == old(received) + stream[..taken]
      ensures open ==> partial == old(partial) + stream[..taken]
    {
      hide Framed, OpenUntil, Count, Messages;
      taken := 0;
      assert received == received + stream[..taken] && partial == partial + stream[..taken];
      var count, again := Sread(2 - lenbufPos, |stream|);
      if count <= 0 {
        if !(count == -1 && again) {
          Close();
        }
        return;
      }
      FramedPart(received, answers, partial, stream[..count]);
      CopyIn(lenbuf, lenbufPos, stream, count);
      lenbufPos := lenbufPos + count;
      taken, received, partial := count, received + stream[..count], partial + stream[..count];
      if lenbufPos == 2 {
        length := LengthOf(lenbuf[0], lenbuf[1]);
        buffer := new byte[length];
        bufferPos := 0;
        assert lenbuf[..] + buffer[..0] == lenbuf[..2];
      }
    }

    /** The message is complete: it is handed over, and the next length word is to be read. process_answer may close the
        connection. */
    method Deliver()
      requires open && lenbuf.Length == 2 && lenbufPos == 2 && buffer != null && buffer != lenbuf && buffer.Length >= 1
      requires Framed(received, answers + [buffer[..]], []) && Logged()
      modifies this
      ensures Valid() && buffer == null && received == old(received) && answers == old(answers) + [old(buffer[..])]
      ensures events == old(events) + [Handed(old(buffer[..]), !open)] && partial == []
    {
      hide Framed, OpenUntil, Count, Messages;
      ghost var m := buffer[..];
      answers := answers + [buffer[..]];
      var closing: bool := *;
      EventsSnoc(events, Handed(m, closing));
      events := events + [Handed(m, closing)];
      buffer, lenbufPos, bufferPos, open := null, 0, 0, !closing;
      partial := [];
    }

    /** Bytes of the message have come; with the last of them it is handed over. */
    method TakeIn(stream: seq<byte>, count: nat)
      requires 0 < count <= |stream| && lenbuf.Length == 2 && buffer != lenbuf && lenbufPos == 2 && Ready()
      requires bufferPos + count <= length && Framed(received, answers, partial) && open
      requires OpenUntil(events, true) && Count(events) == |received| + count && Messages(events) == answers
      modifies this, buffer
      ensures Valid() && (buffer == old(buffer) || buffer == null)
      ensures received == old(received) + stream[..count]
      ensures |old(partial)| >= 2
      ensures if old(bufferPos) + count == old(length) then
                && answers == old(answers) + [(old(partial) + stream[..count])[2..]] && partial == []
                && events == old(events) + [Handed(answers[|answers| - 1], !open)]
              else
                && answers == old(answers) && events == old(events) && open
                && partial == old(partial) + stream[..count]
    {
      hide Framed, Incomplete, Frame, OpenUntil, Count, Messages;
      ghost var was, before := received, partial;
      CopyIn(buffer, bufferPos, stream, count);
      bufferPos := bufferPos + count;
      received, partial := received + stream[..count], partial + stream[..count];
      assert partial == lenbuf[..] + buffer[..bufferPos];
      if bufferPos == length {
        ghost var m := buffer[..];
        assert buffer[..bufferPos] == m == partial[2..] && partial == [lenbuf[0], lenbuf[1]] + m;
        FrameIs(lenbuf[0], lenbuf[1], m, partial);
        FramedWhole(was, answers, before, stream[..count], m);
        Deliver();
      } else {
        PartIncomplete(partial, length);
        FramedPart(was, answers, before, stream[..count]);
      }
    }

    method ReadData(stream: seq<byte>) returns (taken: nat)
      requires Valid() && open && lenbufPos == 2
      modifies this, buffer
      ensures Valid() && (buffer == old(buffer) || buffer == null)
      ensures taken <= |stream| && received == old(received) + stream[..taken]
      ensures |events| > |old(events)| && events[..|old(events)|] == old(events)
      ensures var e := events[|old(events)|];
              && e.Got? && e.want == old(Want())
              && taken == (if e.count > 0 then e.count else 0)
              && if e.count > 0 && e.count == e.want then
                   && answers == old(answers) + [(old(partial) + stream[..taken])[2..]] && partial == []
                   && events == old(events) + [e, Handed(answers[|answers| - 1], !open)]
                 else
                   && answers == old(answers) && events == old(events) + [e] && (open <==> !Closes(e))
                   && (open ==> partial == old(partial) + stream[..taken])
    {
      hide Framed, Incomplete, Frame, OpenUntil, Count, Messages;
      taken := 0;
      assert received == received + stream[..taken] && partial == partial + stream[..taken];
      var count, again := Sread(length - bufferPos, |stream|);
      if count <= 0 {
        if !(count == -1 && again) {
          Close();
        }
        return;
      }
      taken := count;
      TakeIn(stream, count);
    }

    /** read_tcp_data, once, when `stream` is what the connection is still to deliver: one read, of what is missing of
        the length word or else of the message. */
    method Read(stream: seq<byte>) returns (taken: nat)
      requires Valid() && open
      modifies this, lenbuf, buffer
      ensures Valid() && (buffer == old(buffer) || buffer == null || fresh(buffer))
      ensures taken <= |stream| && received == old(received) + stream[..taken]
      ensures |events| > |old(events)| && events[..|old(events)|] == old(events)
      ensures var e := events[|old(events)|];
              && e.Got? && e.want == old(Want())
              && taken == (if e.count > 0 then e.count else 0)
              && if old(lenbufPos) == 2 && e.count > 0 && e.count == e.want then
                   && answers == old(answers) + [(old(partial) + stream[..taken])[2..]] && partial == []
                   && events == old(events) + [e, Handed(answers[|answers| - 1], !open)]
                 else
                   && answers == old(answers) && events == old(events) + [e] && (open <==> !Closes(e))
                   && (open ==> partial == old(partial) + stream[..taken])
    {
      hide Framed, Logged;
      if lenbufPos != 2 {
        taken := ReadLength(stream);
      } else {
        taken := ReadData(stream);
      }
    }
  }

  /** Reads from a new connection, in whatever pieces the bytes come: the messages handed over are the first of those
      sent, whole and in order, and all of them once all bytes have been read. The connection is closed only for what
      happened last. */
  method Receive(stream: seq<byte>, ghost sent: seq<seq<byte>>)
    returns (answers: seq<seq<byte>>, open: bool, left: nat, ghost events: seq<Event>)
    requires Sendable(sent) && stream == Frames(sent) && forall i :: 0 <= i < |sent| ==> |sent[i]| >= 1
    ensures answers <= sent && (left == 0 ==> answers == sent) && answers == Messages(events)
    ensures OpenUntil(events, open) && left == |stream| - Count(events)
  {
    hide Frames, Incomplete, OpenUntil, Count, Messages, Framed, Server.Ready;
    var server := new Server();
    var taken, rounds: int := 0, *;
    while rounds > 0 && server.open
      invariant server.Valid() && 0 <= taken <= |stream| && server.received == stream[..taken]
      invariant fresh(server) && fresh(server.lenbuf) && (server.buffer != null ==> fresh(server.buffer))
    {
      var n := server.Read(stream[taken..]);
      assert stream[..taken] + stream[taken..][..n] == stream[..taken + n];
      taken := taken + n;
      rounds := rounds - 1;
    }
    answers, open, left, events := server.answers, server.open, |stream| - taken, server.events;
    assert stream == stream[..taken] + stream[taken..];
    FramedReassembled(sent, server.received, answers, server.partial, stream[taken..]);
  }
}
