/** Two sessions and the bytes between them: what one session hands over arrives at the other
    as it was, whatever the chunks, and finds it expecting just that number. */
module FixLink {
  import opened FixMessage
  import opened FixFraming
  import opened FixSession

  // ---- What a session writes --------------------------------------------------------

  /** What an operation has the builder write. */
  function LettersOf(c: Config, s: Session, op: Operation, time: string): seq<Letter> {
    if !op.Receive? then [Letter(c.sender, c.target, TypeOf(op), s.sendSeq, time, FieldsOf(c, op))]
    else if Parsed(op.data).msgType == TEST_REQUEST then
      [Letter(c.sender, c.target, HEARTBEAT, s.sendSeq, time,
              EchoFields(GetString(Parsed(op.data).tags, TEST_REQ_ID)))]
    else []
  }

  function AllLetters(c: Config, s: Session, ops: seq<Timed>): seq<Letter>
    decreases |ops|
  {
    if ops == [] then []
    else LettersOf(c, s, ops[0].op, ops[0].time) + AllLetters(c, Performed(c, s, ops[0].op, ops[0].time), ops[1..])
  }

  ghost predicate CanSendAll(letters: seq<Letter>) {
    forall k :: 0 <= k < |letters| ==> CanSend(letters[k])
  }

  lemma StepWrites(c: Config, s: Session, op: Operation, time: string)
    requires PrintableConfig(c) && PrintableOperation(op) && Printable(time)
    ensures CanSendAll(LettersOf(c, s, op, time))
    ensures Performed(c, s, op, time).wire == s.wire + AllBuilt(LettersOf(c, s, op, time))
  {
    if !op.Receive? {
      OperationFieldsAreWellFormed(c, op);
    } else {
      EchoIsSendable(c, op.data, time);
    }
    hide Parsed, Message, FieldsOf, GetString, Printable, Sendable;
    var letters := LettersOf(c, s, op, time);
    if letters != [] {
      assert letters[1..] == [];
      assert AllBuilt(letters) == [Built(letters[0])];
    }
  }

  lemma {:induction false} BuiltAdds(a: seq<Letter>, b: seq<Letter>)
    ensures AllBuilt(a + b) == AllBuilt(a) + AllBuilt(b)
    decreases |a|
  {
    if a == [] {
      assert a + b == b;
    } else {
      assert (a + b)[1..] == a[1..] + b;
      BuiltAdds(a[1..], b);
    }
  }

  /** Whatever a run sends and receives, what it hands over are built messages. */
  lemma {:induction false} RunWrites(c: Config, s: Session, ops: seq<Timed>)
    requires PrintableConfig(c) && AllPrintable(ops)
    ensures CanSendAll(AllLetters(c, s, ops))
    ensures PerformAll(c, s, ops).wire == s.wire + AllBuilt(AllLetters(c, s, ops))
    decreases |ops|
  {
    hide Performed, LettersOf, CanSend, Built, PrintableConfig, PrintableOperation, Printable;
    if ops == [] {
      assert s.wire + [] == s.wire;
    } else {
      assert PrintableTimed(ops[0]);
      var t := Performed(c, s, ops[0].op, ops[0].time);
      var now, later := LettersOf(c, s, ops[0].op, ops[0].time), AllLetters(c, t, ops[1..]);
      StepWrites(c, s, ops[0].op, ops[0].time);
      RunWrites(c, t, ops[1..]);
      BuiltAdds(now, later);
      JoinThree(s.wire, AllBuilt(now), AllBuilt(later));
      hide AllBuilt;
    }
  }

  /** From construction on, over any operations that fit the buffers: whatever the chunks in which
      the bytes of all that was handed over arrive, they are cut into exactly those messages, in
      order and with nothing left, and the k-th is valid and carries number k. */
  lemma WireIsReceived(c: Config, ops: seq<Timed>, chunks: seq<string>)
    requires PrintableConfig(c) && AllPrintable(ops) && AllFit(c, FRESH, ops)
    requires Joined(chunks) == Joined(PerformAll(c, FRESH, ops).wire)
    ensures Received("", chunks) == Cut(PerformAll(c, FRESH, ops).wire, "")
    ensures Numbered(PerformAll(c, FRESH, ops))
  {
    hide Performed, PrintableConfig, AllPrintable, AllFit, Built, CanSend, Frames, Received, Joined;
    WireIsNumberedFromStart(c, FRESH, ops);
    RunWrites(c, FRESH, ops);
    assert [] + AllBuilt(AllLetters(c, FRESH, ops)) == AllBuilt(AllLetters(c, FRESH, ops));
    ReceivedIsCut(chunks);
    BuiltAreFramed(AllLetters(c, FRESH, ops));
  }

  lemma NothingHeld()
    ensures FrameEnd("").None?
  {
  }

  /** While some of the bytes are still on their way, what has been cut is the first of those messages. */
  lemma FirstPartIsReceived(c: Config, ops: seq<Timed>, chunks: seq<string>, underway: string)
    requires PrintableConfig(c) && AllPrintable(ops) && AllFit(c, FRESH, ops)
    requires Joined(chunks) + underway == Joined(PerformAll(c, FRESH, ops).wire)
    ensures Received("", chunks).messages <= PerformAll(c, FRESH, ops).wire
    ensures Numbered(PerformAll(c, FRESH, ops))
  {
    hide Performed, PrintableConfig, AllPrintable, AllFit, Frames, Joined, Received, PerformAll, Numbered;
    var wire := PerformAll(c, FRESH, ops).wire;
    WholeChunk(Joined(wire));
    WireIsReceived(c, ops, [Joined(wire)]);
    ReceivedIsCut(chunks);
    ReceivedIsCut([Joined(wire)]);
    FirstPartIsCut(Joined(chunks), underway);
  }

  lemma ReceivedIsCut(chunks: seq<string>)
    ensures Received("", chunks) == Frames(Joined(chunks))
  {
    hide Frames, Joined, Received, FrameEnd;
    NothingHeld();
    AnyChunks("", chunks);
    assert "" + Joined(chunks) == Joined(chunks);
  }

  lemma FirstPartIsCut(data: string, more: string)
    ensures Frames(data).messages <= Frames(data + more).messages
  {
    hide Frames;
    ChunksDoNotMatter(data, more);
  }

  lemma WholeChunk(data: string)
    ensures Joined([data]) == data
  {
    assert [data][1..] == [];
  }

  // ---- What the other session expects --------------------------------------------------

  /** What a session was given to receive, in order. */
  function Arrivals(ops: seq<Timed>): seq<string> {
    if ops == [] then []
    else (if ops[0].op.Receive? then [ops[0].op.data] else []) + Arrivals(ops[1..])
  }

  /** At each receive of the run, the message is valid and bears the number that the session expects. */
  ghost predicate InStep(c: Config, s: Session, ops: seq<Timed>)
    decreases |ops|
  {
    ops != [] ==>
      && (ops[0].op.Receive? ==> Parsed(ops[0].op.data).valid && Parsed(ops[0].op.data).seqNum == s.recvSeq)
      && InStep(c, Performed(c, s, ops[0].op, ops[0].time), ops[1..])
  }

  lemma ReceiveCounts(c: Config, s: Session, op: Operation, time: string)
    ensures Performed(c, s, op, time).recvSeq == s.recvSeq + if op.Receive? then 1 else 0
  {
    hide Parsed, Message, FieldsOf;
  }

  lemma {:induction false} StaysInStep(c: Config, s: Session, ops: seq<Timed>, wire: seq<string>, n: nat)
    requires n <= |wire| && s.recvSeq == n + 1 && Arrivals(ops) <= wire[n..]
    requires forall k :: 0 <= k < |wire| ==> NumberedAt(wire, k)
    ensures InStep(c, s, ops)
    decreases |ops|
  {
    hide Performed, Parsed;
    if ops != [] {
      var t := Performed(c, s, ops[0].op, ops[0].time);
      ReceiveCounts(c, s, ops[0].op, ops[0].time);
      if ops[0].op.Receive? {
        assert Arrivals(ops)[0] == wire[n..][0] && Arrivals(ops)[1..] <= wire[n..][1..] == wire[n + 1..];
        assert NumberedAt(wire, n);
        StaysInStep(c, t, ops[1..], wire, n + 1);
      } else {
        assert Arrivals(ops) == [] + Arrivals(ops[1..]) == Arrivals(ops[1..]);
        StaysInStep(c, t, ops[1..], wire, n);
      }
    }
  }

  /** Two fresh sessions, each sending at will: if the one receives, between its own operations and in
      order, what the framer has cut so far from the other's bytes, then each message that it receives
      is valid and bears the number that it expects at that moment. */
  lemma PeersStayInStep(
    c: Config, ops: seq<Timed>, chunks: seq<string>, underway: string, peer: Config, peerOps: seq<Timed>)
    requires PrintableConfig(c) && AllPrintable(ops) && AllFit(c, FRESH, ops)
    requires Joined(chunks) + underway == Joined(PerformAll(c, FRESH, ops).wire)
    requires Arrivals(peerOps) <= Received("", chunks).messages && AllFit(peer, FRESH, peerOps)
    ensures InStep(peer, FRESH, peerOps)
  {
    hide Performed, PrintableConfig, AllPrintable, AllFit, NumberedAt, Received, Joined;
    FirstPartIsReceived(c, ops, chunks, underway);
    var wire := PerformAll(c, FRESH, ops).wire;
    assert wire[0..] == wire;
    StaysInStep(peer, FRESH, peerOps, wire, 0);
  }
}
