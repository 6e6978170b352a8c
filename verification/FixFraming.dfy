/** Cutting a byte stream into messages: whatever the chunks in which bytes arrive, the same
    messages come out, and built messages come out exactly as they were built. */
module FixFraming {
  import opened ExchangeTypes
  import opened FixText
  import opened FixMessage

  // ---- Where a message ends --------------------------------------------------------

  /** A delimiter followed by the checksum tag. */
  predicate TagAt(data: string, i: nat) {
    i + 3 < |data| && data[i] == SOH && data[i + 1] == '1' && data[i + 2] == '0' && data[i + 3] == '='
  }

  /** First position from `i` on at which the checksum tag starts, after its delimiter. */
  function TagFrom(data: string, i: nat): (r: Option<nat>)
    ensures r.Some? ==> i < r.value && TagAt(data, r.value - 1) && forall j :: i <= j < r.value - 1 ==> !TagAt(data, j)
    ensures r.None? ==> forall j :: i <= j ==> !TagAt(data, j)
    decreases |data| - i
  {
    if i + 3 >= |data| then None
    else if TagAt(data, i) then Some(i + 1)
    else TagFrom(data, i + 1)
  }

  predicate OpensWithTag(data: string) {
    |data| > 3 && data[0] == '1' && data[1] == '0' && data[2] == '='
  }

  function ChecksumStart(data: string): (r: Option<nat>)
    ensures r.Some? ==> r.value + 3 <= |data|
  {
    if OpensWithTag(data) then Some(0) else TagFrom(data, 0)
  }

  /** The length of the message at the front, if it is there in full. */
  function FrameEnd(data: string): (r: Option<nat>)
    ensures r.Some? ==> 0 < r.value <= |data|
  {
    var start := ChecksumStart(data);
    if start.None? then None
    else
      var value := data[start.value + 3..];
      var end := IndexOf(value, SOH);
      if end == |value| then None else Some(start.value + 3 + end + 1)
  }

  /** The checksum tag begins here: at the front of more than three bytes, or behind a delimiter. */
  predicate TagBegins(data: string, t: nat) {
    && t + 2 < |data| && data[t] == '1' && data[t + 1] == '0' && data[t + 2] == '='
    && if t == 0 then |data| > 3 else data[t - 1] == '\U{0001}'
  }

  /** The first checksum tag begins at `t`, and the first delimiter behind it ends at `e`. */
  predicate IsFrame(data: string, t: nat, e: nat) {
    && TagBegins(data, t) && (forall u :: 0 <= u < t ==> !TagBegins(data, u))
    && t + 3 < e <= |data| && data[e - 1] == '\U{0001}'
    && forall j :: t + 3 <= j < e - 1 ==> data[j] != '\U{0001}'
  }

  lemma StartIsFirst(data: string)
    ensures ChecksumStart(data).Some? ==>
              var t := ChecksumStart(data).value;
              TagBegins(data, t) && forall u :: 0 <= u < t ==> !TagBegins(data, u)
    ensures ChecksumStart(data).None? ==> forall u: nat :: !TagBegins(data, u)
  {
    assert forall u: nat :: u > 0 ==> (TagBegins(data, u) <==> TagAt(data, u - 1));
    assert TagBegins(data, 0) <==> OpensWithTag(data);
  }

  /** A message ends behind the first delimiter after the first checksum tag, and only there. */
  lemma FrameEndIsFirst(data: string, t: nat, e: nat)
    ensures IsFrame(data, t, e) ==> FrameEnd(data) == Some(e)
    ensures FrameEnd(data).Some? ==> exists u: nat :: IsFrame(data, u, FrameEnd(data).value)
  {
    StartIsFirst(data);
    if ChecksumStart(data).Some? {
      var start := ChecksumStart(data).value;
      var value := data[start + 3..];
      var end := IndexOf(value, SOH);
      assert forall j :: start + 3 <= j < |data| ==> data[j] == value[j - start - 3];
      if end < |value| {
        assert IsFrame(data, start, start + 3 + end + 1);
      }
      if IsFrame(data, t, e) {
        assert t == start;
        assert value[e - 1 - start - 3] == SOH;
      }
    }
  }

  // ---- Cutting ---------------------------------------------------------------------------

  datatype Cut = Cut(messages: seq<string>, residue: string)

  function Frames(data: string): Cut
    decreases |data|
  {
    match FrameEnd(data)
    case None => Cut([], data)
    case Some(end) =>
      var rest := Frames(data[end..]);
      Cut([data[..end]] + rest.messages, rest.residue)
  }

  lemma StartIsStable(data: string, more: string)
    requires ChecksumStart(data).Some?
    ensures ChecksumStart(data + more) == ChecksumStart(data)
  {
    var all := data + more;
    var start := ChecksumStart(data).value;
    assert forall j :: 0 <= j < |data| ==> all[j] == data[j];
    assert OpensWithTag(all) <==> OpensWithTag(data);
    if !OpensWithTag(data) {
      assert TagAt(all, start - 1);
      assert forall j :: 0 <= j < start - 1 ==> (TagAt(all, j) <==> TagAt(data, j));
    }
  }

  /** More bytes behind a complete message do not move its end. */
  lemma EndIsStable(data: string, more: string)
    requires FrameEnd(data).Some?
    ensures FrameEnd(data + more) == FrameEnd(data)
  {
    var all := data + more;
    var start := ChecksumStart(data).value;
    StartIsStable(data, more);
    hide ChecksumStart;
    var value := data[start + 3..];
    var end := IndexOf(value, SOH);
    assert all[start + 3..] == value + more;
    assert value == value[..end] + [SOH] + value[end + 1..];
    assert value + more == value[..end] + [SOH] + (value[end + 1..] + more);
    IndexOfFirst(value[..end], SOH, value[end + 1..] + more);
  }

  lemma SliceOfJoin(b: string, c: string, end: nat)
    requires end <= |b|
    ensures (b + c)[..end] == b[..end] && (b + c)[end..] == b[end..] + c
  {
  }

  lemma JoinThree(a: seq<string>, b: seq<string>, c: seq<string>)
    ensures a + (b + c) == a + b + c
  {
  }

  /** Feeding bytes in two parts cuts them as feeding them at once. */
  lemma {:induction false} ChunksDoNotMatter(b: string, c: string)
    ensures var first := Frames(b);
            var second := Frames(first.residue + c);
            Frames(b + c) == Cut(first.messages + second.messages, second.residue)
    decreases |b|
  {
    if FrameEnd(b).Some? {
      var end := FrameEnd(b).value;
      EndIsStable(b, c);
      SliceOfJoin(b, c, end);
      hide FrameEnd;
      ChunksDoNotMatter(b[end..], c);
      var rest := Frames(b[end..]);
      JoinThree([b[..end]], rest.messages, Frames(rest.residue + c).messages);
    } else {
      assert [] + Frames(b + c).messages == Frames(b + c).messages;
    }
  }

  function Joined(parts: seq<string>): string {
    if parts == [] then "" else parts[0] + Joined(parts[1..])
  }

  /** Nothing is lost, invented or reordered. */
  lemma {:induction false} NothingIsLost(data: string)
    ensures Joined(Frames(data).messages) + Frames(data).residue == data
    decreases |data|
  {
    if FrameEnd(data).Some? {
      var end := FrameEnd(data).value;
      var rest := Frames(data[end..]);
      NothingIsLost(data[end..]);
      assert ([data[..end]] + rest.messages)[1..] == rest.messages;
      assert data == data[..end] + data[end..];
      assert data[..end] + Joined(rest.messages) + rest.residue == data[..end] + (Joined(rest.messages) + rest.residue);
    } else {
      assert "" + data == data;
    }
  }

  /** Cutting leaves nothing that could still be cut. */
  lemma {:induction false} ResidueIsIncomplete(data: string)
    ensures FrameEnd(Frames(data).residue).None?
    decreases |data|
  {
    if FrameEnd(data).Some? {
      ResidueIsIncomplete(data[FrameEnd(data).value..]);
    }
  }

  // ---- The receiver ----------------------------------------------------------------------------

  /** What a receiver holds and has delivered after chunks of bytes arrived one by one. */
  function Received(held: string, chunks: seq<string>): Cut
    decreases |chunks|
  {
    if chunks == [] then Cut([], held)
    else
      var first := Frames(held + chunks[0]);
      var rest := Received(first.residue, chunks[1..]);
      Cut(first.messages + rest.messages, rest.residue)
  }

  lemma NothingToCut(data: string)
    requires FrameEnd(data).None?
    ensures Frames(data) == Cut([], data)
  {
  }

  lemma CutOne(data: string)
    requires FrameEnd(data).Some?
    ensures var end := FrameEnd(data).value;
            var rest := Frames(data[end..]);
            Frames(data) == Cut([data[..end]] + rest.messages, rest.residue)
  {
  }

  /** Any chunks whatever deliver what the whole stream at once delivers. */
  lemma {:induction false} AnyChunks(held: string, chunks: seq<string>)
    requires FrameEnd(held).None?
    ensures Received(held, chunks) == Frames(held + Joined(chunks))
    decreases |chunks|
  {
    hide Frames, FrameEnd;
    if chunks == [] {
      assert held + "" == held;
      NothingToCut(held);
    } else {
      var first := Frames(held + chunks[0]);
      ResidueIsIncomplete(held + chunks[0]);
      AnyChunks(first.residue, chunks[1..]);
      ChunksDoNotMatter(held + chunks[0], Joined(chunks[1..]));
      assert held + chunks[0] + Joined(chunks[1..]) == held + Joined(chunks);
    }
  }

  class FixReceiver {
    var readBuffer: string

    constructor ()
      ensures readBuffer == ""
    {
      readBuffer := "";
    }

    /** Appends what arrived and delivers every message that is now complete. */
    method Poll(received: string) returns (delivered: seq<string>)
      modifies this
      ensures Frames(old(readBuffer) + received) == Cut(delivered, readBuffer)
    {
      readBuffer := readBuffer + received;
      delivered := ExtractMessages();
    }

    method ExtractMessages() returns (delivered: seq<string>)
      modifies this
      ensures Frames(old(readBuffer)) == Cut(delivered, readBuffer)
    {
      hide Frames;
      delivered := [];
      assert [] + Frames(readBuffer).messages == Frames(readBuffer).messages;
      while true
        invariant Frames(old(readBuffer)) == Cut(delivered + Frames(readBuffer).messages, Frames(readBuffer).residue)
        decreases |readBuffer|
      {
        var msgEnd := FindEnd();
        if msgEnd.None? {
          NothingToCut(readBuffer);
          assert delivered + [] == delivered;
          break;
        }
        CutOne(readBuffer);
        ghost var rest := Frames(readBuffer[msgEnd.value..]);
        var message := readBuffer[..msgEnd.value];
        assert delivered + ([message] + rest.messages) == delivered + [message] + rest.messages;
        delivered := delivered + [message];
        readBuffer := readBuffer[msgEnd.value..];
      }
    }

    /** The end of the message at the front: past the first delimiter after its checksum tag. */
    method FindEnd() returns (end: Option<nat>)
      ensures end == FrameEnd(readBuffer)
    {
      var start := FindChecksum();
      if start.None? {
        return None;
      }
      var msgEnd := start.value + 3;
      while msgEnd < |readBuffer| && readBuffer[msgEnd] != SOH
        invariant start.value + 3 <= msgEnd <= |readBuffer|
        invariant start.value + 3 + IndexOf(readBuffer[start.value + 3..], SOH)
            == msgEnd + IndexOf(readBuffer[msgEnd..], SOH)
      {
        assert readBuffer[msgEnd..][1..] == readBuffer[msgEnd + 1..];
        msgEnd := msgEnd + 1;
      }
      end := if msgEnd >= |readBuffer| then None else Some(msgEnd + 1);
    }

    method FindChecksum() returns (start: Option<nat>)
      ensures start == ChecksumStart(readBuffer)
    {
      var i := 0;
      while i + 3 < |readBuffer|
        invariant i > 0 ==> !OpensWithTag(readBuffer)
        invariant ChecksumStart(readBuffer) == if OpensWithTag(readBuffer) then Some(0) else TagFrom(readBuffer, i)
        decreases |readBuffer| - i
      {
        if readBuffer[i] == SOH && readBuffer[i + 1] == '1' && readBuffer[i + 2] == '0' && readBuffer[i + 3] == '=' {
          return Some(i + 1);
        }
        if i == 0 && readBuffer[0] == '1' && readBuffer[1] == '0' && readBuffer[2] == '=' {
          return Some(0);
        }
        i := i + 1;
      }
      return None;
    }
  }

  // ---- Built messages come out as built ----------------------------------------------------------

  lemma TenInDigits()
    ensures TagNumber(['1', '0']) == CHECK_SUM
  {
    assert ['1', '0'][..1] == ['1'] && ['1'][..0] == "";
  }

  /** The text of a well-formed field does not begin with the checksum tag. */
  lemma FieldIsNotChecksum(f: Field, more: string)
    requires WellFormed(f)
    ensures var text := FieldText(f) + more;
            |text| >= 3 ==> !(text[0] == '1' && text[1] == '0' && text[2] == '=')
  {
    var text := FieldText(f) + more;
    var tag := Digits(f.tag);
    DigitsAreDigits(f.tag);
    TagNumberOfDigits(f.tag);
    TenInDigits();
    var behind := CText(f.value) + [SOH] + more;
    assert text == tag + ['='] + behind;
    IndexOfFirst(tag, '=', behind);
    assert |tag| == 2 ==> tag == [text[0], text[1]];
  }

  /** Searching passes over a piece of text without the delimiter. */
  lemma {:induction false} SkipClean(data: string, i: nat, j: nat)
    requires i <= j <= |data| && SOH !in data[i..j]
    ensures TagFrom(data, i) == TagFrom(data, j)
    decreases j - i
  {
    if i < j {
      assert data[i..j][0] == data[i] && data[i..j][1..] == data[i + 1..j];
      SkipClean(data, i + 1, j);
    }
  }

  lemma TagFromHit(data: string, j: nat)
    requires TagAt(data, j)
    ensures TagFrom(data, j) == Some(j + 1)
  {
  }

  lemma TagFromMiss(data: string, j: nat)
    requires !TagAt(data, j)
    ensures TagFrom(data, j) == TagFrom(data, j + 1)
  {
  }

  /** Searching passes over a field up to its delimiter. */
  lemma SkipField(data: string, i: nat, f: Field, after: string)
    requires WellFormed(f) && i <= |data| && data[i..] == FieldText(f) + after
    ensures var j := i + |FieldText(f)| - 1;
            && i <= j < |data| && data[j] == SOH && data[j + 1..] == after
            && TagFrom(data, i) == TagFrom(data, j)
  {
    hide TagFrom;
    var text := FieldText(f);
    var j := i + |text| - 1;
    OneSoh(f.tag, f.value);
    assert data[i..j] == data[i..][..|text| - 1] == text[..|text| - 1];
    assert data[j] == data[i..][|text| - 1];
    assert data[j + 1..] == data[i..][|text|..] == after;
    SkipClean(data, i, j);
  }

  /** Behind the last field stands the trailer. */
  lemma LastField(data: string, i: nat, f: Field, after: string)
    requires WellFormed(f) && i <= |data| && data[i..] == FieldText(f) + after
    requires |after| >= 3 && after[0] == '1' && after[1] == '0' && after[2] == '='
    ensures TagFrom(data, i) == Some(i + |FieldText(f)|)
  {
    hide TagFrom, FieldText;
    var j := i + |FieldText(f)| - 1;
    SkipField(data, i, f, after);
    assert data[j + 1] == after[0] && data[j + 2] == after[1] && data[j + 3] == after[2];
    TagFromHit(data, j);
  }

  /** Behind any other field stands something that is not the checksum tag. */
  lemma NextField(data: string, i: nat, f: Field, after: string)
    requires WellFormed(f) && i <= |data| && data[i..] == FieldText(f) + after
    requires |after| >= 3 ==> !(after[0] == '1' && after[1] == '0' && after[2] == '=')
    ensures i + |FieldText(f)| <= |data| && data[i + |FieldText(f)|..] == after
    ensures TagFrom(data, i) == TagFrom(data, i + |FieldText(f)|)
  {
    hide TagFrom, FieldText;
    var j := i + |FieldText(f)| - 1;
    SkipField(data, i, f, after);
    assert |after| == |data| - j - 1;
    assert |after| >= 3 ==> data[j + 1] == after[0] && data[j + 2] == after[1] && data[j + 3] == after[2];
    TagFromMiss(data, j);
  }

  /** The first checksum tag behind well-formed fields is the one of the trailer. */
  lemma {:induction false} TagIsAtTrailer(data: string, i: nat, fields: seq<Field>, tail: string)
    requires AllWellFormed(fields) && fields != []
    requires |tail| >= 3 && tail[0] == '1' && tail[1] == '0' && tail[2] == '='
    requires i <= |data| && data[i..] == TextOf(fields) + tail
    ensures TagFrom(data, i) == Some(i + |TextOf(fields)|)
    decreases |fields|
  {
    hide TagFrom, FieldText, TextOf;
    var f, rest := fields[0], fields[1..];
    assert WellFormed(f);
    TextSplits(fields, tail);
    TextLength(fields);
    if rest == [] {
      EmptyText(rest, tail);
      LastField(data, i, f, tail);
    } else {
      assert WellFormed(rest[0]);
      TextSplits(rest, tail);
      FieldIsNotChecksum(rest[0], TextOf(rest[1..]) + tail);
      NextField(data, i, f, TextOf(rest) + tail);
      TagIsAtTrailer(data, i + |FieldText(f)|, rest, tail);
    }
  }

  lemma TextLength(fields: seq<Field>)
    requires fields != []
    ensures |TextOf(fields)| == |FieldText(fields[0])| + |TextOf(fields[1..])|
  {
  }

  lemma TrailerOpens(checksum: nat, more: string)
    requires checksum < 1000
    ensures var t := Trailer(checksum) + more;
            |t| >= 7 && t[0] == '1' && t[1] == '0' && t[2] == '='
  {
  }

  lemma EmptyText(fields: seq<Field>, more: string)
    requires fields == []
    ensures TextOf(fields) == "" && TextOf(fields) + more == more
  {
  }

  /** A message of well-formed fields and a trailer is cut off exactly at its end. */
  lemma MessageEnds(fields: seq<Field>, checksum: nat, more: string)
    requires AllWellFormed(fields) && fields != [] && checksum < 1000
    ensures var m := TextOf(fields) + Trailer(checksum);
            FrameEnd(m + more) == Some(|m|)
  {
    hide TagFrom, FieldText, TextOf;
    var m := TextOf(fields) + Trailer(checksum);
    var data := m + more;
    assert data[0..] == data == TextOf(fields) + (Trailer(checksum) + more);
    TrailerOpens(checksum, more);
    TagIsAtTrailer(data, 0, fields, Trailer(checksum) + more);
    TextSplits(fields, Trailer(checksum) + more);
    assert WellFormed(fields[0]);
    FieldIsNotChecksum(fields[0], TextOf(fields[1..]) + (Trailer(checksum) + more));
    assert !OpensWithTag(data);
    var value := data[|TextOf(fields)| + 3..];
    assert value == ThreeDigits(checksum) + [SOH] + more;
    IndexOfFirst(ThreeDigits(checksum), SOH, more);
  }

  /** What a sender hands to the builder for one message. */
  datatype Letter = Letter(sender: string, target: string, msgType: char, seqNum: int, time: string, fields: seq<Field>)

  function Built(l: Letter): string {
    Message(l.sender, l.target, l.msgType, l.seqNum, l.time, l.fields)
  }

  ghost predicate CanSend(l: Letter) {
    Sendable(l.sender, l.target, l.msgType, l.time, l.fields)
  }

  function AllBuilt(letters: seq<Letter>): seq<string> {
    if letters == [] then [] else [Built(letters[0])] + AllBuilt(letters[1..])
  }

  lemma BuiltEnds(l: Letter, more: string)
    requires CanSend(l)
    ensures FrameEnd(Built(l) + more) == Some(|Built(l)|)
  {
    var framed := Framed(Header(l.sender, l.target, l.msgType, l.seqNum, l.time) + l.fields);
    TextOfPrinted(framed);
    FramedIsWellFormed(l.sender, l.target, l.msgType, l.seqNum, l.time, l.fields);
    hide TextOf, ByteSum, Printed, Header, AllWellFormed, FrameEnd;
    MessageEnds(Printed(framed), ByteSum(TextOf(framed)) % 256, more);
  }

  lemma {:induction false} BuiltAreFramed(letters: seq<Letter>)
    requires forall k :: 0 <= k < |letters| ==> CanSend(letters[k])
    ensures Frames(Joined(AllBuilt(letters))) == Cut(AllBuilt(letters), "")
    decreases |letters|
  {
    if letters != [] {
      var first, more := Built(letters[0]), Joined(AllBuilt(letters[1..]));
      assert AllBuilt(letters)[1..] == AllBuilt(letters[1..]);
      BuiltEnds(letters[0], more);
      assert (first + more)[..|first|] == first && (first + more)[|first|..] == more;
      BuiltAreFramed(letters[1..]);
    }
  }

  /** Build, send in any chunks, frame, parse: the receiver gets exactly the messages that were built, keeps
      nothing back, and each parses valid with its type, sequence number and what was printed of its fields. */
  lemma BuildFrameParse(letters: seq<Letter>, chunks: seq<string>, k: nat)
    requires forall j :: 0 <= j < |letters| ==> CanSend(letters[j])
    requires Joined(chunks) == Joined(AllBuilt(letters)) && k < |letters|
    ensures Received("", chunks) == Cut(AllBuilt(letters), "")
    ensures |AllBuilt(letters)| == |letters|
    ensures var l := letters[k];
            var p := Parsed(AllBuilt(letters)[k]);
            var framed := Framed(Header(l.sender, l.target, l.msgType, l.seqNum, l.time) + l.fields);
            && p.valid && p.msgType == l.msgType && p.seqNum == l.seqNum
            && p.tags == Kept(Printed(framed) + [Field(CHECK_SUM, ThreeDigits(ByteSum(TextOf(framed)) % 256))])
  {
    var l := letters[k];
    AnyChunks("", chunks);
    assert "" + Joined(chunks) == Joined(chunks);
    BuiltAreFramed(letters);
    BuiltAt(letters, k);
    BuildThenParse(l.sender, l.target, l.msgType, l.seqNum, l.time, l.fields);
  }

  lemma {:induction false} BuiltAt(letters: seq<Letter>, k: nat)
    requires k < |letters|
    ensures |AllBuilt(letters)| == |letters| && AllBuilt(letters)[k] == Built(letters[k])
    decreases |letters|
  {
    if k > 0 {
      BuiltAt(letters[1..], k - 1);
    } else if |letters| > 1 {
      BuiltAt(letters[1..], 0);
    }
  }
}
