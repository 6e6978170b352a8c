/** The buffers and cursor loops of the FIX engine: the message builder and the parser. */
module FixBuffers {
  import opened FixText
  import opened FixMessage

  const MAX_MSG_SIZE := 4096

  /** Writes a text into a buffer; the caller makes sure that it fits. */
  method Print(buffer: array<char>, at: nat, text: string)
    requires at + |text| <= buffer.Length
    modifies buffer
    ensures buffer[..at + |text|] == old(buffer[..at]) + text
  {
    forall i | 0 <= i < |text| {
      buffer[at + i] := text[i];
    }
  }

  /** The header and the caller's fields fit the buffer that they are copied into. */
  predicate FitsBuffers(
    sender: string, target: string, msgType: char, seqNum: int, time: string, fields: seq<Field>)
  {
    var header := |TextOf(Header(sender, target, msgType, seqNum, time))|;
    header < MAX_MSG_SIZE && header + |TextOf(fields)| <= MAX_MSG_SIZE
  }

  /** Every write and copy of the builder stays inside its buffer, and nothing is cut off. */
  ghost predicate NeverOverruns(
    sender: string, target: string, msgType: char, seqNum: int, time: string, fields: seq<Field>)
  {
    var header := |TextOf(Header(sender, target, msgType, seqNum, time))|;
    && (forall k :: 0 <= k <= |fields| ==> |TextOf(fields[..k])| < MAX_MSG_SIZE)
    && header < MAX_MSG_SIZE
    && header + |TextOf(fields)| <= MAX_MSG_SIZE
  }

  lemma PrefixIsShorter(fields: seq<Field>, k: nat)
    requires k <= |fields|
    ensures |TextOf(fields[..k])| <= |TextOf(fields)|
  {
    assert fields == fields[..k] + fields[k..];
    TextAdds(fields[..k], fields[k..]);
  }

  /** The one bound on the whole body is what all the writes need. */
  lemma FitsIsEnough(sender: string, target: string, msgType: char, seqNum: int, time: string, fields: seq<Field>)
    ensures NeverOverruns(sender, target, msgType, seqNum, time, fields)
       <==> FitsBuffers(sender, target, msgType, seqNum, time, fields)
  {
    if FitsBuffers(sender, target, msgType, seqNum, time, fields) {
      assert |TextOf(Header(sender, target, msgType, seqNum, time))| > 0;
      forall k | 0 <= k <= |fields| ensures |TextOf(fields[..k])| < MAX_MSG_SIZE {
        PrefixIsShorter(fields, k);
      }
    }
  }

  class FixMessageBuilder {
    const body: array<char>
    const msg: array<char>
    var bodyLen: nat
    var fieldCount: nat
    var msgLen: nat

    ghost predicate Valid()
      reads this
    {
      && body.Length == MAX_MSG_SIZE && msg.Length == 2 * MAX_MSG_SIZE && body != msg
      && msgLen <= msg.Length
    }

    /** The caller's fields written so far, unless they ran past the end of their buffer. */
    function Text(): string
      requires bodyLen <= body.Length
      reads this, body
    {
      body[..bodyLen]
    }

    constructor ()
      ensures Valid() && fresh(body) && fresh(msg)
      ensures bodyLen == 0 && Text() == "" && fieldCount == 0
    {
      body := new char[MAX_MSG_SIZE];
      msg := new char[2 * MAX_MSG_SIZE];
      bodyLen, fieldCount, msgLen := 0, 0, 0;
    }

    method Reset()
      requires Valid()
      modifies this`bodyLen, this`fieldCount
      ensures Valid() && bodyLen == 0 && Text() == "" && fieldCount == 0
    {
      bodyLen := 0;
      fieldCount := 0;
    }

    /** Appends tag=value and the delimiter. What does not fit is cut off for a closing NUL,
        and still counted. */
    method Add(tag: int, value: string)
      requires Valid() && bodyLen <= MAX_MSG_SIZE
      modifies this`bodyLen, this`fieldCount, body
      ensures Valid() && fieldCount == old(fieldCount) + 1
      ensures bodyLen == old(bodyLen) + |FieldText(Field(tag, value))|
      ensures bodyLen < MAX_MSG_SIZE ==> Text() == old(Text()) + FieldText(Field(tag, value))
      ensures bodyLen >= MAX_MSG_SIZE > old(bodyLen) ==>
                && body[..MAX_MSG_SIZE - 1] == (old(Text()) + FieldText(Field(tag, value)))[..MAX_MSG_SIZE - 1]
                && body[MAX_MSG_SIZE - 1] == NUL
      ensures old(bodyLen) == MAX_MSG_SIZE ==> body[..] == old(body[..])
    {
      var text := FieldText(Field(tag, value));
      var space := MAX_MSG_SIZE - bodyLen;
      if space > 0 {
        var kept := if |text| < space then text else text[..space - 1];
        Print(body, bodyLen, kept);
        assert bodyLen + |kept| < MAX_MSG_SIZE;
        ghost var written := body[..bodyLen + |kept|];
        body[bodyLen + |kept|] := NUL;
        assert body[..bodyLen + |kept|] == written == old(Text()) + kept;
        assert |text| >= space ==> (old(Text()) + text)[..MAX_MSG_SIZE - 1] == old(Text()) + kept;
      }
      bodyLen := bodyLen + |text|;
      fieldCount := fieldCount + 1;
    }

    method AddInt(tag: int, value: int)
      requires Valid() && bodyLen <= MAX_MSG_SIZE
      modifies this`bodyLen, this`fieldCount, body
      ensures Valid() && fieldCount == old(fieldCount) + 1
      ensures bodyLen == old(bodyLen) + |FieldText(Field(tag, IntText(value)))|
      ensures bodyLen < MAX_MSG_SIZE ==> Text() == old(Text()) + FieldText(Field(tag, IntText(value)))
      ensures bodyLen >= MAX_MSG_SIZE > old(bodyLen) ==>
                && body[..MAX_MSG_SIZE - 1]
                   == (old(Text()) + FieldText(Field(tag, IntText(value))))[..MAX_MSG_SIZE - 1]
                && body[MAX_MSG_SIZE - 1] == NUL
      ensures old(bodyLen) == MAX_MSG_SIZE ==> body[..] == old(body[..])
    {
      Add(tag, IntText(value));
    }

    /** Puts the header in front of the body, frames it, and appends the checksum. */
    method Finalize(sender: string, target: string, msgType: char, seqNum: int, time: string, ghost fields: seq<Field>)
        returns (message: string)
      requires Valid() && bodyLen <= MAX_MSG_SIZE && Text() == TextOf(fields)
      requires FitsBuffers(sender, target, msgType, seqNum, time, fields)
      modifies this`msgLen, msg
      ensures Valid() && message == msg[..msgLen] == Message(sender, target, msgType, seqNum, time, fields)
      ensures Text() == old(Text())
    {
      var header := HeaderText(sender, target, msgType, seqNum, time);
      ghost var all := Header(sender, target, msgType, seqNum, time) + fields;
      TextAdds(Header(sender, target, msgType, seqNum, time), fields);
      var fullBody := Assemble(header);
      var head := HeadText(|fullBody|);
      ShortHead(|fullBody|);
      HeadJoins(all);
      var total := Frame(head, fullBody);
      message := AppendChecksum(total, head + fullBody);
    }

    /** The header fields followed by the caller's. */
    method Assemble(header: string) returns (fullBody: string)
      requires Valid() && |header| + bodyLen <= MAX_MSG_SIZE
      ensures fullBody == header + Text()
    {
      var buffer := new char[MAX_MSG_SIZE];
      Print(buffer, 0, header);
      assert buffer[..0] + header == header;
      Print(buffer, |header|, body[..bodyLen]);
      fullBody := buffer[..|header| + bodyLen];
    }

    /** Writes version and length and then the whole body into the message buffer. */
    method Frame(head: string, fullBody: string) returns (total: nat)
      requires Valid() && |head| <= 20 && |fullBody| <= MAX_MSG_SIZE
      modifies msg
      ensures total == |head| + |fullBody| && total <= msg.Length && msg[..total] == head + fullBody
      ensures body[..] == old(body[..])
    {
      Print(msg, 0, head);
      assert msg[..0] + head == head;
      Print(msg, |head|, fullBody);
      total := |head| + |fullBody|;
    }

    /** Sums the bytes written so far and appends the checksum field. */
    method AppendChecksum(total: nat, ghost text: string) returns (message: string)
      requires Valid() && total <= MAX_MSG_SIZE + 20 && msg[..total] == text
      modifies this`msgLen, msg
      ensures Valid() && message == msg[..msgLen] == text + Trailer(ByteSum(text) % 256)
      ensures body[..] == old(body[..])
    {
      var checksum := 0;
      for i := 0 to total
        invariant checksum == ByteSum(msg[..i])
      {
        assert msg[..i + 1][..i] == msg[..i];
        checksum := checksum + msg[i] as int;
      }
      Print(msg, total, Trailer(checksum % 256));
      msgLen := total + |Trailer(checksum % 256)|;
      message := msg[..msgLen];
    }
  }

  function HeaderText(sender: string, target: string, msgType: char, seqNum: int, time: string): (text: string)
    ensures text == TextOf(Header(sender, target, msgType, seqNum, time))
  {
    var h := Header(sender, target, msgType, seqNum, time);
    assert h[1..][1..] == h[2..] && h[2..][1..] == h[3..] && h[3..][1..] == h[4..] && h[4..][1..] == [];
    var text := FieldText(h[0]) + (FieldText(h[1]) + (FieldText(h[2]) + (FieldText(h[3]) + FieldText(h[4]))));
    assert TextOf(h[4..]) == FieldText(h[4]) + TextOf([]);
    assert FieldText(h[4]) + "" == FieldText(h[4]);
    assert TextOf(h[3..]) == FieldText(h[3]) + TextOf(h[4..]);
    assert TextOf(h[2..]) == FieldText(h[2]) + TextOf(h[3..]);
    assert TextOf(h[1..]) == FieldText(h[1]) + TextOf(h[2..]);
    text
  }

  lemma {:induction false} DigitsAreFew(n: nat)
    requires n < 10000
    ensures |Digits(n)| <= 4
  {
    if n >= 10 {
      assert n >= 100 ==> |Digits(n / 10)| == |Digits(n / 100)| + 1;
      assert n >= 1000 ==> |Digits(n / 100)| == |Digits(n / 1000)| + 1;
    }
  }

  function HeadText(length: nat): string {
    FieldText(Field(BEGIN_STRING, FIX_VERSION)) + FieldText(Field(BODY_LENGTH, IntText(length)))
  }

  lemma HeadJoins(body: seq<Field>)
    ensures TextOf(Framed(body)) == HeadText(|TextOf(body)|) + TextOf(body)
  {
    hide TextOf, FieldText, Framed;
    FramedText(body);
    var a, b := FieldText(Field(BEGIN_STRING, FIX_VERSION)), FieldText(Field(BODY_LENGTH, IntText(|TextOf(body)|)));
    assert a + (b + TextOf(body)) == a + b + TextOf(body);
  }

  lemma ShortHead(length: nat)
    requires length <= MAX_MSG_SIZE
    ensures |HeadText(length)| <= 20
  {
    DigitsAreFew(length);
  }

  // ---- The parser ---------------------------------------------------------------------------

  /** What is left of the text at a cursor that may have run past the end. */
  function Rest(data: string, pos: nat): string {
    if pos <= |data| then data[pos..] else ""
  }

  method FindFrom(data: string, start: nat, c: char) returns (at: nat)
    requires start <= |data|
    ensures at == start + IndexOf(data[start..], c)
  {
    at := start;
    while at < |data| && data[at] != c
      invariant start <= at <= |data|
      invariant start + IndexOf(data[start..], c) == at + IndexOf(data[at..], c)
    {
      assert data[at..][1..] == data[at + 1..];
      at := at + 1;
    }
  }

  method ReadTag(data: string, pos: nat, eq: nat) returns (tag: int)
    requires pos <= eq <= |data|
    ensures tag == TagNumber(data[pos..eq])
  {
    tag := 0;
    var i := pos;
    while i < eq
      invariant pos <= i <= eq && tag == TagNumber(data[pos..i]) && tag >= 0
    {
      assert data[pos..i + 1][..i - pos] == data[pos..i];
      if !IsDigit(data[i]) {
        NoTagNumber(data[pos..eq], i - pos);
        return -1;
      }
      tag := tag * 10 + ValueOf(data[i]);
      i := i + 1;
    }
  }

  method ReadChecksum(data: string, start: nat, end: nat) returns (value: int)
    requires start <= end <= |data|
    ensures value == LooseNumber(data[start..end])
  {
    value := 0;
    for i := start to end
      invariant value == LooseNumber(data[start..i])
    {
      assert data[start..i + 1][..i - start] == data[start..i];
      if IsDigit(data[i]) {
        value := value * 10 + ValueOf(data[i]);
      }
    }
  }

  method SumBytes(data: string, start: nat, end: nat) returns (sum: int)
    requires start <= end <= |data|
    ensures sum == ByteSum(data[start..end])
  {
    sum := 0;
    for i := start to end
      invariant sum == ByteSum(data[start..i])
    {
      assert data[start..i + 1][..i - start] == data[start..i];
      sum := sum + data[i] as int;
    }
  }

  /** Where a field ends, delimiter included if there is one. */
  function Past(data: string, valEnd: nat): nat {
    if valEnd + 1 <= |data| then valEnd + 1 else |data|
  }

  lemma ScanUnrolls(rest: string, delim: char, s: Scanned)
    requires rest != "" && |s.tags| < MAX_TAGS
    requires IndexOf(rest, '=') < |rest| && TagNumber(rest[..IndexOf(rest, '=')]) >= 0
    ensures var eq := IndexOf(rest, '=');
            var n := Used(rest, eq, delim);
            Scan(rest, delim, s)
                == Scan(rest[n..], delim, Take(s, TagNumber(rest[..eq]), ValueAt(rest, eq, delim), rest[..n]))
  {
  }

  /** The field at the cursor, seen from the whole text. */
  lemma FieldAtCursor(data: string, pos: nat, eq: nat, valEnd: nat, delim: char)
    requires pos < |data| && eq == pos + IndexOf(data[pos..], '=') && eq < |data|
    requires valEnd == eq + 1 + IndexOf(data[eq + 1..], delim)
    ensures pos <= eq < valEnd <= |data|
    ensures var rest := data[pos..];
            && rest[..eq - pos] == data[pos..eq]
            && ValueAt(rest, eq - pos, delim) == data[eq + 1..valEnd]
            && Used(rest, eq - pos, delim) == Past(data, valEnd) - pos
            && rest[..Past(data, valEnd) - pos] == data[pos..Past(data, valEnd)]
            && rest[Past(data, valEnd) - pos..] == Rest(data, valEnd + 1)
  {
    var rest := data[pos..];
    assert rest[eq - pos + 1..] == data[eq + 1..];
    assert data[eq + 1..][..valEnd - eq - 1] == data[eq + 1..valEnd];
  }

  /** One turn of the cursor loop is one step of the scan. */
  lemma ScanTurn(data: string, pos: nat, eq: nat, valEnd: nat, delim: char, s: Scanned)
    requires pos < |data| && |s.tags| < MAX_TAGS
    requires eq == pos + IndexOf(data[pos..], '=') && eq < |data|
    requires TagNumber(data[pos..eq]) >= 0
    requires valEnd == eq + 1 + IndexOf(data[eq + 1..], delim)
    ensures pos <= eq < valEnd <= |data|
    ensures Scan(Rest(data, pos), delim, s)
            == Scan(Rest(data, valEnd + 1), delim,
                    Take(s, TagNumber(data[pos..eq]), data[eq + 1..valEnd], data[pos..Past(data, valEnd)]))
  {
    hide Scan, Take, ValueAt, TagNumber, IndexOf;
    FieldAtCursor(data, pos, eq, valEnd, delim);
    ScanUnrolls(data[pos..], delim, s);
  }

  lemma ScanStops(data: string, pos: nat, eq: nat, delim: char, s: Scanned)
    requires pos < |data| && eq == pos + IndexOf(data[pos..], '=')
    requires eq == |data| || TagNumber(data[pos..eq]) < 0
    ensures Scan(Rest(data, pos), delim, s) == s
  {
    assert data[pos..][..eq - pos] == data[pos..eq];
  }

  /** Records the field at the cursor. */
  method TakeField(data: string, pos: nat, eq: nat, valEnd: nat, tag: int, s: Scanned) returns (s': Scanned)
    requires pos <= eq < valEnd <= |data|
    ensures s' == Take(s, tag, data[eq + 1..valEnd], data[pos..Past(data, valEnd)])
  {
    var tags := s.tags + [Field(tag, data[eq + 1..valEnd])];
    if tag == CHECK_SUM {
      var expected := ReadChecksum(data, eq + 1, valEnd);
      s' := s.(tags := tags, expected := expected);
    } else {
      var sum := SumBytes(data, pos, Past(data, valEnd));
      s' := s.(tags := tags, running := s.running + sum);
    }
  }

  /** Reads one field at the cursor; finds nothing more to read when there is no tag number. */
  method ParseField(data: string, pos: nat, delim: char, s: Scanned) returns (more: bool, next: nat, s': Scanned)
    requires pos < |data| && |s.tags| < MAX_TAGS
    ensures more ==> pos < next && Scan(Rest(data, pos), delim, s) == Scan(Rest(data, next), delim, s')
    ensures !more ==> s' == s && Scan(Rest(data, pos), delim, s) == s
  {
    hide Scan, Take, TagNumber, IndexOf;
    var eq := FindFrom(data, pos, '=');
    if eq >= |data| {
      ScanStops(data, pos, eq, delim, s);
      return false, pos, s;
    }
    var tag := ReadTag(data, pos, eq);
    if tag < 0 {
      ScanStops(data, pos, eq, delim, s);
      return false, pos, s;
    }
    var valEnd := FindFrom(data, eq + 1, delim);
    ScanTurn(data, pos, eq, valEnd, delim, s);
    s' := TakeField(data, pos, eq, valEnd, tag, s);
    more, next := true, valEnd + 1;
  }

  /** One pass with a cursor over tag=value fields, summing the bytes outside the checksum field. */
  method ParseFixMessage(data: string) returns (parsed: ParsedFixMessage)
    ensures parsed == Parsed(data)
  {
    if data == "" {
      return ParsedFixMessage([], false, "Empty message", NUL, 0);
    }
    var delim := if SOH !in data && '|' in data then '|' else SOH;
    var pos, s, more := 0, Scanned([], 0, -1), true;
    ghost var goal := Scan(data, delim, s);
    assert Rest(data, 0) == data;
    while more && pos < |data| && |s.tags| < MAX_TAGS
      invariant if more then Scan(Rest(data, pos), delim, s) == goal else s == goal
      decreases more, |data| - pos
    {
      more, pos, s := ParseField(data, pos, delim, s);
    }
    parsed := Finish(s);
  }
}
