/** The FIX session: whatever the interleaving of sends and receives, the messages put on the
    wire are numbered one by one, and every test request is answered by one heartbeat. */
module FixSession {
  import opened ExchangeTypes
  import opened FixText
  import opened FixMessage
  import FixBuffers

  const HEARTBEAT := '0'
  const TEST_REQUEST := '1'
  const REJECT := '3'
  const LOGOUT := '5'
  const ORDER_CANCEL_REJECT := '9'
  const LOGON := 'A'
  const NEW_ORDER_SINGLE := 'D'
  const ORDER_CANCEL_REQUEST := 'F'
  const ORDER_CANCEL_REPLACE := 'G'
  const BUSINESS_REJECT := 'j'
  const LIMIT_ORDER := '2'

  const ACCOUNT := 1
  const CL_ORD_ID := 11
  const HANDL_INST := 21
  const ORDER_QTY := 38
  const ORD_TYPE := 40
  const ORIG_CL_ORD_ID := 41
  const PRICE := 44
  const SIDE := 54
  const SYMBOL := 55
  const TEXT := 58
  const TIME_IN_FORCE := 59
  const TRANSACT_TIME := 60
  const ENCRYPT_METHOD := 98
  const HEART_BT_INT := 108
  const TEST_REQ_ID := 112
  const PASSWORD := 554

  datatype Status = Disconnected | LogonSent | Active | LogoutSent | Simulated

  datatype Config = Config(sender: string, target: string, heartbeat: int, account: string, password: string)

  /** The session's counters and everything handed to the send callback. */
  datatype Session = Session(
    status: Status, sendSeq: int, recvSeq: int, sentCount: int, recvCount: int, errorCount: int, wire: seq<string>)

  const FRESH := Session(Disconnected, 1, 1, 0, 0, 0, [])

  /** The order of a new-order or replace message; `priceText` is the price as printed. */
  datatype Ticket = Ticket(symbol: string, side: char, ordType: char, qty: int, price: real, priceText: string)

  datatype Operation =
    | SendLogon
    | SendLogout(reason: string)
    | SendHeartbeat(testReqId: string)
    | SendNewOrder(clOrdId: string, ticket: Ticket, transactTime: string)
    | SendCancel(clOrdId: string, origClOrdId: string, symbol: string, side: char, transactTime: string)
    | SendCancelReplace(clOrdId: string, origClOrdId: string, ticket: Ticket, transactTime: string)
    | Receive(data: string)

  // ---- What each operation writes ---------------------------------------------------

  function PriceFields(t: Ticket): seq<Field> {
    if t.ordType == LIMIT_ORDER && t.price > 0.0 then [Field(PRICE, t.priceText)] else []
  }

  function EchoFields(testReqId: string): seq<Field> {
    if testReqId == "" then [] else [Field(TEST_REQ_ID, testReqId)]
  }

  function FieldsOf(c: Config, op: Operation): seq<Field>
    requires !op.Receive?
  {
    match op
    case SendLogon =>
      [Field(ENCRYPT_METHOD, IntText(0)), Field(HEART_BT_INT, IntText(c.heartbeat))]
      + (if c.password == "" then [] else [Field(PASSWORD, c.password)])
    case SendLogout(reason) => if reason == "" then [] else [Field(TEXT, reason)]
    case SendHeartbeat(testReqId) => EchoFields(testReqId)
    case SendNewOrder(id, t, time) =>
      [Field(CL_ORD_ID, id), Field(ACCOUNT, c.account), Field(HANDL_INST, "1"), Field(SYMBOL, t.symbol),
       Field(SIDE, [t.side]), Field(TRANSACT_TIME, time), Field(ORDER_QTY, IntText(t.qty)),
       Field(ORD_TYPE, [t.ordType]), Field(TIME_IN_FORCE, "0")]
      + PriceFields(t)
    case SendCancel(id, orig, symbol, side, time) =>
      [Field(CL_ORD_ID, id), Field(ORIG_CL_ORD_ID, orig), Field(SYMBOL, symbol), Field(SIDE, [side]),
       Field(TRANSACT_TIME, time)]
    case SendCancelReplace(id, orig, t, time) =>
      [Field(CL_ORD_ID, id), Field(ORIG_CL_ORD_ID, orig), Field(SYMBOL, t.symbol), Field(SIDE, [t.side]),
       Field(TRANSACT_TIME, time), Field(ORDER_QTY, IntText(t.qty)), Field(ORD_TYPE, [t.ordType])]
      + PriceFields(t)
  }

  function TypeOf(op: Operation): char
    requires !op.Receive?
  {
    match op
    case SendLogon => LOGON
    case SendLogout(_) => LOGOUT
    case SendHeartbeat(_) => HEARTBEAT
    case SendNewOrder(_, _, _) => NEW_ORDER_SINGLE
    case SendCancel(_, _, _, _, _) => ORDER_CANCEL_REQUEST
    case SendCancelReplace(_, _, _, _) => ORDER_CANCEL_REPLACE
  }

  /** Numbers a message, counts it and hands it over. */
  function Sent(c: Config, s: Session, msgType: char, fields: seq<Field>, time: string): Session {
    s.(sendSeq := s.sendSeq + 1, sentCount := s.sentCount + 1,
       wire := s.wire + [Message(c.sender, c.target, msgType, s.sendSeq, time, fields)])
  }

  function StatusAfter(status: Status, op: Operation): Status {
    match op
    case SendLogon => LogonSent
    case SendLogout(_) => LogoutSent
    case _ => status
  }

  /** Counting a received message; the type decides, whether or not the message is valid. */
  function Noted(s: Session, p: ParsedFixMessage): Session {
    var invalid := if p.valid then 0 else 1;
    var refused :=
      if p.msgType == REJECT || p.msgType == ORDER_CANCEL_REJECT || p.msgType == BUSINESS_REJECT then 1 else 0;
    s.(recvSeq := s.recvSeq + 1, recvCount := s.recvCount + 1, errorCount := s.errorCount + invalid + refused,
       status := if p.msgType == LOGON then Active else if p.msgType == LOGOUT then Disconnected else s.status)
  }

  function Handled(c: Config, s: Session, data: string, time: string): Session {
    var p := Parsed(data);
    var noted := Noted(s, p);
    if p.msgType == TEST_REQUEST
    then Sent(c, noted, HEARTBEAT, EchoFields(GetString(p.tags, TEST_REQ_ID)), time)
    else noted
  }

  /** One operation at a given time of sending. */
  function Performed(c: Config, s: Session, op: Operation, time: string): Session {
    if op.Receive? then Handled(c, s, op.data, time)
    else Sent(c, s, TypeOf(op), FieldsOf(c, op), time).(status := StatusAfter(s.status, op))
  }

  // ---- What callers have to hand over -------------------------------------------------

  ghost predicate PrintableConfig(c: Config) {
    Printable(c.sender) && Printable(c.target) && Printable(c.account) && Printable(c.password)
  }

  ghost predicate PrintableTicket(t: Ticket) {
    Printable(t.symbol) && Printable([t.side]) && Printable([t.ordType]) && Printable(t.priceText)
  }

  /** Nothing that is printed of the values holds a delimiter; what is received may be any bytes at all. */
  ghost predicate PrintableOperation(op: Operation) {
    match op
    case SendLogon => true
    case SendLogout(reason) => Printable(reason)
    case SendHeartbeat(testReqId) => Printable(testReqId)
    case SendNewOrder(id, t, time) => Printable(id) && PrintableTicket(t) && Printable(time)
    case SendCancel(id, orig, symbol, side, time) =>
      Printable(id) && Printable(orig) && Printable(symbol) && Printable([side]) && Printable(time)
    case SendCancelReplace(id, orig, t, time) =>
      Printable(id) && Printable(orig) && PrintableTicket(t) && Printable(time)
    case Receive(_) => true
  }

  lemma PrintedIsWellFormed(fields: seq<Field>)
    requires forall k :: 0 <= k < |fields| ==>
               fields[k].tag >= 0 && fields[k].tag != CHECK_SUM && Printable(fields[k].value)
    ensures AllWellFormed(Printed(fields))
  {
    forall k | 0 <= k < |fields| ensures WellFormed(Printed(fields)[k]) {
      CTextIsPrinted(fields[k].value);
    }
  }

  lemma NumberIsPrintable(n: int)
    ensures Printable(IntText(n))
  {
    DigitsAreClean(n);
    CleanIsPrinted(IntText(n));
  }

  lemma ConstantsArePrintable()
    ensures Printable("0") && Printable("1")
  {
  }

  lemma OperationFieldsAreWellFormed(c: Config, op: Operation)
    requires PrintableConfig(c) && PrintableOperation(op) && !op.Receive?
    ensures AllWellFormed(Printed(FieldsOf(c, op)))
    ensures Clean([TypeOf(op)])
  {
    NumberIsPrintable(0);
    NumberIsPrintable(c.heartbeat);
    if op.SendNewOrder? || op.SendCancelReplace? {
      NumberIsPrintable(op.ticket.qty);
    }
    ConstantsArePrintable();
    hide Printable, IntText;
    PrintedIsWellFormed(FieldsOf(c, op));
  }

  // ---- Received values ---------------------------------------------------------------------

  /** Values of a scan never contain the delimiter, nor anything the text did not. */
  lemma {:induction false} ScannedValues(rest: string, delim: char, s: Scanned, c: char)
    requires c == delim || c !in rest
    requires forall k :: 0 <= k < |s.tags| ==> c !in s.tags[k].value
    ensures forall k :: 0 <= k < |Scan(rest, delim, s).tags| ==> c !in Scan(rest, delim, s).tags[k].value
    decreases |rest|
  {
    if rest != "" && |s.tags| < MAX_TAGS {
      var eq := IndexOf(rest, '=');
      if eq < |rest| && TagNumber(rest[..eq]) >= 0 {
        var n := Used(rest, eq, delim);
        var value := ValueAt(rest, eq, delim);
        ScannedValue(rest, eq, delim, c);
        ScannedValues(rest[n..], delim, Take(s, TagNumber(rest[..eq]), value, rest[..n]), c);
      }
    }
  }

  lemma ScannedValue(rest: string, eq: nat, delim: char, c: char)
    requires eq < |rest| && (c == delim || c !in rest)
    ensures c !in ValueAt(rest, eq, delim)
    ensures forall n :: eq < n <= |rest| ==> c == delim || c !in rest[n..]
  {
  }

  lemma {:induction false} FoundAmong(tags: seq<Field>, tag: int, c: char)
    requires forall k :: 0 <= k < |tags| ==> c !in tags[k].value
    ensures FindTag(tags, tag).Some? ==> c !in FindTag(tags, tag).value
    decreases |tags|
  {
    if tags != [] && tags[0].tag != tag {
      FoundAmong(tags[1..], tag, c);
    }
  }

  lemma ReceivedValueHasNoSoh(data: string, tag: int)
    ensures SOH !in GetString(Parsed(data).tags, tag)
  {
    if data != "" {
      ScannedValues(data, Delimiter(data), Scanned([], 0, -1), SOH);
    }
    FoundAmong(Parsed(data).tags, tag, SOH);
  }

  // ---- Buffers ------------------------------------------------------------------------------

  predicate Fits(c: Config, seqNum: int, msgType: char, fields: seq<Field>, time: string) {
    FixBuffers.FitsBuffers(c.sender, c.target, msgType, seqNum, time, fields)
  }

  /** What the operation sends, if it sends anything, fits the buffers of the builder. */
  predicate OperationFits(c: Config, s: Session, op: Operation, time: string) {
    if !op.Receive? then Fits(c, s.sendSeq, TypeOf(op), FieldsOf(c, op), time)
    else
      Parsed(op.data).msgType == TEST_REQUEST ==>
        EchoFits(c, s.sendSeq, GetString(Parsed(op.data).tags, TEST_REQ_ID), time)
  }

  predicate EchoFits(c: Config, seqNum: int, id: string, time: string) {
    Fits(c, seqNum, HEARTBEAT, EchoFields(id), time)
  }

  /** The exact room for an echoed id: what is printed of it takes five bytes more than its
      length, behind the header. */
  lemma EchoFitsExactly(c: Config, seqNum: int, id: string, time: string)
    ensures var header := |TextOf(Header(c.sender, c.target, HEARTBEAT, seqNum, time))|;
            (EchoFits(c, seqNum, id, time)
             <==> header < 4096 && (id == "" || header + 5 + |CText(id)| <= 4096))
  {
    if id != "" {
      var f := Field(TEST_REQ_ID, id);
      assert Digits(112) == Digits(11) + [DigitOf(2)] && Digits(11) == Digits(1) + [DigitOf(1)];
      assert [f][1..] == [];
      assert TextOf([f]) == FieldText(f) + TextOf([]);
      assert |FieldText(f)| == 5 + |CText(id)|;
    }
  }

  /** Nothing keeps a peer from sending more: a test request with an id as long as the buffer is
      received as valid, and its echo fits no session whatever. */
  lemma OversizedTestRequest(
    c: Config, peer: string, self: string, n: int, sent: string, id: string, seqNum: int, time: string)
    requires Sendable(peer, self, TEST_REQUEST, sent, [Field(TEST_REQ_ID, id)])
    requires |CText(id)| >= FixBuffers.MAX_MSG_SIZE
    ensures var data := Message(peer, self, TEST_REQUEST, n, sent, [Field(TEST_REQ_ID, id)]);
            && Parsed(data).valid && Parsed(data).msgType == TEST_REQUEST
            && GetString(Parsed(data).tags, TEST_REQ_ID) == CText(id)
            && !EchoFits(c, seqNum, CText(id), time)
  {
    OversizedEcho(c, seqNum, CText(id), time);
    hide TextOf, Message, EchoFits, Framed, Header, FindTag;
    BuildThenParse(peer, self, TEST_REQUEST, n, sent, [Field(TEST_REQ_ID, id)]);
    SentId(peer, self, TEST_REQUEST, n, sent, id);
  }

  lemma OversizedEcho(c: Config, seqNum: int, id: string, time: string)
    requires NUL !in id && |id| >= FixBuffers.MAX_MSG_SIZE
    ensures !EchoFits(c, seqNum, id, time)
  {
    hide TextOf, EchoFits;
    CTextOfClean(id);
    EchoFitsExactly(c, seqNum, id, time);
  }

  /** An id that is sent as the only field of the caller reads back as it was printed. */
  lemma SentId(sender: string, target: string, msgType: char, seqNum: int, time: string, id: string)
    requires Sendable(sender, target, msgType, time, EchoFields(id))
    ensures var tags := Parsed(Message(sender, target, msgType, seqNum, time, EchoFields(id))).tags;
            FindTag(tags, TEST_REQ_ID) == if id == "" then None else Some(CText(id))
  {
    var framed := Framed(Header(sender, target, msgType, seqNum, time) + EchoFields(id));
    assert |framed| == 7 + |EchoFields(id)|;
    EchoTags(sender, target, msgType, seqNum, time, id);
    BuildThenParse(sender, target, msgType, seqNum, time, EchoFields(id));
    hide TextOf, Message, Framed, Header, Printed, ThreeDigits, ByteSum, Parsed, FindTag, Sendable, CText;
    EchoIsFound(Printed(framed), Field(CHECK_SUM, ThreeDigits(ByteSum(TextOf(framed)) % 256)), CText(id));
  }

  /** An id behind the seven fields of the builder is found, if there is one. */
  lemma EchoIsFound(front: seq<Field>, last: Field, id: string)
    requires |front| == 7 || (|front| == 8 && front[7] == Field(TEST_REQ_ID, id))
    requires last.tag != TEST_REQ_ID && forall k :: 0 <= k < 7 ==> front[k].tag != TEST_REQ_ID
    ensures FindTag(Kept(front + [last]), TEST_REQ_ID) == if |front| == 7 then None else Some(id)
  {
    var all := front + [last];
    if |front| == 7 {
      SkipFront(all, 8, TEST_REQ_ID);
      assert all[8..] == [];
    } else {
      FindAt(all, 7, TEST_REQ_ID);
    }
  }

  lemma EchoTags(sender: string, target: string, msgType: char, seqNum: int, time: string, id: string)
    requires Clean([msgType])
    ensures var tags := Printed(Framed(Header(sender, target, msgType, seqNum, time) + EchoFields(id)));
            && (forall k :: 0 <= k < 7 ==> tags[k].tag != TEST_REQ_ID)
            && (id != "" ==> tags[7] == Field(TEST_REQ_ID, CText(id)))
  {
    hide TextOf, IntText, CText;
  }

  // ---- Numbering ------------------------------------------------------------------------------

  ghost predicate NumberedAt(wire: seq<string>, k: int)
    requires 0 <= k < |wire|
  {
    Parsed(wire[k]).valid && Parsed(wire[k]).seqNum == k + 1
  }

  /** The k-th message on the wire is valid and carries sequence number k; receives are counted one by one. */
  ghost predicate Numbered(s: Session) {
    && s.sendSeq == 1 + |s.wire| && s.sentCount == |s.wire|
    && s.recvSeq == 1 + s.recvCount
    && forall k :: 0 <= k < |s.wire| ==> NumberedAt(s.wire, k)
  }

  lemma SentIsNumbered(c: Config, s: Session, msgType: char, fields: seq<Field>, time: string)
    requires Numbered(s) && Sendable(c.sender, c.target, msgType, time, fields)
    ensures Numbered(Sent(c, s, msgType, fields, time))
    ensures Parsed(Sent(c, s, msgType, fields, time).wire[|s.wire|]).msgType == msgType
  {
    var s' := Sent(c, s, msgType, fields, time);
    BuildThenParse(c.sender, c.target, msgType, s.sendSeq, time, fields);
    forall k | 0 <= k < |s'.wire|
      ensures NumberedAt(s'.wire, k)
    {
      if k < |s.wire| {
        assert NumberedAt(s.wire, k);
      }
    }
  }

  /** A received test request is answered by exactly one valid heartbeat with its id, up to the first NUL. */
  lemma TestRequestIsEchoed(c: Config, s: Session, data: string, time: string)
    requires PrintableConfig(c) && Printable(time) && Numbered(s) && Parsed(data).msgType == TEST_REQUEST
    requires EchoFits(c, s.sendSeq, GetString(Parsed(data).tags, TEST_REQ_ID), time)
    ensures var s' := Handled(c, s, data, time);
            var id := GetString(Parsed(data).tags, TEST_REQ_ID);
            && Numbered(s') && |s'.wire| == |s.wire| + 1 && s'.wire[..|s.wire|] == s.wire
            && Parsed(s'.wire[|s.wire|]).msgType == HEARTBEAT
            && FindTag(Parsed(s'.wire[|s.wire|]).tags, TEST_REQ_ID) == if id == "" then None else Some(CText(id))
  {
    var noted := Noted(s, Parsed(data));
    var id := GetString(Parsed(data).tags, TEST_REQ_ID);
    EchoIsSendable(c, data, time);
    NotedIsNumbered(s, Parsed(data));
    SentIsNumbered(c, noted, HEARTBEAT, EchoFields(id), time);
    SentId(c.sender, c.target, HEARTBEAT, noted.sendSeq, time, id);
    hide Parsed, GetString, Message, FindTag, CText, EchoFits, Numbered;
  }

  /** Any id that was received can be sent on. */
  lemma EchoIsSendable(c: Config, data: string, time: string)
    requires PrintableConfig(c) && Printable(time)
    ensures Sendable(c.sender, c.target, HEARTBEAT, time, EchoFields(GetString(Parsed(data).tags, TEST_REQ_ID)))
  {
    ReceivedValueHasNoSoh(data, TEST_REQ_ID);
    PrintedIsWellFormed(EchoFields(GetString(Parsed(data).tags, TEST_REQ_ID)));
  }

  /** A text of three fields is scanned in three turns. */
  lemma ScanThree(a: string, x: string, b: string, y: string, c: string, z: string, s: Scanned)
    requires TagNumber(a) >= 0 && TagNumber(b) >= 0 && TagNumber(c) >= 0 && s.tags == []
    requires SOH !in x && SOH !in y && SOH !in z
    ensures var data := WireText(a, x) + (WireText(b, y) + (WireText(c, z) + ""));
            Scan(data, SOH, s).tags == [Field(TagNumber(a), x), Field(TagNumber(b), y), Field(TagNumber(c), z)]
  {
    var s1 := Take(s, TagNumber(a), x, WireText(a, x));
    var s2 := Take(s1, TagNumber(b), y, WireText(b, y));
    var last := WireText(c, z) + "";
    ScanNothing(Take(s2, TagNumber(c), z, WireText(c, z)));
    hide WireText, TagNumber, Scan, ByteSum, LooseNumber;
    ScanWire(a, x, WireText(b, y) + last, s);
    ScanWire(b, y, last, s1);
    ScanWire(c, z, "", s2);
  }

  lemma ParsedTags(data: string)
    requires data != "" && data[|data| - 1] == SOH
    ensures Parsed(data).tags == Scan(data, SOH, Scanned([], 0, -1)).tags
  {
    hide Scan;
  }

  lemma ScanNothing(s: Scanned)
    ensures Scan("", SOH, s) == s
  {
  }

  const SPLIT_ID := ['A', NUL, 'B']

  /** A test request whose id is A, NUL, B. */
  function SplitRequest(): string {
    WireText("8", "X") + (WireText("35", [TEST_REQUEST]) + (WireText("112", SPLIT_ID) + ""))
  }

  lemma TagsOfSplitRequest()
    ensures TagNumber("8") == 8 && TagNumber("35") == 35 && TagNumber("112") == 112
  {
    assert Digits(35) == "35" && Digits(11) == "11" && Digits(112) == "112";
    TagNumberOfDigits(8);
    TagNumberOfDigits(35);
    TagNumberOfDigits(112);
  }

  lemma SplitRequestReads()
    ensures Parsed(SplitRequest()).msgType == TEST_REQUEST
    ensures GetString(Parsed(SplitRequest()).tags, TEST_REQ_ID) == SPLIT_ID
  {
    WireEnds(WireText("8", "X"), WireText("35", [TEST_REQUEST]), "112", SPLIT_ID);
    hide TagNumber, WireText, Scan, GetChar, GetString;
    ParsedTags(SplitRequest());
    TagsOfSplitRequest();
    ScanThree("8", "X", "35", [TEST_REQUEST], "112", SPLIT_ID, Scanned([], 0, -1));
    SplitTags();
    ParsedType(SplitRequest());
  }

  lemma WireEnds(front: string, middle: string, digits: string, value: string)
    ensures var data := front + (middle + (WireText(digits, value) + ""));
            data != "" && data[|data| - 1] == SOH
  {
  }

  lemma ParsedType(data: string)
    requires data != ""
    ensures Parsed(data).msgType == GetChar(Parsed(data).tags, MSG_TYPE)
  {
    hide Scan, GetChar;
  }

  lemma SplitTags()
    ensures var tags := [Field(8, "X"), Field(35, [TEST_REQUEST]), Field(112, SPLIT_ID)];
            GetChar(tags, MSG_TYPE) == TEST_REQUEST && GetString(tags, TEST_REQ_ID) == SPLIT_ID
  {
    var tags := [Field(8, "X"), Field(35, [TEST_REQUEST]), Field(112, SPLIT_ID)];
    SkipFront(tags, 1, MSG_TYPE);
    SkipFront(tags, 2, TEST_REQ_ID);
    assert tags[1..][0] == tags[1] && tags[2..][0] == tags[2];
    assert FindTag(tags[1..], MSG_TYPE) == Some([TEST_REQUEST]);
    assert FindTag(tags[2..], TEST_REQ_ID) == Some(SPLIT_ID);
  }

  lemma PrintedSplitId()
    ensures CText(SPLIT_ID) == "A"
  {
    assert "A" + [NUL] + "B" == SPLIT_ID;
    IndexOfFirst("A", NUL, "B");
  }

  /** The NUL and the B do not come back. */
  lemma NulIsNotEchoed(c: Config, s: Session, time: string)
    requires PrintableConfig(c) && Printable(time) && Numbered(s) && EchoFits(c, s.sendSeq, SPLIT_ID, time)
    ensures var s' := Handled(c, s, SplitRequest(), time);
            && GetString(Parsed(SplitRequest()).tags, TEST_REQ_ID) == SPLIT_ID
            && |s'.wire| == |s.wire| + 1
            && FindTag(Parsed(s'.wire[|s.wire|]).tags, TEST_REQ_ID) == Some("A")
  {
    hide Parsed, Handled, SplitRequest, EchoFits, CText;
    SplitRequestReads();
    PrintedSplitId();
    TestRequestIsEchoed(c, s, SplitRequest(), time);
  }

  lemma NotedIsNumbered(s: Session, p: ParsedFixMessage)
    requires Numbered(s)
    ensures Numbered(Noted(s, p))
  {
    forall k | 0 <= k < |s.wire|
      ensures NumberedAt(Noted(s, p).wire, k)
    {
      assert NumberedAt(s.wire, k);
    }
  }

  /** Every operation keeps the numbering. */
  lemma PerformedIsNumbered(c: Config, s: Session, op: Operation, time: string)
    requires PrintableConfig(c) && Printable(time) && PrintableOperation(op) && Numbered(s)
    requires OperationFits(c, s, op, time)
    ensures Numbered(Performed(c, s, op, time))
    ensures |Performed(c, s, op, time).wire|
         == |s.wire| + if op.Receive? && Parsed(op.data).msgType != TEST_REQUEST then 0 else 1
  {
    if !op.Receive? {
      OperationFieldsAreWellFormed(c, op);
      SentIsNumbered(c, s, TypeOf(op), FieldsOf(c, op), time);
      StatusIsFree(Sent(c, s, TypeOf(op), FieldsOf(c, op), time), StatusAfter(s.status, op));
    } else if Parsed(op.data).msgType == TEST_REQUEST {
      TestRequestIsEchoed(c, s, op.data, time);
    } else {
      NotedIsNumbered(s, Parsed(op.data));
    }
  }

  lemma StatusIsFree(s: Session, status: Status)
    requires Numbered(s)
    ensures Numbered(s.(status := status))
  {
    assert forall k :: 0 <= k < |s.wire| ==> NumberedAt(s.wire, k) ==> NumberedAt(s.(status := status).wire, k);
  }

  datatype Timed = Timed(op: Operation, time: string)

  ghost predicate PrintableTimed(t: Timed) {
    PrintableOperation(t.op) && Printable(t.time)
  }

  ghost predicate AllPrintable(ops: seq<Timed>) {
    forall k :: 0 <= k < |ops| ==> PrintableTimed(ops[k])
  }

  /** Every message of the run fits the buffers when it is built. */
  ghost predicate AllFit(c: Config, s: Session, ops: seq<Timed>)
    decreases |ops|
  {
    ops != [] ==>
      OperationFits(c, s, ops[0].op, ops[0].time) && AllFit(c, Performed(c, s, ops[0].op, ops[0].time), ops[1..])
  }

  function PerformAll(c: Config, s: Session, ops: seq<Timed>): Session
    decreases |ops|
  {
    if ops == [] then s else PerformAll(c, Performed(c, s, ops[0].op, ops[0].time), ops[1..])
  }

  /** From construction on, over any operations that fit the buffers, the k-th message handed over
      parses valid with MsgSeqNum k, and the receive counters stay in step. */
  lemma {:induction false} WireIsNumbered(c: Config, s: Session, ops: seq<Timed>)
    requires PrintableConfig(c) && Numbered(s)
    requires AllPrintable(ops) && AllFit(c, s, ops)
    ensures Numbered(PerformAll(c, s, ops))
    decreases |ops|
  {
    if ops != [] {
      assert PrintableTimed(ops[0]);
      PerformedIsNumbered(c, s, ops[0].op, ops[0].time);
      WireIsNumbered(c, Performed(c, s, ops[0].op, ops[0].time), ops[1..]);
    }
  }

  lemma FreshIsNumbered(s: Session)
    requires s == FRESH
    ensures Numbered(s)
  {
  }

  lemma WireIsNumberedFromStart(c: Config, s: Session, ops: seq<Timed>)
    requires s == FRESH && PrintableConfig(c)
    requires AllPrintable(ops) && AllFit(c, s, ops)
    ensures Numbered(PerformAll(c, s, ops))
  {
    FreshIsNumbered(s);
    WireIsNumbered(c, s, ops);
  }

  /** Starting the simulation sets both numbers back to one but leaves counters and wire. */
  function StartedSimulated(s: Session): Session {
    s.(status := Simulated, sendSeq := 1, recvSeq := 1)
  }

  /** So it keeps the numbering exactly as long as nothing has been sent or received. */
  lemma RestartKeepsNumberingOnlyAtTheStart(s: Session)
    requires Numbered(s)
    ensures Numbered(StartedSimulated(s)) <==> s.sentCount == 0 && s.recvCount == 0
    ensures StartedSimulated(s) == Session(Simulated, 1, 1, s.sentCount, s.recvCount, s.errorCount, s.wire)
  {
    if s.sentCount == 0 && s.recvCount == 0 {
      assert StartedSimulated(s).wire == [];
    }
  }

  /** After a first message, the restarted session is about to send a second number 1. */
  lemma RestartRepeatsNumberOne(c: Config, s: Session, op: Operation, time: string)
    requires Numbered(s) && s.sentCount == 0
    requires PrintableConfig(c) && Printable(time) && !op.Receive?
    requires PrintableOperation(op) && OperationFits(c, s, op, time)
    ensures var s' := StartedSimulated(Performed(c, s, op, time));
            s'.sendSeq == 1 && |s'.wire| == 1 && Parsed(s'.wire[0]).seqNum == 1 && !Numbered(s')
  {
    hide Parsed, Performed, OperationFits;
    PerformedIsNumbered(c, s, op, time);
    assert NumberedAt(Performed(c, s, op, time).wire, 0);
    RestartKeepsNumberingOnlyAtTheStart(Performed(c, s, op, time));
  }

  // ---- The session object -----------------------------------------------------------------

  lemma TextGrows(fields: seq<Field>, k: nat)
    requires k < |fields|
    ensures TextOf(fields[..k + 1]) == TextOf(fields[..k]) + FieldText(fields[k])
    ensures |TextOf(fields[..k + 1])| <= |TextOf(fields)|
  {
    assert fields[..k + 1] == fields[..k] + [fields[k]];
    TextAdds(fields[..k], [fields[k]]);
    assert [fields[k]][1..] == [];
    assert TextOf([fields[k]]) == FieldText(fields[k]) + TextOf([]);
    assert fields == fields[..k + 1] + fields[k + 1..];
    TextAdds(fields[..k + 1], fields[k + 1..]);
  }

  class FixSession {
    const config: Config
    var status: Status
    var sendSeq: int
    var recvSeq: int
    var sentCount: int
    var recvCount: int
    var errorCount: int
    var wire: seq<string>

    function State(): Session
      reads this
    {
      Session(status, sendSeq, recvSeq, sentCount, recvCount, errorCount, wire)
    }

    constructor (c: Config)
      ensures config == c && State() == FRESH
    {
      config := c;
      status, sendSeq, recvSeq, sentCount, recvCount, errorCount, wire := Disconnected, 1, 1, 0, 0, 0, [];
    }

    method StartSimulated()
      modifies this
      ensures State() == StartedSimulated(old(State()))
    {
      status := Simulated;
      sendSeq := 1;
      recvSeq := 1;
    }

    /** A builder that holds the fields. */
    method WriteFields(fields: seq<Field>) returns (builder: FixBuffers.FixMessageBuilder)
      requires |TextOf(fields)| < FixBuffers.MAX_MSG_SIZE
      ensures fresh(builder) && fresh(builder.body) && fresh(builder.msg) && builder.Valid()
      ensures builder.bodyLen < FixBuffers.MAX_MSG_SIZE && builder.Text() == TextOf(fields)
    {
      builder := new FixBuffers.FixMessageBuilder();
      assert TextOf(fields[..0]) == "";
      hide TextOf, FieldText;
      for k := 0 to |fields|
        invariant builder.Valid() && fresh(builder) && fresh(builder.body) && fresh(builder.msg)
        invariant builder.bodyLen < FixBuffers.MAX_MSG_SIZE && builder.Text() == TextOf(fields[..k])
      {
        TextGrows(fields, k);
        builder.Add(fields[k].tag, fields[k].value);
      }
      assert fields[..|fields|] == fields;
    }

    /** Builds a message of the given fields and hands it over. */
    method Send(msgType: char, fields: seq<Field>, time: string)
      requires Fits(config, sendSeq, msgType, fields, time)
      modifies this
      ensures State() == Sent(config, old(State()), msgType, fields, time)
    {
      var builder := WriteFields(fields);
      hide TextOf, FieldText, Message;
      var message := builder.Finalize(config.sender, config.target, msgType, sendSeq, time, fields);
      SendAndJournal(message);
    }

    /** Counts the message and hands it to the send callback. */
    method SendAndJournal(message: string)
      modifies this`sendSeq, this`sentCount, this`wire
      ensures State() == old(State()).(sendSeq := old(sendSeq) + 1, sentCount := old(sentCount) + 1,
          wire := old(wire) + [message])
    {
      sendSeq := sendSeq + 1;
      sentCount := sentCount + 1;
      wire := wire + [message];
    }

    /** Any of the send functions: build, number, hand over, then move to the new status. */
    method Perform(op: Operation, time: string)
      requires !op.Receive? && OperationFits(config, State(), op, time)
      modifies this
      ensures State() == Performed(config, old(State()), op, time)
    {
      Send(TypeOf(op), FieldsOf(config, op), time);
      if op.SendLogon? {
        status := LogonSent;
      } else if op.SendLogout? {
        status := LogoutSent;
      }
    }

    method SendHeartbeat(testReqId: string, time: string)
      requires EchoFits(config, sendSeq, testReqId, time)
      modifies this
      ensures State() == Sent(config, old(State()), HEARTBEAT, EchoFields(testReqId), time)
    {
      Send(HEARTBEAT, EchoFields(testReqId), time);
    }

    /** Parses what arrived, counts it, and acts on its type. */
    method OnMessageReceived(data: string, time: string)
      requires OperationFits(config, State(), Receive(data), time)
      modifies this
      ensures State() == Performed(config, old(State()), Receive(data), time)
    {
      hide Parsed, Message;
      var parsed := FixBuffers.ParseFixMessage(data);
      recvSeq := recvSeq + 1;
      recvCount := recvCount + 1;
      if !parsed.valid {
        errorCount := errorCount + 1;
      }
      match parsed.msgType
      case 'A' => status := Active;
      case '5' => status := Disconnected;
      case '1' => SendHeartbeat(GetString(parsed.tags, TEST_REQ_ID), time);
      case '3' => errorCount := errorCount + 1;
      case '9' => errorCount := errorCount + 1;
      case 'j' => errorCount := errorCount + 1;
      case _ =>
    }
  }
}
