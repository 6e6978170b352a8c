/** What the messages of a session say: every field that a caller hands over stands in the message
    under its tag, and over any run the counters and the status are those of what was sent and
    received. */
module FixContents {
  import opened ExchangeTypes
  import opened FixText
  import opened FixMessage
  import opened FixSession

  // ---- Fields -------------------------------------------------------------------------

  /** The tags that the builder uses itself. */
  predicate IsOwn(tag: int) {
    tag == 8 || tag == 9 || tag == 35 || tag == 49 || tag == 56 || tag == 34 || tag == 52 || tag == 10
  }

  /** No tag twice, and none of the builder's own. */
  predicate Distinct(fields: seq<Field>) {
    && (forall k :: 0 <= k < |fields| ==> !IsOwn(fields[k].tag))
    && (forall j, k :: 0 <= j < k < |fields| ==> fields[j].tag != fields[k].tag)
  }

  /** The message has a field of this tag, and the first of them is what is printed of the value. */
  predicate Says(message: string, tag: int, value: string) {
    FindTag(Parsed(message).tags, tag) == Some(CText(value))
  }

  predicate Omits(message: string, tag: int) {
    FindTag(Parsed(message).tags, tag) == None
  }

  /** The order of the tags in a message: the builder's, the caller's, the checksum. */
  predicate InOrder(tags: seq<Field>, fields: seq<Field>) {
    && |tags| == 8 + |fields| && tags[|tags| - 1].tag == 10
    && tags[0].tag == 8 && tags[1].tag == 9 && tags[2].tag == 35 && tags[3].tag == 49 && tags[4].tag == 56
    && tags[5].tag == 34 && tags[6].tag == 52
    && forall k :: 0 <= k < |fields| ==> tags[7 + k].tag == fields[k].tag
  }

  lemma FindInOrder(tags: seq<Field>, fields: seq<Field>, k: nat)
    requires InOrder(tags, fields) && Distinct(fields) && k < |fields|
    ensures FindTag(tags, fields[k].tag) == Some(tags[7 + k].value)
  {
    forall j | 0 <= j < 7 + k ensures tags[j].tag != fields[k].tag {
      if j >= 7 {
        assert tags[7 + (j - 7)].tag == fields[j - 7].tag;
      }
    }
    FindAt(tags, 7 + k, fields[k].tag);
  }

  lemma FindOwn(tags: seq<Field>, fields: seq<Field>)
    requires InOrder(tags, fields)
    ensures FindTag(tags, 49) == Some(tags[3].value) && FindTag(tags, 56) == Some(tags[4].value)
    ensures FindTag(tags, 52) == Some(tags[6].value)
  {
    hide FindTag;
    FindAt(tags, 3, 49);
    FindAt(tags, 4, 56);
    FindAt(tags, 6, 52);
  }

  lemma FindNothing(tags: seq<Field>, fields: seq<Field>, tag: int)
    requires InOrder(tags, fields) && !IsOwn(tag) && forall k :: 0 <= k < |fields| ==> fields[k].tag != tag
    ensures FindTag(tags, tag) == None
  {
    forall j | 0 <= j < |tags| ensures tags[j].tag != tag {
      if 7 <= j < |tags| - 1 {
        assert tags[7 + (j - 7)].tag == fields[j - 7].tag;
      }
    }
    SkipFront(tags, |tags|, tag);
    assert tags[|tags|..] == [];
  }

  lemma PlacesOf(tags: seq<Field>, front: seq<Field>, fields: seq<Field>, last: Field)
    requires tags == front + Printed(fields) + [last] && last.tag == 10
    requires |front| == 7 && front[0].tag == 8 && front[1].tag == 9 && front[2].tag == 35 && front[3].tag == 49
    requires front[4].tag == 56 && front[5].tag == 34 && front[6].tag == 52
    ensures InOrder(tags, fields)
    ensures tags[3] == front[3] && tags[4] == front[4] && tags[6] == front[6]
    ensures forall k :: 0 <= k < |fields| ==> tags[7 + k].value == CText(fields[k].value)
  {
    hide CText;
    forall k | 0 <= k < |fields|
      ensures tags[7 + k].tag == fields[k].tag && tags[7 + k].value == CText(fields[k].value)
    {
      assert tags[7 + k] == Printed(fields)[k];
    }
  }

  lemma FrontTags(sender: string, target: string, msgType: char, seqNum: int, time: string, length: nat)
    ensures var front := Front(sender, target, msgType, seqNum, time, length);
            && |front| == 7 && front[0].tag == 8 && front[1].tag == 9 && front[2].tag == 35
            && front[3] == Field(49, CText(sender)) && front[4] == Field(56, CText(target))
            && front[5].tag == 34 && front[6] == Field(52, CText(time))
  {
    hide CText, IntText;
  }

  /** All that is read of a message with few enough fields, place by place. */
  lemma TagsOf(sender: string, target: string, msgType: char, seqNum: int, time: string, fields: seq<Field>)
    requires Sendable(sender, target, msgType, time, fields) && |fields| <= MAX_TAGS - 8
    ensures var tags := Parsed(Message(sender, target, msgType, seqNum, time, fields)).tags;
            && InOrder(tags, fields)
            && tags[3].value == CText(sender) && tags[4].value == CText(target) && tags[6].value == CText(time)
            && forall k :: 0 <= k < |fields| ==> tags[7 + k].value == CText(fields[k].value)
  {
    var body := Header(sender, target, msgType, seqNum, time) + fields;
    var last := Field(CHECK_SUM, ThreeDigits(ByteSum(TextOf(Framed(body))) % 256));
    var front := Front(sender, target, msgType, seqNum, time, |TextOf(body)|);
    FrontTags(sender, target, msgType, seqNum, time, |TextOf(body)|);
    hide TextOf, Message, Framed, Header, Parsed, IntText, CText, ThreeDigits, ByteSum, Printed, Front, InOrder;
    BuildThenParse(sender, target, msgType, seqNum, time, fields);
    PrintedFront(sender, target, msgType, seqNum, time, fields);
    PlacesOf(front + Printed(fields) + [last], front, fields, last);
  }

  lemma FieldsAreSaid(
    sender: string, target: string, msgType: char, seqNum: int, time: string, fields: seq<Field>, k: nat)
    requires Sendable(sender, target, msgType, time, fields) && |fields| <= MAX_TAGS - 8
    requires Distinct(fields) && k < |fields|
    ensures Says(Message(sender, target, msgType, seqNum, time, fields), fields[k].tag, fields[k].value)
  {
    hide Message, Parsed, Sendable, FindTag, CText, Distinct;
    TagsOf(sender, target, msgType, seqNum, time, fields);
    FindInOrder(Parsed(Message(sender, target, msgType, seqNum, time, fields)).tags, fields, k);
  }

  lemma OthersAreOmitted(
    sender: string, target: string, msgType: char, seqNum: int, time: string, fields: seq<Field>, tag: int)
    requires Sendable(sender, target, msgType, time, fields) && |fields| <= MAX_TAGS - 8
    requires !IsOwn(tag) && forall k :: 0 <= k < |fields| ==> fields[k].tag != tag
    ensures Omits(Message(sender, target, msgType, seqNum, time, fields), tag)
  {
    hide Message, Parsed, Sendable, FindTag, CText;
    TagsOf(sender, target, msgType, seqNum, time, fields);
    FindNothing(Parsed(Message(sender, target, msgType, seqNum, time, fields)).tags, fields, tag);
  }

  /** Who sends to whom, under which number and at what time. */
  predicate IsAddressed(message: string, c: Config, msgType: char, seqNum: int, time: string) {
    var p := Parsed(message);
    && p.valid && p.msgType == msgType && p.seqNum == seqNum
    && Says(message, 49, c.sender) && Says(message, 56, c.target) && Says(message, 52, time)
  }

  lemma HeaderIsSaid(c: Config, msgType: char, seqNum: int, time: string, fields: seq<Field>)
    requires Sendable(c.sender, c.target, msgType, time, fields) && |fields| <= MAX_TAGS - 8
    ensures IsAddressed(Message(c.sender, c.target, msgType, seqNum, time, fields), c, msgType, seqNum, time)
  {
    hide Message, Parsed, Sendable, FindTag, CText, Kept, Printed, Framed, Header, InOrder;
    TagsOf(c.sender, c.target, msgType, seqNum, time, fields);
    BuildThenParse(c.sender, c.target, msgType, seqNum, time, fields);
    FindOwn(Parsed(Message(c.sender, c.target, msgType, seqNum, time, fields)).tags, fields);
  }

  /** What a send puts on the wire. */
  ghost predicate Sends(c: Config, s: Session, op: Operation, time: string, message: string) {
    && Performed(c, s, op, time).wire == s.wire + [message]
    && Performed(c, s, op, time).sendSeq == s.sendSeq + 1
  }

  /** The message of any send, its header, and each of its fields. */
  lemma SendSays(c: Config, s: Session, op: Operation, time: string) returns (message: string)
    requires PrintableConfig(c) && PrintableOperation(op) && Printable(time) && !op.Receive?
    requires Distinct(FieldsOf(c, op))
    ensures Sends(c, s, op, time, message)
    ensures IsAddressed(message, c, TypeOf(op), s.sendSeq, time)
    ensures forall k :: 0 <= k < |FieldsOf(c, op)| ==> Says(message, FieldsOf(c, op)[k].tag, FieldsOf(c, op)[k].value)
    ensures forall tag: int :: !IsOwn(tag) && (forall k :: 0 <= k < |FieldsOf(c, op)| ==> FieldsOf(c, op)[k].tag != tag)
              ==> Omits(message, tag)
  {
    var fields := FieldsOf(c, op);
    message := Message(c.sender, c.target, TypeOf(op), s.sendSeq, time, fields);
    OperationFieldsAreWellFormed(c, op);
    assert |fields| <= 10;
    HeaderIsSaid(c, TypeOf(op), s.sendSeq, time, fields);
    forall k | 0 <= k < |fields| ensures Says(message, fields[k].tag, fields[k].value) {
      FieldsAreSaid(c.sender, c.target, TypeOf(op), s.sendSeq, time, fields, k);
    }
    forall tag: int | !IsOwn(tag) && forall k :: 0 <= k < |fields| ==> fields[k].tag != tag
      ensures Omits(message, tag)
    {
      OthersAreOmitted(c.sender, c.target, TypeOf(op), s.sendSeq, time, fields, tag);
    }
  }

  // ---- Orders ---------------------------------------------------------------------------

  /** A whole number reads back from a field. */
  predicate SaysNumber(message: string, tag: int, n: int) {
    GetInt(Parsed(message).tags, tag) == n
  }

  lemma PrintedNumber(message: string, tag: int, n: int)
    requires Says(message, tag, IntText(n))
    ensures SaysNumber(message, tag, n)
  {
    DigitsAreClean(n);
    CleanIsPrinted(IntText(n));
    AsIntOfText(n, 0);
    hide Parsed, AsInt, IntText, CText, FindTag;
  }

  /** A limit order with a positive price says its price, and no other order says one. */
  predicate SaysPrice(message: string, t: Ticket) {
    if t.ordType == '2' && t.price > 0.0 then Says(message, 44, t.priceText) else Omits(message, 44)
  }

  /** The caller's fields hold this one. */
  predicate Has(fields: seq<Field>, tag: int, value: string) {
    exists k :: 0 <= k < |fields| && fields[k] == Field(tag, value)
  }

  predicate Lacks(fields: seq<Field>, tag: int) {
    forall k :: 0 <= k < |fields| ==> fields[k].tag != tag
  }

  lemma HasAt(fields: seq<Field>, k: nat)
    requires k < |fields|
    ensures Has(fields, fields[k].tag, fields[k].value)
  {
    assert fields[k] == Field(fields[k].tag, fields[k].value);
  }

  /** The message of any send, in terms of what its fields have and lack. */
  lemma SendCarries(c: Config, s: Session, op: Operation, time: string) returns (message: string)
    requires PrintableConfig(c) && PrintableOperation(op) && Printable(time) && !op.Receive?
    requires Distinct(FieldsOf(c, op))
    ensures Sends(c, s, op, time, message)
    ensures IsAddressed(message, c, TypeOf(op), s.sendSeq, time)
    ensures forall tag: int, value: string :: Has(FieldsOf(c, op), tag, value) ==> Says(message, tag, value)
    ensures forall tag: int :: !IsOwn(tag) && Lacks(FieldsOf(c, op), tag) ==> Omits(message, tag)
    ensures forall tag: int, n: int :: Has(FieldsOf(c, op), tag, IntText(n)) ==> SaysNumber(message, tag, n)
  {
    message := SendSays(c, s, op, time);
    hide FieldsOf, IntText, Parsed, FindTag, Distinct, IsOwn;
    forall tag: int, n: int | Has(FieldsOf(c, op), tag, IntText(n))
      ensures SaysNumber(message, tag, n)
    {
      PrintedNumber(message, tag, n);
    }
  }

  lemma PriceFieldsAre(t: Ticket)
    ensures PriceFields(t) == if t.ordType == '2' && t.price > 0.0 then [Field(44, t.priceText)] else []
  {
  }

  lemma NewOrderFields(c: Config, id: string, t: Ticket, transactTime: string)
    ensures var fields := FieldsOf(c, SendNewOrder(id, t, transactTime));
            && Distinct(fields) && Has(fields, 11, id) && Has(fields, 1, c.account) && Has(fields, 21, "1")
            && Has(fields, 55, t.symbol) && Has(fields, 54, [t.side]) && Has(fields, 60, transactTime)
            && Has(fields, 38, IntText(t.qty)) && Has(fields, 40, [t.ordType]) && Has(fields, 59, "0")
            && (if t.ordType == '2' && t.price > 0.0 then Has(fields, 44, t.priceText) else Lacks(fields, 44))
  {
    PriceFieldsAre(t);
    hide IntText, PriceFields;
    var fields := FieldsOf(c, SendNewOrder(id, t, transactTime));
    assert fields[0] == Field(11, id) && fields[1] == Field(1, c.account) && fields[2] == Field(21, "1");
    assert fields[3] == Field(55, t.symbol) && fields[4] == Field(54, [t.side]) && fields[5] == Field(60, transactTime);
    assert fields[6] == Field(38, IntText(t.qty)) && fields[7] == Field(40, [t.ordType]) && fields[8] == Field(59, "0");
    assert PriceFields(t) != [] ==> fields[9] == Field(44, t.priceText);
  }

  /** A new order says its id, account, symbol, side, quantity, type and time, and its price if it has one. */
  lemma NewOrderSays(c: Config, s: Session, id: string, t: Ticket, transactTime: string, time: string)
    returns (message: string)
    requires PrintableConfig(c) && Printable(time) && PrintableOperation(SendNewOrder(id, t, transactTime))
    requires OperationFits(c, s, SendNewOrder(id, t, transactTime), time)
    ensures Sends(c, s, SendNewOrder(id, t, transactTime), time, message)
    ensures IsAddressed(message, c, 'D', s.sendSeq, time)
    ensures Says(message, 11, id) && Says(message, 1, c.account) && Says(message, 21, "1")
    ensures Says(message, 55, t.symbol) && Says(message, 54, [t.side]) && Says(message, 40, [t.ordType])
    ensures SaysNumber(message, 38, t.qty) && SaysPrice(message, t)
    ensures Says(message, 59, "0") && Says(message, 60, transactTime)
  {
    NewOrderFields(c, id, t, transactTime);
    hide FieldsOf, IntText, Says, Omits, SaysNumber, Sends, IsAddressed, Distinct, Has, Lacks, PrintableOperation,
      OperationFits;
    message := SendCarries(c, s, SendNewOrder(id, t, transactTime), time);
  }

  lemma CancelFields(c: Config, id: string, orig: string, symbol: string, side: char, transactTime: string)
    ensures var fields := FieldsOf(c, SendCancel(id, orig, symbol, side, transactTime));
            && Distinct(fields) && Has(fields, 11, id) && Has(fields, 41, orig) && Has(fields, 55, symbol)
            && Has(fields, 54, [side]) && Has(fields, 60, transactTime)
  {
    var fields := FieldsOf(c, SendCancel(id, orig, symbol, side, transactTime));
    assert fields[0] == Field(11, id) && fields[1] == Field(41, orig) && fields[2] == Field(55, symbol);
    assert fields[3] == Field(54, [side]) && fields[4] == Field(60, transactTime);
  }

  /** A cancel says its own id and that of the order, and the order's symbol and side. */
  lemma CancelSays(c: Config, s: Session, id: string, orig: string, symbol: string, side: char, transactTime: string,
      time: string) returns (message: string)
    requires PrintableConfig(c) && Printable(time)
    requires PrintableOperation(SendCancel(id, orig, symbol, side, transactTime))
    requires OperationFits(c, s, SendCancel(id, orig, symbol, side, transactTime), time)
    ensures Sends(c, s, SendCancel(id, orig, symbol, side, transactTime), time, message)
    ensures IsAddressed(message, c, 'F', s.sendSeq, time)
    ensures Says(message, 11, id) && Says(message, 41, orig) && Says(message, 55, symbol)
    ensures Says(message, 54, [side]) && Says(message, 60, transactTime)
  {
    CancelFields(c, id, orig, symbol, side, transactTime);
    hide FieldsOf, IntText, Says, Omits, SaysNumber, Sends, IsAddressed, Distinct, Has, Lacks, PrintableOperation,
      OperationFits;
    message := SendCarries(c, s, SendCancel(id, orig, symbol, side, transactTime), time);
  }

  lemma CancelReplaceFields(c: Config, id: string, orig: string, t: Ticket, transactTime: string)
    ensures var fields := FieldsOf(c, SendCancelReplace(id, orig, t, transactTime));
            && Distinct(fields) && Has(fields, 11, id) && Has(fields, 41, orig) && Has(fields, 55, t.symbol)
            && Has(fields, 54, [t.side]) && Has(fields, 60, transactTime)
            && Has(fields, 38, IntText(t.qty)) && Has(fields, 40, [t.ordType])
            && (if t.ordType == '2' && t.price > 0.0 then Has(fields, 44, t.priceText) else Lacks(fields, 44))
  {
    PriceFieldsAre(t);
    hide IntText, PriceFields;
    var fields := FieldsOf(c, SendCancelReplace(id, orig, t, transactTime));
    assert fields[0] == Field(11, id) && fields[1] == Field(41, orig) && fields[2] == Field(55, t.symbol);
    assert fields[3] == Field(54, [t.side]) && fields[4] == Field(60, transactTime);
    assert fields[5] == Field(38, IntText(t.qty)) && fields[6] == Field(40, [t.ordType]);
    assert PriceFields(t) != [] ==> fields[7] == Field(44, t.priceText);
  }

  /** A replace says both ids, and what the order is to be. */
  lemma CancelReplaceSays(c: Config, s: Session, id: string, orig: string, t: Ticket, transactTime: string,
      time: string) returns (message: string)
    requires PrintableConfig(c) && Printable(time)
    requires PrintableOperation(SendCancelReplace(id, orig, t, transactTime))
    requires OperationFits(c, s, SendCancelReplace(id, orig, t, transactTime), time)
    ensures Sends(c, s, SendCancelReplace(id, orig, t, transactTime), time, message)
    ensures IsAddressed(message, c, 'G', s.sendSeq, time)
    ensures Says(message, 11, id) && Says(message, 41, orig) && Says(message, 55, t.symbol)
    ensures Says(message, 54, [t.side]) && Says(message, 40, [t.ordType]) && Says(message, 60, transactTime)
    ensures SaysNumber(message, 38, t.qty) && SaysPrice(message, t)
  {
    CancelReplaceFields(c, id, orig, t, transactTime);
    hide FieldsOf, IntText, Says, Omits, SaysNumber, Sends, IsAddressed, Distinct, Has, Lacks, PrintableOperation,
      OperationFits;
    message := SendCarries(c, s, SendCancelReplace(id, orig, t, transactTime), time);
  }

  // ---- The session itself -----------------------------------------------------------------

  lemma LogonFields(c: Config)
    ensures var fields := FieldsOf(c, SendLogon);
            && Distinct(fields) && Has(fields, 98, IntText(0)) && Has(fields, 108, IntText(c.heartbeat))
            && (if c.password == "" then Lacks(fields, 554) else Has(fields, 554, c.password))
  {
    hide IntText;
    var fields := FieldsOf(c, SendLogon);
    assert fields[0] == Field(98, IntText(0)) && fields[1] == Field(108, IntText(c.heartbeat));
    assert c.password != "" ==> fields[2] == Field(554, c.password);
  }

  /** A logon says no encryption, the heartbeat interval, and the password if there is one. */
  lemma LogonSays(c: Config, s: Session, time: string) returns (message: string)
    requires PrintableConfig(c) && Printable(time) && OperationFits(c, s, SendLogon, time)
    ensures Sends(c, s, SendLogon, time, message)
    ensures IsAddressed(message, c, 'A', s.sendSeq, time)
    ensures SaysNumber(message, 98, 0) && SaysNumber(message, 108, c.heartbeat)
    ensures if c.password == "" then Omits(message, 554) else Says(message, 554, c.password)
    ensures Performed(c, s, SendLogon, time).status == LogonSent
  {
    LogonFields(c);
    hide FieldsOf, IntText, Says, Omits, SaysNumber, Sends, IsAddressed, Distinct, Has, Lacks, OperationFits;
    message := SendCarries(c, s, SendLogon, time);
  }

  lemma OneField(c: Config, op: Operation, tag: int, value: string)
    requires (op == SendLogout(value) && tag == 58) || (op == SendHeartbeat(value) && tag == 112)
    ensures var fields := FieldsOf(c, op);
            Distinct(fields) && if value == "" then Lacks(fields, tag) else Has(fields, tag, value)
  {
    var fields := FieldsOf(c, op);
    assert value != "" ==> fields[0] == Field(tag, value);
  }

  /** A logout says its reason, if there is one. */
  lemma LogoutSays(c: Config, s: Session, reason: string, time: string) returns (message: string)
    requires PrintableConfig(c) && Printable(time) && Printable(reason) && OperationFits(c, s, SendLogout(reason), time)
    ensures Sends(c, s, SendLogout(reason), time, message)
    ensures IsAddressed(message, c, '5', s.sendSeq, time)
    ensures if reason == "" then Omits(message, 58) else Says(message, 58, reason)
    ensures Performed(c, s, SendLogout(reason), time).status == LogoutSent
  {
    OneField(c, SendLogout(reason), 58, reason);
    hide FieldsOf, IntText, Says, Omits, SaysNumber, Sends, IsAddressed, Distinct, Has, Lacks, OperationFits;
    message := SendCarries(c, s, SendLogout(reason), time);
  }

  /** A heartbeat says the id of the request that it answers, if there is one. */
  lemma HeartbeatSays(c: Config, s: Session, id: string, time: string) returns (message: string)
    requires PrintableConfig(c) && Printable(time) && Printable(id) && OperationFits(c, s, SendHeartbeat(id), time)
    ensures Sends(c, s, SendHeartbeat(id), time, message)
    ensures IsAddressed(message, c, '0', s.sendSeq, time)
    ensures if id == "" then Omits(message, 112) else Says(message, 112, id)
  {
    OneField(c, SendHeartbeat(id), 112, id);
    hide FieldsOf, IntText, Says, Omits, SaysNumber, Sends, IsAddressed, Distinct, Has, Lacks, OperationFits;
    message := SendCarries(c, s, SendHeartbeat(id), time);
  }

  // ---- Counters and status over a run --------------------------------------------------------

  function Bit(b: bool): nat {
    if b then 1 else 0
  }

  predicate IsInvalid(t: Timed) {
    t.op.Receive? && !Parsed(t.op.data).valid
  }

  /** A reject of the session, of a cancel, or of the business layer. */
  predicate IsRefusal(t: Timed) {
    t.op.Receive? && Parsed(t.op.data).msgType in {'3', '9', 'j'}
  }

  /** A test request. */
  predicate IsAnswered(t: Timed) {
    t.op.Receive? && Parsed(t.op.data).msgType == '1'
  }

  datatype Kind = Sent | Arrived | Answered | Invalid | Refused

  predicate IsOf(kind: Kind, t: Timed) {
    match kind
    case Sent => !t.op.Receive?
    case Arrived => t.op.Receive?
    case Answered => IsAnswered(t)
    case Invalid => IsInvalid(t)
    case Refused => IsRefusal(t)
  }

  /** How many operations of a run are of some kind. */
  function Count(ops: seq<Timed>, kind: Kind): nat {
    if ops == [] then 0 else Bit(IsOf(kind, ops[0])) + Count(ops[1..], kind)
  }

  /** What the status becomes: what was last sent or received that changes it. */
  function NextStatus(status: Status, t: Timed): Status {
    match t.op
    case SendLogon => LogonSent
    case SendLogout(_) => LogoutSent
    case Receive(data) =>
      if Parsed(data).msgType == 'A' then Active
      else if Parsed(data).msgType == '5' then Disconnected else status
    case _ => status
  }

  function LastStatus(status: Status, ops: seq<Timed>): Status
    decreases |ops|
  {
    if ops == [] then status else LastStatus(NextStatus(status, ops[0]), ops[1..])
  }

  lemma StepCounts(c: Config, s: Session, t: Timed)
    ensures var s' := Performed(c, s, t.op, t.time);
            && s'.sentCount == s.sentCount + Bit(!t.op.Receive?) + Bit(IsAnswered(t))
            && s'.recvCount == s.recvCount + Bit(t.op.Receive?)
            && s'.errorCount == s.errorCount + Bit(IsInvalid(t)) + Bit(IsRefusal(t))
            && s'.status == NextStatus(s.status, t)
  {
    hide Parsed, Message, FieldsOf, GetString;
  }

  /** Over any run: every send and every answered test request is counted as sent, every receive as
      received, and an error for every message that was not valid and for every refusal; and the
      status is that of the last logon or logout either way. */
  lemma {:induction false} RunCounts(c: Config, s: Session, ops: seq<Timed>)
    ensures var s' := PerformAll(c, s, ops);
            && s'.sentCount == s.sentCount + Count(ops, Kind.Sent) + Count(ops, Answered)
            && s'.recvCount == s.recvCount + Count(ops, Arrived)
            && s'.errorCount == s.errorCount + Count(ops, Invalid) + Count(ops, Refused)
            && s'.status == LastStatus(s.status, ops)
    decreases |ops|
  {
    hide Performed, IsInvalid, IsRefusal, IsAnswered, NextStatus;
    if ops != [] {
      StepCounts(c, s, ops[0]);
      RunCounts(c, Performed(c, s, ops[0].op, ops[0].time), ops[1..]);
    }
  }
}
