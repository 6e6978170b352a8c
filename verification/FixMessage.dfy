/** The FIX 4.4 message builder and parser: the parser reads back exactly the fields that the
    builder wrote, and accepts such fields with a trailer exactly when its checksum is right. */
module FixMessage {
  import opened ExchangeTypes
  import opened FixText

  const BEGIN_STRING := 8
  const BODY_LENGTH := 9
  const CHECK_SUM := 10
  const MSG_SEQ_NUM := 34
  const MSG_TYPE := 35
  const SENDER_COMP_ID := 49
  const SENDING_TIME := 52
  const TARGET_COMP_ID := 56
  const FIX_VERSION := "FIX.4.4"
  const MAX_TAGS := 64

  datatype Field = Field(tag: int, value: string)

  // ---- What the builder writes ------------------------------------------------------

  function FieldText(f: Field): string {
    IntText(f.tag) + "=" + CText(f.value) + [SOH]
  }

  function TextOf(fields: seq<Field>): string {
    if fields == [] then "" else FieldText(fields[0]) + TextOf(fields[1..])
  }

  /** The fields that stand between the body length and the caller's own. */
  function Header(sender: string, target: string, msgType: char, seqNum: int, time: string): seq<Field> {
    [Field(MSG_TYPE, [msgType]), Field(SENDER_COMP_ID, sender), Field(TARGET_COMP_ID, target),
     Field(MSG_SEQ_NUM, IntText(seqNum)), Field(SENDING_TIME, time)]
  }

  /** Version and length go in front of a body. */
  function Framed(body: seq<Field>): seq<Field> {
    [Field(BEGIN_STRING, FIX_VERSION), Field(BODY_LENGTH, IntText(|TextOf(body)|))] + body
  }

  function Trailer(checksum: nat): string
    requires checksum < 1000
  {
    "10=" + ThreeDigits(checksum) + [SOH]
  }

  /** A finished message: the framed fields and the checksum of everything before it. */
  function Message(sender: string, target: string, msgType: char, seqNum: int, time: string,
      fields: seq<Field>): string
  {
    var text := TextOf(Framed(Header(sender, target, msgType, seqNum, time) + fields));
    text + Trailer(ByteSum(text) % 256)
  }

  // ---- What the parser reads ----------------------------------------------------------

  /** The state of the parser's cursor loop. */
  datatype Scanned = Scanned(tags: seq<Field>, running: int, expected: int)

  function Take(s: Scanned, tag: int, value: string, text: string): Scanned {
    var tags := s.tags + [Field(tag, value)];
    if tag == CHECK_SUM then s.(tags := tags, expected := LooseNumber(value))
    else s.(tags := tags, running := s.running + ByteSum(text))
  }

  function ValueAt(rest: string, eq: nat, delim: char): string
    requires eq < |rest|
  {
    rest[eq + 1..][..IndexOf(rest[eq + 1..], delim)]
  }

  /** How much of the text a field with its delimiter takes up; the last delimiter may be missing. */
  function Used(rest: string, eq: nat, delim: char): (n: nat)
    requires eq < |rest|
    ensures eq < n <= |rest|
  {
    var n := eq + 1 + |ValueAt(rest, eq, delim)| + 1;
    if n <= |rest| then n else |rest|
  }

  function Scan(rest: string, delim: char, s: Scanned): Scanned
    decreases |rest|
  {
    if rest == "" || |s.tags| >= MAX_TAGS then s
    else
      var eq := IndexOf(rest, '=');
      if eq == |rest| || TagNumber(rest[..eq]) < 0 then s
      else
        var n := Used(rest, eq, delim);
        Scan(rest[n..], delim, Take(s, TagNumber(rest[..eq]), ValueAt(rest, eq, delim), rest[..n]))
  }

  function FindTag(tags: seq<Field>, tag: int): Option<string> {
    if tags == [] then None
    else if tags[0].tag == tag then Some(tags[0].value)
    else FindTag(tags[1..], tag)
  }

  function GetChar(tags: seq<Field>, tag: int): char {
    match FindTag(tags, tag)
    case None => NUL
    case Some(value) => if value == "" then NUL else value[0]
  }

  function GetInt(tags: seq<Field>, tag: int): int {
    match FindTag(tags, tag)
    case None => 0
    case Some(value) => AsInt(value, 0)
  }

  function GetString(tags: seq<Field>, tag: int): string {
    match FindTag(tags, tag)
    case None => ""
    case Some(value) => value
  }

  datatype ParsedFixMessage = ParsedFixMessage(tags: seq<Field>, valid: bool, error: string, msgType: char, seqNum: int)

  function Verdict(s: Scanned): string {
    if s.expected >= 0 && s.running % 256 != s.expected then "Checksum mismatch"
    else if FindTag(s.tags, BEGIN_STRING).None? then "Missing BeginString (tag 8)"
    else if GetChar(s.tags, MSG_TYPE) == NUL then "Missing MsgType (tag 35)"
    else ""
  }

  function Finish(s: Scanned): ParsedFixMessage {
    ParsedFixMessage(s.tags, Verdict(s) == "", Verdict(s), GetChar(s.tags, MSG_TYPE), GetInt(s.tags, MSG_SEQ_NUM))
  }

  /** SOH, or a pipe when the text shows pipes instead. */
  function Delimiter(data: string): char {
    if SOH !in data && '|' in data then '|' else SOH
  }

  function Parsed(data: string): ParsedFixMessage {
    if data == "" then ParsedFixMessage([], false, "Empty message", NUL, 0)
    else Finish(Scan(data, Delimiter(data), Scanned([], 0, -1)))
  }

  // ---- Reading back one field ------------------------------------------------------------

  ghost predicate Clean(value: string) {
    SOH !in value && NUL !in value
  }

  /** A field that the standard allows in a message and that is not the checksum. */
  ghost predicate WellFormed(f: Field) {
    f.tag >= 0 && f.tag != CHECK_SUM && Clean(f.value)
  }

  ghost predicate AllWellFormed(fields: seq<Field>) {
    forall k :: 0 <= k < |fields| ==> WellFormed(fields[k])
  }

  /** A field as it stands on the wire. */
  function WireText(digits: string, value: string): string {
    digits + "=" + value + [SOH]
  }

  lemma TagReads(digits: string, value: string, more: string)
    requires TagNumber(digits) >= 0
    ensures var rest := WireText(digits, value) + more;
            var eq := |digits|;
            && IndexOf(rest, '=') == eq && eq < |rest|
            && rest[..eq] == digits && rest[eq + 1..] == value + [SOH] + more
  {
    var rest := WireText(digits, value) + more;
    TagNumbersAreDigits(digits);
    assert rest == digits + ['='] + (value + [SOH] + more);
    IndexOfFirst(digits, '=', value + [SOH] + more);
  }

  /** At the front of a text, a field whose value holds no delimiter reads back as itself. */
  lemma ValueReads(digits: string, value: string, more: string)
    requires TagNumber(digits) >= 0 && SOH !in value
    ensures var rest := WireText(digits, value) + more;
            var eq := |digits|;
            && IndexOf(rest, '=') == eq && eq < |rest| && rest[..eq] == digits
            && ValueAt(rest, eq, SOH) == value
            && Used(rest, eq, SOH) == |WireText(digits, value)|
  {
    TagReads(digits, value, more);
    IndexOfFirst(value, SOH, more);
    assert (value + [SOH] + more)[..|value|] == value;
  }

  /** One turn of the cursor loop takes one field. */
  lemma ScanWire(digits: string, value: string, more: string, s: Scanned)
    requires TagNumber(digits) >= 0 && SOH !in value && |s.tags| < MAX_TAGS
    ensures var text := WireText(digits, value);
            Scan(text + more, SOH, s) == Scan(more, SOH, Take(s, TagNumber(digits), value, text))
  {
    var text := WireText(digits, value);
    var rest := text + more;
    ValueReads(digits, value, more);
    assert rest[..|text|] == text && rest[|text|..] == more;
    assert rest != "";
  }

  lemma ScanOne(tag: nat, value: string, more: string, s: Scanned)
    requires Clean(value) && |s.tags| < MAX_TAGS
    ensures var text := FieldText(Field(tag, value));
            Scan(text + more, SOH, s) == Scan(more, SOH, Take(s, tag, value, text))
  {
    CTextOfClean(value);
    TagNumberOfDigits(tag);
    assert FieldText(Field(tag, value)) == WireText(Digits(tag), value);
    ScanWire(Digits(tag), value, more, s);
  }

  /** The parser's state once it has walked over `fields`. */
  function Walked(s: Scanned, fields: seq<Field>): Scanned {
    s.(tags := s.tags + fields, running := s.running + ByteSum(TextOf(fields)))
  }

  lemma WalkedOn(s: Scanned, fields: seq<Field>)
    requires fields != [] && fields[0].tag != CHECK_SUM
    ensures Walked(Take(s, fields[0].tag, fields[0].value, FieldText(fields[0])), fields[1..]) == Walked(s, fields)
  {
    ByteSumAdds(FieldText(fields[0]), TextOf(fields[1..]));
    hide ByteSum, FieldText, LooseNumber;
    assert s.tags + [fields[0]] + fields[1..] == s.tags + fields;
  }

  lemma TextSplits(fields: seq<Field>, more: string)
    requires fields != []
    ensures TextOf(fields) + more == FieldText(fields[0]) + (TextOf(fields[1..]) + more)
  {
  }

  /** The cursor loop walks over any well-formed fields, collecting them and their bytes. */
  lemma {:induction false} ScanFields(fields: seq<Field>, more: string, s: Scanned)
    requires AllWellFormed(fields) && |s.tags| + |fields| <= MAX_TAGS
    ensures Scan(TextOf(fields) + more, SOH, s) == Scan(more, SOH, Walked(s, fields))
    decreases |fields|
  {
    if fields == [] {
      assert "" + more == more;
      assert Walked(s, fields) == s;
    } else {
      assert WellFormed(fields[0]);
      TextSplits(fields, more);
      ScanOne(fields[0].tag, fields[0].value, TextOf(fields[1..]) + more, s);
      ScanFields(fields[1..], more, Take(s, fields[0].tag, fields[0].value, FieldText(fields[0])));
      WalkedOn(s, fields);
    }
  }

  // ---- Fields and a trailer -----------------------------------------------------------------

  lemma TrailerIsField(checksum: nat)
    requires checksum < 1000
    ensures Clean(ThreeDigits(checksum))
    ensures Trailer(checksum) == FieldText(Field(CHECK_SUM, ThreeDigits(checksum)))
  {
    CTextOfClean(ThreeDigits(checksum));
    assert Digits(10) == Digits(1) + [DigitOf(0)];
    assert Digits(10) == "10";
  }

  lemma ScanWithTrailer(fields: seq<Field>, checksum: nat)
    requires AllWellFormed(fields) && |fields| < MAX_TAGS && checksum < 1000
    ensures Scan(TextOf(fields) + Trailer(checksum), SOH, Scanned([], 0, -1))
            == Scanned(fields + [Field(CHECK_SUM, ThreeDigits(checksum))], ByteSum(TextOf(fields)), checksum)
  {
    var s := Scanned(fields, ByteSum(TextOf(fields)), -1);
    ScanFields(fields, Trailer(checksum), Scanned([], 0, -1));
    assert Walked(Scanned([], 0, -1), fields) == s;
    TrailerIsField(checksum);
    ScanOne(CHECK_SUM, ThreeDigits(checksum), "", s);
    assert Trailer(checksum) + "" == Trailer(checksum);
    LooseOfThree(checksum);
  }

  /** Fields followed by a trailer read back as those fields and the checksum; the message is accepted
      exactly when the checksum is that of the bytes before it and the two required tags are there. */
  lemma AcceptedExactlyWhenSound(fields: seq<Field>, checksum: nat)
    requires AllWellFormed(fields) && |fields| < MAX_TAGS && checksum < 1000
    ensures var p := Parsed(TextOf(fields) + Trailer(checksum));
            && p.tags == fields + [Field(CHECK_SUM, ThreeDigits(checksum))]
            && p.msgType == GetChar(p.tags, MSG_TYPE) && p.seqNum == GetInt(p.tags, MSG_SEQ_NUM)
            && (p.valid <==> checksum == ByteSum(TextOf(fields)) % 256
                             && FindTag(fields, BEGIN_STRING).Some? && GetChar(fields, MSG_TYPE) != NUL)
            && p.error == (if checksum != ByteSum(TextOf(fields)) % 256 then "Checksum mismatch"
                           else if FindTag(fields, BEGIN_STRING).None? then "Missing BeginString (tag 8)"
                           else if GetChar(fields, MSG_TYPE) == NUL then "Missing MsgType (tag 35)" else "")
  {
    var data := TextOf(fields) + Trailer(checksum);
    var last := Field(CHECK_SUM, ThreeDigits(checksum));
    assert data[|data| - 1] == SOH;
    ScanWithTrailer(fields, checksum);
    FindInFront(fields, last, BEGIN_STRING);
    FindInFront(fields, last, MSG_TYPE);
  }

  lemma {:induction false} FindInFront(fields: seq<Field>, last: Field, tag: int)
    requires last.tag != tag
    ensures FindTag(fields + [last], tag) == FindTag(fields, tag)
    decreases |fields|
  {
    if fields == [] {
      assert ([] + [last])[1..] == [];
    } else {
      assert (fields + [last])[1..] == fields[1..] + [last];
      FindInFront(fields[1..], last, tag);
    }
  }

  lemma DigitsAreClean(n: int)
    ensures Clean(IntText(n))
  {
    DigitsAreDigits(if n < 0 then -n else n);
  }

  // ---- What is printed of the fields ---------------------------------------------------------

  /** The fields as they are printed: each value up to its first NUL. */
  function Printed(fields: seq<Field>): (printed: seq<Field>)
    ensures |printed| == |fields|
    ensures forall k :: 0 <= k < |fields| ==> printed[k] == Field(fields[k].tag, CText(fields[k].value))
  {
    seq(|fields|, k requires 0 <= k < |fields| => Field(fields[k].tag, CText(fields[k].value)))
  }

  lemma {:induction false} TextOfPrinted(fields: seq<Field>)
    ensures TextOf(Printed(fields)) == TextOf(fields)
  {
    if fields != [] {
      CTextIsPrinted(fields[0].value);
      assert Printed(fields)[1..] == Printed(fields[1..]);
      TextOfPrinted(fields[1..]);
    }
  }

  /** What is printed of a value holds no delimiter. */
  predicate Printable(value: string) {
    SOH !in CText(value)
  }

  /** What the caller of the builder has to hand over. */
  ghost predicate Sendable(sender: string, target: string, msgType: char, time: string, fields: seq<Field>) {
    && Printable(sender) && Printable(target) && Clean([msgType]) && Printable(time)
    && AllWellFormed(Printed(fields))
  }

  lemma CleanIsPrinted(value: string)
    requires Clean(value)
    ensures CText(value) == value && Printable(value)
  {
    CTextOfClean(value);
  }

  /** What the builder prints in front of the caller's fields. */
  function Front(sender: string, target: string, msgType: char, seqNum: int, time: string, length: nat): seq<Field> {
    [Field(BEGIN_STRING, FIX_VERSION), Field(BODY_LENGTH, IntText(length)), Field(MSG_TYPE, [msgType]),
     Field(SENDER_COMP_ID, CText(sender)), Field(TARGET_COMP_ID, CText(target)),
     Field(MSG_SEQ_NUM, IntText(seqNum)), Field(SENDING_TIME, CText(time))]
  }

  lemma PrintedOwn(sender: string, target: string, msgType: char, seqNum: int, time: string, length: nat)
    requires Clean([msgType])
    ensures Printed([Field(BEGIN_STRING, FIX_VERSION), Field(BODY_LENGTH, IntText(length))]
                    + Header(sender, target, msgType, seqNum, time))
         == Front(sender, target, msgType, seqNum, time, length)
  {
    DigitsAreClean(seqNum);
    DigitsAreClean(length);
    assert Clean(FIX_VERSION);
    CleanIsPrinted(IntText(seqNum));
    CleanIsPrinted(IntText(length));
    CleanIsPrinted([msgType]);
    CleanIsPrinted(FIX_VERSION);
    hide IntText, CText, Clean;
  }

  lemma PrintedAdds(a: seq<Field>, b: seq<Field>)
    ensures Printed(a + b) == Printed(a) + Printed(b)
  {
    hide CText;
  }

  lemma PrintedFront(sender: string, target: string, msgType: char, seqNum: int, time: string, fields: seq<Field>)
    requires Clean([msgType])
    ensures var body := Header(sender, target, msgType, seqNum, time) + fields;
            Printed(Framed(body)) == Front(sender, target, msgType, seqNum, time, |TextOf(body)|) + Printed(fields)
  {
    hide TextOf, IntText, Printed, Front, Header;
    var header := Header(sender, target, msgType, seqNum, time);
    var length := |TextOf(header + fields)|;
    var own := [Field(BEGIN_STRING, FIX_VERSION), Field(BODY_LENGTH, IntText(length))];
    PrintedOwn(sender, target, msgType, seqNum, time, length);
    PrintedAdds(own + header, fields);
    assert own + header + fields == own + (header + fields);
  }

  lemma FramedIsWellFormed(sender: string, target: string, msgType: char, seqNum: int, time: string, fields: seq<Field>)
    requires Sendable(sender, target, msgType, time, fields)
    ensures AllWellFormed(Printed(Framed(Header(sender, target, msgType, seqNum, time) + fields)))
  {
    var body := Header(sender, target, msgType, seqNum, time) + fields;
    DigitsAreClean(seqNum);
    DigitsAreClean(|TextOf(body)|);
    CTextIsPrinted(sender);
    CTextIsPrinted(target);
    CTextIsPrinted(time);
    assert Clean(FIX_VERSION);
    PrintedFront(sender, target, msgType, seqNum, time, fields);
    forall k | 0 <= k < |Framed(body)|
      ensures WellFormed(Printed(Framed(body))[k])
    {
      if k >= 7 {
        assert Printed(Framed(body))[k] == Printed(fields)[k - 7];
      }
    }
  }

  // ---- The round trip ------------------------------------------------------------------------

  /** The parser keeps the first tags, as many as its table holds. */
  function Kept(tags: seq<Field>): seq<Field> {
    if |tags| <= 64 then tags else tags[..64]
  }

  lemma ScanStopsFull(more: string, s: Scanned)
    requires |s.tags| >= MAX_TAGS
    ensures Scan(more, SOH, s) == s
  {
  }

  lemma TextFrom(fields: seq<Field>, n: nat, more: string)
    requires n <= |fields|
    ensures TextOf(fields) + more == TextOf(fields[..n]) + (TextOf(fields[n..]) + more)
  {
    hide TextOf;
    assert fields == fields[..n] + fields[n..];
    TextAdds(fields[..n], fields[n..]);
  }

  lemma ScanFull(fields: seq<Field>, n: nat, more: string)
    requires AllWellFormed(fields) && n == MAX_TAGS <= |fields|
    ensures Scan(TextOf(fields) + more, SOH, Scanned([], 0, -1))
         == Scanned(fields[..n], ByteSum(TextOf(fields[..n])), -1)
  {
    assert AllWellFormed(fields[..n]);
    hide TextOf, Scan, ByteSum, AllWellFormed;
    TextFrom(fields, n, more);
    var rest := TextOf(fields[n..]) + more;
    ScanFields(fields[..n], rest, Scanned([], 0, -1));
    assert [] + fields[..n] == fields[..n];
    ScanStopsFull(rest, Walked(Scanned([], 0, -1), fields[..n]));
  }

  /** Any number of well-formed fields followed by their checksum is read as far as the table goes,
      and accepted exactly when the two required tags are among what was read. */
  lemma SummedFieldsParse(fields: seq<Field>)
    requires AllWellFormed(fields)
    ensures var checksum := ByteSum(TextOf(fields)) % 256;
            var p := Parsed(TextOf(fields) + Trailer(checksum));
            && p.tags == Kept(fields + [Field(CHECK_SUM, ThreeDigits(checksum))])
            && p.msgType == GetChar(p.tags, MSG_TYPE) && p.seqNum == GetInt(p.tags, MSG_SEQ_NUM)
            && (p.valid <==> p.error == "")
            && (p.valid <==> FindTag(p.tags, BEGIN_STRING).Some? && GetChar(p.tags, MSG_TYPE) != NUL)
  {
    hide TextOf, Scan, FindTag, GetChar, GetInt, ThreeDigits;
    var checksum := ByteSum(TextOf(fields)) % 256;
    var data := TextOf(fields) + Trailer(checksum);
    assert data[|data| - 1] == SOH;
    if |fields| < MAX_TAGS {
      ScanWithTrailer(fields, checksum);
    } else {
      ScanFull(fields, MAX_TAGS, Trailer(checksum));
    }
  }

  /** The first field of a tag is the one that is found. */
  lemma FindAt(tags: seq<Field>, n: nat, tag: int)
    requires n < |tags| && tags[n].tag == tag && forall k :: 0 <= k < n ==> tags[k].tag != tag
    ensures FindTag(tags, tag) == Some(tags[n].value)
  {
    SkipFront(tags, n, tag);
    assert tags[n..][0] == tags[n];
  }

  lemma {:induction false} SkipFront(tags: seq<Field>, n: nat, tag: int)
    requires n <= |tags| && forall k :: 0 <= k < n ==> tags[k].tag != tag
    ensures FindTag(tags, tag) == FindTag(tags[n..], tag)
    decreases n
  {
    if n > 0 {
      SkipFront(tags[1..], n - 1, tag);
      assert tags[1..][n - 1..] == tags[n..];
    } else {
      assert tags[0..] == tags;
    }
  }

  lemma FindFront(sender: string, target: string, msgType: char, seqNum: int, time: string, length: nat,
      more: seq<Field>)
    ensures var tags := Kept(Front(sender, target, msgType, seqNum, time, length) + more);
            && FindTag(tags, BEGIN_STRING) == Some(FIX_VERSION)
            && FindTag(tags, BODY_LENGTH) == Some(IntText(length))
            && FindTag(tags, MSG_TYPE) == Some([msgType])
            && FindTag(tags, MSG_SEQ_NUM) == Some(IntText(seqNum))
  {
    var tags := Kept(Front(sender, target, msgType, seqNum, time, length) + more);
    assert forall k :: 0 <= k < 7 ==> tags[k] == Front(sender, target, msgType, seqNum, time, length)[k];
    hide FindTag, Kept, IntText, CText;
    FindAt(tags, 0, BEGIN_STRING);
    FindAt(tags, 1, BODY_LENGTH);
    FindAt(tags, 2, MSG_TYPE);
    FindAt(tags, 5, MSG_SEQ_NUM);
  }

  /** Version, length, type and sequence number are found where the builder put them. */
  lemma FindFramed(sender: string, target: string, msgType: char, seqNum: int, time: string, fields: seq<Field>,
      last: Field)
    requires Clean([msgType])
    ensures var body := Header(sender, target, msgType, seqNum, time) + fields;
            var tags := Kept(Printed(Framed(body)) + [last]);
            && FindTag(tags, BEGIN_STRING) == Some(FIX_VERSION)
            && FindTag(tags, BODY_LENGTH) == Some(IntText(|TextOf(body)|))
            && FindTag(tags, MSG_TYPE) == Some([msgType])
            && FindTag(tags, MSG_SEQ_NUM) == Some(IntText(seqNum))
  {
    hide TextOf, Printed, Header, FindTag, Front, Kept, IntText, Clean;
    var body := Header(sender, target, msgType, seqNum, time) + fields;
    PrintedFront(sender, target, msgType, seqNum, time, fields);
    FindFront(sender, target, msgType, seqNum, time, |TextOf(body)|, Printed(fields) + [last]);
    var front := Front(sender, target, msgType, seqNum, time, |TextOf(body)|);
    assert front + (Printed(fields) + [last]) == front + Printed(fields) + [last];
  }

  /** A built message parses valid, with what is printed of the header fields, of the caller's fields in
      order and the checksum, up to the 64 tags that the parser's table holds, and with the type and
      sequence number it was built with. */
  lemma BuildThenParse(sender: string, target: string, msgType: char, seqNum: int, time: string, fields: seq<Field>)
    requires Sendable(sender, target, msgType, time, fields)
    ensures var m := Message(sender, target, msgType, seqNum, time, fields);
            var framed := Framed(Header(sender, target, msgType, seqNum, time) + fields);
            var p := Parsed(m);
            && p.valid && p.error == ""
            && p.tags == Kept(Printed(framed) + [Field(CHECK_SUM, ThreeDigits(ByteSum(TextOf(framed)) % 256))])
            && p.msgType == msgType && p.seqNum == seqNum
  {
    var framed := Framed(Header(sender, target, msgType, seqNum, time) + fields);
    TextOfPrinted(framed);
    FramedIsWellFormed(sender, target, msgType, seqNum, time, fields);
    AsIntOfText(seqNum, 0);
    hide TextOf, Parsed, Framed, Printed, Header, AllWellFormed, FindTag, Kept, ByteSum, ThreeDigits, AsInt;
    SummedFieldsParse(Printed(framed));
    FindFramed(sender, target, msgType, seqNum, time, fields,
               Field(CHECK_SUM, ThreeDigits(ByteSum(TextOf(framed)) % 256)));
  }

  // ---- Data integrity -------------------------------------------------------------------------

  lemma {:induction false} TextAdds(a: seq<Field>, b: seq<Field>)
    ensures TextOf(a + b) == TextOf(a) + TextOf(b)
    decreases |a|
  {
    if a == [] {
      assert a + b == b;
    } else {
      assert (a + b)[1..] == a[1..] + b;
      TextAdds(a[1..], b);
    }
  }

  function AfterSoh(s: string): nat {
    IndexOf(s, SOH) + 1
  }

  const TRAILER_LENGTH := 7

  /** Two fields at the front of a text, found again by their delimiters. */
  lemma TwoFields(a: string, b: string, more: string)
    requires a != "" && a[|a| - 1] == SOH && SOH !in a[..|a| - 1]
    requires b != "" && b[|b| - 1] == SOH && SOH !in b[..|b| - 1]
    ensures var m := a + (b + more);
            AfterSoh(m) == |a| && AfterSoh(m[|a|..]) == |b|
  {
    var m := a + (b + more);
    assert a == a[..|a| - 1] + [SOH] && b == b[..|b| - 1] + [SOH];
    assert m == a[..|a| - 1] + [SOH] + (b + more);
    IndexOfFirst(a[..|a| - 1], SOH, b + more);
    assert m[|a|..] == b[..|b| - 1] + [SOH] + more;
    IndexOfFirst(b[..|b| - 1], SOH, more);
  }

  lemma FramedText(body: seq<Field>)
    ensures TextOf(Framed(body)) == FieldText(Field(BEGIN_STRING, FIX_VERSION))
                                    + (FieldText(Field(BODY_LENGTH, IntText(|TextOf(body)|))) + TextOf(body))
  {
    var framed := Framed(body);
    assert framed[1..][1..] == body;
    assert TextOf(framed) == FieldText(framed[0]) + TextOf(framed[1..]);
    assert TextOf(framed[1..]) == FieldText(framed[1..][0]) + TextOf(framed[1..][1..]);
  }

  lemma HeadShape(text: string, a: string, b: string, body: string, more: string)
    requires a != "" && a[|a| - 1] == SOH && SOH !in a[..|a| - 1]
    requires b != "" && b[|b| - 1] == SOH && SOH !in b[..|b| - 1]
    requires text == a + (b + body)
    ensures var m := text + more;
            var first := AfterSoh(m);
            first <= |m| && first + AfterSoh(m[first..]) == |m| - |more| - |body|
  {
    TwoFields(a, b, body + more);
    assert text + more == a + (b + (body + more));
  }

  lemma HeadFields(length: nat)
    ensures var a, b := FieldText(Field(BEGIN_STRING, FIX_VERSION)), FieldText(Field(BODY_LENGTH, IntText(length)));
            && a != "" && a[|a| - 1] == SOH && SOH !in a[..|a| - 1]
            && b != "" && b[|b| - 1] == SOH && SOH !in b[..|b| - 1]
  {
    assert Clean(FIX_VERSION);
    DigitsAreClean(length);
    OneSoh(BEGIN_STRING, FIX_VERSION);
    OneSoh(BODY_LENGTH, IntText(length));
  }

  lemma HeadOfMessage(body: seq<Field>, more: string)
    ensures var m := TextOf(Framed(body)) + more;
            var first := AfterSoh(m);
            first <= |m| && first + AfterSoh(m[first..]) == |m| - |more| - |TextOf(body)|
  {
    HeadFields(|TextOf(body)|);
    hide TextOf, FieldText, Framed, AfterSoh;
    FramedText(body);
    HeadShape(TextOf(Framed(body)), FieldText(Field(BEGIN_STRING, FIX_VERSION)),
              FieldText(Field(BODY_LENGTH, IntText(|TextOf(body)|))), TextOf(body), more);
  }

  lemma LengthReads(sender: string, target: string, msgType: char, seqNum: int, time: string, fields: seq<Field>)
    requires Sendable(sender, target, msgType, time, fields)
    ensures var tags := Parsed(Message(sender, target, msgType, seqNum, time, fields)).tags;
            GetInt(tags, BODY_LENGTH) == |TextOf(Header(sender, target, msgType, seqNum, time) + fields)|
  {
    var body := Header(sender, target, msgType, seqNum, time) + fields;
    var last := Field(CHECK_SUM, ThreeDigits(ByteSum(TextOf(Framed(body))) % 256));
    BuildThenParse(sender, target, msgType, seqNum, time, fields);
    AsIntOfText(|TextOf(body)|, 0);
    hide TextOf, Framed, Header, Parsed, Printed, FindTag, AsInt, IntText, Kept, Message, Sendable, ThreeDigits;
    FindFramed(sender, target, msgType, seqNum, time, fields, last);
  }

  lemma ChecksumReads(sender: string, target: string, msgType: char, seqNum: int, time: string, fields: seq<Field>)
    requires Sendable(sender, target, msgType, time, fields) && |fields| <= MAX_TAGS - 8
    ensures var tags := Parsed(Message(sender, target, msgType, seqNum, time, fields)).tags;
            var text := TextOf(Framed(Header(sender, target, msgType, seqNum, time) + fields));
            && tags != [] && tags[|tags| - 1].tag == CHECK_SUM
            && LooseNumber(tags[|tags| - 1].value) == ByteSum(text) % 256
  {
    var framed := Framed(Header(sender, target, msgType, seqNum, time) + fields);
    assert |framed| == 7 + |fields|;
    BuildThenParse(sender, target, msgType, seqNum, time, fields);
    LooseOfThree(ByteSum(TextOf(framed)) % 256);
    hide TextOf, Framed, Header, Parsed, Printed, LooseNumber, ThreeDigits, Message, Sendable;
  }

  /** The body length counts the bytes from just after its own field up to the checksum field, and the
      checksum, if the parser's table has room for it, is the sum of all bytes before it modulo 256. */
  lemma LengthAndChecksumAreRight(sender: string, target: string, msgType: char, seqNum: int, time: string,
      fields: seq<Field>)
    requires Sendable(sender, target, msgType, time, fields)
    ensures var m := Message(sender, target, msgType, seqNum, time, fields);
            var tags := Parsed(m).tags;
            var first := AfterSoh(m);
            && TRAILER_LENGTH <= |m| && first <= |m|
            && first + AfterSoh(m[first..]) + GetInt(tags, BODY_LENGTH) == |m| - TRAILER_LENGTH
            && (|fields| <= MAX_TAGS - 8 ==>
                  && tags != [] && tags[|tags| - 1].tag == CHECK_SUM
                  && LooseNumber(tags[|tags| - 1].value) == ByteSum(m[..|m| - TRAILER_LENGTH]) % 256)
  {
    LengthReads(sender, target, msgType, seqNum, time, fields);
    if |fields| <= MAX_TAGS - 8 {
      ChecksumReads(sender, target, msgType, seqNum, time, fields);
    }
    hide TextOf, Framed, Header, AfterSoh, Parsed, LooseNumber, ByteSum, Sendable, FindTag, AsInt, ThreeDigits;
    var body := Header(sender, target, msgType, seqNum, time) + fields;
    var text, m := TextOf(Framed(body)), Message(sender, target, msgType, seqNum, time, fields);
    assert m == text + Trailer(ByteSum(text) % 256);
    assert m[..|m| - TRAILER_LENGTH] == text;
    HeadOfMessage(body, Trailer(ByteSum(text) % 256));
  }

  /** A field has one SOH, at its end. */
  lemma OneSoh(tag: nat, value: string)
    requires Clean(value)
    ensures var text := FieldText(Field(tag, value));
            |text| > 0 && text[|text| - 1] == SOH && SOH !in text[..|text| - 1]
  {
    var text := FieldText(Field(tag, value));
    CTextOfClean(value);
    DigitsAreDigits(tag);
    assert text[..|text| - 1] == Digits(tag) + "=" + value;
  }

  // ---- Text that shows pipes --------------------------------------------------------------------

  /** A text as it is displayed: pipes in the place of delimiters. */
  function Displayed(text: string): (shown: string)
    ensures |shown| == |text|
    ensures forall k :: 0 <= k < |text| ==> shown[k] == if text[k] == '\U{0001}' then '|' else text[k]
  {
    seq(|text|, k requires 0 <= k < |text| => if text[k] == '\U{0001}' then '|' else text[k])
  }

  lemma DisplayedParts(text: string, n: nat)
    requires n <= |text|
    ensures Displayed(text[..n]) == Displayed(text)[..n] && Displayed(text[n..]) == Displayed(text)[n..]
  {
  }

  lemma {:induction false} DisplayedTagNumber(text: string)
    ensures TagNumber(Displayed(text)) == TagNumber(text)
    decreases |text|
  {
    if text != "" {
      DisplayedParts(text, |text| - 1);
      DisplayedTagNumber(text[..|text| - 1]);
    }
  }

  lemma DisplayedIndex(text: string)
    requires '|' !in text
    ensures IndexOf(Displayed(text), '|') == IndexOf(text, SOH)
    ensures IndexOf(Displayed(text), '=') == IndexOf(text, '=')
    ensures Displayed(text)[..IndexOf(text, SOH)] == text[..IndexOf(text, SOH)]
  {
  }

  lemma DisplayedField(rest: string, eq: nat)
    requires '|' !in rest && eq == IndexOf(rest, '=') && eq < |rest|
    ensures var shown := Displayed(rest);
            && IndexOf(shown, '=') == eq
            && ValueAt(shown, eq, '|') == ValueAt(rest, eq, SOH)
            && Used(shown, eq, '|') == Used(rest, eq, SOH)
            && TagNumber(shown[..eq]) == TagNumber(rest[..eq])
  {
    DisplayedIndex(rest);
    DisplayedParts(rest, eq);
    DisplayedTagNumber(rest[..eq]);
    DisplayedParts(rest, eq + 1);
    DisplayedIndex(rest[eq + 1..]);
    hide IndexOf, Displayed, TagNumber;
  }

  lemma {:induction false} DisplayedScan(rest: string, s: Scanned, s': Scanned)
    requires '|' !in rest && s'.tags == s.tags
    ensures Scan(Displayed(rest), '|', s').tags == Scan(rest, SOH, s).tags
    decreases |rest|
  {
    if rest != "" && |s.tags| < MAX_TAGS {
      var eq, shown := IndexOf(rest, '='), Displayed(rest);
      if eq < |rest| {
        DisplayedField(rest, eq);
        if TagNumber(rest[..eq]) >= 0 {
          var n, value := Used(rest, eq, SOH), ValueAt(rest, eq, SOH);
          DisplayedParts(rest, n);
          DisplayedScan(rest[n..], Take(s, TagNumber(rest[..eq]), value, rest[..n]),
              Take(s', TagNumber(rest[..eq]), value, shown[..n]));
        }
      } else {
        assert '=' !in shown;
        assert IndexOf(shown, '=') == |shown|;
      }
    }
  }

  /** Any bytes with delimiters and without pipes read back the same fields from their display. */
  lemma DisplayReads(data: string)
    requires SOH in data && '|' !in data
    ensures Parsed(Displayed(data)).tags == Parsed(data).tags
    ensures Parsed(Displayed(data)).msgType == Parsed(data).msgType
    ensures Parsed(Displayed(data)).seqNum == Parsed(data).seqNum
  {
    var k :| 0 <= k < |data| && data[k] == SOH;
    assert Displayed(data)[k] == '|';
    hide Scan, FindTag, Verdict;
    DisplayedScan(data, Scanned([], 0, -1), Scanned([], 0, -1));
  }
}
