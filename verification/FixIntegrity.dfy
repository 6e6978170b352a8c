/** How far the checksum protects a message. The parser checks it only when it has read one, and
    reads its digits past anything else that stands there, so there are single bytes whose loss goes
    unnoticed. This module says which: for every byte of a message and every byte in its place. */
module FixIntegrity {
  import opened FixText
  import opened FixMessage

  // ---- Any bytes at all ---------------------------------------------------------------

  /** The tags without which no message is accepted. */
  predicate Required(tags: seq<Field>) {
    FindTag(tags, BEGIN_STRING).Some? && GetChar(tags, MSG_TYPE) != NUL
  }

  predicate HasChecksum(tags: seq<Field>) {
    exists k :: 0 <= k < |tags| && tags[k].tag == CHECK_SUM
  }

  /** A checksum is expected exactly when a checksum field has been read. */
  lemma {:induction false} ExpectedOnceRead(rest: string, delim: char, s: Scanned)
    requires s.expected >= 0 <==> HasChecksum(s.tags)
    ensures var r := Scan(rest, delim, s); r.expected >= 0 <==> HasChecksum(r.tags)
    decreases |rest|
  {
    if rest != "" && |s.tags| < MAX_TAGS {
      var eq := IndexOf(rest, '=');
      if eq < |rest| && TagNumber(rest[..eq]) >= 0 {
        var n := Used(rest, eq, delim);
        var tag, value := TagNumber(rest[..eq]), ValueAt(rest, eq, delim);
        TakeExpects(s, tag, value, rest[..n]);
        ExpectedOnceRead(rest[n..], delim, Take(s, tag, value, rest[..n]));
      }
    }
  }

  lemma TakeExpects(s: Scanned, tag: int, value: string, text: string)
    requires s.expected >= 0 <==> HasChecksum(s.tags)
    ensures var t := Take(s, tag, value, text); t.expected >= 0 <==> HasChecksum(t.tags)
  {
    var t := Take(s, tag, value, text);
    assert t.tags[|s.tags|].tag == tag;
    if k :| 0 <= k < |s.tags| && s.tags[k].tag == CHECK_SUM {
      assert t.tags[k].tag == CHECK_SUM;
    }
    assert forall k :: 0 <= k < |s.tags| ==> t.tags[k] == s.tags[k];
  }

  /** Whatever the bytes: without a checksum field among the tags that were read, a
      message is accepted exactly when version and type are there, and nothing is summed. */
  lemma UncheckedExactlyWithoutTrailer(data: string)
    requires !HasChecksum(Parsed(data).tags)
    ensures Parsed(data).valid <==> Required(Parsed(data).tags)
  {
    if data != "" {
      ExpectedOnceRead(data, Delimiter(data), Scanned([], 0, -1));
    }
  }

  /** The checksum that is expected is that of the last checksum field that was read. */
  function LastChecksum(tags: seq<Field>, otherwise: int): int {
    if tags == [] then otherwise
    else if tags[|tags| - 1].tag == 10 then LooseNumber(tags[|tags| - 1].value)
    else LastChecksum(tags[..|tags| - 1], otherwise)
  }

  lemma {:induction false} ExpectsTheLast(rest: string, delim: char, s: Scanned)
    requires s.expected == LastChecksum(s.tags, -1)
    ensures var r := Scan(rest, delim, s); r.expected == LastChecksum(r.tags, -1)
    decreases |rest|
  {
    if rest != "" && |s.tags| < MAX_TAGS {
      var eq := IndexOf(rest, '=');
      if eq < |rest| && TagNumber(rest[..eq]) >= 0 {
        var n := Used(rest, eq, delim);
        var tag, value := TagNumber(rest[..eq]), ValueAt(rest, eq, delim);
        var t := Take(s, tag, value, rest[..n]);
        assert t.tags[..|t.tags| - 1] == s.tags;
        ExpectsTheLast(rest[n..], delim, t);
      }
    }
  }

  /** Whatever the bytes: a message with checksum fields is valid only if the bytes that were read
      outside them sum to the last of those. */
  lemma ChecksumsAreCompared(data: string)
    requires data != ""
    ensures var s := Scan(data, Delimiter(data), Scanned([], 0, -1));
            && s.tags == Parsed(data).tags
            && (Parsed(data).valid <==>
                  && Required(s.tags)
                  && (HasChecksum(s.tags) ==> s.running % 256 == LastChecksum(s.tags, -1)))
  {
    ExpectsTheLast(data, Delimiter(data), Scanned([], 0, -1));
    ExpectedOnceRead(data, Delimiter(data), Scanned([], 0, -1));
    VerdictOf(Scan(data, Delimiter(data), Scanned([], 0, -1)));
  }

  // ---- One byte of one value ------------------------------------------------------------

  /** A message of these fields and the checksum that belongs to them. */
  function Summed(fields: seq<Field>): string {
    TextOf(fields) + Trailer(ByteSum(TextOf(fields)) % 256)
  }

  /** Where the i-th byte of the k-th value stands in the message. */
  function ByteAt(fields: seq<Field>, k: nat, i: nat): nat
    requires k < |fields|
  {
    |TextOf(fields[..k])| + |IntText(fields[k].tag)| + 1 + i
  }

  /** What stands behind the k-th field. */
  function Behind(fields: seq<Field>, k: nat): string
    requires k < |fields|
  {
    TextOf(fields[k + 1..]) + Trailer(ByteSum(TextOf(fields)) % 256)
  }

  /** The message with one byte of a value replaced, field by field. */
  function Replaced(fields: seq<Field>, k: nat, i: nat, c: char): string
    requires k < |fields| && i < |fields[k].value|
  {
    TextOf(fields[..k]) + (WireText(IntText(fields[k].tag), fields[k].value[i := c]) + Behind(fields, k))
  }

  lemma ReplaceMiddle(a: string, digits: string, v: string, b: string, i: nat, c: char)
    requires i < |v|
    ensures var whole, at := a + (WireText(digits, v) + b), |a| + |digits| + 1 + i;
            && at < |whole| && whole[at] == v[i]
            && whole[at := c] == a + (WireText(digits, v[i := c]) + b)
  {
    var front, back := a + digits + "=", [SOH] + b;
    assert a + (WireText(digits, v) + b) == front + v + back;
    assert a + (WireText(digits, v[i := c]) + b) == front + v[i := c] + back;
    assert (front + v + back)[|front| + i := c] == front + v[i := c] + back;
  }

  lemma TextInThree(fields: seq<Field>, k: nat)
    requires AllWellFormed(fields) && k < |fields|
    ensures TextOf(fields) == TextOf(fields[..k])
                              + (WireText(IntText(fields[k].tag), fields[k].value) + TextOf(fields[k + 1..]))
  {
    assert WellFormed(fields[k]);
    CTextOfClean(fields[k].value);
    assert fields == fields[..k] + fields[k..];
    assert fields[k..][1..] == fields[k + 1..];
    TextAdds(fields[..k], fields[k..]);
  }

  lemma Regroup(a: string, b: string, c: string, d: string)
    ensures a + (b + c) + d == a + (b + (c + d))
  {
  }

  lemma SummedInThree(fields: seq<Field>, k: nat)
    requires AllWellFormed(fields) && k < |fields|
    ensures Summed(fields) == TextOf(fields[..k])
                              + (WireText(IntText(fields[k].tag), fields[k].value) + Behind(fields, k))
  {
    hide TextOf, WireText, Trailer, ByteSum;
    var f := fields[k];
    TextInThree(fields, k);
    Regroup(TextOf(fields[..k]), WireText(IntText(f.tag), f.value), TextOf(fields[k + 1..]),
            Trailer(ByteSum(TextOf(fields)) % 256));
  }

  lemma ReplacedShape(fields: seq<Field>, k: nat, i: nat, c: char)
    requires AllWellFormed(fields) && k < |fields| && i < |fields[k].value|
    ensures var m, at := Summed(fields), ByteAt(fields, k, i);
            at < |m| && m[at] == fields[k].value[i] && m[at := c] == Replaced(fields, k, i, c)
  {
    hide TextOf, WireText, Trailer, ByteSum;
    var f := fields[k];
    SummedInThree(fields, k);
    ReplaceMiddle(TextOf(fields[..k]), IntText(f.tag), f.value, Behind(fields, k), i, c);
  }

  // ---- Behind the replaced byte --------------------------------------------------------

  /** The rest of a message: its last fields, and then the trailer if there is room for one
      more tag. */
  function Ended(s: Scanned, fields: seq<Field>, checksum: nat): Scanned
    requires checksum < 256
  {
    var walked := Walked(s, fields);
    if |walked.tags| >= MAX_TAGS then walked
    else walked.(tags := walked.tags + [Field(CHECK_SUM, ThreeDigits(checksum))], expected := checksum)
  }

  lemma ScanEnd(s: Scanned, fields: seq<Field>, checksum: nat)
    requires AllWellFormed(fields) && |s.tags| + |fields| <= MAX_TAGS && checksum < 256
    ensures Scan(TextOf(fields) + Trailer(checksum), SOH, s) == Ended(s, fields, checksum)
  {
    ScanFields(fields, Trailer(checksum), s);
    if |s.tags| + |fields| < MAX_TAGS {
      TrailerIsField(checksum);
      ScanOne(CHECK_SUM, ThreeDigits(checksum), "", Walked(s, fields));
      assert Trailer(checksum) + "" == Trailer(checksum);
      LooseOfThree(checksum);
    }
  }

  lemma {:induction false} RequiredIgnoresTrailer(tags: seq<Field>, checksum: nat)
    requires checksum < 256
    ensures Required(tags + [Field(CHECK_SUM, ThreeDigits(checksum))]) <==> Required(tags)
  {
    FindInFront(tags, Field(CHECK_SUM, ThreeDigits(checksum)), BEGIN_STRING);
    FindInFront(tags, Field(CHECK_SUM, ThreeDigits(checksum)), MSG_TYPE);
  }

  lemma VerdictOf(s: Scanned)
    ensures Verdict(s) == "" <==> Required(s.tags) && (s.expected >= 0 ==> s.running % 256 == s.expected)
  {
  }

  /** The verdict on such a rest. */
  lemma EndedVerdict(s: Scanned, fields: seq<Field>, checksum: nat)
    requires checksum < 256
    ensures var r := Ended(s, fields, checksum);
            Verdict(r) == "" <==>
              && Required(s.tags + fields)
              && (if |s.tags| + |fields| < MAX_TAGS then (s.running + ByteSum(TextOf(fields))) % 256 == checksum
                  else s.expected >= 0 ==> (s.running + ByteSum(TextOf(fields))) % 256 == s.expected)
  {
    hide TextOf, Verdict, Required, ByteSum, ThreeDigits;
    RequiredIgnoresTrailer(s.tags + fields, checksum);
    VerdictOf(Ended(s, fields, checksum));
  }

  // ---- Another byte than the delimiter --------------------------------------------------

  lemma SumOfThree(front: string, c: char, back: string)
    ensures ByteSum(front + [c] + back) == ByteSum(front) + c as int + ByteSum(back)
  {
    ByteSumAdds(front + [c], back);
    ByteSumAdds(front, [c]);
    assert [c][..0] == "";
  }

  lemma WireSum(digits: string, v: string, i: nat, c: char)
    requires i < |v|
    ensures ByteSum(WireText(digits, v[i := c])) == ByteSum(WireText(digits, v)) - v[i] as int + c as int
  {
    var front, back := digits + "=" + v[..i], v[i + 1..] + [SOH];
    assert WireText(digits, v) == front + [v[i]] + back;
    assert WireText(digits, v[i := c]) == front + [c] + back;
    SumOfThree(front, v[i], back);
    SumOfThree(front, c, back);
  }

  lemma SumInThree(fields: seq<Field>, k: nat)
    requires AllWellFormed(fields) && k < |fields|
    ensures ByteSum(TextOf(fields)) == ByteSum(TextOf(fields[..k]))
              + ByteSum(WireText(IntText(fields[k].tag), fields[k].value)) + ByteSum(TextOf(fields[k + 1..]))
  {
    var f := fields[k];
    TextInThree(fields, k);
    ByteSumAdds(TextOf(fields[..k]), WireText(IntText(f.tag), f.value) + TextOf(fields[k + 1..]));
    ByteSumAdds(WireText(IntText(f.tag), f.value), TextOf(fields[k + 1..]));
  }

  lemma OtherRemainder(n: int, m: int, d: int)
    requires m == n + d && d != 0 && -256 < d < 256
    ensures n % 256 != m % 256
  {
  }

  lemma PartsAreWellFormed(fields: seq<Field>, k: nat)
    requires AllWellFormed(fields) && k < |fields|
    ensures AllWellFormed(fields[..k]) && AllWellFormed(fields[k + 1..]) && WellFormed(fields[k])
    ensures fields[k].tag >= 0 && fields[k].tag != CHECK_SUM
    ensures TagNumber(IntText(fields[k].tag)) == fields[k].tag
  {
    var rest := fields[k + 1..];
    forall j | 0 <= j < |rest| ensures WellFormed(rest[j]) {
      assert rest[j] == fields[k + 1 + j];
    }
    TagNumberOfDigits(fields[k].tag);
  }

  /** The state of the parser behind the k-th field, if that field reads as `value`. */
  function Reached(fields: seq<Field>, k: nat, value: string): Scanned
    requires k < |fields|
  {
    var f := fields[k];
    Take(Walked(Scanned([], 0, -1), fields[..k]), f.tag, value, WireText(IntText(f.tag), value))
  }

  lemma ReachedState(fields: seq<Field>, k: nat, value: string)
    requires AllWellFormed(fields) && |fields| < MAX_TAGS && k < |fields|
    ensures var s := Reached(fields, k, value);
            && s.tags == fields[..k] + [Field(fields[k].tag, value)] && s.expected == -1
            && s.running == ByteSum(TextOf(fields[..k])) + ByteSum(WireText(IntText(fields[k].tag), value))
  {
    assert WellFormed(fields[k]);
    hide TextOf, WireText, ByteSum;
  }

  lemma ScanTo(fields: seq<Field>, k: nat, value: string, more: string)
    requires AllWellFormed(fields) && |fields| < MAX_TAGS && k < |fields| && SOH !in value
    ensures Scan(TextOf(fields[..k]) + (WireText(IntText(fields[k].tag), value) + more), SOH, Scanned([], 0, -1))
         == Scan(more, SOH, Reached(fields, k, value))
  {
    PartsAreWellFormed(fields, k);
    hide Scan, TextOf, WireText, ByteSum, AllWellFormed, TagNumber, Take;
    var text := WireText(IntText(fields[k].tag), value);
    ScanFields(fields[..k], text + more, Scanned([], 0, -1));
    ScanWire(IntText(fields[k].tag), value, more, Walked(Scanned([], 0, -1), fields[..k]));
  }

  lemma OtherByteIsCaught(fields: seq<Field>, k: nat, i: nat, c: char)
    requires AllWellFormed(fields) && |fields| < MAX_TAGS && k < |fields| && i < |fields[k].value|
    requires c != SOH && c != fields[k].value[i] && c as int < 256 && fields[k].value[i] as int < 256
    ensures !Parsed(Replaced(fields, k, i, c)).valid
  {
    hide Scan, TextOf, Trailer, Required;
    var f := fields[k];
    var value := f.value[i := c];
    var checksum := ByteSum(TextOf(fields)) % 256;
    PartsAreWellFormed(fields, k);
    ScanTo(fields, k, value, Behind(fields, k));
    ReachedState(fields, k, value);
    var s := Reached(fields, k, value);
    ScanEnd(s, fields[k + 1..], checksum);
    EndedVerdict(s, fields[k + 1..], checksum);
    SumInThree(fields, k);
    WireSum(IntText(f.tag), f.value, i, c);
    var sum := s.running + ByteSum(TextOf(fields[k + 1..]));
    OtherRemainder(ByteSum(TextOf(fields)), sum, c as int - f.value[i] as int);
    EndsInSoh(fields, k, i, c);
  }

  /** The delimiter at the end of the trailer stays where it is. */
  lemma EndsInSoh(fields: seq<Field>, k: nat, i: nat, c: char)
    requires k < |fields| && i < |fields[k].value|
    ensures var data := Replaced(fields, k, i, c); data != "" && Delimiter(data) == SOH
  {
    hide TextOf, WireText;
    var data := Replaced(fields, k, i, c);
    assert data[|data| - 1] == SOH;
  }

  // ---- The delimiter ----------------------------------------------------------------------

  /** Whether what is left of a split value makes the parser stop: it is read as a tag number
      up to its first '=', or into the next field if it has none. */
  predicate StopsTheParser(left: string) {
    var eq := IndexOf(left, '=');
    eq == |left| || TagNumber(left[..eq]) < 0
  }

  lemma StopsAtOnce(left: string, more: string, s: Scanned)
    requires StopsTheParser(left)
    ensures Scan(left + [SOH] + more, SOH, s) == s
  {
    var rest := left + [SOH] + more;
    var eq, end := IndexOf(left, '='), IndexOf(rest, '=');
    if eq == |left| {
      assert forall j :: 0 <= j < |left| ==> rest[j] == left[j];
      assert rest[|left|] == SOH && end > |left|;
      if end < |rest| {
        assert rest[..end][|left|] == SOH;
        NoTagNumber(rest[..end], |left|);
      }
    } else {
      assert left == left[..eq] + ['='] + left[eq + 1..];
      assert rest == left[..eq] + ['='] + (left[eq + 1..] + [SOH] + more);
      IndexOfFirst(left[..eq], '=', left[eq + 1..] + [SOH] + more);
      assert rest[..eq] == left[..eq];
    }
  }

  /** The field that the parser makes of what is left of a split value. */
  function LeftField(left: string): Field
    requires !StopsTheParser(left)
  {
    var eq := IndexOf(left, '=');
    Field(TagNumber(left[..eq]), left[eq + 1..])
  }

  lemma ReadsLeft(left: string, more: string, s: Scanned)
    requires !StopsTheParser(left) && SOH !in left && |s.tags| < MAX_TAGS
    ensures var f := LeftField(left);
            Scan(left + [SOH] + more, SOH, s) == Scan(more, SOH, Take(s, f.tag, f.value, left + [SOH]))
  {
    var eq := IndexOf(left, '=');
    assert left + [SOH] == WireText(left[..eq], left[eq + 1..]);
    ScanWire(left[..eq], left[eq + 1..], more, s);
  }

  /** When a delimiter in the place of the i-th byte of the k-th value goes unnoticed: the
      parser stops right behind it and never sees the trailer, and version and type come
      before; or what is left of the value reads as a field of its own, and that field is a
      checksum whose bytes sum to nothing with the byte that was lost, or fills the table so
      that the trailer is not read and agrees with what was summed if it is a checksum. */
  predicate Slips(fields: seq<Field>, k: nat, i: nat)
    requires k < |fields| && i < |fields[k].value|
  {
    var f := fields[k];
    var left := f.value[i + 1..];
    var front := fields[..k] + [Field(f.tag, f.value[..i])];
    if StopsTheParser(left) then Required(front)
    else
      && Required(front + [LeftField(left)] + fields[k + 1..])
      && if |fields| < MAX_TAGS - 1
         then LeftField(left).tag == CHECK_SUM && ByteSum(f.value[i..]) % 256 == 0
         else LeftField(left).tag == CHECK_SUM ==>
                (ByteSum(TextOf(fields)) - ByteSum(f.value[i..])) % 256 == LooseNumber(LeftField(left).value)
  }

  lemma SplitText(digits: string, v: string, i: nat, more: string)
    requires i < |v|
    ensures WireText(digits, v[i := SOH]) + more == WireText(digits, v[..i]) + (v[i + 1..] + [SOH] + more)
  {
    assert v[i := SOH] == v[..i] + [SOH] + v[i + 1..];
  }

  lemma SumWithSoh(s: string)
    ensures ByteSum(s + [SOH]) == ByteSum(s) + 1
  {
    ByteSumAdds(s, [SOH]);
    assert [SOH][..0] == "";
  }

  lemma SplitSums(digits: string, v: string, i: nat)
    requires i < |v|
    ensures ByteSum(WireText(digits, v)) == ByteSum(WireText(digits, v[..i])) + ByteSum(v[i..])
    ensures ByteSum(v[i..]) == v[i] as int + ByteSum(v[i + 1..])
    ensures ByteSum(v[i + 1..] + [SOH]) == ByteSum(v[i + 1..]) + 1
  {
    var front := digits + "=" + v[..i];
    assert digits + "=" + v == front + v[i..];
    SumWithSoh(front + v[i..]);
    SumWithSoh(front);
    ByteSumAdds(front, v[i..]);
    assert v[i..] == "" + [v[i]] + v[i + 1..];
    SumOfThree("", v[i], v[i + 1..]);
    SumWithSoh(v[i + 1..]);
  }

  lemma {:induction false} SplitValueParses(fields: seq<Field>, k: nat, i: nat)
    requires AllWellFormed(fields) && |fields| < MAX_TAGS && k < |fields| && i < |fields[k].value|
    requires fields[k].value[i] as int < 256
    ensures Parsed(Replaced(fields, k, i, SOH)).valid <==> Slips(fields, k, i)
    ensures StopsTheParser(fields[k].value[i + 1..]) ==>
              Parsed(Replaced(fields, k, i, SOH)).tags == fields[..k] + [Field(fields[k].tag, fields[k].value[..i])]
  {
    hide Scan, TextOf, Trailer, Required;
    var f, more := fields[k], Behind(fields, k);
    var left := f.value[i + 1..];
    PartsAreWellFormed(fields, k);
    EndsInSoh(fields, k, i, SOH);
    SplitText(IntText(f.tag), f.value, i, more);
    ScanTo(fields, k, f.value[..i], left + [SOH] + more);
    ReachedState(fields, k, f.value[..i]);
    var s := Reached(fields, k, f.value[..i]);
    if StopsTheParser(left) {
      StopsAtOnce(left, more, s);
      VerdictOf(s);
    } else {
      ReadsLeft(left, more, s);
      SplitVerdict(fields, k, i, s);
    }
  }

  /** What has been summed when what is left of the value is read as a field. */
  lemma SplitSum(fields: seq<Field>, k: nat, i: nat, s: Scanned)
    requires AllWellFormed(fields) && k < |fields| && i < |fields[k].value|
    requires s.running == ByteSum(TextOf(fields[..k])) + ByteSum(WireText(IntText(fields[k].tag), fields[k].value[..i]))
    requires !StopsTheParser(fields[k].value[i + 1..])
    ensures var v := fields[k].value;
            var f := LeftField(v[i + 1..]);
            var t := Take(s, f.tag, f.value, v[i + 1..] + [SOH]);
            t.running + ByteSum(TextOf(fields[k + 1..]))
              == ByteSum(TextOf(fields)) - if f.tag == CHECK_SUM then ByteSum(v[i..]) else v[i] as int - 1
  {
    hide TextOf, WireText, StopsTheParser, ByteSum;
    SumInThree(fields, k);
    SplitSums(IntText(fields[k].tag), fields[k].value, i);
  }

  /** The verdict when what is left of the value is read as a field. */
  lemma SplitVerdict(fields: seq<Field>, k: nat, i: nat, s: Scanned)
    requires AllWellFormed(fields) && |fields| < MAX_TAGS && k < |fields| && i < |fields[k].value|
    requires fields[k].value[i] as int < 256
    requires s.tags == fields[..k] + [Field(fields[k].tag, fields[k].value[..i])] && s.expected == -1
    requires s.running == ByteSum(TextOf(fields[..k])) + ByteSum(WireText(IntText(fields[k].tag), fields[k].value[..i]))
    requires !StopsTheParser(fields[k].value[i + 1..])
    ensures var left := fields[k].value[i + 1..];
            var t := Take(s, LeftField(left).tag, LeftField(left).value, left + [SOH]);
            Verdict(Scan(Behind(fields, k), SOH, t)) == "" <==> Slips(fields, k, i)
  {
    hide Scan, TextOf, Trailer, Required, ByteSum, StopsTheParser, WireText, Verdict, Ended;
    var v := fields[k].value;
    var left := v[i + 1..];
    var t := Take(s, LeftField(left).tag, LeftField(left).value, left + [SOH]);
    var checksum := ByteSum(TextOf(fields)) % 256;
    PartsAreWellFormed(fields, k);
    ScanEnd(t, fields[k + 1..], checksum);
    EndedVerdict(t, fields[k + 1..], checksum);
    SplitSum(fields, k, i, s);
    assert t.tags + fields[k + 1..] == s.tags + [LeftField(left)] + fields[k + 1..];
    SameRemainder(ByteSum(TextOf(fields)), ByteSum(v[i..]));
    assert WellFormed(fields[k]) && v[i] != SOH;
    OtherRemainder(ByteSum(TextOf(fields)), ByteSum(TextOf(fields)) - (v[i] as int - 1), 1 - v[i] as int);
  }

  lemma SameRemainder(n: int, d: int)
    ensures (n - d) % 256 == n % 256 <==> d % 256 == 0
  {
  }

  /** One byte of one value replaced by any other byte: the parser accepts the message exactly
      when the new byte is the delimiter and it slips. */
  lemma ValueErrorIsCaught(fields: seq<Field>, k: nat, i: nat, c: char)
    requires AllWellFormed(fields) && |fields| < MAX_TAGS && k < |fields| && i < |fields[k].value|
    requires c != fields[k].value[i] && c as int < 256 && fields[k].value[i] as int < 256
    ensures var m, at := Summed(fields), ByteAt(fields, k, i);
            && at < |m| && m[at] == fields[k].value[i]
            && (Parsed(m[at := c]).valid <==> c == SOH && Slips(fields, k, i))
  {
    ReplacedShape(fields, k, i, c);
    if c == SOH {
      SplitValueParses(fields, k, i);
    } else {
      OtherByteIsCaught(fields, k, i, c);
    }
  }

  // ---- Any byte of a message -------------------------------------------------------------

  function Checksum(fields: seq<Field>): (n: nat)
    ensures n < 256
  {
    ByteSum(TextOf(fields)) % 256
  }

  /** A field without its delimiter. */
  function Bare(f: Field): string {
    IntText(f.tag) + "=" + f.value
  }

  /** The trailer without its delimiter. */
  function BareTrailer(fields: seq<Field>): (text: string)
    ensures |text| == 6
  {
    "10=" + ThreeDigits(Checksum(fields))
  }

  /** In which field the `at`-th byte stands, and where in it; behind the last field comes the trailer. */
  function Place(fields: seq<Field>, at: nat): (nat, nat) {
    if fields == [] then (0, at)
    else if at < |FieldText(fields[0])| then (0, at)
    else
      var (k, j) := Place(fields[1..], at - |FieldText(fields[0])|);
      (k + 1, j)
  }

  /** A byte of a tag number or the '=' behind it. */
  predicate TagSlips(fields: seq<Field>, k: nat, j: nat, c: char)
    requires k < |fields| && j <= |IntText(fields[k].tag)|
  {
    var left := Bare(fields[k])[j := c];
    if StopsTheParser(left) then Required(fields[..k])
    else
      && LeftField(left).tag == CHECK_SUM && ByteSum(Bare(fields[k]) + [SOH]) % 256 == 0
      && Required(fields[k := LeftField(left)])
  }

  /** The delimiter behind a field: only the last one may go, and the trailer is then part of its value. */
  predicate DelimiterSlips(fields: seq<Field>, k: nat, c: char)
    requires k < |fields|
  {
    k == |fields| - 1
    && Required(fields[k := Field(fields[k].tag, fields[k].value + ([c] + BareTrailer(fields)))])
  }

  /** What is read of the checksum's three digits when one of them, or the delimiter behind, is replaced. */
  function DigitsRead(digits: string, i: nat, c: char): string
    requires i <= |digits|
  {
    if i == |digits| then digits + [c] else if c == SOH then digits[..i] else digits[i := c]
  }

  /** A byte of the trailer: its tag and '=' may go; its digits have to read the same. */
  predicate TrailerSlips(fields: seq<Field>, j: nat, c: char)
    requires j < 7
  {
    && Required(fields)
    && (j >= 3 ==> LooseNumber(DigitsRead(ThreeDigits(Checksum(fields)), j - 3, c)) == Checksum(fields))
  }

  /** When the loss of one byte goes unnoticed. */
  predicate Unnoticed(fields: seq<Field>, k: nat, j: nat, c: char)
    requires k < |fields| ==> j <= |Bare(fields[k])|
    requires k >= |fields| ==> j < 7
  {
    if k >= |fields| then TrailerSlips(fields, j, c)
    else if j == |Bare(fields[k])| then DelimiterSlips(fields, k, c)
    else if j <= |IntText(fields[k].tag)| then TagSlips(fields, k, j, c)
    else c == SOH && Slips(fields, k, j - |IntText(fields[k].tag)| - 1)
  }

  lemma {:induction false} PlaceIsRight(fields: seq<Field>, at: nat)
    requires AllWellFormed(fields) && at < |TextOf(fields)| + TRAILER_LENGTH
    ensures var (k, j) := Place(fields, at);
            && k <= |fields| && at == |TextOf(fields[..k])| + j
            && (if k < |fields| then j <= |Bare(fields[k])| else j < TRAILER_LENGTH)
    decreases |fields|
  {
    if fields == [] {
    } else if at < |FieldText(fields[0])| {
      assert WellFormed(fields[0]);
      CTextOfClean(fields[0].value);
    } else {
      hide Bare, FieldText;
      var rest := at - |FieldText(fields[0])|;
      var (k, j) := Place(fields[1..], rest);
      PlaceIsRight(fields[1..], rest);
      assert fields[..k + 1][1..] == fields[1..][..k];
    }
  }

  /** One byte of the middle of a text. */
  lemma ReplaceIn(a: string, x: string, b: string, j: nat, c: char)
    requires j < |x|
    ensures var whole := a + (x + b);
            |a| + j < |whole| && whole[|a| + j] == x[j] && whole[|a| + j := c] == a + (x[j := c] + b)
  {
  }

  /** What the fields before a place have been read to. */
  function Before(fields: seq<Field>, k: nat): Scanned
    requires k <= |fields|
  {
    Walked(Scanned([], 0, -1), fields[..k])
  }

  lemma BeforeState(fields: seq<Field>, k: nat)
    requires k <= |fields|
    ensures Before(fields, k) == Scanned(fields[..k], ByteSum(TextOf(fields[..k])), -1)
  {
    hide TextOf, ByteSum;
  }

  lemma ParsedScan(data: string)
    requires SOH in data
    ensures Parsed(data).valid <==> Verdict(Scan(data, SOH, Scanned([], 0, -1))) == ""
  {
    hide Scan, Verdict, GetChar, GetInt;
  }

  lemma EndOfBoth(a: string, b: string)
    requires b != ""
    ensures a + b != "" && (a + b)[|a + b| - 1] == b[|b| - 1]
  {
  }

  lemma FirstAreWellFormed(fields: seq<Field>, k: nat)
    requires AllWellFormed(fields) && k <= |fields|
    ensures AllWellFormed(fields[..k])
  {
  }

  /** The verdict on a text that begins with the first fields and ends in a delimiter. */
  lemma ParsedFrom(fields: seq<Field>, k: nat, more: string)
    requires AllWellFormed(fields) && k <= |fields| <= MAX_TAGS && more != "" && more[|more| - 1] == SOH
    ensures Parsed(TextOf(fields[..k]) + more).valid <==> Verdict(Scan(more, SOH, Before(fields, k))) == ""
  {
    hide TextOf, Scan, Verdict, AllWellFormed, Parsed, Walked;
    FirstAreWellFormed(fields, k);
    EndOfBoth(TextOf(fields[..k]), more);
    assert SOH in TextOf(fields[..k]) + more;
    ParsedScan(TextOf(fields[..k]) + more);
    ScanFields(fields[..k], more, Scanned([], 0, -1));
  }

  // ---- Tag numbers ---------------------------------------------------------------------------

  lemma SohStopsTheParser(digits: string, value: string, j: nat)
    requires j <= |digits| && '=' !in digits
    ensures StopsTheParser((digits + "=" + value)[j := SOH])
  {
    var left := (digits + "=" + value)[j := SOH];
    var eq := IndexOf(left, '=');
    assert left[j] == SOH && forall i :: 0 <= i < j ==> left[i] == digits[i];
    if eq < |left| {
      assert left[..eq][j] == SOH;
      NoTagNumber(left[..eq], j);
    }
  }

  lemma ReplacedSum(x: string, j: nat, c: char)
    requires j < |x|
    ensures ByteSum(x[j := c] + [SOH]) == ByteSum(x + [SOH]) - x[j] as int + c as int
  {
    assert x + [SOH] == x[..j] + [x[j]] + (x[j + 1..] + [SOH]);
    assert x[j := c] + [SOH] == x[..j] + [c] + (x[j + 1..] + [SOH]);
    SumOfThree(x[..j], x[j], x[j + 1..] + [SOH]);
    SumOfThree(x[..j], c, x[j + 1..] + [SOH]);
  }

  /** The verdict when what is left of a field reads as another. */
  lemma TagVerdict(fields: seq<Field>, k: nat, j: nat, c: char)
    requires AllWellFormed(fields) && k < |fields| < MAX_TAGS && j <= |IntText(fields[k].tag)|
    requires c as int < 256 && Bare(fields[k])[j] as int < 256 && c != Bare(fields[k])[j]
    requires !StopsTheParser(Bare(fields[k])[j := c])
    ensures var left := Bare(fields[k])[j := c];
            var t := Take(Before(fields, k), LeftField(left).tag, LeftField(left).value, left + [SOH]);
            Verdict(Scan(Behind(fields, k), SOH, t)) == "" <==> TagSlips(fields, k, j, c)
  {
    hide Scan, TextOf, Required, ByteSum, StopsTheParser, Verdict, Ended, LeftField, IntText;
    var x := Bare(fields[k]);
    var left := x[j := c];
    var t := Take(Before(fields, k), LeftField(left).tag, LeftField(left).value, left + [SOH]);
    var rest := fields[k + 1..];
    PartsAreWellFormed(fields, k);
    BeforeState(fields, k);
    ScanEnd(t, rest, Checksum(fields));
    EndedVerdict(t, rest, Checksum(fields));
    SumInThree(fields, k);
    ReplacedSum(x, j, c);
    assert t.tags + rest == fields[k := LeftField(left)];
    SameRemainder(ByteSum(TextOf(fields)), ByteSum(x + [SOH]));
    OtherRemainder(ByteSum(TextOf(fields)), ByteSum(TextOf(fields)) - (x[j] as int - c as int), c as int - x[j] as int);
  }

  lemma TagByte(fields: seq<Field>, k: nat, j: nat, c: char)
    requires AllWellFormed(fields) && k < |fields| < MAX_TAGS && j <= |IntText(fields[k].tag)|
    requires c as int < 256 && Bare(fields[k])[j] as int < 256 && c != Bare(fields[k])[j]
    ensures Parsed(TextOf(fields[..k]) + (Bare(fields[k])[j := c] + [SOH] + Behind(fields, k))).valid
       <==> TagSlips(fields, k, j, c)
  {
    hide Scan, TextOf, Required, StopsTheParser, Parsed, Verdict, IntText;
    var left, more := Bare(fields[k])[j := c], Behind(fields, k);
    PartsAreWellFormed(fields, k);
    ParsedFrom(fields, k, left + [SOH] + more);
    BeforeState(fields, k);
    if StopsTheParser(left) {
      StopsAtOnce(left, more, Before(fields, k));
      VerdictOf(Before(fields, k));
    } else {
      LeftHasNoSoh(fields[k], j, c);
      ReadsLeft(left, more, Before(fields, k));
      TagVerdict(fields, k, j, c);
    }
  }

  lemma LeftHasNoSoh(f: Field, j: nat, c: char)
    requires WellFormed(f) && j <= |IntText(f.tag)| && !StopsTheParser(Bare(f)[j := c])
    ensures SOH !in Bare(f)[j := c]
  {
    hide StopsTheParser;
    DigitsAreDigits(f.tag);
    if c == SOH {
      SohStopsTheParser(IntText(f.tag), f.value, j);
    }
  }

  // ---- Delimiters ---------------------------------------------------------------------------

  /** Without the delimiter behind it, a field swallows the next. */
  lemma Swallowed(f: Field, c: char, g: Field, more: string)
    ensures Bare(f) + [c] + (WireText(IntText(g.tag), g.value) + more)
         == WireText(IntText(f.tag), f.value + ([c] + Bare(g))) + more
  {
  }

  lemma SwallowedSum(f: Field, c: char, g: Field)
    ensures ByteSum(WireText(IntText(f.tag), f.value + ([c] + Bare(g))))
         == ByteSum(WireText(IntText(f.tag), f.value)) + ByteSum(WireText(IntText(g.tag), g.value)) + c as int - 1
  {
    var back := Bare(g) + [SOH];
    assert WireText(IntText(f.tag), f.value + ([c] + Bare(g))) == Bare(f) + [c] + back;
    assert WireText(IntText(f.tag), f.value) == Bare(f) + [SOH] && WireText(IntText(g.tag), g.value) == back;
    SumOfThree(Bare(f), c, back);
    SumWithSoh(Bare(f));
  }

  lemma BehindNext(fields: seq<Field>, k: nat)
    requires AllWellFormed(fields) && k + 1 < |fields|
    ensures var g := fields[k + 1];
            && Behind(fields, k) == WireText(IntText(g.tag), g.value) + Behind(fields, k + 1)
            && ByteSum(TextOf(fields[k + 1..]))
            == ByteSum(WireText(IntText(g.tag), g.value)) + ByteSum(TextOf(fields[k + 2..]))
  {
    hide ByteSum, WireText, IntText, TextOf, Trailer;
    var g, back := fields[k + 1], TextOf(fields[k + 2..]);
    TextFromNext(fields, k + 1);
    ByteSumAdds(WireText(IntText(g.tag), g.value), back);
    assert WireText(IntText(g.tag), g.value) + back + Trailer(Checksum(fields))
        == WireText(IntText(g.tag), g.value) + (back + Trailer(Checksum(fields)));
  }

  lemma TextFromNext(fields: seq<Field>, k: nat)
    requires AllWellFormed(fields) && k < |fields|
    ensures TextOf(fields[k..]) == WireText(IntText(fields[k].tag), fields[k].value) + TextOf(fields[k + 1..])
  {
    assert WellFormed(fields[k]);
    CTextOfClean(fields[k].value);
    assert fields[k..][1..] == fields[k + 1..];
    hide IntText, CText;
  }

  /** The state of the parser once a field has swallowed what follows. */
  function Swollen(fields: seq<Field>, k: nat, more: string): Scanned
    requires k < |fields|
  {
    var f := fields[k];
    Take(Before(fields, k), f.tag, f.value + more, WireText(IntText(f.tag), f.value + more))
  }

  lemma SwollenState(fields: seq<Field>, k: nat, more: string)
    requires k < |fields| && fields[k].tag != CHECK_SUM
    ensures var f := fields[k];
            && Swollen(fields, k, more).tags == fields[..k] + [Field(f.tag, f.value + more)]
            && Swollen(fields, k, more).expected == -1
            && Swollen(fields, k, more).running
            == ByteSum(TextOf(fields[..k])) + ByteSum(WireText(IntText(f.tag), f.value + more))
  {
    hide TextOf, WireText, ByteSum;
    BeforeState(fields, k);
  }

  lemma ParsedSwollen(fields: seq<Field>, k: nat, swallowed: string, more: string)
    requires AllWellFormed(fields) && k < |fields| < MAX_TAGS && SOH !in swallowed
    requires more == "" || more[|more| - 1] == SOH
    ensures var f := fields[k];
            Parsed(TextOf(fields[..k]) + (WireText(IntText(f.tag), f.value + swallowed) + more)).valid
            <==> Verdict(Scan(more, SOH, Swollen(fields, k, swallowed))) == ""
  {
    var f := fields[k];
    PartsAreWellFormed(fields, k);
    BeforeState(fields, k);
    var text := WireText(IntText(f.tag), f.value + swallowed);
    assert text != "" && text[|text| - 1] == SOH;
    hide Scan, TextOf, Parsed, Verdict, IntText, TagNumber, ByteSum, WireText;
    if more == "" {
      assert text + more == text;
    } else {
      EndOfBoth(text, more);
    }
    ParsedFrom(fields, k, text + more);
    ScanWire(IntText(f.tag), f.value + swallowed, more, Before(fields, k));
  }

  lemma InnerVerdict(fields: seq<Field>, k: nat, c: char)
    requires AllWellFormed(fields) && k + 1 < |fields| < MAX_TAGS && c != SOH && c as int < 256
    ensures Verdict(Scan(Behind(fields, k + 1), SOH, Swollen(fields, k, [c] + Bare(fields[k + 1])))) != ""
  {
    hide Scan, TextOf, Required, Verdict, IntText, WireText, Ended, ByteSum, Swollen, Bare, Trailer;
    var f, g, back := fields[k], fields[k + 1], fields[k + 2..];
    var t := Swollen(fields, k, [c] + Bare(g));
    PartsAreWellFormed(fields, k);
    PartsAreWellFormed(fields, k + 1);
    SwollenState(fields, k, [c] + Bare(g));
    ScanEnd(t, back, Checksum(fields));
    EndedVerdict(t, back, Checksum(fields));
    SumInThree(fields, k);
    BehindNext(fields, k);
    SwallowedSum(f, c, g);
    OtherRemainder(ByteSum(TextOf(fields)), ByteSum(TextOf(fields)) + (c as int - 1), c as int - 1);
  }

  /** A delimiter between two fields is always missed. */
  lemma InnerDelimiter(fields: seq<Field>, k: nat, c: char)
    requires AllWellFormed(fields) && k + 1 < |fields| < MAX_TAGS && c != SOH && c as int < 256
    ensures !Parsed(TextOf(fields[..k]) + (Bare(fields[k]) + [c] + Behind(fields, k))).valid
  {
    var f, g, more := fields[k], fields[k + 1], Behind(fields, k + 1);
    PartsAreWellFormed(fields, k + 1);
    BareIsClean(g);
    BehindEnds(fields, k + 1);
    hide Scan, TextOf, Parsed, Verdict, IntText, WireText, Swollen, Bare, Behind, WellFormed, ByteSum;
    BehindNext(fields, k);
    Swallowed(f, c, g, more);
    ParsedSwollen(fields, k, [c] + Bare(g), more);
    InnerVerdict(fields, k, c);
  }

  lemma BehindEnds(fields: seq<Field>, k: nat)
    requires k < |fields|
    ensures Behind(fields, k) != "" && Behind(fields, k)[|Behind(fields, k)| - 1] == SOH
  {
    hide TextOf;
  }

  lemma BareIsClean(f: Field)
    requires WellFormed(f)
    ensures SOH !in Bare(f)
  {
    DigitsAreDigits(f.tag);
  }

  lemma SwallowedTrailer(fields: seq<Field>, k: nat, c: char)
    requires k + 1 == |fields|
    ensures var f := fields[k];
            Bare(f) + [c] + Behind(fields, k)
            == WireText(IntText(f.tag), f.value + ([c] + BareTrailer(fields))) + ""
    ensures SOH !in BareTrailer(fields)
  {
    assert fields[k + 1..] == [];
    NoText(fields[k + 1..]);
    hide TextOf, IntText, ByteSum;
  }

  /** Without the delimiter before it, the trailer is no trailer. */
  lemma LastDelimiter(fields: seq<Field>, k: nat, c: char)
    requires AllWellFormed(fields) && k + 1 == |fields| < MAX_TAGS && c != SOH
    ensures Parsed(TextOf(fields[..k]) + (Bare(fields[k]) + [c] + Behind(fields, k))).valid
       <==> DelimiterSlips(fields, k, c)
  {
    var f, swallowed := fields[k], [c] + BareTrailer(fields);
    PartsAreWellFormed(fields, k);
    SwallowedTrailer(fields, k, c);
    hide Scan, TextOf, Required, Parsed, Verdict, IntText, WireText, Swollen, Bare, Behind, BareTrailer, AllWellFormed,
      WellFormed;
    ParsedSwollen(fields, k, swallowed, "");
    SwollenVerdict(fields, k, swallowed);
  }

  lemma SwollenVerdict(fields: seq<Field>, k: nat, swallowed: string)
    requires k + 1 == |fields| && fields[k].tag != CHECK_SUM
    ensures Verdict(Scan("", SOH, Swollen(fields, k, swallowed))) == ""
       <==> Required(fields[k := Field(fields[k].tag, fields[k].value + swallowed)])
  {
    hide Scan, Required, Verdict, Swollen, WireText, IntText, ByteSum, TextOf;
    var t := Swollen(fields, k, swallowed);
    SwollenState(fields, k, swallowed);
    ScanNoMore(t);
    VerdictOf(t);
    assert t.tags == fields[k := Field(fields[k].tag, fields[k].value + swallowed)];
  }

  lemma NoText(fields: seq<Field>)
    requires fields == []
    ensures TextOf(fields) == ""
  {
  }

  lemma ScanNoMore(s: Scanned)
    ensures Scan("", SOH, s) == s
  {
  }

  // ---- The trailer ---------------------------------------------------------------------------

  /** What the trailer reads as once one of its first three bytes is another. */
  lemma TrailerTag(digits: string, j: nat, c: char)
    requires j < 3 && c != "10="[j] && |digits| == 3 && AllDigits(digits)
    ensures var left := ("10=" + digits)[j := c];
            && (!StopsTheParser(left) ==>
                  && SOH !in left
                  && LeftField(left).tag != BEGIN_STRING && LeftField(left).tag != MSG_TYPE
                  && LeftField(left).tag != CHECK_SUM)
  {
    var left := ("10=" + digits)[j := c];
    var eq := IndexOf(left, '=');
    if !StopsTheParser(left) {
      TagNumbersAreDigits(left[..eq]);
      assert left == [left[0], left[1], left[2]] + digits;
      if j == 2 {
        assert false;
      }
    }
  }

  lemma ThreeAreDigits(n: nat)
    requires n < 1000
    ensures |ThreeDigits(n)| == 3 && AllDigits(ThreeDigits(n))
  {
  }

  /** A last field that is neither version nor type does not matter. */
  lemma RequiredIgnores(tags: seq<Field>, last: Field)
    requires last.tag != BEGIN_STRING && last.tag != MSG_TYPE
    ensures Required(tags + [last]) <==> Required(tags)
  {
    FindInFront(tags, last, BEGIN_STRING);
    FindInFront(tags, last, MSG_TYPE);
  }

  /** All fields have been read, and then one that is no checksum. */
  lemma OtherLast(fields: seq<Field>, last: Field, text: string)
    requires last.tag != BEGIN_STRING && last.tag != MSG_TYPE && last.tag != CHECK_SUM
    ensures Verdict(Take(Before(fields, |fields|), last.tag, last.value, text)) == "" <==> Required(fields)
  {
    hide TextOf, ByteSum, Required, Verdict;
    BeforeState(fields, |fields|);
    assert fields[..|fields|] == fields;
    VerdictOf(Take(Before(fields, |fields|), last.tag, last.value, text));
    RequiredIgnores(fields, last);
  }

  /** All fields have been read, and then a checksum. */
  lemma ChecksumLast(fields: seq<Field>, value: string, text: string)
    ensures Verdict(Take(Before(fields, |fields|), CHECK_SUM, value, text)) == ""
       <==> Required(fields) && LooseNumber(value) == Checksum(fields)
  {
    hide TextOf, ByteSum, Required, Verdict;
    BeforeState(fields, |fields|);
    assert fields[..|fields|] == fields;
    VerdictOf(Take(Before(fields, |fields|), CHECK_SUM, value, text));
    RequiredIgnores(fields, Field(CHECK_SUM, value));
  }

  lemma ParsedBehind(fields: seq<Field>, more: string)
    requires AllWellFormed(fields) && |fields| < MAX_TAGS && more != "" && more[|more| - 1] == SOH
    ensures Parsed(TextOf(fields) + more).valid <==> Verdict(Scan(more, SOH, Before(fields, |fields|))) == ""
    ensures |Before(fields, |fields|).tags| < MAX_TAGS
  {
    hide TextOf, Scan, Verdict, Parsed;
    assert fields[..|fields|] == fields;
    ParsedFrom(fields, |fields|, more);
  }

  lemma TrailerTagByte(fields: seq<Field>, j: nat, c: char)
    requires AllWellFormed(fields) && |fields| < MAX_TAGS && j < 3 && c != BareTrailer(fields)[j]
    ensures Parsed(TextOf(fields) + (BareTrailer(fields)[j := c] + [SOH])).valid <==> Required(fields)
  {
    var left, s := BareTrailer(fields)[j := c], Before(fields, |fields|);
    ThreeAreDigits(Checksum(fields));
    TrailerTag(ThreeDigits(Checksum(fields)), j, c);
    hide Scan, TextOf, Required, Parsed, Verdict, StopsTheParser, LeftField, ByteSum, ThreeDigits, AllWellFormed;
    ParsedBehind(fields, left + [SOH]);
    assert left + [SOH] + "" == left + [SOH];
    BeforeState(fields, |fields|);
    assert fields[..|fields|] == fields;
    if StopsTheParser(left) {
      StopsAtOnce(left, "", s);
      VerdictOf(s);
    } else {
      ReadsLeft(left, "", s);
      ScanNoMore(Take(s, LeftField(left).tag, LeftField(left).value, left + [SOH]));
      OtherLast(fields, LeftField(left), left + [SOH]);
    }
  }

  /** A checksum field with some value stands at the end of a message. */
  lemma ReadsChecksum(fields: seq<Field>, value: string, rest: string)
    requires AllWellFormed(fields) && |fields| < MAX_TAGS && SOH !in value && '=' !in rest && SOH !in rest
    ensures Parsed(TextOf(fields) + ("10=" + value + [SOH])).valid
       <==> Required(fields) && LooseNumber(value) == Checksum(fields)
    ensures Parsed(TextOf(fields) + ("10=" + value + [SOH] + (rest + [SOH]))).valid
       <==> Required(fields) && LooseNumber(value) == Checksum(fields)
  {
    var text, s := WireText("10", value), Before(fields, |fields|);
    var t := Take(s, CHECK_SUM, value, text);
    TenReads();
    assert text == "10=" + value + [SOH];
    StopsHere(rest);
    hide Scan, TextOf, Required, Parsed, Verdict, StopsTheParser, ByteSum, AllWellFormed, WireText, TagNumber;
    ParsedBehind(fields, text);
    ParsedBehind(fields, text + (rest + [SOH]));
    assert text + "" == text && rest + [SOH] + "" == rest + [SOH];
    ScanWire("10", value, "", s);
    ScanWire("10", value, rest + [SOH], s);
    ScanNoMore(t);
    StopsAtOnce(rest, "", t);
    ChecksumLast(fields, value, text);
  }

  lemma TenReads()
    ensures TagNumber("10") == CHECK_SUM
  {
    assert "10"[..1] == "1" && "1"[..0] == "";
  }

  lemma StopsHere(rest: string)
    requires '=' !in rest
    ensures StopsTheParser(rest)
  {
  }

  lemma DigitText(digits: string, i: nat, c: char)
    requires i < |digits|
    ensures ("10=" + digits)[i + 3 := c] + [SOH] == "10=" + digits[i := c] + [SOH]
    ensures ("10=" + digits)[i + 3 := SOH] + [SOH] == "10=" + digits[..i] + [SOH] + (digits[i + 1..] + [SOH])
  {
  }

  lemma DigitByte(fields: seq<Field>, j: nat, c: char)
    requires AllWellFormed(fields) && |fields| < MAX_TAGS && 3 <= j < 6 && c != BareTrailer(fields)[j]
    ensures Parsed(TextOf(fields) + (BareTrailer(fields)[j := c] + [SOH])).valid <==> TrailerSlips(fields, j, c)
  {
    var digits, i := ThreeDigits(Checksum(fields)), j - 3;
    ThreeAreDigits(Checksum(fields));
    DigitText(digits, i, c);
    DigitsAlone(digits, i, c);
    hide Required, Parsed, TextOf, ByteSum, AllWellFormed, ThreeDigits, AllDigits, LooseNumber;
    if c == SOH {
      ReadsChecksum(fields, digits[..i], digits[i + 1..]);
    } else {
      ReadsChecksum(fields, digits[i := c], "");
    }
  }

  lemma DigitsAlone(digits: string, i: nat, c: char)
    requires i < |digits| && AllDigits(digits)
    ensures SOH !in digits[..i] && SOH !in digits[i + 1..] && '=' !in digits[i + 1..]
    ensures c != SOH ==> SOH !in digits[i := c]
  {
  }

  // ---- The last byte ------------------------------------------------------------------------

  /** The last field of a text may lack its delimiter. */
  lemma ScanLast(digits: string, value: string, s: Scanned)
    requires TagNumber(digits) >= 0 && SOH !in value && |s.tags| < MAX_TAGS
    ensures var text := digits + "=" + value;
            Scan(text, SOH, s) == Take(s, TagNumber(digits), value, text)
  {
    var text := digits + "=" + value;
    TagNumbersAreDigits(digits);
    assert text == digits + ['='] + value;
    IndexOfFirst(digits, '=', value);
    assert text[..|digits|] == digits && text[|digits| + 1..] == value;
    assert value[..|value|] == value;
    assert text[..|text|] == text && text[|text|..] == "";
    assert text != "";
  }

  /** A trailer alone is no message, even if a pipe at its end is taken for the delimiter. */
  lemma NoFieldsNoMessage(digits: string, c: char)
    requires |digits| == 3 && AllDigits(digits)
    ensures !Parsed("10=" + digits + [c]).valid
  {
    var data := "10=" + digits + [c];
    OneField(digits, c, Delimiter(data));
    var tags := Scan(data, Delimiter(data), Scanned([], 0, -1)).tags;
    assert tags[1..] == [];
    assert FindTag(tags, BEGIN_STRING).None?;
  }

  lemma OneField(digits: string, c: char, delim: char)
    requires |digits| == 3 && AllDigits(digits) && !IsDigit(delim)
    ensures var tags := Scan("10=" + digits + [c], delim, Scanned([], 0, -1)).tags;
            |tags| == 1 && tags[0].tag == CHECK_SUM
  {
    var data := "10=" + digits + [c];
    TenReads();
    assert data == "10" + ['='] + (digits + [c]);
    IndexOfFirst("10", '=', digits + [c]);
    assert data[..2] == "10" && data[3..] == digits + [c];
    assert data[7..] == "";
  }

  lemma AllBefore(fields: seq<Field>)
    ensures Before(fields, |fields|) == Walked(Scanned([], 0, -1), fields)
    ensures |Before(fields, |fields|).tags| == |fields|
  {
    hide TextOf, ByteSum;
    assert fields[..|fields|] == fields;
  }

  lemma LastByteScan(fields: seq<Field>, value: string)
    requires AllWellFormed(fields) && 0 < |fields| < MAX_TAGS && SOH !in value
    ensures Parsed(TextOf(fields) + ("10" + "=" + value)).valid
       <==> Required(fields) && LooseNumber(value) == Checksum(fields)
  {
    var text := "10" + "=" + value;
    TenReads();
    HoldsSoh(fields);
    AllBefore(fields);
    ScanLast("10", value, Before(fields, |fields|));
    hide Scan, TextOf, Required, Parsed, Verdict, ByteSum, AllWellFormed, TagNumber, LooseNumber, Before, Walked, Take;
    assert SOH in TextOf(fields) + text;
    ParsedScan(TextOf(fields) + text);
    ScanFields(fields, text, Scanned([], 0, -1));
    ChecksumLast(fields, value, text);
  }

  lemma HoldsSoh(fields: seq<Field>)
    requires fields != []
    ensures SOH in TextOf(fields)
  {
    assert FieldText(fields[0])[|FieldText(fields[0])| - 1] == SOH;
  }

  lemma LastText(digits: string, c: char)
    ensures "10=" + digits + [c] == "10" + "=" + (digits + [c])
  {
  }

  lemma LastByte(fields: seq<Field>, c: char)
    requires AllWellFormed(fields) && |fields| < MAX_TAGS && c != SOH
    ensures Parsed(TextOf(fields) + (BareTrailer(fields) + [c])).valid <==> TrailerSlips(fields, 6, c)
  {
    var digits := ThreeDigits(Checksum(fields));
    ThreeAreDigits(Checksum(fields));
    if fields == [] {
      hide Parsed, ByteSum, ThreeDigits, LooseNumber;
      NoFieldsNoMessage(digits, c);
      assert TextOf(fields) + (BareTrailer(fields) + [c]) == "10=" + digits + [c];
    } else {
      assert SOH !in digits + [c];
      LastText(digits, c);
      hide Parsed, TextOf, ByteSum, AllWellFormed, ThreeDigits, LooseNumber, Required;
      LastByteScan(fields, digits + [c]);
    }
  }

  // ---- Every byte ---------------------------------------------------------------------------

  lemma ReplaceBefore(x: string, j: nat, c: char)
    requires j <= |x|
    ensures (x + [SOH])[j := c] == if j < |x| then x[j := c] + [SOH] else x + [c]
  {
  }

  /** A byte of a field or the delimiter behind it. */
  lemma ByteOfField(fields: seq<Field>, k: nat, j: nat, c: char)
    requires AllWellFormed(fields) && k < |fields| && j <= |Bare(fields[k])|
    ensures var m, at, text := Summed(fields), |TextOf(fields[..k])| + j, Bare(fields[k]) + [SOH];
            && at < |m| && m[at] == text[j]
            && m[at := c] == TextOf(fields[..k]) + (text[j := c] + Behind(fields, k))
  {
    hide TextOf, Behind, Summed, AllWellFormed, IntText;
    assert WireText(IntText(fields[k].tag), fields[k].value) == Bare(fields[k]) + [SOH];
    SummedInThree(fields, k);
    ReplaceIn(TextOf(fields[..k]), Bare(fields[k]) + [SOH], Behind(fields, k), j, c);
  }

  lemma FieldByte(fields: seq<Field>, k: nat, j: nat, c: char)
    requires AllWellFormed(fields) && k < |fields| < MAX_TAGS && j <= |Bare(fields[k])|
    requires var was := (Bare(fields[k]) + [SOH])[j]; c as int < 256 && c != was && was as int < 256
    ensures |TextOf(fields[..k])| + j < |Summed(fields)|
    ensures Parsed(Summed(fields)[|TextOf(fields[..k])| + j := c]).valid <==> Unnoticed(fields, k, j, c)
  {
    var digits := |IntText(fields[k].tag)|;
    ByteOfField(fields, k, j, c);
    ReplaceBefore(Bare(fields[k]), j, c);
    if j == |Bare(fields[k])| {
      hide Parsed, TextOf, Behind, Summed, AllWellFormed, TagSlips, DelimiterSlips, Slips, TrailerSlips, Bare;
      DelimiterByte(fields, k, c);
    } else if j <= digits {
      hide Parsed, TextOf, Behind, Summed, AllWellFormed, TagSlips, DelimiterSlips, Slips, TrailerSlips, IntText;
      TagByte(fields, k, j, c);
    } else {
      ValueByte(fields, k, j, c);
    }
  }

  lemma ValueByte(fields: seq<Field>, k: nat, j: nat, c: char)
    requires AllWellFormed(fields) && k < |fields| < MAX_TAGS && |IntText(fields[k].tag)| < j < |Bare(fields[k])|
    requires c as int < 256 && c != Bare(fields[k])[j] && Bare(fields[k])[j] as int < 256
    ensures |TextOf(fields[..k])| + j < |Summed(fields)|
    ensures Parsed(Summed(fields)[|TextOf(fields[..k])| + j := c]).valid <==> Unnoticed(fields, k, j, c)
  {
    hide Parsed, TextOf, Summed, AllWellFormed, TagSlips, DelimiterSlips, Slips, TrailerSlips, IntText;
    var i := j - |IntText(fields[k].tag)| - 1;
    assert fields[k].value[i] == Bare(fields[k])[j];
    ValueErrorIsCaught(fields, k, i, c);
  }

  lemma DelimiterByte(fields: seq<Field>, k: nat, c: char)
    requires AllWellFormed(fields) && k < |fields| < MAX_TAGS && c != SOH && c as int < 256
    ensures Parsed(TextOf(fields[..k]) + (Bare(fields[k]) + [c] + Behind(fields, k))).valid
       <==> DelimiterSlips(fields, k, c)
  {
    if k + 1 == |fields| {
      LastDelimiter(fields, k, c);
    } else {
      InnerDelimiter(fields, k, c);
    }
  }

  /** A byte of the trailer or the delimiter behind it. */
  lemma ByteOfTrailer(fields: seq<Field>, j: nat, c: char)
    requires j < TRAILER_LENGTH
    ensures var m, at, text := Summed(fields), |TextOf(fields)| + j, BareTrailer(fields) + [SOH];
            at < |m| && m[at] == text[j] && m[at := c] == TextOf(fields) + text[j := c]
  {
    hide TextOf, ByteSum, ThreeDigits;
    var text := BareTrailer(fields) + [SOH];
    assert TextOf(fields) + (text + "") == Summed(fields);
    ReplaceIn(TextOf(fields), text, "", j, c);
    assert text[j := c] + "" == text[j := c];
  }

  lemma TrailerByte(fields: seq<Field>, j: nat, c: char)
    requires AllWellFormed(fields) && |fields| < MAX_TAGS && j < TRAILER_LENGTH
    requires c != (BareTrailer(fields) + [SOH])[j]
    ensures Parsed(TextOf(fields) + (BareTrailer(fields) + [SOH])[j := c]).valid
       <==> Unnoticed(fields, |fields|, j, c)
  {
    hide Parsed, TextOf, AllWellFormed, TrailerSlips, BareTrailer, Required;
    ReplaceBefore(BareTrailer(fields), j, c);
    if j < 3 {
      TrailerTagByte(fields, j, c);
      TagOfTrailer(fields, j, c);
    } else if j < 6 {
      DigitByte(fields, j, c);
    } else {
      LastByte(fields, c);
    }
  }

  lemma TagOfTrailer(fields: seq<Field>, j: nat, c: char)
    requires j < 3
    ensures TrailerSlips(fields, j, c) <==> Required(fields)
  {
  }

  lemma ByteAtPlace(fields: seq<Field>, k: nat, j: nat, at: nat, c: char)
    requires AllWellFormed(fields) && |fields| < MAX_TAGS && at < |Summed(fields)|
    requires k <= |fields| && at == |TextOf(fields[..k])| + j
    requires if k < |fields| then j <= |Bare(fields[k])| else j < TRAILER_LENGTH
    requires c != Summed(fields)[at] && c as int < 256 && Summed(fields)[at] as int < 256
    ensures Parsed(Summed(fields)[at := c]).valid <==> Unnoticed(fields, k, j, c)
  {
    hide Parsed, TextOf, AllWellFormed, Unnoticed, Summed, BareTrailer, Bare;
    if k < |fields| {
      ByteOfField(fields, k, j, c);
      FieldByte(fields, k, j, c);
    } else {
      assert fields[..k] == fields;
      ByteOfTrailer(fields, j, c);
      TrailerByte(fields, j, c);
    }
  }

  /** Any one byte of a message of well-formed fields and their checksum, replaced by any other: the
      parser accepts what comes of it exactly when the field or trailer that holds the byte says so. */
  lemma SingleByteErrorIsCaught(fields: seq<Field>, at: nat, c: char)
    requires AllWellFormed(fields) && |fields| < MAX_TAGS && at < |Summed(fields)|
    requires c != Summed(fields)[at] && c as int < 256 && Summed(fields)[at] as int < 256
    ensures var (k, j) := Place(fields, at);
            && k <= |fields| && at == |TextOf(fields[..k])| + j
            && (if k < |fields| then j <= |Bare(fields[k])| else j < TRAILER_LENGTH)
            && (Parsed(Summed(fields)[at := c]).valid <==> Unnoticed(fields, k, j, c))
  {
    assert |Summed(fields)| == |TextOf(fields)| + TRAILER_LENGTH;
    hide Parsed, TextOf, AllWellFormed, Unnoticed, Summed, Place, Bare;
    PlaceIsRight(fields, at);
    ByteAtPlace(fields, Place(fields, at).0, Place(fields, at).1, at, c);
  }

  // ---- A message that slips -------------------------------------------------------------

  function SlippedTags(sender: string, length: string, msgType: char): seq<Field> {
    [Field(BEGIN_STRING, FIX_VERSION), Field(BODY_LENGTH, length)]
    + [Field(MSG_TYPE, [msgType]), Field(SENDER_COMP_ID, sender)]
  }

  lemma SlippedTagsRead(sender: string, length: string, msgType: char)
    requires msgType != NUL
    ensures var tags := SlippedTags(sender, length, msgType);
            Required(tags) && GetChar(tags, MSG_TYPE) == msgType && GetInt(tags, MSG_SEQ_NUM) == 0
            && !HasChecksum(tags)
  {
    var tags := SlippedTags(sender, length, msgType);
    FindAt(tags, 0, BEGIN_STRING);
    FindAt(tags, 2, MSG_TYPE);
    SkipFront(tags, 4, MSG_SEQ_NUM);
    assert tags[4..] == [];
  }

  /** In any built message, a delimiter in the place of a byte of the sender id, with no '='
      behind it in the id, leaves a message that is accepted without target, number or
      checksum, and counts as number 0. */
  lemma SenderByteSlips(
    sender: string, target: string, msgType: char, seqNum: int, time: string, fields: seq<Field>, i: nat)
    requires Sendable(sender, target, msgType, time, fields) && |fields| <= MAX_TAGS - 8
    requires i < |CText(sender)| && sender[i] as int < 256 && '=' !in CText(sender)[i + 1..]
    ensures var framed := Printed(Framed(Header(sender, target, msgType, seqNum, time) + fields));
            var m := Message(sender, target, msgType, seqNum, time, fields);
            var at := ByteAt(framed, 3, i);
            && at < |m| && m[at] == sender[i]
            && Parsed(m[at := SOH]).valid && !HasChecksum(Parsed(m[at := SOH]).tags)
            && Parsed(m[at := SOH]).msgType == msgType && Parsed(m[at := SOH]).seqNum == 0
  {
    var body := Header(sender, target, msgType, seqNum, time) + fields;
    var framed := Printed(Framed(body));
    var length := IntText(|TextOf(body)|);
    BuiltIsSummed(sender, target, msgType, seqNum, time, fields);
    OpensSlipped(sender, target, msgType, seqNum, time, fields, i);
    assert Clean([msgType]) && [msgType][0] == msgType;
    hide TextOf, Framed, Header, Printed, Summed, Replaced, Parsed, Required, SlippedTags, GetChar, GetInt, IntText,
      AllWellFormed, ByteAt, Message, HasChecksum;
    ReplacedShape(framed, 3, i, SOH);
    SlippedTagsRead(CText(sender)[..i], length, msgType);
    SlippedParse(framed, i);
    ParsedReads(Replaced(framed, 3, i, SOH));
  }

  lemma OpensSlipped(
    sender: string, target: string, msgType: char, seqNum: int, time: string, fields: seq<Field>, i: nat)
    requires Clean([msgType]) && i < |CText(sender)|
    ensures var body := Header(sender, target, msgType, seqNum, time) + fields;
            var framed := Printed(Framed(body));
            && framed[3] == Field(SENDER_COMP_ID, CText(sender))
            && framed[..3] + [Field(SENDER_COMP_ID, CText(sender)[..i])]
            == SlippedTags(CText(sender)[..i], IntText(|TextOf(body)|), msgType)
  {
    hide TextOf, IntText, CText, Printed, Framed, Header;
    PrintedFront(sender, target, msgType, seqNum, time, fields);
  }

  lemma SlippedParse(framed: seq<Field>, i: nat)
    requires AllWellFormed(framed) && 3 < |framed| < MAX_TAGS && i < |framed[3].value|
    requires framed[3].value[i] as int < 256 && '=' !in framed[3].value[i + 1..]
    requires Required(framed[..3] + [Field(framed[3].tag, framed[3].value[..i])])
    ensures Parsed(Replaced(framed, 3, i, SOH)).valid
    ensures Parsed(Replaced(framed, 3, i, SOH)).tags == framed[..3] + [Field(framed[3].tag, framed[3].value[..i])]
  {
    hide Parsed, Replaced, Required;
    SplitValueParses(framed, 3, i);
  }

  lemma ParsedReads(data: string)
    requires Parsed(data).valid
    ensures Parsed(data).msgType == GetChar(Parsed(data).tags, MSG_TYPE)
    ensures Parsed(data).seqNum == GetInt(Parsed(data).tags, MSG_SEQ_NUM)
  {
  }

  lemma BuiltHasRequired(sender: string, target: string, msgType: char, seqNum: int, time: string, fields: seq<Field>)
    requires Sendable(sender, target, msgType, time, fields) && |fields| <= MAX_TAGS - 8
    ensures Required(Printed(Framed(Header(sender, target, msgType, seqNum, time) + fields)))
  {
    var printed := Printed(Framed(Header(sender, target, msgType, seqNum, time) + fields));
    var last := Field(CHECK_SUM, "");
    assert |printed| == 7 + |fields|;
    FindFramed(sender, target, msgType, seqNum, time, fields, last);
    assert [msgType][0] == msgType;
    hide Printed, Framed, Header;
    RequiredIgnores(printed, last);
  }

  /** A built message is the text of what is printed of its fields, and their checksum. */
  lemma BuiltIsSummed(sender: string, target: string, msgType: char, seqNum: int, time: string, fields: seq<Field>)
    requires Sendable(sender, target, msgType, time, fields)
    ensures var printed := Printed(Framed(Header(sender, target, msgType, seqNum, time) + fields));
            && |printed| == 7 + |fields| && AllWellFormed(printed)
            && Message(sender, target, msgType, seqNum, time, fields) == Summed(printed)
  {
    var framed := Framed(Header(sender, target, msgType, seqNum, time) + fields);
    assert |framed| == 7 + |fields|;
    FramedIsWellFormed(sender, target, msgType, seqNum, time, fields);
    TextOfPrinted(framed);
    hide TextOf, Framed, Header, Printed, AllWellFormed, ByteSum, Trailer;
  }

  lemma TagOfSummedSlips(fields: seq<Field>, j: nat, c: char)
    requires AllWellFormed(fields) && |fields| < MAX_TAGS && Required(fields) && j < 3
    ensures var m, at := Summed(fields), |TextOf(fields)| + j;
            && |m| == |TextOf(fields)| + TRAILER_LENGTH
            && (c != m[at] ==> Parsed(m[at := c]).valid)
  {
    assert |Summed(fields)| == |TextOf(fields)| + TRAILER_LENGTH;
    hide TextOf, Summed, Parsed, Required, AllWellFormed, BareTrailer, Unnoticed;
    ByteOfTrailer(fields, j, c);
    if c != Summed(fields)[|TextOf(fields)| + j] {
      TrailerByte(fields, j, c);
      UnnoticedTag(fields, j, c);
    }
  }

  /** In any built message, each of the first three bytes of the trailer may be any other byte: it is
      accepted, and no checksum is looked at. */
  lemma TrailerTagSlips(
    sender: string, target: string, msgType: char, seqNum: int, time: string, fields: seq<Field>, j: nat, c: char)
    requires Sendable(sender, target, msgType, time, fields) && |fields| <= MAX_TAGS - 8 && j < 3
    ensures var m := Message(sender, target, msgType, seqNum, time, fields);
            var at := |m| - TRAILER_LENGTH + j;
            0 <= at < |m| && (c != m[at] ==> Parsed(m[at := c]).valid)
  {
    hide TextOf, Framed, Header, Printed, Summed, Parsed, Required, AllWellFormed, Message, Sendable;
    BuiltHasRequired(sender, target, msgType, seqNum, time, fields);
    BuiltIsSummed(sender, target, msgType, seqNum, time, fields);
    TagOfSummedSlips(Printed(Framed(Header(sender, target, msgType, seqNum, time) + fields)), j, c);
  }

  lemma UnnoticedTag(fields: seq<Field>, j: nat, c: char)
    requires j < 3
    ensures Unnoticed(fields, |fields|, j, c) <==> Required(fields)
  {
  }

  /** One such message: heartbeat 5 from AB, with the B lost. */
  lemma SlippedHeartbeat()
    ensures var m := Message("AB", "T", '0', 5, "t", []);
            var at := ByteAt(Printed(Framed(Header("AB", "T", '0', 5, "t") + [])), 3, 1);
            && Parsed(m).valid && Parsed(m).seqNum == 5
            && at < |m| && m[at] == 'B'
            && Parsed(m[at := SOH]).valid && Parsed(m[at := SOH]).seqNum == 0
  {
    CleanIsPrinted("AB");
    BuildThenParse("AB", "T", '0', 5, "t", []);
    SenderByteSlips("AB", "T", '0', 5, "t", [], 1);
  }
}
