// What the header of a response says, read back from its bytes.
module DnsHeader {
  import opened Bytes
  import opened Wrappers
  import opened Dns

  /** A 16-bit number in network byte order. */
  function Number(p: Text, at: nat): nat
    requires at + 2 <= |p|
  {
    p[at] as nat * 256 + p[at + 1] as nat
  }

  lemma Be16Reads(n: nat)
    requires n < 65536
    ensures Number(Be16(n), 0) == n
  {
    ByteRoundTrip(n / 256);
    ByteRoundTrip(n % 256);
  }

  lemma NumberInside(p: Text, at: nat, n: nat)
    requires n < 65536 && at + 2 <= |p| && p[at..at + 2] == Be16(n)
    ensures Number(p, at) == n
  {
    Be16Reads(n);
    assert p[at] == p[at..at + 2][0] && p[at + 1] == p[at..at + 2][1];
  }

  lemma HeaderParts(id: Text, flags: nat, count: nat, question: Text, answers: Text)
    requires |id| == 2 && flags < 65536 && count < 65536
    ensures var p := Packet(id, flags, count, question, answers);
            && |p| == HEADER + |question| + |answers| && p[..2] == id && p[2..4] == Be16(flags)
            && p[4..6] == [0, 1] && p[6..8] == Be16(count) && p[8..12] == [0, 0, 0, 0]
  {
    hide Be16;
  }

  /** The bits of the flags word that the modes set: response, truncation, reserved, and the response code. */
  predicate IsResponse(flags: nat) { flags / 0x8000 % 2 == 1 }
  predicate IsTruncated(flags: nat) { flags / 0x0200 % 2 == 1 }
  predicate UsesReserved(flags: nat) { flags / 0x0040 % 2 == 1 }
  function ResponseCode(flags: nat): nat { flags % 16 }

  lemma FlagsMean(mode: Mode, request: nat)
    ensures var f := Flags(mode, request);
            && f < 65536 && IsResponse(f) && (IsTruncated(f) <==> mode.TruncationFlag?)
            && (UsesReserved(f) <==> mode.ReservedZBit?)
            && ResponseCode(f) == if mode.NxDomain? then 3 else if mode.ServfailThenValid? && request == 1 then 2 else 0
  {}

  lemma FlipsLowBit(b: Byte)
    ensures b ^ 1 != b
  {}

  /**
    * The header of a response carries the id of the query unless the mode is to break it, is marked as a
    * response, and has the code, the truncation flag and the reserved bit that the mode asks for, one
    * question, and no other records than answers.
    */
  lemma HeaderReads(query: Text, mode: Mode, base: Text, request: nat)
    requires |base| == 4 && |query| < 0x4000 && ParseQuestion(query).Asked?
    ensures var x := Response(query, mode, base, request);
            && x.Some? && |x.value| >= HEADER && |query| >= 2
            && var p := x.value;
               var flags := Number(p, 2);
               && p[0] == query[0] && (p[1] == query[1] <==> !mode.WrongId?)
               && IsResponse(flags) && (IsTruncated(flags) <==> mode.TruncationFlag?)
               && (UsesReserved(flags) <==> mode.ReservedZBit?)
               && ResponseCode(flags)
                  == (if mode.NxDomain? then 3 else if mode.ServfailThenValid? && request == 1 then 2 else 0)
               && Number(p, 4) == 1 && Number(p, 8) == 0 && Number(p, 10) == 0
  {
    hide ParseQuestion, Answers, Packet, Flags, Number;
    QuestionIsRest(query);
    FlagsMean(mode, request);
    FlipsLowBit(query[1]);
    var id := [query[0], if mode.WrongId? then query[1] ^ 1 else query[1]];
    var asked := ParseQuestion(query);
    var (count, answers) := Answers(mode, base, request, |asked.question|);
    CountFits(mode, base, request, |asked.question|);
    var question := if mode.MismatchedQuestion? then DIFFERENT + [0, 1, 0, 1] else asked.question;
    var p := Packet(id, Flags(mode, request), count, question, answers);
    assert Response(query, mode, base, request) == Some(p);
    HeaderParts(id, Flags(mode, request), count, question, answers);
    assert p[0] == p[..2][0] && p[1] == p[..2][1];
    NumberInside(p, 2, Flags(mode, request));
    RestOfHeader(p);
  }

  lemma CountFits(mode: Mode, base: Text, request: nat, questionLength: nat)
    requires |base| == 4 && HEADER + questionLength < 0x4000
    ensures Answers(mode, base, request, questionLength).0 <= 6
  {}

  lemma RestOfHeader(p: Text)
    requires |p| >= HEADER && p[4..6] == [0, 1] && p[8..12] == [0, 0, 0, 0]
    ensures Number(p, 4) == 1 && Number(p, 8) == 0 && Number(p, 10) == 0
  {
    assert p[4] == p[4..6][0] && p[5] == p[4..6][1];
    assert p[8] == p[8..12][0] && p[9] == p[8..12][1] && p[10] == p[8..12][2] && p[11] == p[8..12][3];
  }

  /** ASCII is what fits in seven bits. */
  lemma AsciiIsSevenBits(text: Text)
    ensures Ascii(text) <==> forall i | 0 <= i < |text| :: text[i] >> 7 == 0
  {
    forall i | 0 <= i < |text| ensures text[i] < 0x80 <==> text[i] >> 7 == 0 {
      SevenBits(text[i]);
    }
  }

  lemma SevenBits(b: Byte)
    ensures b < 0x80 <==> b >> 7 == 0
  {}

  /** The shortest query is the one for the root, and it is understood. */
  lemma RootIsUnderstood(query: Text)
    requires |query| == HEADER + 5 && query[HEADER] == 0
    ensures ParseQuestion(query) == Asked([], query[HEADER..])
  {
    assert query[HEADER..][0] == 0;
  }

  // ----- Counting the records -----

  /** How many bytes the name at the beginning takes; a pointer ends it. */
  function NameLength(s: Text): Option<nat> {
    if s != [] && s[0] >= 0xc0 then (if |s| >= 2 then Some(2) else None)
    else
      var x := ReadLabels(s);
      if x.BadName? then None else Some(x.used)
  }

  /** How many bytes the record at the beginning takes: name, type, class, time to live, data length and data. */
  function RecordLength(s: Text): (n: Option<nat>)
    ensures n.Some? ==> 0 < n.value <= |s|
  {
    var name := NameLength(s);
    if name.None? || name.value + 10 > |s| then None
    else
      var length := name.value + 10 + Number(s, name.value + 8);
      if length > |s| then None else Some(length)
  }

  /** How many records the bytes are, None if they are not records throughout. */
  function CountRecords(s: Text): Option<nat>
    decreases |s|
  {
    if s == [] then Some(0)
    else
      var n := RecordLength(s);
      if n.None? then None
      else
        var rest := CountRecords(s[n.value..]);
        if rest.None? then None else Some(rest.value + 1)
  }

  /** A name that reads in full, whatever follows it. */
  ghost predicate IsName(owner: Text) {
    owner != [] && forall rest: Text :: NameLength(owner + rest) == Some(|owner|)
  }

  lemma PointerIsName(owner: Text)
    requires |owner| == 2 && owner[0] >= 0xc0
    ensures IsName(owner)
  {
    forall rest: Text ensures NameLength(owner + rest) == Some(|owner|) {
      assert (owner + rest)[0] == owner[0];
    }
  }

  /** A record behind a name: eight bytes of type, class and time to live, and data behind its length. */
  function Record(owner: Text, kind: Text, data: Text): Text
    requires |kind| == 8 && |data| < 256
  {
    owner + (kind + [0, |data| as bv8] + data)
  }

  lemma LengthBytes(owner: Text, kind: Text, data: Text, rest: Text)
    requires |kind| == 8 && |data| < 256
    ensures var s, n := Record(owner, kind, data) + rest, |owner|;
            && s == owner + ((kind + [0, |data| as bv8] + data) + rest) && |s| == n + 10 + |data| + |rest|
            && s[n + 8] == 0 && s[n + 9] == |data| as bv8 && s[n + 10 + |data|..] == rest
  {}

  lemma LengthOfRecord(owner: Text, kind: Text, data: Text, rest: Text)
    requires IsName(owner) && |kind| == 8 && |data| < 256
    ensures RecordLength(Record(owner, kind, data) + rest) == Some(|owner| + 10 + |data|)
  {
    hide NameLength, Record;
    LengthBytes(owner, kind, data, rest);
    ByteRoundTrip(|data|);
    assert NameLength(owner + ((kind + [0, |data| as bv8] + data) + rest)) == Some(|owner|);
  }

  lemma RecordCounted(owner: Text, kind: Text, data: Text, rest: Text)
    requires IsName(owner) && |kind| == 8 && |data| < 256
    ensures CountRecords(Record(owner, kind, data) + rest)
            == if CountRecords(rest).Some? then Some(CountRecords(rest).value + 1) else None
  {
    hide Record, RecordLength, IsName;
    LengthBytes(owner, kind, data, rest);
    LengthOfRecord(owner, kind, data, rest);
  }

  lemma ARecordCounted(owner: Text, address: Text, rest: Text)
    requires IsName(owner) && |address| == 4
    ensures CountRecords(ARecord(owner, address) + rest)
            == if CountRecords(rest).Some? then Some(CountRecords(rest).value + 1) else None
  {
    hide CountRecords, IsName;
    var kind: Text := [0, 1, 0, 1, 0, 0, 0, 60];
    RecordCounted(owner, kind, address, rest);
    assert Record(owner, kind, address) == ARecord(owner, address);
  }

  lemma OneARecord(owner: Text, address: Text)
    requires IsName(owner) && |address| == 4
    ensures CountRecords(ARecord(owner, address)) == Some(1)
  {
    hide IsName, ARecord;
    ARecordCounted(owner, address, []);
    assert ARecord(owner, address) + [] == ARecord(owner, address);
  }

  lemma OwnerIsName()
    ensures IsName(OWNER)
  {
    PointerIsName(OWNER);
  }

  lemma {:induction false} RecordsCounted(addresses: seq<Text>)
    requires FourBytes(addresses)
    ensures CountRecords(Records(addresses)) == Some(|addresses|)
    decreases |addresses|
  {
    hide IsName, ARecord, CountRecords;
    if addresses == [] {
      NoneCounted();
    } else {
      OwnerIsName();
      RecordsCounted(addresses[1..]);
      ARecordCounted(OWNER, addresses[0], Records(addresses[1..]));
    }
  }

  lemma NoneCounted()
    ensures CountRecords([]) == Some(0)
  {}

  lemma CnameCounted()
    ensures CountRecords(CnameRecord(OWNER)) == Some(1)
  {
    hide IsName, CountRecords;
    OwnerIsName();
    var kind: Text := [0, 5, 0, 1, 0, 0, 0, 60];
    RecordCounted(OWNER, kind, ALIAS, []);
    NoneCounted();
    assert Record(OWNER, kind, ALIAS) + [] == CnameRecord(OWNER);
  }

  /** Two labels and the root, uncompressed. */
  lemma TwoLabelsAreName(owner: Text, a: Label, b: Label)
    requires GoodLabel(a) && GoodLabel(b) && owner == Wire([a, b])
    ensures IsName(owner)
  {
    forall rest: Text ensures NameLength(owner + rest) == Some(|owner|) {
      ReadWritten([a, b], rest);
      LengthIsNoPointer(owner[0]);
    }
  }

  lemma WireOfTwo(a: Label, b: Label)
    requires |a| <= 255 && |b| <= 255 && Ascii(a) && Ascii(b)
    ensures Wire([a, b]) == [|a| as bv8] + a + [|b| as bv8] + b + [0]
  {
    assert [a, b][1..] == [b] && [b][1..] == [];
    assert Prefixed([b]) == [|b| as bv8] + b + Prefixed([]);
  }

  const TEST: Text := [0x74, 0x65, 0x73, 0x74]
  const UNRELATED_LABEL: Text := [0x75, 0x6e, 0x72, 0x65, 0x6c, 0x61, 0x74, 0x65, 0x64]
  const SERVICE_LABEL: Text := [0x5f, 0x73, 0x65, 0x72, 0x76, 0x69, 0x63, 0x65]

  lemma UnrelatedIsName()
    ensures IsName(UNRELATED)
  {
    hide IsName, Wire;
    WireOfTwo(UNRELATED_LABEL, TEST);
    TwoLabelsAreName(UNRELATED, UNRELATED_LABEL, TEST);
  }

  lemma ServiceIsName()
    ensures IsName(SERVICE)
  {
    hide IsName, Wire;
    WireOfTwo(SERVICE_LABEL, TEST);
    TwoLabelsAreName(SERVICE, SERVICE_LABEL, TEST);
  }

  lemma PointerByte(n: nat)
    requires 192 <= n < 256
    ensures n as bv8 >= 0xc0
  {
    if n < 224 {
    }
  }

  lemma LoopIsName(offset: nat)
    requires offset < 0x4000
    ensures IsName(Be16(0xc000 + offset))
  {
    hide IsName;
    PointerByte((0xc000 + offset) / 256);
    PointerIsName(Be16(0xc000 + offset));
  }

  lemma AnswersCounted(mode: Mode, base: Text, request: nat, questionLength: nat)
    requires |base| == 4 && HEADER + questionLength < 0x4000
    ensures var (count, answers) := Answers(mode, base, request, questionLength); CountRecords(answers) == Some(count)
  {
    hide IsName, ARecord, CountRecords, Be16, Records, CnameRecord;
    OwnerIsName();
    match mode
    case BadPointer =>
      PointerIsName([0xc0, 0xff]);
      OneARecord([0xc0, 0xff], base);
    case PointerLoop =>
      LoopIsName(HEADER + questionLength);
      OneARecord(Be16(0xc000 + HEADER + questionLength), base);
    case UnrelatedOwner =>
      UnrelatedIsName();
      OneARecord(UNRELATED, base);
    case CnameOnly => CnameCounted();
    case UnusualUnrelatedOwner =>
      ServiceIsName();
      OneARecord(OWNER, base);
      ARecordCounted(SERVICE, [10, 0, 0, 1], ARecord(OWNER, base));
    case _ => RecordsCounted(Addresses(mode, base, request));
  }

  /** In every mode the answer count of the header is the number of records that follow the question. */
  lemma CountMatches(query: Text, mode: Mode, base: Text, request: nat)
    requires |base| == 4 && |query| < 0x4000 && ParseQuestion(query).Asked?
    ensures var p := Response(query, mode, base, request).value;
            var question := if mode.MismatchedQuestion? then DIFFERENT + [0, 1, 0, 1] else ParseQuestion(query).question;
            && HEADER + |question| <= |p| && p[HEADER..HEADER + |question|] == question
            && CountRecords(p[HEADER + |question|..]) == Some(Number(p, 6))
  {
    hide ParseQuestion, Answers, Packet, Flags, Number, CountRecords;
    QuestionIsRest(query);
    FlagsMean(mode, request);
    var id := [query[0], if mode.WrongId? then query[1] ^ 1 else query[1]];
    var asked := ParseQuestion(query);
    var (count, answers) := Answers(mode, base, request, |asked.question|);
    CountFits(mode, base, request, |asked.question|);
    AnswersCounted(mode, base, request, |asked.question|);
    var question := if mode.MismatchedQuestion? then DIFFERENT + [0, 1, 0, 1] else asked.question;
    var p := Packet(id, Flags(mode, request), count, question, answers);
    HeaderParts(id, Flags(mode, request), count, question, answers);
    PacketParts(id, Flags(mode, request), count, question, answers);
    NumberInside(p, 6, count);
  }

  /** Which modes answer nothing. */
  predicate Silent(mode: Mode, request: nat) {
    || mode.NxDomain? || mode.WrongId? || mode.TruncationFlag? || mode.MismatchedQuestion? || mode.ZeroAddress?
    || mode.ReservedZBit? || (mode.ServfailThenValid? && request == 1)
  }

  /**
    * A response has answers exactly if its mode is not silent, and a plain query for a name is answered with the
    * address the server was given, found under that name.
    */
  lemma BaseIsFound(query: Text, mode: Mode, base: Text, request: nat)
    requires |base| == 4 && |query| < 0x4000 && ParseQuestion(query).Asked?
    ensures var p, asked := Response(query, mode, base, request).value, ParseQuestion(query);
            && |p| >= HEADER && (Number(p, 6) == 0 <==> Silent(mode, request))
            && (mode.Valid? || (mode.ServfailThenValid? && request != 1) ==>
                  Number(p, 6) == 1 && AnswerAt(p, HEADER + |asked.question|, base, asked.name))
  {
    hide ParseQuestion, Answers, Packet, Flags, Number, CountRecords, AnswerAt;
    QuestionIsRest(query);
    FlagsMean(mode, request);
    var id := [query[0], if mode.WrongId? then query[1] ^ 1 else query[1]];
    var asked := ParseQuestion(query);
    var (count, answers) := Answers(mode, base, request, |asked.question|);
    CountFits(mode, base, request, |asked.question|);
    CountOfMode(mode, base, request, |asked.question|);
    var question := if mode.MismatchedQuestion? then DIFFERENT + [0, 1, 0, 1] else asked.question;
    HeaderParts(id, Flags(mode, request), count, question, answers);
    NumberInside(Packet(id, Flags(mode, request), count, question, answers), 6, count);
    if mode.Valid? || (mode.ServfailThenValid? && request != 1) {
      AnswersResolve(query, mode, base, request, 0);
    }
  }

  lemma CountOfMode(mode: Mode, base: Text, request: nat, questionLength: nat)
    requires |base| == 4 && HEADER + questionLength < 0x4000
    ensures var count := Answers(mode, base, request, questionLength).0;
            (count == 0 <==> Silent(mode, request)) && (mode.Valid? || (mode.ServfailThenValid? && request != 1) ==> count == 1)
  {}

  /** The modes with several answers give different addresses in ascending order, or the server's own twice. */
  lemma AddressesOfMode(mode: Mode, base: Text, request: nat)
    requires |base| == 4
    ensures var x := Addresses(mode, base, request);
            && (mode.Multiple? || mode.Many? ==>
                  && |x| == (if mode.Many? then 6 else 3)
                  && forall i | 0 <= i < |x| :: x[i] == [10, 20, 30, (i + 1) as bv8])
            && (mode.Duplicate? ==> x == [base, base])
  {}

  // ----- Pointers -----

  lemma Unmarked(b: Byte)
    requires b >= 0xc0
    ensures (b & 0x3f) == b - 0xc0 && (b - 0xc0) as nat == b as nat - 192
  {}

  /** The two bytes of a pointer to an offset lead to that offset. */
  lemma PointerReaches(offset: nat)
    requires offset < 0x4000
    ensures Be16(0xc000 + offset)[0] >= 0xc0
    ensures Target(Be16(0xc000 + offset)[0], Be16(0xc000 + offset)[1]) == offset
  {
    PointerByte((0xc000 + offset) / 256);
    Unmarked(((0xc000 + offset) / 256) as bv8);
    ByteRoundTrip((0xc000 + offset) / 256);
    ByteRoundTrip(offset % 256);
  }

  lemma OwnerComesFirst(p: Text, at: nat, owner: Text, address: Text)
    requires |owner| == 2 && |address| == 4 && EndsIn(p, at, ARecord(owner, address))
    ensures at + 2 <= |p| && p[at] == owner[0] && p[at + 1] == owner[1]
  {
    var record := ARecord(owner, address);
    assert record[0] == owner[0] && record[1] == owner[1];
    assert p[at..][0] == p[at] && p[at..][1] == p[at + 1];
  }

  lemma PointerAt(p: Text, at: nat)
    requires at + 2 <= |p| && p[at] >= 0xc0
    ensures var target := Target(p[at], p[at + 1]);
            ReadName(p, at, at) == if target >= at then None else ReadName(p, target, target)
  {
    hide Target;
  }

  lemma LastPointerOfByte()
    ensures Target(0xc0, 0xff) == 255
  {}

  /**
    * The answer of the pointer loop never has a readable owner, whatever was asked. That of the bad pointer has
    * none either, unless the question is long enough to reach the byte it points to.
    */
  lemma PointersMislead(query: Text, mode: Mode, base: Text, request: nat)
    requires |base| == 4 && |query| < 0x4000 && ParseQuestion(query).Asked? && (mode.PointerLoop? || mode.BadPointer?)
    ensures var p, at := Response(query, mode, base, request).value, HEADER + |ParseQuestion(query).question|;
            && at < |p|
            && ReadName(p, at, at) == if mode.BadPointer? && at > 255 then ReadName(p, 255, 255) else None
  {
    hide ParseQuestion, Packet, Flags, Be16, ARecord, ReadName, Target, EndsIn, Contains;
    QuestionIsRest(query);
    FlagsMean(mode, request);
    var question := ParseQuestion(query).question;
    var (id, flags, at) := ([query[0], query[1]], Flags(mode, request), HEADER + |question|);
    var owner := if mode.BadPointer? then [0xc0, 0xff] else Be16(0xc000 + at);
    var p := Packet(id, flags, 1, question, ARecord(owner, base));
    PacketParts(id, flags, 1, question, ARecord(owner, base));
    OwnerComesFirst(p, at, owner, base);
    LastPointerOfByte();
    PointerReaches(at);
    PointerAt(p, at);
  }
}
