// The name encoding, the question parser and the responses of the DNS mock server
// (sections 3.1, 4.1.2 and 4.1.4 of RFC 1035).
module Dns {
  import opened Bytes
  import opened Wrappers

  const DOT: Byte := 0x2e
  const LABEL_MAX: nat := 63
  const HEADER: nat := 12

  type Label = Text

  // ----- Names as text -----

  /** The pieces between the dots; a text without dots is one piece. */
  function Split(name: Text): (labels: seq<Label>)
    ensures labels != []
    ensures forall i | 0 <= i < |labels| :: DOT !in labels[i]
  {
    if name == [] then [[]]
    else
      var rest := Split(name[1..]);
      if name[0] == DOT then [[]] + rest else [[name[0]] + rest[0]] + rest[1..]
  }

  function Join(labels: seq<Label>): Text {
    if labels == [] then [] else if |labels| == 1 then labels[0] else labels[0] + [DOT] + Join(labels[1..])
  }

  lemma {:induction false} JoinOfSplit(name: Text)
    ensures Join(Split(name)) == name
  {
    if name != [] {
      var rest := Split(name[1..]);
      JoinOfSplit(name[1..]);
      if name[0] == DOT {
        assert ([[]] + rest)[1..] == rest;
        assert [] + [DOT] + name[1..] == name;
      } else {
        JoinPrepends(name[0], rest);
        assert [name[0]] + name[1..] == name;
      }
    }
  }

  lemma JoinPrepends(b: Byte, labels: seq<Label>)
    requires labels != []
    ensures Join([[b] + labels[0]] + labels[1..]) == [b] + Join(labels)
  {
    var longer := [[b] + labels[0]] + labels[1..];
    assert longer[1..] == labels[1..];
    if |labels| > 1 {
      assert [b] + labels[0] + [DOT] + Join(labels[1..]) == [b] + (labels[0] + [DOT] + Join(labels[1..]));
    }
  }

  // ----- Names on the wire -----

  predicate Ascii(text: Text) {
    forall i | 0 <= i < |text| :: text[i] < 0x80
  }

  /** A label can be written if it is ASCII and its length fits in a byte. */
  predicate Writable(labels: seq<Label>) {
    forall i | 0 <= i < |labels| :: |labels[i]| <= 255 && Ascii(labels[i])
  }

  /** Each label behind its length. */
  function Prefixed(labels: seq<Label>): Text
    requires Writable(labels)
  {
    if labels == [] then [] else [|labels[0]| as bv8] + labels[0] + Prefixed(labels[1..])
  }

  /** The labels and a zero at the end. */
  function Wire(labels: seq<Label>): Text
    requires Writable(labels)
  {
    Prefixed(labels) + [0]
  }

  predicate GoodLabel(piece: Label) {
    1 <= |piece| <= LABEL_MAX && Ascii(piece)
  }

  predicate GoodLabels(labels: seq<Label>) {
    forall i | 0 <= i < |labels| :: GoodLabel(labels[i])
  }

  /** The labels at the beginning of some bytes and how many bytes they take. */
  datatype NameParse = BadName | Name(labels: seq<Label>, used: nat)

  function ReadLabels(s: Text): (x: NameParse)
    ensures x.Name? ==> x.used <= |s|
    decreases |s|
  {
    if s == [] then BadName
    else if s[0] == 0 then Name([], 1)
    else
      var n := s[0] as nat;
      if n > LABEL_MAX || 1 + n > |s| || !Ascii(s[1..1 + n]) then BadName
      else Prepend(s[1..1 + n], ReadLabels(s[1 + n..]))
  }

  function Prepend(piece: Label, x: NameParse): NameParse {
    if x.BadName? then BadName else Name([piece] + x.labels, x.used + 1 + |piece|)
  }

  datatype Question = Malformed | Asked(name: Text, question: Text)

  function ParseQuestion(query: Text): Question {
    if |query| < 17 then Malformed
    else
      var x := ReadLabels(query[HEADER..]);
      if x.BadName? || HEADER + x.used + 4 != |query| then Malformed
      else Asked(Join(x.labels), query[HEADER..])
  }

  lemma ZeroLength(b: Byte)
    ensures b as nat == 0 <==> b == 0
  {}

  lemma WireStep(piece: Label, rest: Text)
    requires |piece| <= 255
    ensures var s := [|piece| as bv8] + piece + rest;
            && (piece == [] ==> ReadLabels(s) == Name([], 1))
            && (|piece| > LABEL_MAX ==> ReadLabels(s) == BadName)
            && (GoodLabel(piece) ==> ReadLabels(s) == Prepend(piece, ReadLabels(rest)))
  {
    var n := |piece|;
    var s := [n as bv8] + piece + rest;
    ByteRoundTrip(n);
    ZeroLength(n as bv8);
    assert s[1..1 + n] == piece && s[1 + n..] == rest;
  }

  lemma WireUnfolds(labels: seq<Label>, rest: Text)
    requires Writable(labels) && labels != []
    ensures Wire(labels) + rest == [|labels[0]| as bv8] + labels[0] + (Wire(labels[1..]) + rest)
    ensures |Wire(labels)| == 1 + |labels[0]| + |Wire(labels[1..])|
  {}

  /** Reading what was written gives the labels back, whatever follows. */
  lemma {:induction false} ReadWritten(labels: seq<Label>, rest: Text)
    requires GoodLabels(labels)
    ensures ReadLabels(Wire(labels) + rest) == Name(labels, |Wire(labels)|)
    decreases |labels|
  {
    hide ReadLabels;
    if labels == [] {
      WireStep([], rest);
      assert Wire(labels) + rest == [0] + [] + rest;
    } else {
      hide Wire;
      ReadWritten(labels[1..], rest);
      WireStep(labels[0], Wire(labels[1..]) + rest);
      WireUnfolds(labels, rest);
      assert [labels[0]] + labels[1..] == labels;
    }
  }

  /** An empty or overlong label is not read back: the name is refused or ends early. */
  lemma {:induction false} BadLabelIsNoticed(labels: seq<Label>, rest: Text)
    requires Writable(labels) && !GoodLabels(labels)
    ensures var x := ReadLabels(Wire(labels) + rest); x.BadName? || x.used < |Wire(labels)|
    decreases |labels|
  {
    hide ReadLabels, Wire, Ascii;
    WireUnfolds(labels, rest);
    WireStep(labels[0], Wire(labels[1..]) + rest);
    WireNotEmpty(labels[1..]);
    if GoodLabel(labels[0]) {
      assert labels == [labels[0]] + labels[1..];
      BadLabelIsNoticed(labels[1..], rest);
    }
  }

  lemma WireNotEmpty(labels: seq<Label>)
    requires Writable(labels)
    ensures |Wire(labels)| > 0
  {}

  /** A name is asked for and understood exactly if each of its labels has 1 to 63 bytes. */
  lemma QuestionRoundTrip(header: Text, name: Text, tail: Text)
    requires |header| == HEADER && |tail| == 4 && Writable(Split(name))
    ensures var wire := Wire(Split(name));
            if GoodLabels(Split(name)) then ParseQuestion(header + wire + tail) == Asked(name, wire + tail)
            else ParseQuestion(header + wire + tail) == Malformed
  {
    var labels := Split(name);
    var query := header + Wire(labels) + tail;
    assert query[HEADER..] == Wire(labels) + tail;
    JoinOfSplit(name);
    if GoodLabels(labels) {
      ReadWritten(labels, tail);
    } else {
      BadLabelIsNoticed(labels, tail);
    }
  }

  // ----- The two loops -----

  lemma PrefixedUnfolds(first: Label, rest: seq<Label>)
    requires Writable([first] + rest) && Writable(rest)
    ensures |first| <= 255 && Prefixed([first] + rest) == [|first| as bv8] + first + Prefixed(rest)
  {
    assert ([first] + rest)[0] == first && ([first] + rest)[1..] == rest;
  }

  lemma WritableParts(a: seq<Label>, b: seq<Label>)
    ensures Writable(a + b) <==> Writable(a) && Writable(b)
  {
    if Writable(a + b) {
      assert forall i | 0 <= i < |a| :: (a + b)[i] == a[i];
      assert forall i | 0 <= i < |b| :: (a + b)[|a| + i] == b[i];
    }
  }

  lemma {:induction false} PrefixedAppend(labels: seq<Label>, piece: Label)
    requires Writable(labels) && Writable([piece])
    ensures Writable(labels + [piece]) && |[piece][0]| <= 255
    ensures Prefixed(labels + [piece]) == Prefixed(labels) + [|piece| as bv8] + piece
    decreases |labels|
  {
    WritableParts(labels, [piece]);
    if labels == [] {
      assert labels + [piece] == [piece] + [];
      PrefixedUnfolds(piece, []);
    } else {
      var first, rest := labels[0], labels[1..];
      assert labels == [first] + rest && labels + [piece] == [first] + (rest + [piece]);
      WritableParts([first], rest);
      WritableParts(rest, [piece]);
      PrefixedAppend(rest, piece);
      hide Prefixed, Writable, Ascii;
      PrefixedUnfolds(first, rest);
      PrefixedUnfolds(first, rest + [piece]);
      Regroup([|first| as bv8] + first, Prefixed(rest), [|piece| as bv8], piece);
    }
  }

  lemma Regroup(a: Text, b: Text, c: Text, d: Text)
    ensures a + (b + c + d) == a + b + c + d
  {}

  method EncodeName(name: Text) returns (wire: Option<Text>)
    ensures wire == if Writable(Split(name)) then Some(Wire(Split(name))) else None
  {
    var labels := Split(name);
    var buffer: Text := [];
    var i := 0;
    assert labels[..0] == [];
    while i < |labels|
      invariant 0 <= i <= |labels| && Writable(labels[..i])
      invariant Prefixed(labels[..i]) == buffer
    {
      var ascii := IsAscii(labels[i]);
      if !ascii || |labels[i]| > 255 {
        return None;
      }
      assert Writable([labels[i]]);
      PrefixedAppend(labels[..i], labels[i]);
      assert labels[..i + 1] == labels[..i] + [labels[i]];
      buffer := buffer + [|labels[i]| as bv8] + labels[i];
      i := i + 1;
    }
    assert labels[..i] == labels;
    return Some(buffer + [0]);
  }

  method IsAscii(text: Text) returns (ascii: bool)
    ensures ascii <==> Ascii(text)
  {
    var i := 0;
    while i < |text|
      invariant 0 <= i <= |text| && forall k | 0 <= k < i :: text[k] < 0x80
    {
      if text[i] >= 0x80 {
        return false;
      }
      i := i + 1;
    }
    return true;
  }

  /** Some labels and their bytes in front of what is still to be read. */
  function After(labels: seq<Label>, used: nat, x: NameParse): NameParse {
    if x.BadName? then BadName else Name(labels + x.labels, used + x.used)
  }

  lemma ReadLabelsStep(t: Text, n: nat)
    requires t != [] && t[0] != 0 && n == t[0] as nat && n <= LABEL_MAX && 1 + n <= |t| && Ascii(t[1..1 + n])
    ensures ReadLabels(t) == Prepend(t[1..1 + n], ReadLabels(t[1 + n..]))
  {}

  lemma AfterPrepend(labels: seq<Label>, used: nat, piece: Label, x: NameParse)
    ensures After(labels, used, Prepend(piece, x)) == After(labels + [piece], used + 1 + |piece|, x)
  {
    if x.Name? {
      assert labels + ([piece] + x.labels) == labels + [piece] + x.labels;
    }
  }

  lemma ReadRefuses(s: Text, k: nat)
    requires k < |s| && s[k] != 0
    requires s[k] as nat > LABEL_MAX || k + 1 + s[k] as nat > |s| || !Ascii(s[k + 1..k + 1 + s[k] as nat])
    ensures ReadLabels(s[k..]) == BadName
  {
    var n := s[k] as nat;
    if k + 1 + n <= |s| {
      assert s[k..][1..1 + n] == s[k + 1..k + 1 + n];
    }
  }

  /** One round of the parser's loop: a label, the end of the name, or a refusal. */
  datatype Round = Piece(piece: Label) | End | Refusal

  lemma ReadEnds(s: Text, offset: nat)
    requires offset <= |s|
    ensures offset == |s| ==> ReadLabels(s[offset..]) == BadName
    ensures offset < |s| && s[offset] == 0 ==> ReadLabels(s[offset..]) == Name([], 1)
  {}

  method NextPiece(s: Text, offset: nat) returns (r: Round)
    requires offset <= |s|
    ensures r.Refusal? ==> ReadLabels(s[offset..]) == BadName
    ensures r.End? ==> offset < |s| && ReadLabels(s[offset..]) == Name([], 1)
    ensures r.Piece? ==> offset + 1 + |r.piece| <= |s|
    ensures r.Piece? ==> ReadLabels(s[offset..]) == Prepend(r.piece, ReadLabels(s[offset + 1 + |r.piece|..]))
  {
    hide ReadLabels;
    if offset >= |s| {
      ReadEnds(s, offset);
      return Refusal;
    }
    var length := s[offset] as nat;
    ZeroLength(s[offset]);
    if length == 0 {
      ReadEnds(s, offset);
      return End;
    }
    if length > LABEL_MAX || offset + 1 + length > |s| {
      ReadRefuses(s, offset);
      return Refusal;
    }
    var piece := s[offset + 1..offset + 1 + length];
    var ascii := IsAscii(piece);
    if !ascii {
      ReadRefuses(s, offset);
      return Refusal;
    }
    SliceOfRest(s, offset, 1, 1 + length);
    assert s[offset..][1 + length..] == s[offset + 1 + length..];
    ReadLabelsStep(s[offset..], length);
    return Piece(piece);
  }

  method ParseLabels(s: Text) returns (x: NameParse)
    ensures x == ReadLabels(s)
  {
    var offset := 0;
    var labels: seq<Label> := [];
    assert s[0..] == s && ReadLabels(s) == After([], 0, ReadLabels(s));
    hide ReadLabels;
    while true
      invariant 0 <= offset <= |s|
      invariant ReadLabels(s) == After(labels, offset, ReadLabels(s[offset..]))
      decreases |s| - offset
    {
      var r := NextPiece(s, offset);
      if r.Refusal? {
        return BadName;
      }
      if r.End? {
        assert labels + [] == labels;
        return Name(labels, offset + 1);
      }
      AfterPrepend(labels, offset, r.piece, ReadLabels(s[offset + 1 + |r.piece|..]));
      labels := labels + [r.piece];
      offset := offset + 1 + |r.piece|;
    }
  }

  method RunParseQuestion(query: Text) returns (result: Question)
    ensures result == ParseQuestion(query)
  {
    if |query| < 17 {
      return Malformed;
    }
    var x := ParseLabels(query[HEADER..]);
    if x.BadName? || HEADER + x.used + 4 != |query| {
      return Malformed;
    }
    return Asked(Join(x.labels), query[HEADER..HEADER + x.used + 4]);
  }

  // ----- Compressed names -----

  function Target(high: Byte, low: Byte): nat {
    (high & 0x3f) as nat * 256 + low as nat
  }

  /** A name in a packet; a pointer leads to a name that begins before the present one. */
  function ReadName(p: Text, at: nat, start: nat): Option<seq<Label>>
    requires at <= |p|
    decreases start, |p| - at
  {
    if at == |p| then None
    else if p[at] == 0 then Some([])
    else if p[at] >= 0xc0 then
      if at + 1 == |p| then None
      else
        var target := Target(p[at], p[at + 1]);
        if target >= start || target > |p| then None else ReadName(p, target, target)
    else
      var n := p[at] as nat;
      if n > LABEL_MAX || at + 1 + n > |p| then None
      else AddLabel(p[at + 1..at + 1 + n], ReadName(p, at + 1 + n, start))
  }

  function AddLabel(piece: Label, x: Option<seq<Label>>): Option<seq<Label>> {
    if x.None? then None else Some([piece] + x.value)
  }

  lemma LengthIsNoPointer(b: Byte)
    requires b as nat <= LABEL_MAX
    ensures b < 0xc0
  {}

  /** A label is read alike from a packet and from the bytes behind its beginning. */
  lemma SameLabel(p: Text, at: nat, start: nat)
    requires at < |p| && p[at] != 0 && ReadLabels(p[at..]).Name?
    ensures var n := p[at] as nat;
            && at + 1 + n <= |p| && ReadLabels(p[at + 1 + n..]).Name?
            && ReadLabels(p[at..]) == Prepend(p[at + 1..at + 1 + n], ReadLabels(p[at + 1 + n..]))
            && ReadName(p, at, start) == AddLabel(p[at + 1..at + 1 + n], ReadName(p, at + 1 + n, start))
  {
    hide Target;
    var s := p[at..];
    var n := s[0] as nat;
    LengthIsNoPointer(s[0]);
    assert n <= LABEL_MAX && 1 + n <= |s|;
    assert s[1..1 + n] == p[at + 1..at + 1 + n];
    assert s[1 + n..] == p[at + 1 + n..];
  }

  /** A name that reads from some bytes reads from a packet holding them. */
  lemma {:induction false} ReadNameInPlace(p: Text, at: nat, start: nat)
    requires at <= |p| && ReadLabels(p[at..]).Name?
    ensures ReadName(p, at, start) == Some(ReadLabels(p[at..]).labels)
    decreases |p| - at
  {
    if p[at..][0] == 0 {
      assert ReadLabels(p[at..]).labels == [];
    } else {
      SameLabel(p, at, start);
      hide ReadName, ReadLabels;
      ReadNameInPlace(p, at + 1 + p[at] as nat, start);
    }
  }

  // ----- Responses -----

  /** The modes that differ in what the packet says; all others answer like Valid. */
  datatype Mode =
    | Valid | Multiple | Duplicate | Many | NxDomain | ServfailThenValid | WrongId
    | TruncationFlag | MismatchedQuestion | BadPointer | PointerLoop | ZeroAddress | UnrelatedOwner | CnameOnly
    | UnusualUnrelatedOwner | ReservedZBit

  /** A pointer to the question. */
  const OWNER: Text := [0xc0, 0x0c]

  function Be16(n: nat): (s: Text)
    requires n < 65536
    ensures |s| == 2
  {
    [(n / 256) as bv8, (n % 256) as bv8]
  }

  function ARecord(owner: Text, address: Text): Text
    requires |address| == 4
  {
    owner + [0, 1, 0, 1, 0, 0, 0, 60, 0, 4] + address
  }

  /** alias.test.local */
  const ALIAS: Text := [5, 0x61, 0x6c, 0x69, 0x61, 0x73, 4, 0x74, 0x65, 0x73, 0x74, 5, 0x6c, 0x6f, 0x63, 0x61, 0x6c, 0]
  /** different.test */
  const DIFFERENT: Text := [9, 0x64, 0x69, 0x66, 0x66, 0x65, 0x72, 0x65, 0x6e, 0x74, 4, 0x74, 0x65, 0x73, 0x74, 0]
  /** unrelated.test */
  const UNRELATED: Text := [9, 0x75, 0x6e, 0x72, 0x65, 0x6c, 0x61, 0x74, 0x65, 0x64, 4, 0x74, 0x65, 0x73, 0x74, 0]
  /** _service.test */
  const SERVICE: Text := [8, 0x5f, 0x73, 0x65, 0x72, 0x76, 0x69, 0x63, 0x65, 4, 0x74, 0x65, 0x73, 0x74, 0]

  function CnameRecord(owner: Text): Text {
    owner + [0, 5, 0, 1, 0, 0, 0, 60, 0, 18] + ALIAS
  }

  function Flags(mode: Mode, request: nat): nat {
    match mode
    case NxDomain => 0x8183
    case ServfailThenValid => if request == 1 then 0x8182 else 0x8180
    case TruncationFlag => 0x8380
    case ReservedZBit => 0x81c0
    case _ => 0x8180
  }

  /** The addresses of the answers that point at the question; only some modes answer so. */
  function Addresses(mode: Mode, base: Text, request: nat): (addresses: seq<Text>)
    requires |base| == 4
    ensures FourBytes(addresses) && |addresses| <= 6
  {
    match mode
    case Multiple => [[10, 20, 30, 1], [10, 20, 30, 2], [10, 20, 30, 3]]
    case Duplicate => [base, base]
    case Many => [[10, 20, 30, 1], [10, 20, 30, 2], [10, 20, 30, 3], [10, 20, 30, 4], [10, 20, 30, 5], [10, 20, 30, 6]]
    case ServfailThenValid => if request == 1 then [] else [base]
    case Valid => [base]
    case _ => []
  }

  predicate FourBytes(addresses: seq<Text>) {
    forall i | 0 <= i < |addresses| :: |addresses[i]| == 4
  }

  function Records(addresses: seq<Text>): Text
    requires FourBytes(addresses)
  {
    if addresses == [] then [] else ARecord(OWNER, addresses[0]) + Records(addresses[1..])
  }

  /** The number of answers and their bytes. */
  function Answers(mode: Mode, base: Text, request: nat, questionLength: nat): (nat, Text)
    requires |base| == 4 && HEADER + questionLength < 0x4000
  {
    match mode
    case BadPointer => (1, ARecord([0xc0, 0xff], base))
    case PointerLoop => (1, ARecord(Be16(0xc000 + HEADER + questionLength), base))
    case UnrelatedOwner => (1, ARecord(UNRELATED, base))
    case CnameOnly => (1, CnameRecord(OWNER))
    case UnusualUnrelatedOwner => (2, ARecord(SERVICE, [10, 0, 0, 1]) + ARecord(OWNER, base))
    case _ => (|Addresses(mode, base, request)|, Records(Addresses(mode, base, request)))
  }

  function Packet(id: Text, flags: nat, count: nat, question: Text, answers: Text): Text
    requires |id| == 2 && flags < 65536 && count < 65536
  {
    id + Be16(flags) + [0, 1] + Be16(count) + [0, 0, 0, 0] + question + answers
  }

  /** None for a query that does not parse. */
  function Response(query: Text, mode: Mode, base: Text, request: nat): Option<Text>
    requires |base| == 4 && |query| < 0x4000
  {
    var asked := ParseQuestion(query);
    if asked.Malformed? then None
    else
      var id := [query[0], if mode.WrongId? then query[1] ^ 1 else query[1]];
      var question := if mode.MismatchedQuestion? then DIFFERENT + [0, 1, 0, 1] else asked.question;
      var (count, answers) := Answers(mode, base, request, |asked.question|);
      Some(Packet(id, Flags(mode, request), count, question, answers))
  }

  // ----- The answers point at the question -----

  /** A name that ends inside the first bytes of a packet ends there in any longer one. */
  lemma {:induction false} ReadLabelsInFront(s: Text, more: Text)
    requires ReadLabels(s).Name?
    ensures ReadLabels(s + more) == ReadLabels(s)
    decreases |s|
  {
    if s[0] != 0 {
      var n := s[0] as nat;
      assert (s + more)[1..1 + n] == s[1..1 + n] && (s + more)[1 + n..] == s[1 + n..] + more;
      ReadLabelsInFront(s[1 + n..], more);
    }
  }

  /** A pointer to the question leads to the name that was asked for. */
  lemma PointerFindsQuestion(p: Text, at: nat, question: Text)
    requires HEADER < at && at + 2 <= |p| && p[at..at + 2] == OWNER
    requires HEADER + |question| <= |p| && p[HEADER..HEADER + |question|] == question && ReadLabels(question).Name?
    ensures ReadName(p, at, at) == Some(ReadLabels(question).labels)
  {
    assert p[at] == 0xc0 && p[at + 1] == 0x0c by {
      assert p[at] == p[at..at + 2][0] && p[at + 1] == p[at..at + 2][1];
    }
    OwnerTarget();
    assert p[HEADER..] == question + p[HEADER + |question|..];
    ReadLabelsInFront(question, p[HEADER + |question|..]);
    ReadNameInPlace(p, HEADER, HEADER);
  }

  lemma OwnerTarget()
    ensures Target(0xc0, 0x0c) == HEADER
  {}

  lemma {:induction false} RecordAt(addresses: seq<Text>, i: nat)
    requires FourBytes(addresses) && i < |addresses|
    ensures |Records(addresses)| == 16 * |addresses|
    ensures Records(addresses)[16 * i..16 * i + 16] == ARecord(OWNER, addresses[i])
    decreases i
  {
    RecordsLength(addresses);
    if i > 0 {
      RecordAt(addresses[1..], i - 1);
      RecordsLength(addresses[1..]);
      assert Records(addresses)[16..] == Records(addresses[1..]);
      assert Records(addresses)[16 * i..16 * i + 16] == Records(addresses)[16..][16 * (i - 1)..16 * (i - 1) + 16];
    }
  }

  lemma {:induction false} RecordsLength(addresses: seq<Text>)
    requires FourBytes(addresses)
    ensures |Records(addresses)| == 16 * |addresses|
  {
    if addresses != [] {
      RecordsLength(addresses[1..]);
    }
  }

  /** The modes whose answers are records of the question's own name. */
  predicate AnswersQuestion(mode: Mode) {
    !mode.BadPointer? && !mode.PointerLoop? && !mode.UnrelatedOwner? && !mode.CnameOnly? && !mode.UnusualUnrelatedOwner?
    && !mode.MismatchedQuestion?
  }

  /** At this place of the packet is a record of the address, and its owner reads as the name. */
  predicate AnswerAt(p: Text, at: nat, address: Text, name: Text)
    requires |address| == 4
  {
    && at + 16 <= |p| && p[at..at + 16] == ARecord(OWNER, address)
    && ReadName(p, at, at).Some? && Join(ReadName(p, at, at).value) == name
  }

  predicate Contains(p: Text, at: nat, text: Text) {
    at + |text| <= |p| && p[at..at + |text|] == text
  }

  lemma OwnerResolves(p: Text, at: nat, question: Text, address: Text)
    requires |address| == 4 && ReadLabels(question).Name?
    requires HEADER + |question| <= at && Contains(p, HEADER, question) && Contains(p, at, ARecord(OWNER, address))
    ensures AnswerAt(p, at, address, Join(ReadLabels(question).labels))
  {
    hide ReadLabels, ReadName, Join, ARecord;
    NameNotEmpty(question);
    OwnerOfRecord(address);
    SliceOfSlice(p, at, 16, 2);
    PointerFindsQuestion(p, at, question);
  }

  lemma NameNotEmpty(s: Text)
    requires ReadLabels(s).Name?
    ensures |s| > 0
  {}

  predicate EndsIn(p: Text, at: nat, text: Text) {
    at <= |p| && p[at..] == text
  }

  lemma RecordIsThere(p: Text, k: nat, addresses: seq<Text>, i: nat)
    requires FourBytes(addresses) && i < |addresses| && EndsIn(p, k, Records(addresses))
    ensures Contains(p, k + 16 * i, ARecord(OWNER, addresses[i]))
  {
    hide Records, ARecord, FourBytes;
    RecordAt(addresses, i);
    RecordLength(addresses, i);
    OwnerOfRecord(addresses[i]);
    SliceOfRest(p, k, 16 * i, 16 * i + 16);
  }

  lemma RecordResolves(p: Text, question: Text, addresses: seq<Text>, i: nat)
    requires FourBytes(addresses) && i < |addresses| && ReadLabels(question).Name?
    requires Contains(p, HEADER, question) && EndsIn(p, HEADER + |question|, Records(addresses))
    ensures AnswerAt(p, HEADER + |question| + 16 * i, addresses[i], Join(ReadLabels(question).labels))
  {
    hide *;
    RecordIsThere(p, HEADER + |question|, addresses, i);
    RecordLength(addresses, i);
    OwnerResolves(p, HEADER + |question| + 16 * i, question, addresses[i]);
  }

  lemma RecordLength(addresses: seq<Text>, i: nat)
    requires FourBytes(addresses) && i < |addresses|
    ensures |addresses[i]| == 4
  {}

  lemma SliceOfRest(p: Text, k: nat, i: nat, j: nat)
    requires i <= j && k + j <= |p|
    ensures p[k..][i..j] == p[k + i..k + j]
  {}

  lemma SliceOfSlice(p: Text, at: nat, long: nat, short: nat)
    requires short <= long && at + long <= |p|
    ensures p[at..at + short] == p[at..at + long][..short]
  {}

  lemma OwnerOfRecord(address: Text)
    requires |address| == 4
    ensures |ARecord(OWNER, address)| == 16 && ARecord(OWNER, address)[..2] == OWNER
  {}

  /** Every normal answer is an address record whose owner reads as the name that was asked for. */
  lemma AnswersResolve(query: Text, mode: Mode, base: Text, request: nat, i: nat)
    requires |base| == 4 && |query| < 0x4000 && ParseQuestion(query).Asked? && AnswersQuestion(mode)
    requires i < |Addresses(mode, base, request)|
    ensures var asked := ParseQuestion(query);
            AnswerAt(Response(query, mode, base, request).value, HEADER + |asked.question| + 16 * i,
                     Addresses(mode, base, request)[i], asked.name)
  {
    hide ParseQuestion, Addresses, Records, ReadLabels, AnswerAt, Packet, Flags;
    QuestionIsRest(query);
    var question, addresses := query[HEADER..], Addresses(mode, base, request);
    var id := [query[0], if mode.WrongId? then query[1] ^ 1 else query[1]];
    FlagsFit(mode, request);
    PacketParts(id, Flags(mode, request), |addresses|, question, Records(addresses));
    RecordResolves(Packet(id, Flags(mode, request), |addresses|, question, Records(addresses)), question, addresses, i);
  }

  lemma FlagsFit(mode: Mode, request: nat)
    ensures Flags(mode, request) < 65536
  {}

  lemma QuestionIsRest(query: Text)
    requires ParseQuestion(query).Asked?
    ensures |query| >= 17 && ParseQuestion(query).question == query[HEADER..]
    ensures ReadLabels(query[HEADER..]).Name? && ParseQuestion(query).name == Join(ReadLabels(query[HEADER..]).labels)
  {}

  lemma PacketParts(id: Text, flags: nat, count: nat, question: Text, answers: Text)
    requires |id| == 2 && flags < 65536 && count < 65536
    ensures var p := Packet(id, flags, count, question, answers);
            && |p| == HEADER + |question| + |answers| && p[..2] == id
            && Contains(p, HEADER, question) && EndsIn(p, HEADER + |question|, answers)
  {
    hide Be16;
  }
}
