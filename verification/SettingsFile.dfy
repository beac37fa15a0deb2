// The settings record: its validity rules, its file format, and what loading the
// file it was saved to gives back.
module SettingsFile {
  import opened Bytes
  import opened Wrappers
  import opened Positional
  import opened Iteration
  import opened ChecksumLine
  import Crc32
  import U = Utf8

  datatype Settings = Settings(enabled: bool, baseUrl: Text, deviceName: Text)

  const URL_MAX: nat := 1296
  const NAME_MAX: nat := 255
  const FILE_MAX: nat := 2048

  /** crossnook-settings */
  const VERSION_KEY: seq<Byte> := [
    0x63, 0x72, 0x6f, 0x73, 0x73, 0x6e, 0x6f, 0x6f, 0x6b,
    0x2d, 0x73, 0x65, 0x74, 0x74, 0x69, 0x6e, 0x67, 0x73]
  /** kosync.enabled */
  const ENABLED_KEY: seq<Byte> := [0x6b, 0x6f, 0x73, 0x79, 0x6e, 0x63, 0x2e, 0x65, 0x6e, 0x61, 0x62, 0x6c, 0x65, 0x64]
  /** kosync.base_url */
  const URL_KEY: seq<Byte> := [0x6b, 0x6f, 0x73, 0x79, 0x6e, 0x63, 0x2e, 0x62, 0x61, 0x73, 0x65, 0x5f, 0x75, 0x72, 0x6c]
  /** kosync.device_name */
  const NAME_KEY: seq<Byte> := [
    0x6b, 0x6f, 0x73, 0x79, 0x6e, 0x63, 0x2e, 0x64, 0x65,
    0x76, 0x69, 0x63, 0x65, 0x5f, 0x6e, 0x61, 0x6d, 0x65]
  /** crc32 */
  const CRC_KEY: seq<Byte> := [0x63, 0x72, 0x63, 0x33, 0x32]
  const TRUE: seq<Byte> := [0x74, 0x72, 0x75, 0x65]
  const FALSE: seq<Byte> := [0x66, 0x61, 0x6c, 0x73, 0x65]
  const ONE: seq<Byte> := [0x31]
  /** https:// */
  const SCHEME: seq<Byte> := [0x68, 0x74, 0x74, 0x70, 0x73, 0x3a, 0x2f, 0x2f]
  /** CrossNook */
  const DEFAULT_NAME: seq<Byte> := [0x43, 0x72, 0x6f, 0x73, 0x73, 0x4e, 0x6f, 0x6f, 0x6b]

  // ----- Validity -----

  /** The bytes before the first b, all of them if there is no b. */
  function Before(s: Text, b: Byte): (front: Text)
    ensures |front| <= |s| && b !in front && front == s[..|front|]
    ensures |front| < |s| ==> s[|front|] == b
  {
    if s == [] || s[0] == b then [] else [s[0]] + Before(s[1..], b)
  }

  predicate UrlByte(b: Byte) {
    0x21 <= b <= 0x7e && b != 0x40 && b != 0x3f && b != 0x23 && b != 0x5c
  }

  predicate Decimal(b: Byte) {
    0x30 <= b <= 0x39
  }

  function DecimalValue(s: Text): nat {
    if s == [] then 0 else 10 * DecimalValue(s[..|s| - 1]) + (s[|s| - 1] & 0x0f) as int
  }

  predicate PortValid(port: Text) {
    1 <= |port| <= 5 && (forall b | b in port :: Decimal(b)) && 1 <= DecimalValue(port) <= 65535
  }

  /** Host with an optional port: at most one colon. */
  predicate AuthorityValid(authority: Text) {
    var host := Before(authority, 0x3a);
    && 1 <= |host| <= 255
    && (host == authority || (0x3a !in authority[|host| + 1..] && PortValid(authority[|host| + 1..])))
  }

  predicate BaseUrlValid(url: Text) {
    && |url| >= 9 && url[..8] == SCHEME
    && (forall b | b in url :: UrlByte(b))
    && AuthorityValid(Before(url[8..], 0x2f))
    && |url| - 8 - |Before(url[8..], 0x2f)| <= 1024
  }

  predicate NameCodePoint(cp: U.CodePoint) {
    cp >= 0x20 && !(0x7f <= cp <= 0x9f)
  }

  predicate NameValid(name: Text) {
    var decoded := U.Decode(name);
    decoded.bad == 0 && forall cp | cp in decoded.cps :: NameCodePoint(cp)
  }

  predicate Valid(s: Settings) {
    && |s.baseUrl| <= URL_MAX
    && 1 <= |s.deviceName| <= NAME_MAX && NameValid(s.deviceName)
    && (if s.baseUrl == [] then !s.enabled else BaseUrlValid(s.baseUrl))
  }

  const DEFAULTS := Settings(false, [], DEFAULT_NAME)

  // ----- The file -----

  function Field(key: Text, value: Text): Text {
    key + [0x3d] + value
  }

  function EnabledText(enabled: bool): Text {
    if enabled then TRUE else FALSE
  }

  /** The lines before the checksum line, each with its newline. */
  function Body(s: Settings): Text {
    Join(BodyLines(s))
  }

  function Join(lines: seq<Text>): Text {
    if lines == [] then [] else lines[0] + [NEWLINE] + Join(lines[1..])
  }

  /** What a save writes, or None if the record does not fit in the file. */
  function Serialize(s: Settings): Option<Text> {
    if |Body(s)| + LINE_LENGTH > FILE_MAX then None else Some(Seal(Body(s)))
  }

  datatype Parsed = Loaded(settings: Settings) | Corrupt | Unsupported

  datatype Split = Short | Split(lines: seq<Text>, rest: Text)

  /** The first n lines and what is left after them, or Short if there are fewer. */
  function Lines(data: Text, n: nat): (x: Split)
    ensures x.Split? ==> |x.lines| == n
    decreases n
  {
    if n == 0 then Split([], data) else
      var line := Before(data, NEWLINE);
      if |line| == |data| then Short else AddLine(line, Lines(data[|line| + 1..], n - 1))
  }

  function AddLine(line: Text, x: Split): Split {
    if x.Short? then Short else Split([line] + x.lines, x.rest)
  }

  /** The value of a "key=value" line, or None if it has another key. */
  function ValueOf(line: Text, key: Text): Option<Text> {
    if |line| >= |key| + 1 && line[..|key|] == key && line[|key|] == 0x3d then Some(line[|key| + 1..]) else None
  }

  /** Some(true) for version 1, Some(false) for another version, None for no version number. */
  function ParseVersion(value: Text): Option<bool> {
    if value == [] || (|value| > 1 && value[0] == 0x30) || exists b | b in value :: !Decimal(b) then None
    else Some(value == ONE)
  }

  function VersionOf(line: Text): Option<bool> {
    var value := ValueOf(line, VERSION_KEY);
    if value.None? then None else ParseVersion(value.value)
  }

  function ParseFields(data: Text, lines: seq<Text>): Parsed
    requires |lines| == 5
  {
    var enabled := ValueOf(lines[1], ENABLED_KEY);
    var url := ValueOf(lines[2], URL_KEY);
    var name := ValueOf(lines[3], NAME_KEY);
    var crc := ValueOf(lines[4], CRC_KEY);
    if enabled.None? || (enabled.value != TRUE && enabled.value != FALSE) then Corrupt
    else if url.None? || |url.value| > URL_MAX then Corrupt
    else if name.None? || |name.value| > NAME_MAX then Corrupt
    else if crc.None? || |crc.value| != 8 || |data| < LINE_LENGTH || Read(HEX, crc.value).None? then Corrupt
    else
      var s := Settings(enabled.value == TRUE, url.value, name.value);
      if Read(HEX, crc.value) != Some(Crc32.Checksum(data[..|data| - LINE_LENGTH])) || !Valid(s) then Corrupt
      else Loaded(s)
  }

  function Parse(data: Text): Parsed {
    if data == [] || |data| > FILE_MAX || 0 in data then Corrupt else
      var head, all := Lines(data, 1), Lines(data, 5);
      if head.Short? then Corrupt
      else
        var version := VersionOf(head.lines[0]);
        if version.None? then Corrupt
        else if !version.value then Unsupported
        else if all.Short? || all.rest != [] then Corrupt
        else ParseFields(data, all.lines)
  }

  // ----- Lines and fields -----

  lemma {:induction false} BeforeOf(a: Text, b: Byte, rest: Text)
    requires b !in a
    ensures Before(a + [b] + rest, b) == a
  {
    if a == [] {
      assert a + [b] + rest == [b] + rest;
    } else {
      BeforeOf(a[1..], b, rest);
      assert (a + [b] + rest)[1..] == a[1..] + [b] + rest;
    }
  }

  /** Joined lines split into the same lines. */
  lemma {:induction false} LinesOfJoin(lines: seq<Text>, rest: Text)
    requires forall i | 0 <= i < |lines| :: NEWLINE !in lines[i]
    ensures Lines(Join(lines) + rest, |lines|) == Split(lines, rest)
    decreases |lines|
  {
    if lines == [] {
      assert Join(lines) + rest == rest;
    } else {
      var tail := Join(lines[1..]) + rest;
      assert Join(lines) + rest == lines[0] + [NEWLINE] + tail;
      LinesOfJoin(lines[1..], rest);
      LinesStep(lines[0], tail, |lines|);
      assert [lines[0]] + lines[1..] == lines;
    }
  }

  lemma LinesStep(line: Text, tail: Text, n: nat)
    requires NEWLINE !in line && n > 0
    ensures Lines(line + [NEWLINE] + tail, n) == AddLine(line, Lines(tail, n - 1))
  {
    BeforeOf(line, NEWLINE, tail);
    assert (line + [NEWLINE] + tail)[|line| + 1..] == tail;
  }

  /** Lines that were split off join to what they were split off from. */
  lemma {:induction false} JoinOfLines(data: Text, n: nat)
    requires Lines(data, n).Split?
    ensures Join(Lines(data, n).lines) + Lines(data, n).rest == data
    decreases n
  {
    if n == 0 {
      JoinNone(data);
    } else {
      hide Join, Before;
      var line := Before(data, NEWLINE);
      JoinOfLines(data[|line| + 1..], n - 1);
      var x := Lines(data[|line| + 1..], n - 1);
      JoinCons(line, x.lines, x.rest);
      CutAtNewline(data);
    }
  }

  lemma JoinNone(data: Text)
    ensures Join([]) + data == data
  {}

  lemma CutAtNewline(data: Text)
    requires |Before(data, NEWLINE)| < |data|
    ensures var line := Before(data, NEWLINE); data == line + [NEWLINE] + data[|line| + 1..]
  {}

  lemma JoinCons(line: Text, lines: seq<Text>, rest: Text)
    ensures Join([line] + lines) + rest == line + [NEWLINE] + (Join(lines) + rest)
  {
    assert ([line] + lines)[1..] == lines;
  }

  lemma {:induction false} JoinAppend(lines: seq<Text>, line: Text)
    ensures Join(lines + [line]) == Join(lines) + line + [NEWLINE]
    decreases |lines|
  {
    if lines != [] {
      assert (lines + [line])[1..] == lines[1..] + [line];
      JoinAppend(lines[1..], line);
    }
  }

  lemma ValueOfField(line: Text, key: Text, value: Text)
    ensures ValueOf(line, key) == Some(value) <==> line == Field(key, value)
  {
    if ValueOf(line, key) == Some(value) {
      assert line == line[..|key|] + [line[|key|]] + line[|key| + 1..];
    }
    if line == Field(key, value) {
      assert line[..|key|] == key && line[|key| + 1..] == value;
    }
  }

  // ----- The bytes of a record -----

  predicate Printable(text: Text) {
    forall i | 0 <= i < |text| :: text[i] >= 0x20
  }

  lemma EncodePrintable(cp: U.CodePoint)
    requires cp >= 0x20
    ensures Printable(U.Encode(cp))
  {}

  lemma {:induction false} EncodeAllPrintable(cps: seq<U.CodePoint>)
    requires forall i | 0 <= i < |cps| :: cps[i] >= 0x20
    ensures Printable(U.EncodeAll(cps))
    decreases |cps|
  {
    if cps != [] {
      EncodePrintable(cps[0]);
      EncodeAllPrintable(cps[1..]);
    }
  }

  lemma ValidIsPrintable(s: Settings)
    requires Valid(s)
    ensures Printable(s.baseUrl) && Printable(s.deviceName)
    ensures |s.baseUrl| <= URL_MAX && |s.deviceName| <= NAME_MAX
  {
    var decoded := U.Decode(s.deviceName);
    U.CleanIffEncoded(s.deviceName);
    forall i | 0 <= i < |decoded.cps| ensures decoded.cps[i] >= 0x20 {
      assert NameCodePoint(decoded.cps[i]);
    }
    EncodeAllPrintable(decoded.cps);
    forall i | 0 <= i < |s.baseUrl| ensures s.baseUrl[i] >= 0x20 {
      assert UrlByte(s.baseUrl[i]);
    }
  }

  function BodyLines(s: Settings): seq<Text> {
    [Field(VERSION_KEY, ONE), Field(ENABLED_KEY, EnabledText(s.enabled)), Field(URL_KEY, s.baseUrl),
     Field(NAME_KEY, s.deviceName)]
  }

  lemma KeysPrintable()
    ensures Printable(VERSION_KEY) && Printable(ENABLED_KEY) && Printable(URL_KEY) && Printable(NAME_KEY) && Printable(CRC_KEY)
    ensures Printable(TRUE) && Printable(FALSE) && Printable(ONE)
  {}

  lemma LinesPrintable(s: Settings)
    requires Printable(s.baseUrl) && Printable(s.deviceName)
    ensures forall i | 0 <= i < 4 :: Printable(BodyLines(s)[i])
  {
    KeysPrintable();
  }

  lemma HexPrintable(crc: bv32)
    ensures Printable(HexText(crc))
  {
    forall i | 0 <= i < 8 ensures HexText(crc)[i] >= 0x20 {
      DigitOfLine(crc, i);
      DigitPrintable(Shifted(crc, i));
    }
  }

  lemma DigitPrintable(v: bv32)
    ensures Digit(v) >= 0x20
  {}

  // ----- The round trip -----

  lemma JoinFour(a: Text, b: Text, c: Text, d: Text)
    ensures |Join([a, b, c, d])| == |a| + |b| + |c| + |d| + 4
  {
    assert [a, b, c, d][1..] == [b, c, d];
    assert [b, c, d][1..] == [c, d];
    assert [c, d][1..] == [d];
    assert |Join([d])| == |d| + 1;
    assert |Join([c, d])| == |c| + 1 + |Join([d])|;
    assert |Join([b, c, d])| == |b| + 1 + |Join([c, d])|;
  }

  lemma BodyLength(s: Settings)
    ensures |Body(s)| == 74 + |EnabledText(s.enabled)| + |s.baseUrl| + |s.deviceName|
  {
    JoinFour(Field(VERSION_KEY, ONE), Field(ENABLED_KEY, EnabledText(s.enabled)), Field(URL_KEY, s.baseUrl),
             Field(NAME_KEY, s.deviceName));
  }

  /** Every valid record fits in the file. */
  lemma SerializeFits(s: Settings)
    requires Valid(s)
    ensures Serialize(s) == Some(Seal(Body(s)))
  {
    hide Valid;
    ValidIsPrintable(s);
    BodyLength(s);
  }

  function FileLines(s: Settings, text: Text): seq<Text> {
    BodyLines(s) + [Field(CRC_KEY, text)]
  }

  lemma FileOfLines(s: Settings, text: Text)
    ensures Join(FileLines(s, text)) == Body(s) + (PREFIX + text + [NEWLINE])
  {
    JoinAppend(BodyLines(s), Field(CRC_KEY, text));
    assert Field(CRC_KEY, text) == PREFIX + text;
  }

  lemma {:induction false} JoinSplits(lines: seq<Text>, n: nat)
    requires n <= |lines|
    ensures Join(lines) == Join(lines[..n]) + Join(lines[n..])
    decreases n
  {
    if n == 0 {
      assert lines[..0] == [] && lines[0..] == lines;
    } else {
      JoinSplits(lines[1..], n - 1);
      assert lines[1..][..n - 1] == lines[..n][1..] && lines[1..][n - 1..] == lines[n..];
    }
  }

  lemma SplitsAt(lines: seq<Text>, n: nat)
    requires n <= |lines| && forall i | 0 <= i < |lines| :: NEWLINE !in lines[i]
    ensures Lines(Join(lines), n) == Split(lines[..n], Join(lines[n..]))
  {
    JoinSplits(lines, n);
    LinesOfJoin(lines[..n], Join(lines[n..]));
  }

  lemma {:induction false} JoinedIsPlain(lines: seq<Text>)
    requires forall i | 0 <= i < |lines| :: Printable(lines[i])
    ensures 0 !in Join(lines)
    decreases |lines|
  {
    if lines != [] {
      JoinedIsPlain(lines[1..]);
      assert Printable(lines[0]);
    }
  }

  lemma FileIsPrintable(s: Settings, crc: bv32)
    requires Printable(s.baseUrl) && Printable(s.deviceName)
    ensures forall i | 0 <= i < 5 :: Printable(FileLines(s, HexText(crc))[i])
  {
    hide HexText;
    LinesPrintable(s);
    HexPrintable(crc);
    KeysPrintable();
  }

  lemma PrintableHasNoNewline(text: Text)
    requires Printable(text)
    ensures NEWLINE !in text
  {}

  lemma VersionOne()
    ensures ParseVersion(ONE) == Some(true)
  {
    assert Decimal(0x31);
  }

  lemma ParseFieldsOfFile(s: Settings, data: Text)
    requires Valid(s) && data == Seal(Body(s))
    ensures ParseFields(data, FileLines(s, HexText(Crc32.Checksum(Body(s))))) == Loaded(s)
  {
    ValidIsPrintable(s);
    hide Valid, Body, Crc32.Checksum, HexText, ValueOf, Field, Read;
    var crc := Crc32.Checksum(Body(s));
    var lines := FileLines(s, HexText(crc));
    ValueOfField(lines[1], ENABLED_KEY, EnabledText(s.enabled));
    ValueOfField(lines[2], URL_KEY, s.baseUrl);
    ValueOfField(lines[3], NAME_KEY, s.deviceName);
    ValueOfField(lines[4], CRC_KEY, HexText(crc));
    HexBijection(crc, HexText(crc));
    assert data[..|data| - LINE_LENGTH] == Body(s);
    assert TRUE != FALSE;
    assert Settings(s.enabled, s.baseUrl, s.deviceName) == s;
  }

  /** A valid record loads back from the file it was saved to. */
  lemma LoadsWhatWasSaved(s: Settings)
    requires Valid(s)
    ensures Parse(Seal(Body(s))) == Loaded(s)
  {
    hide Valid, Body, Lines, ParseFields, Crc32.Checksum, HexText, Seal, Printable, FileLines, ValueOf, ParseVersion, BodyLines;
    var text := HexText(Crc32.Checksum(Body(s)));
    var lines := FileLines(s, text);
    var data := Seal(Body(s));
    FileOfSettings(s);
    ValidIsPrintable(s);
    FileIsPrintable(s, Crc32.Checksum(Body(s)));
    forall i | 0 <= i < |lines| ensures NEWLINE !in lines[i] {
      PrintableHasNoNewline(lines[i]);
    }
    JoinedIsPlain(lines);
    SplitsAt(lines, 1);
    SplitsAt(lines, 5);
    assert lines[..5] == lines && lines[5..] == [];
    SerializeFits(s);
    ValueOfField(lines[0], VERSION_KEY, ONE);
    VersionOne();
    ParseFieldsOfFile(s, data);
  }

  lemma FileOfSettings(s: Settings)
    ensures var lines := FileLines(s, HexText(Crc32.Checksum(Body(s))));
            Seal(Body(s)) == Join(lines) && |lines| == 5 && lines[0] == Field(VERSION_KEY, ONE)
  {
    hide Crc32.Checksum, Body, HexText;
    FileOfLines(s, HexText(Crc32.Checksum(Body(s))));
  }

  /** The fields that parse are those of the record they parse to. */
  lemma FieldsOfParsed(data: Text, lines: seq<Text>)
    requires |lines| == 5 && ParseFields(data, lines).Loaded?
    ensures var s := ParseFields(data, lines).settings;
            && Valid(s) && |data| >= LINE_LENGTH
            && lines[1..4] == BodyLines(s)[1..]
            && exists text :: |text| == 8 && lines[4] == Field(CRC_KEY, text)
                              && Read(HEX, text) == Some(Crc32.Checksum(data[..|data| - LINE_LENGTH]))
  {
    hide Valid, Crc32.Checksum, ValueOf, Read, Field;
    var s := ParseFields(data, lines).settings;
    ValueOfField(lines[1], ENABLED_KEY, ValueOf(lines[1], ENABLED_KEY).value);
    ValueOfField(lines[2], URL_KEY, s.baseUrl);
    ValueOfField(lines[3], NAME_KEY, s.deviceName);
    ValueOfField(lines[4], CRC_KEY, ValueOf(lines[4], CRC_KEY).value);
  }

  lemma VersionIsOne(value: Text)
    requires ParseVersion(value) == Some(true)
    ensures value == ONE
  {}

  /** The five lines of a file that loads. */
  lemma LinesOfLoaded(data: Text)
    ensures Parse(data).Loaded? ==>
              && Lines(data, 5).Split? && Lines(data, 5).rest == [] && Parse(data) == ParseFields(data, Lines(data, 5).lines)
              && Lines(data, 5).lines[0] == Field(VERSION_KEY, ONE)
  {
    hide Valid, ParseFields, ParseVersion, ValueOf;
    if Parse(data).Loaded? {
      var version := ValueOf(Lines(data, 1).lines[0], VERSION_KEY);
      VersionIsOne(version.value);
      ValueOfField(Lines(data, 1).lines[0], VERSION_KEY, ONE);
      SameFirstLine(data);
    }
  }

  lemma SameFirstLine(data: Text)
    requires Lines(data, 1).Split? && Lines(data, 5).Split?
    ensures Lines(data, 5).lines[0] == Lines(data, 1).lines[0]
  {
    hide Before;
  }

  /** Whatever loads is a valid record in exactly the form a save would give it. */
  lemma SavedIsWhatLoads(data: Text)
    ensures Parse(data).Loaded? ==> Valid(Parse(data).settings) && data == Seal(Body(Parse(data).settings))
  {
    LinesOfLoaded(data);
    hide Valid, Parse, Lines, ParseFields, Crc32.Checksum, HexText, Read, Join, Field;
    if Parse(data).Loaded? {
      var lines, s := Lines(data, 5).lines, Parse(data).settings;
      JoinOfLines(data, 5);
      FieldsOfParsed(data, lines);
      var text :| |text| == 8 && lines[4] == Field(CRC_KEY, text)
                  && Read(HEX, text) == Some(Crc32.Checksum(data[..|data| - LINE_LENGTH]));
      FiveLines(lines, s, text);
      FileOfLines(s, text);
      assert data == Join(lines);
      SealsIfChecked(Body(s), text, data);
    }
  }

  lemma FiveLines(lines: seq<Text>, s: Settings, text: Text)
    requires |lines| == 5 && lines[0] == Field(VERSION_KEY, ONE)
    requires lines[1..4] == BodyLines(s)[1..] && lines[4] == Field(CRC_KEY, text)
    ensures lines == FileLines(s, text)
  {
    hide Field;
    assert lines == [lines[0]] + lines[1..4] + [lines[4]];
  }

  lemma SealsIfChecked(body: Text, text: Text, data: Text)
    requires |text| == 8 && data == body + (PREFIX + text + [NEWLINE])
    requires Read(HEX, text) == Some(Crc32.Checksum(data[..|data| - LINE_LENGTH]))
    ensures data == Seal(body)
  {
    hide Crc32.Checksum, Read, HexText;
    assert data[..|data| - LINE_LENGTH] == body;
    HexBijection(Crc32.Checksum(body), text);
  }

  /** Loading is the exact inverse of saving. */
  lemma LoadIffSaved(data: Text, s: Settings)
    ensures Parse(data) == Loaded(s) <==> Valid(s) && Serialize(s) == Some(data)
  {
    hide Valid, Parse, Seal, Body;
    if Valid(s) {
      LoadsWhatWasSaved(s);
      SerializeFits(s);
    }
    if Parse(data) == Loaded(s) {
      SavedIsWhatLoads(data);
      SerializeFits(s);
    }
  }

  /** A saved record that changed within 32 consecutive bits, wherever they are, does not load. */
  lemma DamageNeverLoads(s: Settings, data: Text, k: nat)
    requires Valid(s) && DifferOnlyIn(Crc32.Stream(Seal(Body(s))), Crc32.Stream(data), k, 32) && data != Seal(Body(s))
    ensures !Parse(data).Loaded?
  {
    hide Valid, Parse, Body, Crc32.Stream;
    if Parse(data).Loaded? {
      SavedIsWhatLoads(data);
      SealIsSealed(Body(Parse(data).settings));
      DamageBreaksSeal(Body(s), data, k);
    }
  }
}
