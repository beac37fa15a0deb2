// What a settings record and its file look like, in terms a reader of the file would use.
module SettingsText {
  import opened Bytes
  import opened Wrappers
  import opened SettingsFile
  import C = ChecksumLine
  import Crc32
  import U = Utf8

  /** The bytes are the characters of an ASCII text. */
  predicate Reads(text: Text, s: string) {
    |text| == |s| && forall i | 0 <= i < |s| :: text[i] as int == s[i] as int
  }

  lemma ReadsInParts(text: Text, s: string, k: nat)
    requires k <= |text| == |s| && Reads(text[..k], s[..k]) && Reads(text[k..], s[k..])
    ensures Reads(text, s)
  {
    forall i | 0 <= i < |s| ensures text[i] as int == s[i] as int {
      if i < k {
        assert text[..k][i] == text[i] && s[..k][i] == s[i];
      } else {
        assert text[k..][i - k] == text[i] && s[k..][i - k] == s[i];
      }
    }
  }

  lemma VersionKeyReads()
    ensures Reads(VERSION_KEY, "crossnook-settings")
  {
    FirstHalfOfVersionKey();
    SecondHalfOfVersionKey();
    ReadsInParts(VERSION_KEY, "crossnook-settings", 9);
  }

  lemma FirstHalfOfVersionKey()
    ensures Reads(VERSION_KEY[..9], "crossnook-settings"[..9])
  {}

  lemma SecondHalfOfVersionKey()
    ensures Reads(VERSION_KEY[9..], "crossnook-settings"[9..])
  {}

  lemma EnabledKeyReads()
    ensures Reads(ENABLED_KEY, "kosync.enabled")
  {}

  lemma UrlKeyReads()
    ensures Reads(URL_KEY, "kosync.base_url")
  {}

  lemma NameKeyReads()
    ensures Reads(NAME_KEY, "kosync.device_name")
  {
    FirstHalfOfNameKey();
    SecondHalfOfNameKey();
    ReadsInParts(NAME_KEY, "kosync.device_name", 9);
  }

  lemma FirstHalfOfNameKey()
    ensures Reads(NAME_KEY[..9], "kosync.device_name"[..9])
  {}

  lemma SecondHalfOfNameKey()
    ensures Reads(NAME_KEY[9..], "kosync.device_name"[9..])
  {}

  lemma WordsRead()
    ensures Reads(TRUE, "true") && Reads(FALSE, "false") && Reads(ONE, "1")
  {}

  lemma SchemeReads()
    ensures Reads(SCHEME, "https://")
  {}

  lemma PrefixReads()
    ensures Reads(C.PREFIX, "crc32=")
  {}

  const EQUALS: Text := [0x3d]
  const LINE_BREAK: Text := [0x0a]

  /** A saved record is four lines of a key, an equals sign and a value, and the checksum line of those lines. */
  lemma FileReads(s: Settings)
    requires Valid(s)
    ensures Serialize(s)
            == var body := VERSION_KEY + EQUALS + ONE + LINE_BREAK
                           + ENABLED_KEY + EQUALS + (if s.enabled then TRUE else FALSE) + LINE_BREAK
                           + URL_KEY + EQUALS + s.baseUrl + LINE_BREAK
                           + NAME_KEY + EQUALS + s.deviceName + LINE_BREAK;
               Some(body + (C.PREFIX + C.HexText(Crc32.Checksum(body)) + LINE_BREAK))
  {
    hide Valid, Crc32.Checksum, C.HexText;
    SerializeFits(s);
    BodyIs(s);
  }

  lemma BodyIs(s: Settings)
    ensures Body(s) == VERSION_KEY + EQUALS + ONE + LINE_BREAK
                       + ENABLED_KEY + EQUALS + (if s.enabled then TRUE else FALSE) + LINE_BREAK
                       + URL_KEY + EQUALS + s.baseUrl + LINE_BREAK
                       + NAME_KEY + EQUALS + s.deviceName + LINE_BREAK
  {
    var a, b, c, d := Field(VERSION_KEY, ONE), Field(ENABLED_KEY, EnabledText(s.enabled)), Field(URL_KEY, s.baseUrl),
                      Field(NAME_KEY, s.deviceName);
    JoinFour(a, b, c, d);
  }

  lemma JoinFour(a: Text, b: Text, c: Text, d: Text)
    ensures Join([a, b, c, d]) == a + LINE_BREAK + b + LINE_BREAK + c + LINE_BREAK + d + LINE_BREAK
  {
    assert [a, b, c, d][1..] == [b, c, d] && [b, c, d][1..] == [c, d] && [c, d][1..] == [d] && [d][1..] == [];
    assert Join([d]) == d + LINE_BREAK;
    assert Join([c, d]) == c + LINE_BREAK + Join([d]);
    assert Join([b, c, d]) == b + LINE_BREAK + Join([c, d]);
  }

  // ----- URLs -----

  const COLON: Byte := 0x3a
  const SLASH: Byte := 0x2f

  /** https://, a host, an optional port behind a colon, and an optional path that begins with a slash. */
  ghost predicate IsUrl(url: Text, host: Text, port: Text, path: Text) {
    && url == SCHEME + host + port + path
    && 1 <= |host| <= 255 && COLON !in host && SLASH !in host
    && (port == [] || (port[0] == COLON && COLON !in port[1..] && SLASH !in port && PortValid(port[1..])))
    && (path == [] || path[0] == SLASH) && |path| <= 1024
    && forall b | b in url :: UrlByte(b)
  }

  lemma BeforeStops(a: Text, b: Byte, rest: Text)
    requires b !in a && (rest == [] || rest[0] == b)
    ensures Before(a + rest, b) == a
  {
    hide Before;
    if rest == [] {
      assert a + rest == a;
      BeforeNone(a, b);
    } else {
      BeforeOf(a, b, rest[1..]);
      assert a + [b] + rest[1..] == a + rest;
    }
  }

  lemma {:induction false} BeforeNone(a: Text, b: Byte)
    requires b !in a
    ensures Before(a, b) == a
  {
    if a != [] {
      BeforeNone(a[1..], b);
    }
  }

  lemma CutInThree(s: Text, a: nat, b: nat)
    requires a <= b <= |s|
    ensures s == s[..a] + s[a..b] + s[b..]
  {}

  /** What a URL is made of, read off the text. */
  lemma UrlParts(url: Text)
    requires BaseUrlValid(url)
    ensures var authority := Before(url[8..], SLASH);
            var host := Before(authority, COLON);
            IsUrl(url, host, authority[|host|..], url[8 + |authority|..])
  {
    hide UrlByte, PortValid, Before;
    var authority := Before(url[8..], SLASH);
    var host := Before(authority, COLON);
    var port, path := authority[|host|..], url[8 + |authority|..];
    AuthorityParts(authority);
    CutInThree(url, 8, 8 + |authority|);
    assert url[8..8 + |authority|] == authority;
    JoinInFour(SCHEME, host, port, path);
  }

  lemma AuthorityParts(authority: Text)
    requires AuthorityValid(authority) && SLASH !in authority
    ensures var host := Before(authority, COLON);
            var port := authority[|host|..];
            && authority == host + port && 1 <= |host| <= 255 && COLON !in host && SLASH !in host
            && (port == [] || (port[0] == COLON && COLON !in port[1..] && SLASH !in port && PortValid(port[1..])))
  {
    hide PortValid;
    var host := Before(authority, COLON);
    if host != authority {
      assert authority[|host|..][1..] == authority[|host| + 1..];
    }
  }

  lemma JoinInFour(a: Text, b: Text, c: Text, d: Text)
    ensures a + (b + c) + d == a + b + c + d
  {}

  lemma PartsMakeUrl(url: Text, host: Text, port: Text, path: Text)
    requires IsUrl(url, host, port, path)
    ensures BaseUrlValid(url)
  {
    assert url[8..] == (host + port) + path && url[..8] == SCHEME;
    assert SLASH !in host + port;
    BeforeStops(host + port, SLASH, path);
    BeforeStops(host, COLON, port);
    if port != [] {
      assert (host + port)[|host| + 1..] == port[1..];
    }
  }

  /** A base URL is valid exactly if it is one of these, so it always begins with https://. */
  lemma BaseUrlIff(url: Text)
    ensures BaseUrlValid(url) <==> exists host, port, path :: IsUrl(url, host, port, path)
    ensures BaseUrlValid(url) ==> SCHEME <= url
  {
    if BaseUrlValid(url) {
      UrlParts(url);
    }
    forall host, port, path | IsUrl(url, host, port, path) ensures BaseUrlValid(url) {
      PartsMakeUrl(url, host, port, path);
    }
  }

  /** Scheme, host, port and path make at most 8 + 255 + 6 + 1024 bytes. */
  lemma UrlLength(url: Text)
    requires BaseUrlValid(url)
    ensures 9 <= |url| <= 1293
  {
    hide UrlByte, Before;
    UrlParts(url);
  }

  /** What can be saved, in numbers: the limit on the length of a URL follows from those on its parts. */
  lemma SettingsLimits(s: Settings)
    ensures Valid(s) <==>
              && 1 <= |s.deviceName| <= 255 && NameValid(s.deviceName)
              && (BaseUrlValid(s.baseUrl) || (s.baseUrl == [] && !s.enabled))
  {
    hide NameValid, BaseUrlValid;
    if BaseUrlValid(s.baseUrl) {
      UrlLength(s.baseUrl);
    }
    EmptyIsNoUrl();
  }

  lemma EmptyIsNoUrl()
    ensures !BaseUrlValid([])
  {}

  /** Ports are the numbers from 1 to 65535. */
  lemma PortBounds()
    ensures PortValid([0x31]) && !PortValid([0x30]) && !PortValid([])
    ensures PortValid([0x36, 0x35, 0x35, 0x33, 0x35]) && !PortValid([0x36, 0x35, 0x35, 0x33, 0x36])
  {
    FirstFourDigits();
    var four: Text := [0x36, 0x35, 0x35, 0x33];
    DecimalNext(four, 0x35);
    DecimalNext(four, 0x36);
    assert four + [0x35] == [0x36, 0x35, 0x35, 0x33, 0x35] && four + [0x36] == [0x36, 0x35, 0x35, 0x33, 0x36];
  }

  lemma FirstFourDigits()
    ensures DecimalValue([0x36, 0x35, 0x35, 0x33]) == 6553
  {
    DecimalNext([], 0x36);
    assert [] + [0x36 as Byte] == [0x36];
    DecimalNext([0x36], 0x35);
    assert [0x36] + [0x35 as Byte] == [0x36, 0x35];
    DecimalNext([0x36, 0x35], 0x35);
    assert [0x36, 0x35] + [0x35 as Byte] == [0x36, 0x35, 0x35];
    DecimalNext([0x36, 0x35, 0x35], 0x33);
    assert [0x36, 0x35, 0x35] + [0x33 as Byte] == [0x36, 0x35, 0x35, 0x33];
  }

  /** Digits are read from the left, each worth ten of the next. */
  lemma DecimalNext(s: Text, digit: Byte)
    ensures DecimalValue(s + [digit]) == 10 * DecimalValue(s) + (digit & 0x0f) as int
  {
    assert (s + [digit])[..|s|] == s;
  }

  /** The characters of a URL are the printable ones other than four, and those of a number are the digits. */
  lemma Characters(b: Byte)
    ensures UrlByte(b) <==> '!' <= b as char <= '~' && b as char !in "@?#\\"
    ensures Decimal(b) <==> b as char in "0123456789"
  {
    assert "0123456789" == ['0', '1', '2', '3', '4', '5', '6', '7', '8', '9'];
  }

  // ----- Names -----

  predicate Control(cp: U.CodePoint) {
    cp < 0x20 || 0x7f <= cp <= 0x9f
  }

  /** A name is valid exactly if it is the UTF-8 of code points other than control characters. */
  lemma NameIff(name: Text)
    ensures NameValid(name) <==>
              exists cps :: U.AllScalar(cps) && name == U.EncodeAll(cps) && forall i | 0 <= i < |cps| :: !Control(cps[i])
  {
    hide U.Decode, U.EncodeAll;
    U.CleanIffEncoded(name);
    U.BytesConserved(name);
    if NameValid(name) {
      var cps := U.Decode(name).cps;
      forall i | 0 <= i < |cps| ensures !Control(cps[i]) {
        assert cps[i] in cps;
      }
      assert U.AllScalar(cps) && name == U.EncodeAll(cps);
    }
    forall cps | U.AllScalar(cps) && name == U.EncodeAll(cps) && forall i | 0 <= i < |cps| :: !Control(cps[i])
      ensures NameValid(name)
    {
      DecodesTo(cps, name);
    }
  }

  lemma DecodesTo(cps: seq<U.CodePoint>, name: Text)
    requires U.AllScalar(cps) && name == U.EncodeAll(cps)
    ensures U.Decode(name) == U.Decoded(cps, 0)
  {
    U.DecodeAfterEncoded(cps, []);
    assert U.EncodeAll(cps) + [] == name && cps + [] == cps;
  }

  // ----- Versions -----

  /** A number without leading zeros. */
  predicate NumberText(text: Text) {
    text != [] && (forall b | b in text :: Decimal(b)) && (text[0] == 0x30 ==> |text| == 1)
  }

  /** A file is of an unsupported version exactly if its first line is the version key with another number than 1. */
  lemma UnsupportedIff(data: Text)
    ensures Parse(data).Unsupported? <==>
              && |data| <= FILE_MAX && 0 !in data
              && exists version, rest ::
                   data == Field(VERSION_KEY, version) + LINE_BREAK + rest && NumberText(version) && version != ONE
  {
    hide Parse, Field;
    if Parse(data).Unsupported? {
      UnsupportedLine(data);
    }
    forall version, rest | data == Field(VERSION_KEY, version) + LINE_BREAK + rest && NumberText(version) && version != ONE
      ensures |data| <= FILE_MAX && 0 !in data ==> Parse(data).Unsupported?
    {
      LineIsUnsupported(data, version, rest);
    }
  }

  lemma UnsupportedLine(data: Text)
    requires Parse(data).Unsupported?
    ensures |data| <= FILE_MAX && 0 !in data
    ensures exists version, rest ::
              data == Field(VERSION_KEY, version) + LINE_BREAK + rest && NumberText(version) && version != ONE
  {
    hide ParseFields, VersionOf, Field, ValueOf, NumberText, Lines, Before;
    FirstLine(data);
    var line := Before(data, C.NEWLINE);
    if Lines(data, 5).Split? {
      FieldsAreSupported(data, Lines(data, 5).lines);
    }
    assert VersionOf(line) == Some(false);
    VersionOfIs(line);
    var version :| line == Field(VERSION_KEY, version) && NumberText(version) && version != ONE;
    CutAtNewline(data);
    assert data == Field(VERSION_KEY, version) + LINE_BREAK + data[|line| + 1..];
  }

  lemma FieldsAreSupported(data: Text, lines: seq<Text>)
    requires |lines| == 5
    ensures !ParseFields(data, lines).Unsupported?
  {}

  /** A line is of another version exactly if it is the version key with another number. */
  lemma VersionOfIs(line: Text)
    ensures VersionOf(line) == Some(false) <==>
              exists version :: line == Field(VERSION_KEY, version) && NumberText(version) && version != ONE
  {
    hide ValueOf, Field, ParseVersion, NumberText;
    if VersionOf(line) == Some(false) {
      ValueOfField(line, VERSION_KEY, ValueOf(line, VERSION_KEY).value);
      NumberIff(ValueOf(line, VERSION_KEY).value);
    }
    forall version | line == Field(VERSION_KEY, version) && NumberText(version) && version != ONE
      ensures VersionOf(line) == Some(false)
    {
      ValueOfField(line, VERSION_KEY, version);
      NumberIff(version);
    }
  }

  lemma NumberIff(text: Text)
    ensures ParseVersion(text).Some? <==> NumberText(text)
    ensures ParseVersion(text).Some? ==> (ParseVersion(text).value <==> text == ONE)
  {}

  lemma LineIsUnsupported(data: Text, version: Text, rest: Text)
    requires data == Field(VERSION_KEY, version) + LINE_BREAK + rest && NumberText(version) && version != ONE
    ensures |data| <= FILE_MAX && 0 !in data ==> Parse(data).Unsupported?
  {
    hide ParseFields, VersionOf, Field, ValueOf, NumberText, Lines, Before;
    VersionLine(version);
    BeforeOf(Field(VERSION_KEY, version), C.NEWLINE, rest);
    FirstLine(data);
    VersionOfIs(Field(VERSION_KEY, version));
  }

  lemma FirstLine(data: Text)
    ensures Lines(data, 1).Short? <==> Before(data, C.NEWLINE) == data
    ensures Lines(data, 1).Split? ==> Lines(data, 1).lines == [Before(data, C.NEWLINE)]
  {
    var line := Before(data, C.NEWLINE);
    if |line| < |data| {
      assert Lines(data[|line| + 1..], 0) == Split([], data[|line| + 1..]);
    }
  }

  lemma VersionLine(version: Text)
    requires NumberText(version)
    ensures C.NEWLINE !in Field(VERSION_KEY, version)
  {
    KeysPrintable();
    forall i | 0 <= i < |version| ensures version[i] != C.NEWLINE {
      assert version[i] in version;
    }
    forall i | 0 <= i < |Field(VERSION_KEY, version)| ensures Field(VERSION_KEY, version)[i] != C.NEWLINE {
    }
  }
}
