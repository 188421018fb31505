/** File names out of HTTP headers (crates/downloader/src/filename.rs). */
module Filename {
  import opened Common
  import opened Text
  import opened Utf8

  const PERCENT: byte := '%' as byte

  function HexDigit(b: byte): Option<nat> {
    if '0' as byte <= b <= '9' as byte then Some((b - '0' as byte) as nat)
    else if 'A' as byte <= b <= 'F' as byte then Some((b - 'A' as byte) as nat + 10)
    else if 'a' as byte <= b <= 'f' as byte then Some((b - 'a' as byte) as nat + 10)
    else None
  }

  /** `u8::from_str_radix(_, 16)` on two bytes. A leading plus sign is accepted. */
  function HexPair(a: byte, b: byte): Option<byte> {
    match HexDigit(b)
    case None => None
    case Some(low) =>
      if a == '+' as byte then Some(low as byte)
      else
        match HexDigit(a)
        case None => None
        case Some(high) => Some((high * 16 + low) as byte)
  }

  /** Every triplet `%XY` stands for one byte; a percent sign with fewer than two bytes after it stands for itself. */
  function DecodeTriplets(b: seq<byte>): Option<seq<byte>>
    decreases |b|
  {
    if b == [] then Some([])
    else if b[0] == PERCENT && |b| > 2 then
      match HexPair(b[1], b[2])
      case None => None
      case Some(v) => Prepend([v], DecodeTriplets(b[3..]))
    else Prepend([b[0]], DecodeTriplets(b[1..]))
  }

  function Prepend(a: seq<byte>, b: Option<seq<byte>>): Option<seq<byte>> {
    match b
    case None => None
    case Some(rest) => Some(a + rest)
  }

  /** How many triplets a decoding consumes. */
  function Triplets(b: seq<byte>): nat
    decreases |b|
  {
    if b == [] then 0
    else if b[0] == PERCENT && |b| > 2 then 1 + Triplets(b[3..])
    else Triplets(b[1..])
  }

  /** Decoding shortens its input by two bytes for each triplet. */
  lemma {:induction false} DecodedLength(b: seq<byte>)
    ensures DecodeTriplets(b).Some? ==> |DecodeTriplets(b).value| + 2 * Triplets(b) == |b|
    decreases |b|
  {
    if b != [] {
      DecodedLength(if b[0] == PERCENT && |b| > 2 then b[3..] else b[1..]);
    }
  }

  lemma PrependConcat(a: seq<byte>, b: seq<byte>, rest: Option<seq<byte>>)
    ensures Prepend(a, Prepend(b, rest)) == Prepend(a + b, rest)
  {
    if rest.Some? {
      assert a + (b + rest.value) == a + b + rest.value;
    }
  }

  function PercentDecoded(input: string): Option<string> {
    match DecodeTriplets(Encode(input))
    case None => None
    case Some(out) => Decode(out)
  }

  /** A decoder that takes exactly the triplets of section 2.1 of RFC 3986. */
  function StrictTriplets(b: seq<byte>): Option<seq<byte>>
    decreases |b|
  {
    if b == [] then Some([])
    else if b[0] != PERCENT then Prepend([b[0]], StrictTriplets(b[1..]))
    else if |b| > 2 && HexDigit(b[1]).Some? && HexDigit(b[2]).Some? then
      Prepend([(HexDigit(b[1]).value * 16 + HexDigit(b[2]).value) as byte], StrictTriplets(b[3..]))
    else None
  }

  function StrictlyDecoded(input: string): Option<string> {
    match StrictTriplets(Encode(input))
    case None => None
    case Some(out) => Decode(out)
  }

  /** Some triplet that the decoding comes to starts with a plus sign, or the input ends inside a triplet. */
  predicate Lenient(b: seq<byte>)
    decreases |b|
  {
    b != [] &&
    if b[0] != PERCENT then Lenient(b[1..])
    else |b| <= 2 || b[1] == '+' as byte || Lenient(b[3..])
  }

  lemma {:induction false} StrictTripletsDiffer(b: seq<byte>)
    ensures StrictTriplets(b) == if Lenient(b) then None else DecodeTriplets(b)
    decreases |b|
  {
    if b != [] {
      if b[0] != PERCENT {
        StrictTripletsDiffer(b[1..]);
      } else if |b| > 2 {
        StrictTripletsDiffer(b[3..]);
      }
    }
  }

  /** What the decoder refuses, a strict one refuses. What it decodes, the strict one decodes alike if and only if no
      triplet that it comes to starts with a plus sign or is cut off; otherwise the strict one refuses. */
  lemma DecodedLikeStrictly(input: string)
    ensures PercentDecoded(input).Some? ==>
              (StrictlyDecoded(input) == PercentDecoded(input) <==> !Lenient(Encode(input)))
    ensures PercentDecoded(input).None? ==> StrictlyDecoded(input).None?
    ensures Lenient(Encode(input)) ==> StrictlyDecoded(input).None?
  {
    StrictTripletsDiffer(Encode(input));
  }

  /** `%+5` is an input on which they differ. */
  lemma SignedTripletIsDecoded()
    ensures PercentDecoded("%+5") == Some([5 as char]) && StrictlyDecoded("%+5") == None
  {
    EncodeAscii3('%', '+', '5');
    var b := Encode("%+5");
    assert b[3..] == [];
    assert DecodeTriplets([]) == Some([]) && DecodeTriplets(b) == Prepend([5], Some([]));
    assert [5 as char][1..] == "" && Encode([5 as char]) == [5];
    DecodeEncode([5 as char]);
  }

  method PercentDecode(input: string) returns (r: Option<string>)
    ensures r == PercentDecoded(input)
  {
    var out: seq<byte> := [];
    var bytes := Encode(input);
    var i := 0;
    assert bytes[0..] == bytes;
    assert forall b: seq<byte> :: [] + b == b;
    while i < |bytes|
      invariant i <= |bytes|
      invariant DecodeTriplets(bytes) == Prepend(out, DecodeTriplets(bytes[i..]))
    {
      var rest := bytes[i..];
      if bytes[i] == PERCENT && i + 2 < |bytes| {
        var v := HexPair(bytes[i + 1], bytes[i + 2]);
        if v.None? {
          return None;
        }
        assert rest[3..] == bytes[i + 3..];
        PrependConcat(out, [v.value], DecodeTriplets(rest[3..]));
        out := out + [v.value];
        i := i + 3;
      } else {
        assert rest[1..] == bytes[i + 1..];
        PrependConcat(out, [bytes[i]], DecodeTriplets(rest[1..]));
        out := out + [bytes[i]];
        i := i + 1;
      }
    }
    assert bytes[i..] == [] && out + [] == out;
    r := Decode(out);
  }

  /** The name in one parameter of a Content-Disposition header, if it has one. */
  function PartName(rawPart: string): Option<string> {
    var part := Trim(rawPart);
    match StripPrefix(part, "filename*=")
    case Some(rest) =>
      var tail := match SplitOnce(rest, "''") case Some((_, enc)) => enc case None => rest;
      (match PercentDecoded(TrimQuotes(Trim(tail)))
       case Some(decoded) => NonEmpty(Trim(decoded))
       case None => None)
    case None =>
      match StripPrefix(part, "filename=")
      case Some(rest) => NonEmpty(TrimQuotes(Trim(rest)))
      case None => None
  }

  function NonEmpty(s: string): Option<string> {
    if s == "" then None else Some(s)
  }

  /** The first parameter with a name wins. */
  function FirstName(parts: seq<string>): Option<string> {
    if parts == [] then None
    else if PartName(parts[0]).Some? then PartName(parts[0])
    else FirstName(parts[1..])
  }

  method FilenameFromContentDisposition(value: string) returns (r: Option<string>)
    ensures r == FirstName(Split(value, ';'))
  {
    var parts := Split(value, ';');
    for i := 0 to |parts|
      invariant FirstName(parts) == FirstName(parts[i..])
    {
      var part := Trim(parts[i]);
      assert parts[i..][1..] == parts[i + 1..];
      var extended := StripPrefix(part, "filename*=");
      if extended.Some? {
        var rest := extended.value;
        var split := SplitOnce(rest, "''");
        var encoded := TrimQuotes(Trim(if split.Some? then split.value.1 else rest));
        var decoded := PercentDecode(encoded);
        if decoded.Some? {
          var name := Trim(decoded.value);
          if name != "" {
            return Some(name);
          }
        }
        continue;
      }
      var plain := StripPrefix(part, "filename=");
      if plain.Some? {
        var name := TrimQuotes(Trim(plain.value));
        if name != "" {
          return Some(name);
        }
      }
    }
    r := None;
  }

  // ----- the encoder of RFC 8187 and the round trip -----------------------------------------

  /** How a byte of a name is written: as it is, or as a triplet with upper- or lower-case digits
      (section 2.1 of RFC 3986). */
  datatype Choice = Plain | Upper | Lower

  function HexChar(n: nat, choice: Choice): char
    requires n < 16
  {
    if n < 10 then '0' + n as char
    else if choice.Lower? then 'a' + (n - 10) as char
    else 'A' + (n - 10) as char
  }

  function Written(b: byte, choice: Choice): string {
    if choice.Plain? && b < 128 then [b as char]
    else ['%', HexChar(b as nat / 16, choice), HexChar(b as nat % 16, choice)]
  }

  function Escaped(bytes: seq<byte>, choices: seq<Choice>): string
    requires |choices| == |bytes|
  {
    if bytes == [] then "" else Written(bytes[0], choices[0]) + Escaped(bytes[1..], choices[1..])
  }

  /** Bytes that have to be escaped: the percent sign, the delimiters of the header, whitespace, and non-ASCII. */
  predicate MustEscape(b: byte) {
    b >= 128 || b == PERCENT || b == ';' as byte || b == '"' as byte || b == ' ' as byte || 9 <= b <= 13
  }

  predicate Covers(bytes: seq<byte>, choices: seq<Choice>) {
    && |choices| == |bytes|
    && forall i | 0 <= i < |bytes| :: MustEscape(bytes[i]) ==> !choices[i].Plain?
  }

  lemma HexPairOfChars(b: byte, choice: Choice)
    ensures var high, low := HexChar(b as nat / 16, choice), HexChar(b as nat % 16, choice);
            && high as int < 128 && low as int < 128
            && HexPair(high as byte, low as byte) == Some(b)
  {
    var high, low := HexChar(b as nat / 16, choice), HexChar(b as nat % 16, choice);
    assert HexDigit(low as byte) == Some(b as nat % 16);
    assert HexDigit(high as byte) == Some(b as nat / 16);
    assert (b as nat / 16) * 16 + b as nat % 16 == b as nat;
  }

  lemma EncodeAscii3(a: char, b: char, c: char)
    requires a as int < 128 && b as int < 128 && c as int < 128
    ensures Encode([a, b, c]) == [a as byte, b as byte, c as byte]
  {
    assert [a, b, c][1..] == [b, c] && [b, c][1..] == [c] && [c][1..] == "";
    assert Encode("") == [];
    assert Encode([c]) == [c as byte];
    assert Encode([b, c]) == [b as byte] + [c as byte];
  }

  /** Decoding the triplets undoes every such escaping. */
  lemma {:induction false} DecodeEscaped(bytes: seq<byte>, choices: seq<Choice>)
    requires Covers(bytes, choices)
    ensures DecodeTriplets(Encode(Escaped(bytes, choices))) == Some(bytes)
    decreases |bytes|
  {
    if bytes != [] {
      var b, choice := bytes[0], choices[0];
      var rest := Encode(Escaped(bytes[1..], choices[1..]));
      DecodeEscaped(bytes[1..], choices[1..]);
      EncodeConcat(Written(b, choice), Escaped(bytes[1..], choices[1..]));
      assert bytes == [b] + bytes[1..];
      if choice.Plain? {
        assert !MustEscape(b);
        assert [b as char][1..] == "" && Encode([b as char]) == [b];
        assert ([b] + rest)[1..] == rest;
      } else {
        var high, low := HexChar(b as nat / 16, choice), HexChar(b as nat % 16, choice);
        HexPairOfChars(b, choice);
        EncodeAscii3('%', high, low);
        var all := [PERCENT, high as byte, low as byte] + rest;
        assert all[3..] == rest;
      }
    }
  }

  /** What an escaped name cannot contain. */
  predicate Inert(c: char) {
    c != ';' && c != '"' && !IsSpace(c)
  }

  lemma {:induction false} EscapedIsInert(bytes: seq<byte>, choices: seq<Choice>)
    requires Covers(bytes, choices)
    ensures forall i | 0 <= i < |Escaped(bytes, choices)| :: Inert(Escaped(bytes, choices)[i])
    ensures bytes != [] ==> Escaped(bytes, choices) != ""
    decreases |bytes|
  {
    if bytes != [] {
      EscapedIsInert(bytes[1..], choices[1..]);
      var written := Written(bytes[0], choices[0]);
      assert forall i | 0 <= i < |written| :: Inert(written[i]);
    }
  }

  const MARK := "''"

  function Quoted(s: string, quotes: bool): string {
    if quotes then ['"'] + s + ['"'] else s
  }

  /** An extended parameter (section 3.2 of RFC 8187), with or without a charset, a language and quotes. */
  function Extended(charset: Option<string>, value: string, quotes: bool): string {
    [' '] + ("filename*=" + ((if charset.Some? then charset.value + MARK else "") + Quoted(value, quotes)))
  }

  /** A plain parameter. */
  function Plain(value: string, quotes: bool): string {
    [' '] + ("filename=" + Quoted(value, quotes))
  }

  lemma QuotedIsTrimmed(value: string, quotes: bool)
    requires value != "" && (quotes || Trimmed(value)) && value[0] != '"' && Last(value) != '"'
    ensures Trim(Quoted(value, quotes)) == Quoted(value, quotes) && TrimQuotes(Quoted(value, quotes)) == value
  {
    TrimOfTrimmed(Quoted(value, quotes));
    if quotes {
      TrimQuotesAround(value);
    } else {
      TrimQuotesNone(value);
    }
  }

  /** What the client makes of an extended parameter. */
  lemma ExtendedPart(charset: Option<string>, enc: string, quotes: bool)
    requires enc != "" && Trimmed(enc) && enc[0] != '"' && Last(enc) != '"'
    requires if charset.Some? then '\'' !in charset.value else '\'' !in enc
    ensures PartName(Extended(charset, enc, quotes)) ==
            match PercentDecoded(enc)
            case Some(decoded) => NonEmpty(Trim(decoded))
            case None => None
  {
    var value := Quoted(enc, quotes);
    var tail := (if charset.Some? then charset.value + MARK else "") + value;
    var part := "filename*=" + tail;
    assert part[0] == 'f' && Last(part) == Last(value);
    TrimAfterSpace(part);
    StripPrefixOf("filename*=", tail);
    if charset.Some? {
      SplitOnceFresh(charset.value, MARK, value);
    } else {
      assert tail == value;
      SplitOnceNone(value, MARK);
    }
    QuotedIsTrimmed(enc, quotes);
  }

  /** A plain parameter gives exactly its name, quoted or bare. */
  lemma PlainPart(name: string, quotes: bool)
    requires name != "" && (quotes || Trimmed(name)) && name[0] != '"' && Last(name) != '"'
    ensures PartName(Plain(name, quotes)) == Some(name)
  {
    var part := "filename=" + Quoted(name, quotes);
    assert part[0] == 'f' && Last(part) == Last(Quoted(name, quotes));
    TrimAfterSpace(part);
    assert part[8] == '=' && "filename*="[8] == '*';
    StripPrefixOf("filename=", Quoted(name, quotes));
    QuotedIsTrimmed(name, quotes);
  }

  /** Any other parameter gives none. */
  lemma OtherPart(part: string)
    requires !("filename=" <= Trim(part)) && !("filename*=" <= Trim(part))
    ensures PartName(part).None?
  {
  }

  predicate NoSemicolons(parts: seq<string>) {
    forall j | 0 <= j < |parts| :: ';' !in parts[j]
  }

  /** None of the parameters gives a name. */
  predicate Nameless(parts: seq<string>) {
    forall j | 0 <= j < |parts| :: PartName(parts[j]).None?
  }

  /** The first of the parameters that gives a name decides. */
  lemma {:induction false} FirstNameDecides(before: seq<string>, parts: seq<string>)
    requires Nameless(before)
    ensures FirstName(before + parts) == FirstName(parts)
    decreases |before|
  {
    if before == [] {
      assert before + parts == parts;
    } else {
      assert Nameless(before[1..]);
      FirstNameDecides(before[1..], parts);
      assert (before + parts)[0] == before[0] && (before + parts)[1..] == before[1..] + parts;
    }
  }

  lemma NoSemicolonsConcat(a: seq<string>, b: seq<string>)
    requires NoSemicolons(a) && NoSemicolons(b)
    ensures NoSemicolons(a + b)
  {
  }

  /** The name in a header: that of the first parameter that has one, whatever comes after it; parameters of other
      kinds, and extended ones that do not decode, are passed over. */
  lemma HeaderName(before: seq<string>, part: string, after: seq<string>)
    requires PartName(part).Some? && ';' !in part && NoSemicolons(before) && Nameless(before) && NoSemicolons(after)
    ensures FirstName(Split(Join(before + ([part] + after), ';'), ';')) == PartName(part)
  {
    NoSemicolonsConcat([part], after);
    NoSemicolonsConcat(before, [part] + after);
    SplitJoin(before + ([part] + after), ';');
    FirstNameDecides(before, [part] + after);
  }

  /** A header without a name has none. */
  lemma HeaderWithoutName(parts: seq<string>)
    requires parts != [] && NoSemicolons(parts) && Nameless(parts)
    ensures FirstName(Split(Join(parts, ';'), ';')).None?
  {
    SplitJoin(parts, ';');
    FirstNameDecides(parts, []);
    assert parts + [] == parts;
  }

  lemma PlainHasNoSemicolon(name: string, quotes: bool)
    requires ';' !in name
    ensures ';' !in Plain(name, quotes)
  {
    assert ';' !in "filename=";
  }

  /** A plain name comes out of a header exactly as it was put in, quoted or bare, behind any parameters without a name
      and in front of anything. */
  lemma PlainHeaderRoundTrip(before: seq<string>, name: string, quotes: bool, after: seq<string>)
    requires name != "" && ';' !in name && (quotes || Trimmed(name)) && name[0] != '"' && Last(name) != '"'
    requires NoSemicolons(before) && Nameless(before) && NoSemicolons(after)
    ensures FirstName(Split(Join(before + ([Plain(name, quotes)] + after), ';'), ';')) == Some(name)
  {
    PlainHasNoSemicolon(name, quotes);
    PlainPart(name, quotes);
    HeaderName(before, Plain(name, quotes), after);
  }

  lemma EncodeNonEmpty(s: string)
    requires s != ""
    ensures Encode(s) != []
  {
  }

  /** For every name without surrounding whitespace and every escaping that covers what must be escaped, the extended
      parameter of section 3.2 of RFC 8187 parses back to exactly that name, with any charset and language or none,
      quoted or not, behind any parameters without a name (section 4 of RFC 6266) and in front of anything. */
  lemma HeaderRoundTrip(before: seq<string>, name: string, choices: seq<Choice>, charset: Option<string>, quotes: bool,
                        after: seq<string>)
    requires name != "" && Trimmed(name) && Covers(Encode(name), choices)
    requires if charset.Some? then '\'' !in charset.value && ';' !in charset.value
             else '\'' !in Escaped(Encode(name), choices)
    requires NoSemicolons(before) && Nameless(before) && NoSemicolons(after)
    ensures var part := Extended(charset, Escaped(Encode(name), choices), quotes);
            FirstName(Split(Join(before + ([part] + after), ';'), ';')) == Some(name)
  {
    var enc := Escaped(Encode(name), choices);
    EscapedIsInert(Encode(name), choices);
    ExtendedHasNoSemicolon(charset, enc, quotes);
    EscapedName(name, choices, charset, quotes);
    HeaderName(before, Extended(charset, enc, quotes), after);
  }

  lemma EscapedName(name: string, choices: seq<Choice>, charset: Option<string>, quotes: bool)
    requires name != "" && Trimmed(name) && Covers(Encode(name), choices)
    requires if charset.Some? then '\'' !in charset.value else '\'' !in Escaped(Encode(name), choices)
    ensures PartName(Extended(charset, Escaped(Encode(name), choices), quotes)) == Some(name)
  {
    var enc := Escaped(Encode(name), choices);
    EscapedIsInert(Encode(name), choices);
    EncodeNonEmpty(name);
    assert Inert(enc[0]) && Inert(enc[|enc| - 1]);
    ExtendedPart(charset, enc, quotes);
    DecodeEscaped(Encode(name), choices);
    DecodeEncode(name);
    TrimOfTrimmed(name);
  }

  lemma ExtendedHasNoSemicolon(charset: Option<string>, enc: string, quotes: bool)
    requires (charset.Some? ==> ';' !in charset.value) && forall i | 0 <= i < |enc| :: Inert(enc[i])
    ensures ';' !in Extended(charset, enc, quotes)
  {
    assert ';' !in enc && ';' !in "filename*=" && ';' !in MARK;
  }

  /** An extended parameter that is no UTF-8, or has a malformed triplet, leaves the name to the parameters after it. */
  lemma UndecodableIsPassedOver(charset: Option<string>, enc: string, quotes: bool)
    requires enc != "" && Trimmed(enc) && enc[0] != '"' && Last(enc) != '"' && PercentDecoded(enc).None?
    requires if charset.Some? then '\'' !in charset.value else '\'' !in enc
    ensures PartName(Extended(charset, enc, quotes)).None?
  {
    ExtendedPart(charset, enc, quotes);
  }

  /** "attachment" is such a disposition type. */
  lemma AttachmentIsNoName()
    ensures ';' !in "attachment" && PartName("attachment").None?
  {
    var a := "attachment";
    assert a[0] == 'a' && Last(a) == 't';
    TrimOfTrimmed(a);
    assert "filename*="[0] == 'f' && "filename="[0] == 'f';
  }

  // ----- names on disk ---------------------------------------------------------------------

  predicate SafeChar(c: char) {
    'a' <= c <= 'z' || 'A' <= c <= 'Z' || '0' <= c <= '9' || c == '.' || c == '-' || c == '_'
  }

  predicate SafeName(s: string) {
    s != "" && forall i | 0 <= i < |s| :: SafeChar(s[i])
  }

  function SanitizeFilename(name: string): string {
    seq(|name|, i requires 0 <= i < |name| => if SafeChar(name[i]) then name[i] else '_')
  }

  /** The sanitized name is safe and as long as the name, and safe names stay as they are. */
  lemma SanitizedIsSafe(name: string)
    requires name != ""
    ensures SafeName(SanitizeFilename(name)) && |SanitizeFilename(name)| == |name|
    ensures SafeName(name) <==> SanitizeFilename(name) == name
    ensures SanitizeFilename(SanitizeFilename(name)) == SanitizeFilename(name)
    ensures forall i | 0 <= i < |name| ::
              SanitizeFilename(name)[i] == name[i] || (!SafeChar(name[i]) && SanitizeFilename(name)[i] == '_')
    ensures '.' in name <==> '.' in SanitizeFilename(name)
    ensures SanitizeFilename(name) == "." <==> name == "."
    ensures SanitizeFilename(name) == ".." <==> name == ".."
  {
    var out := SanitizeFilename(name);
    if '.' in name {
      var i :| 0 <= i < |name| && name[i] == '.';
      assert out[i] == '.';
    }
    if '.' in out {
      var i :| 0 <= i < |out| && out[i] == '.';
      assert name[i] == '.';
    }
    if out == name {
      assert forall i | 0 <= i < |name| :: SafeChar(out[i]);
    }
    assert forall i | 0 <= i < |name| :: SafeChar(out[i]);
  }

  /** The name a download gets inside the job's directory: always a single safe path component, the header's name if
      it has one, and with an extension whenever one is known. `hint` is the file name of the planned destination and
      `extension` what the mime table says about the Content-Type. */
  method ResolveDirectName(hint: Option<string>, disposition: Option<string>, extension: Option<string>)
      returns (file: string)
    ensures SafeName(file)
    ensures extension.Some? ==> '.' in file
    ensures var fromHeader := if disposition.Some? then FirstName(Split(disposition.value, ';')) else None;
            var base := if fromHeader.Some? && fromHeader.value != "" then fromHeader.value
                        else if hint.Some? && hint.value != "" then hint.value else "download";
            && file == SanitizeFilename(if '.' in base || extension.None? then base else base + "." + extension.value)
            && (file == "." || file == ".." <==> base == "." || base == "..")
  {
    var name := if hint.Some? && hint.value != "" then hint.value else "download";
    if disposition.Some? {
      var cd := FilenameFromContentDisposition(disposition.value);
      NamesAreNonEmpty(Split(disposition.value, ';'));
      if cd.Some? {
        name := cd.value;
      }
    }
    if '.' !in name && extension.Some? {
      assert name[0] != '.';
      name := name + "." + extension.value;
      assert name[0] != '.';
      assert name[|name| - |extension.value| - 1] == '.';
    }
    SanitizedIsSafe(name);
    file := SanitizeFilename(name);
  }

  lemma {:induction false} NamesAreNonEmpty(parts: seq<string>)
    ensures FirstName(parts).Some? ==> FirstName(parts).value != ""
    decreases |parts|
  {
    if parts != [] {
      NamesAreNonEmpty(parts[1..]);
    }
  }
}
