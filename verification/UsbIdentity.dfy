/** `ParseIdentity`, and which instruments prove their identity over the wire. */
module UsbIdentity {
  import opened Commands
  import opened Wrappers
  import opened Framing
  import opened EndpointSessions

  /** A string of the source: UTF-8 bytes, well-formed or not. */
  type Text = seq<Byte>

  const COMMA: Byte := 0x2c
  const IDENTITY_QUERY := Command("*IDN?", Ascii)
  const IDENTITY_REQUEST: Text := [0x2a, 0x49, 0x44, 0x4e, 0x3f, LF]

  // ---- White space ------------------------------------------------------------------------

  /** One encoded character that is white space. */
  predicate IsSpace(c: Text) {
    || (|c| == 1 && (c[0] == 0x20 || 0x09 <= c[0] <= 0x0d))
    || (|c| == 2 && c[0] == 0xc2 && (c[1] == 0x85 || c[1] == 0xa0))
    || (|c| == 3 && c[0] == 0xe1 && c[1] == 0x9a && c[2] == 0x80)
    || (|c| == 3 && c[0] == 0xe2 && c[1] == 0x80 && (0x80 <= c[2] <= 0x8a || 0xa8 <= c[2] <= 0xa9 || c[2] == 0xaf))
    || (|c| == 3 && c[0] == 0xe2 && c[1] == 0x81 && c[2] == 0x9f)
    || (|c| == 3 && c[0] == 0xe3 && c[1] == 0x80 && c[2] == 0x80)
  }

  /** Which characters are white space. Trimming and splitting are proved for any
      set of them of which no one holds a comma or nothing. */
  type Spaces = Text -> bool

  const UNICODE: Spaces := c => IsSpace(c)

  ghost predicate Sane(space: Spaces) {
    forall c | space(c) :: c != [] && COMMA !in c
  }

  lemma UnicodeIsSane()
    ensures Sane(UNICODE)
  {
    forall c | UNICODE(c) ensures c != [] && COMMA !in c {
      SpaceHasNoComma(c);
    }
  }

  lemma SpaceHasNoComma(c: Text)
    requires IsSpace(c)
    ensures c != [] && COMMA !in c
  {
    assert 1 <= |c| <= 3 && c[0] != COMMA;
    assert |c| >= 2 ==> c[1] != COMMA;
    assert |c| == 3 ==> c[2] != COMMA;
  }

  /** How many bytes of white space the text begins with: one character's. */
  function SpaceBefore(space: Spaces, text: Text): (n: nat)
    ensures n <= |text| && (n > 0 ==> space(text[..n]))
  {
    if |text| >= 1 && space(text[..1]) then 1
    else if |text| >= 2 && space(text[..2]) then 2
    else if |text| >= 3 && space(text[..3]) then 3
    else 0
  }

  function SpaceAfter(space: Spaces, text: Text): (n: nat)
    ensures n <= |text| && (n > 0 ==> space(text[|text| - n..]))
  {
    var n := |text|;
    if n >= 1 && space(text[n - 1..]) then 1
    else if n >= 2 && space(text[n - 2..]) then 2
    else if n >= 3 && space(text[n - 3..]) then 3
    else 0
  }

  function TrimFront(space: Spaces, text: Text): (r: Text)
    ensures SpaceBefore(space, r) == 0
    decreases |text|
  {
    var n := SpaceBefore(space, text);
    if n == 0 then text else TrimFront(space, text[n..])
  }

  lemma {:induction false} TrimFrontKeeps(space: Spaces, text: Text)
    ensures forall b | b in TrimFront(space, text) :: b in text
    decreases |text|
  {
    var n := SpaceBefore(space, text);
    if n > 0 {
      TrimFrontKeeps(space, text[n..]);
    }
  }

  function TrimBack(space: Spaces, text: Text): (r: Text)
    ensures SpaceAfter(space, r) == 0 && r <= text
    decreases |text|
  {
    var n := SpaceAfter(space, text);
    if n == 0 then text else TrimBack(space, text[..|text| - n])
  }

  /** `strings.TrimSpace`. */
  function Trim(space: Spaces, text: Text): Text {
    TrimBack(space, TrimFront(space, text))
  }

  predicate IsTrimmed(space: Spaces, text: Text) {
    SpaceBefore(space, text) == 0 && SpaceAfter(space, text) == 0
  }

  lemma PrefixHasNoSpaceBefore(space: Spaces, text: Text, prefix: Text)
    requires SpaceBefore(space, text) == 0 && prefix <= text
    ensures SpaceBefore(space, prefix) == 0
  {
    var n := SpaceBefore(space, prefix);
    assert prefix[..n] == text[..n];
  }

  /** Nothing is left to trim. */
  lemma TrimIsTrimmed(space: Spaces, text: Text)
    ensures IsTrimmed(space, Trim(space, text))
    ensures forall b | b in Trim(space, text) :: b in text
  {
    TrimFrontKeeps(space, text);
    PrefixHasNoSpaceBefore(space, TrimFront(space, text), Trim(space, text));
  }

  lemma TrimmedStays(space: Spaces, text: Text)
    requires IsTrimmed(space, text)
    ensures Trim(space, text) == text
  {
  }

  // ---- Fields -----------------------------------------------------------------------------

  /** `strings.Split` at the commas. */
  function Split(text: Text): (parts: seq<Text>)
    ensures |parts| >= 1
  {
    if text == [] then [[]]
    else
      var rest := Split(text[1..]);
      if text[0] == COMMA then [[]] + rest else [[text[0]] + rest[0]] + rest[1..]
  }

  lemma {:induction false} SplitAtCommas(text: Text)
    ensures forall k | 0 <= k < |Split(text)| :: COMMA !in Split(text)[k]
  {
    if text != [] {
      SplitAtCommas(text[1..]);
    }
  }

  lemma {:induction false} SplitLast(field: Text)
    requires COMMA !in field
    ensures Split(field) == [field]
  {
    if field != [] {
      SplitLast(field[1..]);
      assert [field[0]] + field[1..] == field;
    }
  }

  lemma {:induction false} SplitFirst(field: Text, rest: Text)
    requires COMMA !in field
    ensures Split(field + [COMMA] + rest) == [field] + Split(rest)
  {
    var text := field + [COMMA] + rest;
    if field == [] {
      assert text[1..] == rest;
    } else {
      assert text[1..] == field[1..] + [COMMA] + rest;
      SplitFirst(field[1..], rest);
      assert [field[0]] + field[1..] == field;
    }
  }

  datatype Info = Info(manufacturer: Text, model: Text, serial: Text, firmware: Text)

  /** `ParseIdentity`: four nonempty fields, or nothing. */
  function ParseIdentity(space: Spaces, response: Text): Option<Info> {
    InfoOf(space, Split(Trim(space, response)))
  }

  function InfoOf(space: Spaces, parts: seq<Text>): Option<Info> {
    if |parts| != 4 then None
    else Filled(Info(Trim(space, parts[0]), Trim(space, parts[1]), Trim(space, parts[2]), Trim(space, parts[3])))
  }

  function Filled(info: Info): Option<Info> {
    if info.manufacturer == [] || info.model == [] || info.serial == [] || info.firmware == [] then None
    else Some(info)
  }

  /** What an identity reply may hold as a field. */
  predicate IsField(space: Spaces, text: Text) {
    text != [] && COMMA !in text && IsTrimmed(space, text)
  }

  predicate HasFields(space: Spaces, info: Info) {
    && IsField(space, info.manufacturer) && IsField(space, info.model)
    && IsField(space, info.serial) && IsField(space, info.firmware)
  }

  /** The reply in which an instrument gives its identity. */
  function Format(info: Info): Text {
    Fields(info.manufacturer, info.model, info.serial, info.firmware)
  }

  function Fields(a: Text, b: Text, c: Text, d: Text): Text {
    a + [COMMA] + (b + [COMMA] + (c + [COMMA] + d))
  }

  lemma CommaIsNoSpace(space: Spaces, c: Text, k: nat)
    requires Sane(space) && k < |c| && c[k] == COMMA
    ensures !space(c)
  {
  }

  /** No shorter text at the front of a field is white space, nor at its back. */
  lemma NoSpaceBefore(space: Spaces, field: Text, k: nat)
    requires SpaceBefore(space, field) == 0 && 0 < k <= |field| && k <= 3
    ensures !space(field[..k])
  {
    if k == 1 {
      assert !space(field[..1]);
    } else if k == 2 {
      assert !space(field[..2]);
    } else {
      assert !space(field[..3]);
    }
  }

  lemma NoSpaceAfter(space: Spaces, field: Text, k: nat)
    requires SpaceAfter(space, field) == 0 && 0 < k <= |field| && k <= 3
    ensures !space(field[|field| - k..])
  {
    var n := |field|;
    if k == 1 {
      assert !space(field[n - 1..]);
    } else if k == 2 {
      assert !space(field[n - 2..]);
    } else {
      assert !space(field[n - 3..]);
    }
  }

  /** Before a comma that follows a field there is nothing to trim at the front,
      and behind one that a field follows nothing at the back. */
  lemma FrontStays(space: Spaces, field: Text, rest: Text, text: Text)
    requires Sane(space) && field != [] && SpaceBefore(space, field) == 0
    requires text == field + [COMMA] + rest
    ensures SpaceBefore(space, text) == 0
  {
    var k := SpaceBefore(space, text);
    if 0 < k <= |field| {
      assert text[..k] == field[..k];
      NoSpaceBefore(space, field, k);
    } else if k > |field| {
      CommaIsNoSpace(space, text[..k], |field|);
    }
  }

  lemma TailOfField(rest: Text, field: Text, k: nat)
    requires k <= |field|
    ensures var text := rest + [COMMA] + field;
            text[|text| - k..] == field[|field| - k..]
  {
  }

  lemma TailWithComma(rest: Text, field: Text, k: nat)
    requires |field| < k <= |rest| + 1 + |field|
    ensures var text := rest + [COMMA] + field;
            |text[|text| - k..]| == k && text[|text| - k..][k - |field| - 1] == COMMA
  {
  }

  lemma BackStays(space: Spaces, rest: Text, field: Text, text: Text)
    requires Sane(space) && field != [] && SpaceAfter(space, field) == 0
    requires text == rest + [COMMA] + field
    ensures SpaceAfter(space, text) == 0
  {
    var k := SpaceAfter(space, text);
    if 0 < k <= |field| {
      TailOfField(rest, field, k);
      NoSpaceAfter(space, field, k);
    } else if k > |field| {
      TailWithComma(rest, field, k);
      CommaIsNoSpace(space, text[|text| - k..], k - |field| - 1);
    }
  }

  lemma FieldsRegrouped(a: Text, b: Text, c: Text, d: Text)
    ensures Fields(a, b, c, d) == a + [COMMA] + (b + [COMMA] + c) + [COMMA] + d
  {
    var e: Text := [COMMA];
    assert b + e + (c + e + d) == (b + e + c) + e + d;
    assert a + e + ((b + e + c) + e + d) == a + e + (b + e + c) + e + d;
  }

  lemma FieldsAreTrimmed(space: Spaces, a: Text, b: Text, c: Text, d: Text)
    requires Sane(space) && a != [] && SpaceBefore(space, a) == 0 && d != [] && SpaceAfter(space, d) == 0
    ensures IsTrimmed(space, Fields(a, b, c, d))
  {
    FieldsRegrouped(a, b, c, d);
    FrontStays(space, a, b + [COMMA] + (c + [COMMA] + d), Fields(a, b, c, d));
    BackStays(space, a + [COMMA] + (b + [COMMA] + c), d, Fields(a, b, c, d));
  }

  lemma FieldsAreSplit(a: Text, b: Text, c: Text, d: Text)
    requires COMMA !in a && COMMA !in b && COMMA !in c && COMMA !in d
    ensures Split(Fields(a, b, c, d)) == [a, b, c, d]
  {
    var last := c + [COMMA] + d;
    var behind := b + [COMMA] + last;
    SplitLast(d);
    SplitFirst(c, d);
    assert Split(last) == [c, d];
    SplitFirst(b, last);
    assert Split(behind) == [b, c, d];
    SplitFirst(a, behind);
  }

  /** An identity is read from its own reply exactly when its four fields can be
      fields: nonempty, trimmed and without commas. */
  lemma IdentityRoundTrip(space: Spaces, info: Info)
    requires Sane(space)
    ensures ParseIdentity(space, Format(info)) == Some(info) <==> HasFields(space, info)
  {
    ParsedHasFields(space, Format(info));
    if HasFields(space, info) {
      FieldsAreParsed(space, info);
    }
  }

  lemma FieldsAreParsed(space: Spaces, info: Info)
    requires Sane(space) && HasFields(space, info)
    ensures ParseIdentity(space, Format(info)) == Some(info)
  {
    FieldsAreTrimmed(space, info.manufacturer, info.model, info.serial, info.firmware);
    FieldsAreSplit(info.manufacturer, info.model, info.serial, info.firmware);
    PartsMakeInfo(space, info.manufacturer, info.model, info.serial, info.firmware);
    TrimmedIsParsed(space, Format(info), [info.manufacturer, info.model, info.serial, info.firmware]);
  }

  lemma TrimmedIsParsed(space: Spaces, response: Text, parts: seq<Text>)
    requires IsTrimmed(space, response) && Split(response) == parts
    ensures ParseIdentity(space, response) == InfoOf(space, parts)
  {
    TrimmedStays(space, response);
  }

  lemma PartsMakeInfo(space: Spaces, a: Text, b: Text, c: Text, d: Text)
    requires IsField(space, a) && IsField(space, b) && IsField(space, c) && IsField(space, d)
    ensures InfoOf(space, [a, b, c, d]) == Some(Info(a, b, c, d))
  {
    TrimmedStays(space, a);
    TrimmedStays(space, b);
    TrimmedStays(space, c);
    TrimmedStays(space, d);
  }

  lemma PartIsField(space: Spaces, response: Text, k: nat)
    requires k < |Split(response)| && Trim(space, Split(response)[k]) != []
    ensures IsField(space, Trim(space, Split(response)[k]))
  {
    SplitAtCommas(response);
    TrimIsTrimmed(space, Split(response)[k]);
  }

  lemma ParsedHasFields(space: Spaces, response: Text)
    ensures ParseIdentity(space, response).Some? ==> HasFields(space, ParseIdentity(space, response).value)
  {
    if ParseIdentity(space, response).Some? {
      PartIsField(space, Trim(space, response), 0);
      PartIsField(space, Trim(space, response), 1);
      PartIsField(space, Trim(space, response), 2);
      PartIsField(space, Trim(space, response), 3);
    }
  }

  // ---- Proof of identity ----------------------------------------------------------------------

  function UpperByte(b: Byte): Byte {
    if 0x61 <= b <= 0x7a then b - 0x20 else b
  }

  /** "OWON", in any case of letters. */
  predicate IsOwon(text: Text) {
    && |text| == 4 && UpperByte(text[0]) == 0x4f && UpperByte(text[1]) == 0x57
    && UpperByte(text[2]) == 0x4f && UpperByte(text[3]) == 0x4e
  }

  /** Letter by letter. */
  lemma OwonInAnyCase(text: Text)
    ensures IsOwon(text) <==>
            && |text| == 4 && text[0] in {0x4f, 0x6f} && text[1] in {0x57, 0x77}
            && text[2] in {0x4f, 0x6f} && text[3] in {0x4e, 0x6e}
  {
  }

  /** What the endpoints of one instrument do, transfer by transfer. */
  datatype Instrument = Instrument(input: nat -> Transfer, output: nat -> Acceptance)

  /** Its reply to the identity query behind whatever stale bytes it had. */
  function IdentityReply(i: Instrument, limit: nat): Option<Text> {
    match Drained(i.input, 0, limit + RESPONSE_DRAIN_LENGTH_PREFIX_BYTES)
    case None => None
    case Some(k) => Exchanged(Some(IDENTITY_REQUEST), Ascii, limit, i.input, k, i.output, 0, false)
  }

  /** Whether a reply is that of the instrument with this serial and model. */
  predicate IsExpected(space: Spaces, reply: Text, serial: Text, model: Text) {
    var info := ParseIdentity(space, reply);
    && info.Some? && IsOwon(Trim(space, info.value.manufacturer))
    && info.value.serial == serial && info.value.model == model
  }

  /** The judgement as a value, so that what is proved of the backend does not
      depend on it. */
  type Judge = (Text, Text, Text) -> bool

  const OWON: Judge := (reply, serial, model) => IsExpected(UNICODE, reply, serial, model)

  /** The instrument says over the wire that it is the one expected. */
  predicate Identifies(judge: Judge, i: Instrument, limit: nat, serial: Text, model: Text) {
    var reply := IdentityReply(i, limit);
    reply.Some? && judge(reply.value, serial, model)
  }

  lemma IdentityQueryIsSent()
    ensures CommandBytes(IDENTITY_QUERY) == Some(IDENTITY_REQUEST)
  {
    assert TrimLeft("*IDN?") == "*IDN?" && TrimRight("*IDN?") == "*IDN?";
    assert Bytes("*IDN?") + [LF] == IDENTITY_REQUEST;
  }

  /** The right instrument is recognized: whatever it still had to say, however
      short its writes, and in whatever fragments its line arrives. */
  lemma RightInstrumentIsRecognized(i: Instrument, limit: nat, info: Info, k: nat)
    requires HasFields(UNICODE, info) && IsOwon(info.manufacturer)
    requires LF !in Format(info) && |Format(info)| <= limit
    requires Drained(i.input, 0, limit + RESPONSE_DRAIN_LENGTH_PREFIX_BYTES) == Some(k)
    requires Accepts(i.output, 0, |IDENTITY_REQUEST|) && Delivers(i.input, k, Format(info) + [LF])
    ensures Identifies(OWON, i, limit, info.serial, info.model)
  {
    LineHasNoReturn(info);
    LineIsAnswered(i.input, k, limit, Format(info));
    ReplyIsLine(i, limit, k, Format(info));
    FieldsAreExpected(info);
    ReplyIsJudged(OWON, i, limit, Format(info), info.serial, info.model);
  }

  /** And who is recognized has said all of it. */
  lemma WhoIsRecognized(i: Instrument, limit: nat, serial: Text, model: Text) returns (info: Info)
    requires Identifies(OWON, i, limit, serial, model)
    ensures IdentityReply(i, limit).Some? && ParseIdentity(UNICODE, IdentityReply(i, limit).value) == Some(info)
    ensures HasFields(UNICODE, info) && IsOwon(info.manufacturer) && info.serial == serial && info.model == model
  {
    info := ExpectedInfo(UNICODE, IdentityReply(i, limit).value, serial, model);
  }

  lemma ExpectedInfo(space: Spaces, reply: Text, serial: Text, model: Text) returns (info: Info)
    requires IsExpected(space, reply, serial, model)
    ensures ParseIdentity(space, reply) == Some(info)
    ensures HasFields(space, info) && IsOwon(info.manufacturer) && info.serial == serial && info.model == model
  {
    ParsedHasFields(space, reply);
    info := ParseIdentity(space, reply).value;
    TrimmedStays(space, info.manufacturer);
  }

  lemma FieldsAreExpected(info: Info)
    requires HasFields(UNICODE, info) && IsOwon(info.manufacturer)
    ensures OWON(Format(info), info.serial, info.model)
  {
    UnicodeIsSane();
    AnyFieldsAreExpected(UNICODE, info);
  }

  lemma AnyFieldsAreExpected(space: Spaces, info: Info)
    requires Sane(space) && HasFields(space, info) && IsOwon(info.manufacturer)
    ensures IsExpected(space, Format(info), info.serial, info.model)
  {
    FieldsAreParsed(space, info);
    TrimmedStays(space, info.manufacturer);
  }

  lemma ReplyIsJudged(judge: Judge, i: Instrument, limit: nat, reply: Text, serial: Text, model: Text)
    requires IdentityReply(i, limit) == Some(reply) && judge(reply, serial, model)
    ensures Identifies(judge, i, limit, serial, model)
  {
  }

  lemma LineIsAnswered(input: nat -> Transfer, k: nat, limit: nat, line: Text)
    requires LF !in line && |line| <= limit && (line == [] || line[|line| - 1] != CR)
    requires Delivers(input, k, line + [LF])
    ensures Answer(Ascii, limit, input, k, [], None) == Some(line)
  {
    LineRoundTrip(limit, line, []);
    assert line + [LF] + [] == line + [LF] && [] + (line + [LF]) == line + [LF];
    FragmentsAreAnswered(Ascii, limit, input, k, [], line + [LF], line);
  }

  lemma ReplyIsLine(i: Instrument, limit: nat, k: nat, line: Text)
    requires Drained(i.input, 0, limit + RESPONSE_DRAIN_LENGTH_PREFIX_BYTES) == Some(k)
    requires Accepts(i.output, 0, |IDENTITY_REQUEST|) && Answer(Ascii, limit, i.input, k, [], None) == Some(line)
    ensures IdentityReply(i, limit) == Some(line)
  {
  }

  /** A trimmed field does not end in a carriage return. */
  lemma LineHasNoReturn(info: Info)
    requires HasFields(UNICODE, info)
    ensures Format(info) != [] && Format(info)[|Format(info)| - 1] != CR
  {
    var line, last := Format(info), info.firmware;
    assert line[|line| - 1] == last[|last| - 1];
    EndsInNoReturn(last);
  }

  lemma EndsInNoReturn(field: Text)
    requires field != [] && SpaceAfter(UNICODE, field) == 0
    ensures field[|field| - 1] != CR
  {
    assert field[|field| - 1..] == [field[|field| - 1]];
    assert !UNICODE(field[|field| - 1..]);
  }
}
