/** The generator's command text and replies: what a patch compiles to, how the
    output command is set apart, and how replies are read. */
module GeneratorCommands {
  import opened Commands
  import opened Wrappers

  datatype Waveform =
    | Sine | Square | Ramp | Pulse
    | AmpALT | AttALT | StairDown | StairUpDown | StairUp | BesselJ | BesselY | Sinc

  /** A validated patch; the settings are given as they are serialized. */
  datatype Patch = Patch(
    waveform: Option<Waveform>,
    frequency: Option<string>,
    period: Option<string>,
    amplitude: Option<string>,
    offset: Option<string>,
    high: Option<string>,
    low: Option<string>,
    symmetry: Option<string>,
    width: Option<string>,
    rising: Option<string>,
    falling: Option<string>,
    duty: Option<string>,
    load: Option<string>,
    output: Option<bool>)

  // ---- Writing ------------------------------------------------------------------------

  function Token(waveform: Waveform): string {
    match waveform
    case Sine => "SINE"
    case Square => "SQUARE"
    case Ramp => "RAMP"
    case Pulse => "PULSE"
    case AmpALT => "AmpALT"
    case AttALT => "AttALT"
    case StairDown => "StairDn"
    case StairUpDown => "StairUD"
    case StairUp => "StairUp"
    case BesselJ => "Besselj"
    case BesselY => "Bessely"
    case Sinc => "Sinc"
  }

  function Write(text: string): Command {
    Command(text, NoResponse)
  }

  /** `GeneratorOutputCommand`. */
  function OutputCommand(value: bool): Command {
    Write(":CHANNEL " + if value then "ON" else "OFF")
  }

  const FUNCTION_QUERY := Command(":FUNCTION?", Ascii)
  const CHANNEL_QUERY := Command(":CHANNEL?", Ascii)

  datatype Setting = Setting(prefix: string, value: Option<string>)

  /** The optional settings in command order. */
  function Settings(patch: Patch): seq<Setting> {
    [Setting(":FUNCTION:FREQUENCY ", patch.frequency), Setting(":FUNCTION:PERIOD ", patch.period),
     Setting(":FUNCTION:AMPLITUDE ", patch.amplitude), Setting(":FUNCTION:OFFSET ", patch.offset),
     Setting(":FUNCTION:HIGHT ", patch.high), Setting(":FUNCTION:LOW ", patch.low),
     Setting(":FUNCTION:SYMMETRY ", patch.symmetry), Setting(":FUNCTION:WIDTH ", patch.width),
     Setting(":FUNCTION:RISING ", patch.rising), Setting(":FUNCTION:FALING ", patch.falling),
     Setting(":FUNCTION:DTYCYCLE ", patch.duty), Setting(":FUNCTION:LOAD ", patch.load)]
  }

  /** The settings that are present, in order, as commands. */
  function Present(settings: seq<Setting>): seq<Command> {
    if settings == [] then []
    else
      var last := settings[|settings| - 1];
      Present(settings[..|settings| - 1]) + if last.value.None? then [] else [Write(last.prefix + last.value.value)]
  }

  /** What precedes the output command: the waveform first, then the settings. */
  function FunctionWrites(patch: Patch): seq<Command> {
    (if patch.waveform.None? then [] else [Write(":FUNCTION " + Token(patch.waveform.value))]) +
    Present(Settings(patch))
  }

  function Compiled(patch: Patch): seq<Command> {
    FunctionWrites(patch) + if patch.output.None? then [] else [OutputCommand(patch.output.value)]
  }

  method AppendSettings(commands: seq<Command>, settings: seq<Setting>) returns (extended: seq<Command>)
    ensures extended == commands + Present(settings)
  {
    extended := commands;
    for i := 0 to |settings|
      invariant extended == commands + Present(settings[..i])
    {
      assert settings[..i + 1][..i] == settings[..i];
      if settings[i].value.Some? {
        extended := extended + [Write(settings[i].prefix + settings[i].value.value)];
      }
    }
    assert settings[..|settings|] == settings;
  }

  /** `CompileGenerator` for a patch that passed validation. */
  method CompileGenerator(patch: Patch) returns (commands: seq<Command>)
    ensures commands == Compiled(patch)
  {
    commands := [];
    if patch.waveform.Some? {
      commands := commands + [Write(":FUNCTION " + Token(patch.waveform.value))];
    }
    commands := AppendSettings(commands, Settings(patch));
    if patch.output.Some? {
      commands := commands + [OutputCommand(patch.output.value)];
    }
  }

  // ---- Reading a patch back ---------------------------------------------------------

  /** One command per value present, each behind its own header. */
  function Emitted(setting: Setting): seq<Command> {
    if setting.value.None? then [] else [Command(setting.prefix + setting.value.value, NoResponse)]
  }

  lemma PresentAppend(settings: seq<Setting>, last: Setting)
    ensures Present(settings + [last]) == Present(settings) + Emitted(last)
  {
    assert (settings + [last])[..|settings|] == settings;
  }

  lemma {:induction false} PresentConcat(a: seq<Setting>, b: seq<Setting>)
    ensures Present(a + b) == Present(a) + Present(b)
  {
    if b == [] {
      assert a + b == a;
    } else {
      var n := |b| - 1;
      assert a + b == (a + b[..n]) + [b[n]] && b == b[..n] + [b[n]];
      PresentConcat(a, b[..n]);
      PresentAppend(a + b[..n], b[n]);
      PresentAppend(b[..n], b[n]);
    }
  }

  /** A header ends at its only space, so no command but its own begins with it. */
  predicate IsHeader(header: string) {
    && header != [] && header[|header| - 1] == ' '
    && forall i | 0 <= i < |header| - 1 :: header[i] != ' '
  }

  lemma OwnHeaderOnly(header: string, other: string, value: string)
    requires IsHeader(header) && IsHeader(other) && header <= other + value
    ensures header == other
  {
    var text := other + value;
    assert header == text[..|header|] && text[..|other|] == other;
    assert |header| <= |other| ==> other[|header| - 1] == header[|header| - 1] == ' ';
    assert |other| <= |header| ==> header[|other| - 1] == other[|other| - 1] == ' ';
  }

  /** What stands behind `header` in the last command that begins with it. */
  function ArgumentOf(commands: seq<Command>, header: string): Option<string> {
    if commands == [] then None
    else
      var text := commands[|commands| - 1].text;
      if header <= text then Some(text[|header|..]) else ArgumentOf(commands[..|commands| - 1], header)
  }

  ghost predicate HaveHeaders(settings: seq<Setting>, headers: seq<string>) {
    |settings| == |headers| && forall k | 0 <= k < |settings| :: settings[k].prefix == headers[k]
  }

  ghost predicate AreHeaders(headers: seq<string>) {
    && (forall k | 0 <= k < |headers| :: IsHeader(headers[k]))
    && (forall i, j | 0 <= i < j < |headers| :: headers[i] != headers[j])
  }

  /** Whatever the headers, each argument is found behind its own. */
  lemma {:induction false} ArgumentIsFound(settings: seq<Setting>, headers: seq<string>, n: nat, k: nat)
    requires HaveHeaders(settings, headers) && AreHeaders(headers) && n <= |settings| && k < |settings|
    ensures ArgumentOf(Present(settings[..n]), headers[k]) == if k < n then settings[k].value else None
  {
    if n > 0 {
      ArgumentIsFound(settings, headers, n - 1, k);
      assert settings[..n] == settings[..n - 1] + [settings[n - 1]];
      PresentAppend(settings[..n - 1], settings[n - 1]);
      ArgumentOfNext(Present(settings[..n - 1]), settings[n - 1], headers[k], k == n - 1);
    }
  }

  lemma ArgumentOfNext(commands: seq<Command>, setting: Setting, header: string, own: bool)
    requires IsHeader(header) && IsHeader(setting.prefix) && (own <==> setting.prefix == header)
    ensures ArgumentOf(commands + Emitted(setting), header) ==
            if own && setting.value.Some? then setting.value else ArgumentOf(commands, header)
  {
    if setting.value.Some? {
      var text := setting.prefix + setting.value.value;
      assert (commands + Emitted(setting))[..|commands|] == commands;
      assert own ==> text[..|header|] == header && text[|header|..] == setting.value.value;
      if header <= text {
        OwnHeaderOnly(header, setting.prefix, setting.value.value);
      }
    } else {
      assert commands + Emitted(setting) == commands;
    }
  }

  /** The headers of the instrument's language, by field and in the order in which
      commands are sent. */
  const HEADERS: seq<string> :=
    [":FUNCTION ", ":FUNCTION:FREQUENCY ", ":FUNCTION:PERIOD ", ":FUNCTION:AMPLITUDE ", ":FUNCTION:OFFSET ",
     ":FUNCTION:HIGHT ", ":FUNCTION:LOW ", ":FUNCTION:SYMMETRY ", ":FUNCTION:WIDTH ", ":FUNCTION:RISING ",
     ":FUNCTION:FALING ", ":FUNCTION:DTYCYCLE ", ":FUNCTION:LOAD ", ":CHANNEL "]

  function WaveformOf(argument: Option<string>): Option<Waveform> {
    if argument.None? then None else WaveformFromToken(argument.value)
  }

  function OutputOf(argument: Option<string>): Option<bool> {
    if argument.None? then None else Some(argument.value == "ON")
  }

  function PatchOf(arguments: seq<Option<string>>): Patch
    requires |arguments| == 14
  {
    Patch(WaveformOf(arguments[0]), arguments[1], arguments[2], arguments[3], arguments[4], arguments[5], arguments[6],
          arguments[7], arguments[8], arguments[9], arguments[10], arguments[11], arguments[12],
          OutputOf(arguments[13]))
  }

  /** The patch that a list of commands is made of. */
  function ReadPatch(commands: seq<Command>, headers: seq<string>): Patch
    requires |headers| == 14
  {
    PatchOf(seq(14, k requires 0 <= k < 14 => ArgumentOf(commands, headers[k])))
  }

  function TokenOf(waveform: Option<Waveform>): Option<string> {
    if waveform.None? then None else Some(Token(waveform.value))
  }

  function WordOf(output: Option<bool>): Option<string> {
    if output.None? then None else Some(if output.value then "ON" else "OFF")
  }

  /** Every field behind its header. */
  function AllSettings(patch: Patch, headers: seq<string>): seq<Setting>
    requires |headers| == 14
  {
    [Setting(headers[0], TokenOf(patch.waveform)), Setting(headers[1], patch.frequency),
     Setting(headers[2], patch.period), Setting(headers[3], patch.amplitude), Setting(headers[4], patch.offset),
     Setting(headers[5], patch.high), Setting(headers[6], patch.low), Setting(headers[7], patch.symmetry),
     Setting(headers[8], patch.width), Setting(headers[9], patch.rising), Setting(headers[10], patch.falling),
     Setting(headers[11], patch.duty), Setting(headers[12], patch.load), Setting(headers[13], WordOf(patch.output))]
  }

  lemma SettingsBehindHeaders(patch: Patch)
    ensures AllSettings(patch, HEADERS) ==
            [Setting(":FUNCTION ", TokenOf(patch.waveform))] + Settings(patch) +
            [Setting(":CHANNEL ", WordOf(patch.output))]
  {
  }

  /** A patch compiles to one command per field present, each behind the header of
      its field, in the order of the headers: the waveform first, the output
      last. */
  lemma CompiledInOrder(patch: Patch)
    ensures Compiled(patch) == Present(AllSettings(patch, HEADERS))
    ensures patch.waveform.Some? ==> Compiled(patch) != [] && FunctionWrites(patch) != []
    ensures patch.waveform.Some? ==>
              Compiled(patch)[0] == FunctionWrites(patch)[0] ==
              Command(":FUNCTION " + Token(patch.waveform.value), NoResponse)
  {
    SettingsBehindHeaders(patch);
    JoinSettings(Setting(":FUNCTION ", TokenOf(patch.waveform)), Settings(patch),
                 Setting(":CHANNEL ", WordOf(patch.output)));
    OutputIsOne(patch);
  }

  lemma OutputIsOne(patch: Patch)
    ensures Compiled(patch) ==
            Emitted(Setting(":FUNCTION ", TokenOf(patch.waveform))) + Present(Settings(patch)) +
            Emitted(Setting(":CHANNEL ", WordOf(patch.output)))
  {
  }

  lemma JoinSettings(first: Setting, middle: seq<Setting>, last: Setting)
    ensures Present([first] + middle + [last]) == Emitted(first) + Present(middle) + Emitted(last)
  {
    PresentAppend([first] + middle, last);
    PresentConcat([first], middle);
    PresentAppend([], first);
    assert [] + [first] == [first];
  }

  /** Tells a header by its length and its first letters behind ":FUNCTION:". */
  function Rank(header: string): int {
    if |header| == 10 then 0
    else if |header| < 13 then 13
    else
      match header[10]
      case 'F' => if header[11] == 'R' then 1 else 10
      case 'P' => 2
      case 'A' => 3
      case 'O' => 4
      case 'H' => 5
      case 'L' => if header[12] == 'W' then 6 else 12
      case 'S' => 7
      case 'W' => 8
      case 'R' => 9
      case _ => 11
  }

  lemma HeadersAreRanked(k: nat)
    requires k < 14
    ensures Rank(HEADERS[k]) == k
  {
  }

  lemma HeadersEndInSpaces(k: nat)
    requires k < 14
    ensures IsHeader(HEADERS[k])
  {
    if k < 5 {
      FirstHeadersEndInSpaces(k);
    } else if k < 10 {
      NextHeadersEndInSpaces(k);
    } else {
      LastHeadersEndInSpaces(k);
    }
  }

  lemma FirstHeadersEndInSpaces(k: nat)
    requires k < 5
    ensures IsHeader(HEADERS[k])
  {
  }

  lemma NextHeadersEndInSpaces(k: nat)
    requires 5 <= k < 10
    ensures IsHeader(HEADERS[k])
  {
  }

  lemma LastHeadersEndInSpaces(k: nat)
    requires 10 <= k < 14
    ensures IsHeader(HEADERS[k])
  {
  }

  lemma HeadersAreDistinct()
    ensures AreHeaders(HEADERS)
  {
    forall k: nat | k < 14 ensures IsHeader(HEADERS[k]) && Rank(HEADERS[k]) == k {
      HeadersEndInSpaces(k);
      HeadersAreRanked(k);
    }
  }

  /** Nothing is lost or mixed up on the way: the patch can be read back from its
      commands. */
  lemma PatchRoundTrip(patch: Patch)
    ensures ReadPatch(Compiled(patch), HEADERS) == patch
  {
    CompiledInOrder(patch);
    HeadersAreDistinct();
    ReadBack(patch, HEADERS);
  }

  function Values(settings: seq<Setting>): seq<Option<string>> {
    seq(|settings|, k requires 0 <= k < |settings| => settings[k].value)
  }

  lemma ReadBack(patch: Patch, headers: seq<string>)
    requires |headers| == 14 && AreHeaders(headers)
    ensures ReadPatch(Present(AllSettings(patch, headers)), headers) == patch
  {
    var all := AllSettings(patch, headers);
    AllHaveHeaders(patch, headers);
    ArgumentsAreValues(all, headers);
    ValuesMakePatch(patch, headers);
  }

  lemma AllHaveHeaders(patch: Patch, headers: seq<string>)
    requires |headers| == 14
    ensures HaveHeaders(AllSettings(patch, headers), headers)
  {
  }

  lemma ArgumentsAreValues(settings: seq<Setting>, headers: seq<string>)
    requires HaveHeaders(settings, headers) && AreHeaders(headers) && |headers| == 14
    ensures seq(14, k requires 0 <= k < 14 => ArgumentOf(Present(settings), headers[k])) == Values(settings)
  {
    assert settings[..14] == settings;
    forall k: nat | k < 14 ensures ArgumentOf(Present(settings), headers[k]) == settings[k].value {
      ArgumentIsFound(settings, headers, 14, k);
    }
  }

  lemma ValuesMakePatch(patch: Patch, headers: seq<string>)
    requires |headers| == 14
    ensures PatchOf(Values(AllSettings(patch, headers))) == patch
  {
    if patch.waveform.Some? {
      TokenRoundTrip(patch.waveform.value);
    }
  }

  // ---- Setting the output command apart ---------------------------------------------

  function UpperChar(c: char): char {
    if 'a' <= c <= 'z' then (c as int - 32) as char else c
  }

  function Upper(s: string): string {
    seq(|s|, i requires 0 <= i < |s| => UpperChar(s[i]))
  }

  predicate IsOutput(command: Command) {
    |command.text| >= 9 && Upper(command.text)[..9] == ":CHANNEL "
  }

  predicate IsFunction(command: Command) {
    command.mode.NoResponse? && ":FUNCTION" <= command.text
  }

  lemma FunctionIsNotOutput(command: Command)
    requires IsFunction(command)
    ensures !IsOutput(command)
  {
    if |command.text| >= 9 {
      assert command.text[1] == 'F' && Upper(command.text)[..9][1] == 'F';
    }
  }

  lemma OutputIsOutput(value: bool)
    ensures IsOutput(OutputCommand(value))
  {
    var text := OutputCommand(value).text;
    assert forall i | 0 <= i < 9 :: Upper(text)[i] == ":CHANNEL "[i];
    assert Upper(text)[..9] == ":CHANNEL ";
  }

  lemma {:induction false} PresentAreFunctions(settings: seq<Setting>, i: nat)
    requires forall k | 0 <= k < |settings| :: ":FUNCTION" <= settings[k].prefix
    requires i < |Present(settings)|
    ensures IsFunction(Present(settings)[i])
  {
    var front, last := settings[..|settings| - 1], settings[|settings| - 1];
    if i < |Present(front)| {
      PresentAreFunctions(front, i);
    } else {
      assert ":FUNCTION" <= last.prefix;
    }
  }

  lemma FunctionWritesAreFunctions(patch: Patch, i: nat)
    requires i < |FunctionWrites(patch)|
    ensures IsFunction(FunctionWrites(patch)[i])
  {
    SettingsAreFunctions(patch);
    var settings := Settings(patch);
    if patch.waveform.None? {
      PresentAreFunctions(settings, i);
    } else if i > 0 {
      PresentAreFunctions(settings, i - 1);
    } else {
      WaveformIsAFunction(patch.waveform.value);
    }
  }

  lemma WaveformIsAFunction(waveform: Waveform)
    ensures IsFunction(Write(":FUNCTION " + Token(waveform)))
  {
    var text := ":FUNCTION " + Token(waveform);
    assert text[..9] == ":FUNCTION";
  }

  lemma SettingsAreFunctions(patch: Patch)
    ensures forall k | 0 <= k < |Settings(patch)| :: ":FUNCTION" <= Settings(patch)[k].prefix
  {
  }

  /** `SplitGeneratorOutputCommand`: the text decides. */
  method SplitGeneratorOutputCommand(commands: seq<Command>) returns (writes: seq<Command>, output: Option<Command>)
    ensures writes == NonOutput(commands) && output == LastOutput(commands)
  {
    writes, output := [], None;
    for i := 0 to |commands|
      invariant writes == NonOutput(commands[..i]) && output == LastOutput(commands[..i])
    {
      assert commands[..i + 1][..i] == commands[..i];
      if IsOutput(commands[i]) {
        output := Some(commands[i]);
      } else {
        writes := writes + [commands[i]];
      }
    }
    assert commands[..|commands|] == commands;
  }

  function NonOutput(commands: seq<Command>): seq<Command> {
    if commands == [] then []
    else
      NonOutput(commands[..|commands| - 1]) +
      if IsOutput(commands[|commands| - 1]) then [] else [commands[|commands| - 1]]
  }

  function LastOutput(commands: seq<Command>): Option<Command> {
    if commands == [] then None
    else if IsOutput(commands[|commands| - 1]) then Some(commands[|commands| - 1])
    else LastOutput(commands[..|commands| - 1])
  }

  lemma {:induction false} SplitFunctions(commands: seq<Command>)
    requires forall k | 0 <= k < |commands| :: !IsOutput(commands[k])
    ensures NonOutput(commands) == commands && LastOutput(commands) == None
  {
    if commands != [] {
      assert !IsOutput(commands[|commands| - 1]);
      SplitFunctions(commands[..|commands| - 1]);
    }
  }

  /** What `upper` is when letters are read in either case. */
  predicate IsLetterOrLower(c: char, upper: char) {
    c == upper || ('A' <= upper <= 'Z' && c as int == upper as int + 32)
  }

  /** An output command is told by its first nine characters, in any case of
      letters. */
  lemma OutputInAnyCase(command: Command)
    ensures IsOutput(command) <==>
            && |command.text| >= 9
            && forall i | 0 <= i < 9 :: IsLetterOrLower(command.text[i], ":CHANNEL "[i])
  {
    if |command.text| >= 9 {
      var upper := Upper(command.text)[..9];
      assert upper == ":CHANNEL " <==> forall i | 0 <= i < 9 :: upper[i] == ":CHANNEL "[i];
      forall i | 0 <= i < 9 ensures upper[i] == ":CHANNEL "[i] <==> IsLetterOrLower(command.text[i], ":CHANNEL "[i]) {
        UpperIsEitherCase(command.text[i], ":CHANNEL "[i]);
      }
    }
  }

  lemma UpperIsEitherCase(c: char, upper: char)
    requires !('a' <= upper <= 'z')
    ensures UpperChar(c) == upper <==> IsLetterOrLower(c, upper)
  {
  }

  /** Whatever is split, the others keep their order, and the last output command
      counts. */
  lemma {:induction false} SplitInPieces(before: seq<Command>, after: seq<Command>)
    ensures NonOutput(before + after) == NonOutput(before) + NonOutput(after)
    ensures LastOutput(before + after) == if LastOutput(after).Some? then LastOutput(after) else LastOutput(before)
  {
    if after == [] {
      assert before + after == before;
    } else {
      var n := |after| - 1;
      assert (before + after)[..|before| + n] == before + after[..n];
      SplitInPieces(before, after[..n]);
    }
  }

  lemma SplitOne(command: Command)
    ensures NonOutput([command]) == if IsOutput(command) then [] else [command]
    ensures LastOutput([command]) == if IsOutput(command) then Some(command) else None
  {
    assert [command][..0] == [];
  }

  /** Of a compiled patch, splitting sets exactly the output command apart and
      keeps the order of everything else. */
  lemma SplitCompiled(patch: Patch)
    ensures NonOutput(Compiled(patch)) == FunctionWrites(patch)
    ensures LastOutput(Compiled(patch)) ==
            if patch.output.None? then None else Some(OutputCommand(patch.output.value))
  {
    var writes := FunctionWrites(patch);
    forall k | 0 <= k < |writes| ensures !IsOutput(writes[k]) {
      FunctionWritesAreFunctions(patch, k);
      FunctionIsNotOutput(writes[k]);
    }
    SplitFunctions(writes);
    if patch.output.None? {
      assert Compiled(patch) == writes;
    } else {
      OutputIsOutput(patch.output.value);
      assert Compiled(patch)[..|writes|] == writes;
    }
  }

  // ---- Reading ---------------------------------------------------------------------------

  datatype Reading<+T> = Observed(value: T) | Unavailable | Malformed

  predicate IsSpace(c: char) {
    c == ' ' || c == '\t' || c == '\n' || c == '\r' || c as int == 11 || c as int == 12
  }

  function WordLength(s: string): (n: nat)
    ensures n <= |s|
    ensures s != [] && !IsSpace(s[0]) ==> n > 0
  {
    if s == [] || IsSpace(s[0]) then 0 else 1 + WordLength(s[1..])
  }

  /** The words of `s`. */
  function Fields(s: string): seq<string> {
    if s == [] then []
    else if IsSpace(s[0]) then Fields(s[1..])
    else [s[..WordLength(s)]] + Fields(s[WordLength(s)..])
  }

  predicate IsAscii(s: string) {
    forall i | 0 <= i < |s| :: s[i] as int < 128
  }

  function WaveformFromToken(token: string): Option<Waveform> {
    WaveformFromUpper(Upper(token))
  }

  function WaveformFromUpper(upper: string): Option<Waveform> {
    if upper == "SINE" then Some(Sine)
    else if upper == "SQUARE" then Some(Square)
    else if upper == "RAMP" then Some(Ramp)
    else if upper == "PULSE" then Some(Pulse)
    else if upper == "AMPALT" then Some(AmpALT)
    else if upper == "ATTALT" then Some(AttALT)
    else if upper == "STAIRDN" then Some(StairDown)
    else if upper == "STAIRUD" then Some(StairUpDown)
    else if upper == "STAIRUP" then Some(StairUp)
    else if upper == "BESSELJ" then Some(BesselJ)
    else if upper == "BESSELY" then Some(BesselY)
    else if upper == "SINC" then Some(Sinc)
    else None
  }

  /** `ParseGeneratorFunction`. A reading without error always has a value. */
  function ParseFunction(response: string): Reading<Waveform> {
    var fields := Fields(response);
    if |fields| != 1 then Malformed
    else if fields[0] == "error" then Unavailable
    else if !IsAscii(fields[0]) || WaveformFromToken(fields[0]).None? then Malformed
    else Observed(WaveformFromToken(fields[0]).value)
  }

  /** `ParseGeneratorChannel`. */
  function ParseChannel(response: string): Reading<bool> {
    var fields := Fields(response);
    if |fields| != 1 then Malformed
    else if fields[0] == "error" then Unavailable
    else if !IsAscii(fields[0]) then Malformed
    else if Upper(fields[0]) == "ON" then Observed(true)
    else if Upper(fields[0]) == "OFF" then Observed(false)
    else Malformed
  }

  lemma {:induction false} WordAlone(word: string, after: string)
    requires forall i | 0 <= i < |word| :: !IsSpace(word[i])
    requires forall i | 0 <= i < |after| :: IsSpace(after[i])
    ensures WordLength(word + after) == |word|
  {
    if word == [] {
      assert word + after == after;
    } else {
      assert (word + after)[1..] == word[1..] + after;
      WordAlone(word[1..], after);
    }
  }

  lemma {:induction false} NoFields(spaces: string)
    requires forall i | 0 <= i < |spaces| :: IsSpace(spaces[i])
    ensures Fields(spaces) == []
  {
    if spaces != [] {
      NoFields(spaces[1..]);
    }
  }

  lemma {:induction false} OneField(before: string, word: string, after: string)
    requires word != [] && forall i | 0 <= i < |word| :: !IsSpace(word[i])
    requires forall i | 0 <= i < |before| :: IsSpace(before[i])
    requires forall i | 0 <= i < |after| :: IsSpace(after[i])
    ensures Fields(before + word + after) == [word]
  {
    var s := before + word + after;
    if before == [] {
      assert s == word + after;
      WordAlone(word, after);
      assert s[..|word|] == word && s[|word|..] == after;
      NoFields(after);
    } else {
      assert s[1..] == before[1..] + word + after;
      OneField(before[1..], word, after);
    }
  }

  lemma TokenIsAWord(waveform: Waveform)
    ensures Token(waveform) != [] && IsAscii(Token(waveform))
    ensures forall i | 0 <= i < |Token(waveform)| :: !IsSpace(Token(waveform)[i])
  {
  }

  predicate HasPlainToken(waveform: Waveform) {
    waveform.Sine? || waveform.Square? || waveform.Ramp? || waveform.Pulse? || waveform.AmpALT? || waveform.AttALT?
  }

  lemma TokenRoundTrip(waveform: Waveform)
    ensures WaveformFromToken(Token(waveform)) == Some(waveform) && Token(waveform) != "error"
  {
    if HasPlainToken(waveform) {
      PlainTokenRoundTrip(waveform);
    } else {
      OtherTokenRoundTrip(waveform);
    }
  }

  lemma PlainTokenRoundTrip(waveform: Waveform)
    requires HasPlainToken(waveform)
    ensures WaveformFromToken(Token(waveform)) == Some(waveform) && Token(waveform) != "error"
  {
    match waveform
    case Sine => assert Upper("SINE") == "SINE";
    case Square => assert Upper("SQUARE") == "SQUARE";
    case Ramp => assert Upper("RAMP") == "RAMP";
    case Pulse => assert Upper("PULSE") == "PULSE";
    case AmpALT => assert Upper("AmpALT") == "AMPALT";
    case AttALT => assert Upper("AttALT") == "ATTALT";
  }

  lemma OtherTokenRoundTrip(waveform: Waveform)
    requires !HasPlainToken(waveform)
    ensures WaveformFromToken(Token(waveform)) == Some(waveform) && Token(waveform) != "error"
  {
    match waveform
    case StairDown => assert Upper("StairDn") == "STAIRDN";
    case StairUpDown => assert Upper("StairUD") == "STAIRUD";
    case StairUp => assert Upper("StairUp") == "STAIRUP";
    case BesselJ => assert Upper("Besselj") == "BESSELJ";
    case BesselY => assert Upper("Bessely") == "BESSELY";
    case Sinc => assert Upper("Sinc") == "SINC";
  }

  /** The output's state is read as the output command writes it, in any case of
      letters. */
  lemma OutputEchoIsUnderstood(value: bool, word: string, before: string, after: string)
    requires ":CHANNEL " + Upper(word) == OutputCommand(value).text && IsAscii(word)
    requires forall i | 0 <= i < |word| :: !IsSpace(word[i])
    requires forall i | 0 <= i < |before| :: IsSpace(before[i])
    requires forall i | 0 <= i < |after| :: IsSpace(after[i])
    ensures ParseChannel(before + word + after) == Observed(value)
  {
    var token := if value then "ON" else "OFF";
    assert Upper(word) == (":CHANNEL " + Upper(word))[9..] == (":CHANNEL " + token)[9..] == token;
    assert |word| == |token| && word != "error";
    OneField(before, word, after);
  }

  /** A reply of one word is that word, with white space around it. */
  lemma {:induction false} OneWordOnly(s: string) returns (before: string, after: string)
    requires |Fields(s)| == 1
    ensures s == before + Fields(s)[0] + after
    ensures forall i | 0 <= i < |before| :: IsSpace(before[i])
    ensures forall i | 0 <= i < |after| :: IsSpace(after[i])
    ensures forall i | 0 <= i < |Fields(s)[0]| :: !IsSpace(Fields(s)[0][i])
  {
    if IsSpace(s[0]) {
      before, after := OneWordOnly(s[1..]);
      before := [s[0]] + before;
    } else {
      before, after := [], s[WordLength(s)..];
      WordHasNoSpace(s);
      NothingLeft(after);
    }
  }

  lemma {:induction false} WordHasNoSpace(s: string)
    ensures forall i | 0 <= i < WordLength(s) :: !IsSpace(s[i])
  {
    if s != [] && !IsSpace(s[0]) {
      WordHasNoSpace(s[1..]);
      forall i | 0 <= i < WordLength(s) ensures !IsSpace(s[i]) {
        assert i > 0 ==> s[i] == s[1..][i - 1];
      }
    }
  }

  lemma {:induction false} NothingLeft(s: string)
    requires Fields(s) == []
    ensures forall i | 0 <= i < |s| :: IsSpace(s[i])
  {
    if s != [] {
      NothingLeft(s[1..]);
      forall i | 0 <= i < |s| ensures IsSpace(s[i]) {
        assert i > 0 ==> s[i] == s[1..][i - 1];
      }
    }
  }

  /** Every reply to the waveform query: a waveform exactly if it is one word, the
      waveform's token in some case of letters; unavailable exactly if it is the
      lone word "error"; malformed otherwise. */
  lemma FunctionReading(response: string, waveform: Waveform)
    ensures ParseFunction(response) == Observed(waveform) <==>
            |Fields(response)| == 1 && IsAscii(Fields(response)[0])
            && Upper(Fields(response)[0]) == Upper(Token(waveform))
    ensures ParseFunction(response) == Unavailable <==> Fields(response) == ["error"]
  {
    if |Fields(response)| == 1 {
      var word := Fields(response)[0];
      TokenIsUnderstood(word, waveform);
      TokenIsNoError(waveform);
      assert word == "error" ==> Upper(word) == "ERROR";
    }
  }

  lemma TokenIsNoError(waveform: Waveform)
    ensures Upper(Token(waveform)) != "ERROR"
  {
    TokenRoundTrip(waveform);
    assert WaveformFromUpper("ERROR") == None;
  }

  /** A token is understood as exactly the waveforms it spells. */
  lemma TokenIsUnderstood(token: string, waveform: Waveform)
    ensures WaveformFromToken(token) == Some(waveform) <==> Upper(token) == Upper(Token(waveform))
  {
    TokenRoundTrip(waveform);
    if Upper(token) == Upper(Token(waveform)) {
      UnderstoodByUpper(token, Token(waveform));
    }
    if WaveformFromToken(token) == Some(waveform) {
      UpperOfToken(token, waveform);
    }
  }

  lemma UnderstoodByUpper(a: string, b: string)
    requires Upper(a) == Upper(b)
    ensures WaveformFromToken(a) == WaveformFromToken(b)
  {
  }

  lemma OneTokenEach(a: string, b: string, waveform: Waveform)
    requires WaveformFromUpper(a) == WaveformFromUpper(b) == Some(waveform)
    ensures a == b
  {
  }

  lemma UpperOfToken(token: string, waveform: Waveform)
    requires WaveformFromToken(token) == Some(waveform)
    ensures Upper(token) == Upper(Token(waveform))
  {
    TokenRoundTrip(waveform);
    OneTokenEach(Upper(token), Upper(Token(waveform)), waveform);
  }

  /** The same for the output query. */
  lemma ChannelReading(response: string, value: bool)
    ensures ParseChannel(response) == Observed(value) <==>
            |Fields(response)| == 1 && IsAscii(Fields(response)[0])
            && Upper(Fields(response)[0]) == if value then "ON" else "OFF"
    ensures ParseChannel(response) == Unavailable <==> Fields(response) == ["error"]
  {
    if |Fields(response)| == 1 && Fields(response)[0] == "error" {
      assert Upper("error") == "ERROR";
    }
  }

  /** A device that echoes the token it was sent, with any white space around
      it, is understood. */
  lemma EchoIsUnderstood(waveform: Waveform, before: string, after: string)
    requires forall i | 0 <= i < |before| :: IsSpace(before[i])
    requires forall i | 0 <= i < |after| :: IsSpace(after[i])
    ensures ParseFunction(before + Token(waveform) + after) == Observed(waveform)
  {
    TokenIsAWord(waveform);
    TokenRoundTrip(waveform);
    OneField(before, Token(waveform), after);
  }
}
