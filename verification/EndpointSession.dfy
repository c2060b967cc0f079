/** `owonusb.endpointSession`: command exchanges over a pair of USB bulk
    endpoints that may fragment, shorten, fail or lie at every transfer. */
module EndpointSessions {
  import opened Commands
  import opened Wrappers
  import opened Framing
  import opened FrameDecoding

  const ENDPOINT_READ_BYTES := 4096
  const RESPONSE_DRAIN_LENGTH_PREFIX_BYTES := 4
  const MAXIMUM_COMMAND_BYTES := 4096

  // ---- Commands ------------------------------------------------------------------

  const SEMICOLON: Byte := 0x3b

  predicate IsPrintable(c: char) {
    0x20 <= c as int < 0x7f
  }

  function TrimLeft(text: string): string {
    if text != [] && text[0] == ' ' then TrimLeft(text[1..]) else text
  }

  function TrimRight(text: string): string {
    if text != [] && text[|text| - 1] == ' ' then TrimRight(text[..|text| - 1]) else text
  }

  function ByteOf(c: char): Byte
    requires IsPrintable(c)
  {
    c as int
  }

  function Bytes(text: string): (bs: seq<Byte>)
    requires forall c | c in text :: IsPrintable(c)
    ensures |bs| == |text|
  {
    seq(|text|, i requires 0 <= i < |text| => assert text[i] in text; ByteOf(text[i]))
  }

  /** `ValidateCommand` and `CommandBytes`: one trimmed line, or nothing. */
  function CommandBytes(command: Command): Option<seq<Byte>> {
    if exists c | c in command.text :: !IsPrintable(c) then None else
    var text := TrimRight(TrimLeft(command.text));
    TrimLeftKeeps(command.text);
    TrimRightKeeps(TrimLeft(command.text));
    if text == [] || |text| > MAXIMUM_COMMAND_BYTES || ';' in text then None
    else if !command.mode.NoResponse? && !IsReadable(command.mode) then None
    else Some(Bytes(text) + [LF])
  }

  lemma {:induction false} TrimLeftKeeps(text: string)
    ensures forall c | c in TrimLeft(text) :: c in text
  {
    if text != [] && text[0] == ' ' {
      TrimLeftKeeps(text[1..]);
    }
  }

  lemma {:induction false} TrimRightKeeps(text: string)
    ensures forall c | c in TrimRight(text) :: c in text
  {
    if text != [] && text[|text| - 1] == ' ' {
      TrimRightKeeps(text[..|text| - 1]);
    }
  }

  /** What goes on the wire is one nonempty bounded message: a single line feed,
      at its end, and no command separator. */
  lemma CommandIsOneMessage(command: Command)
    requires CommandBytes(command).Some?
    ensures var request := CommandBytes(command).value;
            && 2 <= |request| <= MAXIMUM_COMMAND_BYTES + 1
            && LineEnd(request) == |request| - 1
            && SEMICOLON !in request
  {
    var text := TrimRight(TrimLeft(command.text));
    TrimLeftKeeps(command.text);
    TrimRightKeeps(TrimLeft(command.text));
    var request := CommandBytes(command).value;
    forall i | 0 <= i < |request| - 1 ensures 0x20 <= request[i] < 0x7f && request[i] != SEMICOLON {
      assert text[i] in text && request[i] == text[i] as int;
    }
    LineEndIs(request, |request| - 1);
  }

  function Spaces(n: nat): string {
    seq(n, i requires 0 <= i < n => ' ')
  }

  /** Neither begins nor ends with a space. */
  predicate HasNoOuterSpace(text: string) {
    text != [] ==> text[0] != ' ' && text[|text| - 1] != ' '
  }

  lemma {:induction false} TrimsFront(n: nat, text: string)
    requires text == [] || text[0] != ' '
    ensures TrimLeft(Spaces(n) + text) == text
  {
    if n == 0 {
      assert Spaces(n) + text == text;
    } else {
      assert (Spaces(n) + text)[1..] == Spaces(n - 1) + text;
      TrimsFront(n - 1, text);
    }
  }

  lemma {:induction false} TrimsBack(text: string, n: nat)
    requires text == [] || text[|text| - 1] != ' '
    ensures TrimRight(text + Spaces(n)) == text
  {
    if n == 0 {
      assert text + Spaces(n) == text;
    } else {
      assert (text + Spaces(n))[..|text| + n - 1] == text + Spaces(n - 1);
      TrimsBack(text, n - 1);
    }
  }

  lemma Trimmed(a: nat, text: string, b: nat)
    requires HasNoOuterSpace(text)
    ensures TrimRight(TrimLeft(Spaces(a) + text + Spaces(b))) == text
  {
    if text == [] {
      assert Spaces(a) + text + Spaces(b) == Spaces(a + b) + [];
      TrimsFront(a + b, []);
    } else {
      assert Spaces(a) + text + Spaces(b) == Spaces(a) + (text + Spaces(b));
      TrimsFront(a, text + Spaces(b));
      TrimsBack(text, b);
    }
  }

  /** Every text is one without outer spaces, and spaces around it. */
  lemma {:induction false} OuterSpaces(text: string) returns (a: nat, inner: string, b: nat)
    ensures text == Spaces(a) + inner + Spaces(b) && HasNoOuterSpace(inner)
    decreases |text|
  {
    if text != [] && text[0] == ' ' {
      a, inner, b := OuterSpaces(text[1..]);
      assert text == [' '] + text[1..];
      assert Spaces(a + 1) == [' '] + Spaces(a);
      a := a + 1;
    } else if text != [] && text[|text| - 1] == ' ' {
      var n := |text| - 1;
      a, inner, b := OuterSpaces(text[..n]);
      assert text == text[..n] + [' '];
      assert Spaces(b + 1) == Spaces(b) + [' '];
      b := b + 1;
    } else {
      a, inner, b := 0, text, 0;
    }
  }

  /** `w` are the characters of `text`, one byte each, and a line feed. */
  predicate Spells(w: seq<Byte>, text: string) {
    && |w| == |text| + 1 && w[|text|] == 10
    && forall i | 0 <= i < |text| :: w[i] as int == text[i] as int
  }

  /** Which commands are accepted, and which bytes go out for them: exactly the
      text without its outer spaces, and a line feed. */
  lemma CommandIsSpelled(a: nat, text: string, b: nat, mode: ResponseMode)
    requires HasNoOuterSpace(text)
    ensures
      var request := CommandBytes(Command(Spaces(a) + text + Spaces(b), mode));
      && (request.Some? <==>
            && 0 < |text| <= 4096 && (forall i | 0 <= i < |text| :: 0x20 <= text[i] as int < 0x7f && text[i] != ';')
            && (mode == NoResponse || mode == Ascii || mode == LengthPrefixed))
      && (request.Some? ==> Spells(request.value, text))
  {
    var whole := Spaces(a) + text + Spaces(b);
    Trimmed(a, text, b);
    assert forall c | c in whole :: c in text || c == ' ';
    assert forall i | 0 <= i < |text| :: text[i] in whole;
    assert forall i | 0 <= i < |text| :: text[i] in text;
  }

  // ---- Endpoints -------------------------------------------------------------------

  datatype Leaf = EndOfFile | DeadlineExceeded | TransferCancelled | Other

  /** A native error with one cause, or a tree of joined causes. */
  datatype Failure = Single(leaf: Leaf) | Joined

  /** `endpointContextError`. */
  function ContextError(requestEnded: bool, failure: Failure): Failure {
    if requestEnded && failure == Single(TransferCancelled) then Joined else failure
  }

  datatype Probe = Running | Expired | Cancelled

  /** One input transfer: the count reported, the bytes delivered, the error,
      and what the request and probe contexts say right after it. The request
      may still end between that moment and `endedLater`. */
  datatype RawTransfer = Transfer(
    count: int, data: seq<Byte>, failure: Option<Failure>, requestEnded: bool, endedLater: bool, probe: Probe)

  predicate ValidCount(t: RawTransfer) {
    0 <= t.count <= ENDPOINT_READ_BYTES
  }

  type Transfer = t: RawTransfer | ValidCount(t) ==> |t.data| == t.count
    witness Transfer(0, [], None, false, false, Running)

  function Delivered(t: Transfer): seq<Byte> {
    if ValidCount(t) then t.data else []
  }

  /** The input endpoint: any infinite sequence of transfers. */
  class BulkReader {
    const script: nat -> Transfer
    var calls: nat
    ghost var received: seq<Byte>

    constructor (script: nat -> Transfer)
      ensures this.script == script && calls == 0 && received == []
    {
      this.script := script;
      calls := 0;
      received := [];
    }

    method Read() returns (t: Transfer)
      modifies this
      ensures t == script(old(calls)) && calls == old(calls) + 1
      ensures received == old(received) + Delivered(t)
    {
      t := script(calls);
      calls := calls + 1;
      received := received + Delivered(t);
    }
  }

  datatype Acceptance = Acceptance(count: int, failure: Option<Failure>, requestEnded: bool)

  /** The output endpoint: any infinite sequence of short, failed or false writes. */
  class BulkWriter {
    const script: nat -> Acceptance
    var calls: nat
    ghost var written: seq<Byte>

    constructor (script: nat -> Acceptance)
      ensures this.script == script && calls == 0 && written == []
    {
      this.script := script;
      calls := 0;
      written := [];
    }

    method Write(payload: seq<Byte>) returns (a: Acceptance)
      modifies this
      ensures a == script(old(calls)) && calls == old(calls) + 1
      ensures written == old(written) + if 0 <= a.count <= |payload| then payload[..a.count] else []
    {
      a := script(calls);
      calls := calls + 1;
      if 0 <= a.count <= |payload| {
        written := written + payload[..a.count];
      }
    }
  }

  datatype EndpointError =
    | InvalidCommand
    | Surplus(bytes: nat)
    | InvalidCount
    | NoProgress
    | RequestEnded
    | Transport(failure: Failure)
    | BadFrame(frame: FrameError)
    | TruncatedBy(cause: EndpointError)

  // ---- When an exchange succeeds -------------------------------------------------------

  /** `n` bytes go out, however short the writes, from the `k`-th write on. */
  predicate Accepts(script: nat -> Acceptance, k: nat, n: nat)
    decreases n
  {
    n == 0 ||
    (var a := script(k); a.failure.None? && 0 < a.count <= n && Accepts(script, k + 1, n - a.count))
  }

  /** A transfer of bytes that reading goes on with; an end of file that comes
      with them is deferred. */
  predicate Fills(t: Transfer) {
    ValidCount(t) && t.count > 0 && (t.failure.None? || t.failure == Some(Single(EndOfFile)))
  }

  /** The payload that reading ends with if nothing is left over: `stream` was
      received, `deferred` waits, and the `k`-th transfer is next. */
  function Answer(mode: ResponseMode, limit: nat, script: nat -> Transfer, k: nat, stream: seq<Byte>,
                  deferred: Option<Failure>): Option<seq<Byte>>
    requires IsReadable(mode)
    decreases limit + PREFIX_BYTES - |stream|
  {
    match Decode(mode, limit, stream)
    case Complete(payload, n) => if n == |stream| then Some(payload) else None
    case Oversized(_, _) => None
    case Incomplete =>
      UndecidedIsShort(mode, limit, stream);
      var t := script(k);
      if deferred.Some? || !Fills(t) then None
      else Answer(mode, limit, script, k + 1, stream + t.data, t.failure)
  }

  lemma AnswerGoesOn(mode: ResponseMode, limit: nat, script: nat -> Transfer, k: nat, stream: seq<Byte>,
                     deferred: Option<Failure>)
    requires IsReadable(mode) && Decode(mode, limit, stream) == Incomplete
    ensures Answer(mode, limit, script, k, stream, deferred) ==
            if deferred.Some? || !Fills(script(k)) then None
            else Answer(mode, limit, script, k + 1, stream + script(k).data, script(k).failure)
  {
  }

  /** The first bytes of the stream are a decided frame, `buffer` the others. */
  lemma AnswerDecided(mode: ResponseMode, limit: nat, script: nat -> Transfer, k: nat, taken: seq<Byte>,
                      buffer: seq<Byte>, deferred: Option<Failure>)
    requires IsReadable(mode) && Decode(mode, limit, taken) != Incomplete
    requires Extent(mode, limit, taken) == |taken|
    ensures Answer(mode, limit, script, k, taken + buffer, deferred) ==
            match Decode(mode, limit, taken)
            case Complete(payload, _) => if buffer == [] then Some(payload) else None
            case _ => None
  {
    DecidedForGood(mode, limit, taken, buffer);
  }

  /** `r` is the awaited payload with nothing left over, if there is one, and
      otherwise an error or something left over. */
  predicate Settles(awaited: Option<seq<Byte>>, buffer: seq<Byte>, r: Result<seq<Byte>, EndpointError>) {
    if awaited.Some? then r == Ok(awaited.value) && buffer == [] else r.Err? || buffer != []
  }

  /** The result of a whole exchange on an endpoint in the given state, if it
      succeeds; `request` is what goes on the wire. */
  function Exchanged(request: Option<seq<Byte>>, mode: ResponseMode, limit: nat, input: nat -> Transfer, k: nat,
                     output: nat -> Acceptance, w: nat, needsIdleProbe: bool): Option<seq<Byte>>
    requires mode.NoResponse? || request.None? || IsReadable(mode)
  {
    if request.None? || (needsIdleProbe && !IsSilence(input(k))) then None
    else
      var next := if needsIdleProbe then k + 1 else k;
      if !Accepts(output, w, |request.value|) then None
      else if mode.NoResponse? then if IsSilence(input(next)) then Some([]) else None
      else Answer(mode, limit, input, next, [], None)
  }

  /** The transfer that follows the silence which ends draining, if at most
      `left` more bytes come before it and nothing fails. */
  function Drained(script: nat -> Transfer, k: nat, left: nat): Option<nat>
    decreases left
  {
    var t := script(k);
    if IsSilence(t) then Some(k + 1)
    else if !ValidCount(t) || t.requestEnded || t.count == 0 || t.count > left then None
    else if t.failure.Some? || t.probe != Running then None
    else Drained(script, k + 1, left - t.count)
  }

  /** A transfer of stale bytes, with nothing wrong. */
  predicate IsChatter(t: Transfer) {
    ValidCount(t) && t.count > 0 && !t.requestEnded && t.failure.None? && t.probe == Running
  }

  /** The bytes of the transfers from `k` up to `m`. */
  function Received(script: nat -> Transfer, k: nat, m: nat): seq<Byte>
    requires k <= m
    decreases m - k
  {
    if k == m then [] else Delivered(script(k)) + Received(script, k + 1, m)
  }

  /** Draining ends exactly behind the first silence, if only stale bytes come
      before it, and no more than allowed. */
  lemma {:induction false} DrainedExactly(script: nat -> Transfer, k: nat, left: nat, m: nat)
    ensures Drained(script, k, left) == Some(m) <==>
            && k < m && IsSilence(script(m - 1)) && (forall i: nat | k <= i < m - 1 :: IsChatter(script(i)))
            && |Received(script, k, m - 1)| <= left
    decreases left
  {
    var t := script(k);
    if IsChatter(t) && t.count <= left {
      DrainedExactly(script, k + 1, left - t.count, m);
    }
    if k < m - 1 && IsChatter(t) {
      assert Received(script, k, m - 1) == t.data + Received(script, k + 1, m - 1);
    }
  }

  /** The transfers from `k` up to `m` all bring bytes, and an end of file comes
      with the last of them at most. */
  predicate Brings(script: nat -> Transfer, k: nat, m: nat) {
    forall i: nat | k <= i < m :: Fills(script(i)) && (i < m - 1 ==> script(i).failure.None?)
  }

  /** Reading is answered exactly with the payload of a whole frame that the next
      transfers bring; `m` is the first that is not needed. */
  lemma {:induction false} AnswerIsAFrame(mode: ResponseMode, limit: nat, script: nat -> Transfer, k: nat,
                                          stream: seq<Byte>, deferred: Option<Failure>, payload: seq<Byte>)
    returns (m: nat)
    requires IsReadable(mode) && Answer(mode, limit, script, k, stream, deferred) == Some(payload)
    ensures k <= m && Brings(script, k, m) && (deferred.Some? ==> m == k)
    ensures IsWholeFrame(mode, limit, stream + Received(script, k, m), payload)
    decreases limit + PREFIX_BYTES - |stream|
  {
    if Decode(mode, limit, stream) == Incomplete {
      UndecidedIsShort(mode, limit, stream);
      AnswerGoesOn(mode, limit, script, k, stream, deferred);
      var t := script(k);
      m := AnswerIsAFrame(mode, limit, script, k + 1, stream + t.data, t.failure, payload);
      OneMoreReceived(script, k, m, stream);
      BringsOneMore(script, k, m);
    } else {
      m := k;
      assert stream + [] == stream;
    }
  }

  predicate IsWholeFrame(mode: ResponseMode, limit: nat, bs: seq<Byte>, payload: seq<Byte>)
    requires IsReadable(mode)
  {
    Decode(mode, limit, bs) == Complete(payload, |bs|)
  }

  lemma OneMoreReceived(script: nat -> Transfer, k: nat, m: nat, stream: seq<Byte>)
    requires k < m && Fills(script(k))
    ensures stream + Received(script, k, m) == stream + script(k).data + Received(script, k + 1, m)
  {
  }

  lemma BringsOneMore(script: nat -> Transfer, k: nat, m: nat)
    requires k < m && Fills(script(k)) && Brings(script, k + 1, m) && (script(k).failure.Some? ==> m == k + 1)
    ensures Brings(script, k, m)
  {
  }

  lemma {:induction false} FrameIsAnswered(mode: ResponseMode, limit: nat, script: nat -> Transfer, k: nat,
                                           stream: seq<Byte>, deferred: Option<Failure>, payload: seq<Byte>, m: nat)
    requires IsReadable(mode) && k <= m && Brings(script, k, m) && (deferred.Some? ==> m == k)
    requires IsWholeFrame(mode, limit, stream + Received(script, k, m), payload)
    ensures Answer(mode, limit, script, k, stream, deferred) == Some(payload)
    decreases m - k
  {
    if k == m {
      assert stream + [] == stream;
    } else {
      var t := script(k);
      var frame := stream + Received(script, k, m);
      OneMoreReceived(script, k, m, stream);
      UndecidedBefore(mode, limit, frame, |stream|);
      assert frame[..|stream|] == stream;
      AnswerGoesOn(mode, limit, script, k, stream, deferred);
      FrameIsAnswered(mode, limit, script, k + 1, stream + t.data, t.failure, payload, m);
    }
  }

  /** `frame` comes in fragments, however short, without a failure. */
  predicate Delivers(script: nat -> Transfer, k: nat, frame: seq<Byte>)
    decreases |frame|
  {
    var t := script(k);
    && ValidCount(t) && t.count > 0 && t.failure.None? && t.data <= frame
    && (t.data == frame || Delivers(script, k + 1, frame[|t.data|..]))
  }

  /** A whole frame is answered with its payload, whatever its fragments. */
  lemma {:induction false} FragmentsAreAnswered(mode: ResponseMode, limit: nat, script: nat -> Transfer, k: nat,
                                                stream: seq<Byte>, frame: seq<Byte>, payload: seq<Byte>)
    requires IsReadable(mode) && Decode(mode, limit, stream + frame) == Complete(payload, |stream + frame|)
    requires frame != [] && Delivers(script, k, frame)
    ensures Answer(mode, limit, script, k, stream, None) == Some(payload)
    decreases |frame|
  {
    var t := script(k);
    UndecidedBefore(mode, limit, stream + frame, |stream|);
    assert (stream + frame)[..|stream|] == stream;
    AnswerGoesOn(mode, limit, script, k, stream, None);
    if t.data == frame {
      WholeIsAnswered(mode, limit, script, k + 1, stream + frame, payload);
    } else {
      var rest := frame[|t.data|..];
      assert stream + t.data + rest == stream + frame;
      FragmentsAreAnswered(mode, limit, script, k + 1, stream + t.data, rest, payload);
    }
  }

  lemma WholeIsAnswered(mode: ResponseMode, limit: nat, script: nat -> Transfer, k: nat, stream: seq<Byte>,
                        payload: seq<Byte>)
    requires IsReadable(mode) && Decode(mode, limit, stream) == Complete(payload, |stream|)
    ensures Answer(mode, limit, script, k, stream, None) == Some(payload)
  {
  }

  /** Delivers a prefix of the payload under arbitrary short writes, and all of
      it on success. */
  method WriteAll(writer: BulkWriter, payload: seq<Byte>) returns (err: Option<EndpointError>)
    modifies writer
    ensures old(writer.written) <= writer.written <= old(writer.written) + payload
    ensures err == None ==> writer.written == old(writer.written) + payload
    ensures err == None <==> Accepts(writer.script, old(writer.calls), |payload|)
  {
    var sent := 0;
    while sent < |payload|
      invariant sent <= |payload| && writer.written == old(writer.written) + payload[..sent]
      invariant Accepts(writer.script, old(writer.calls), |payload|) <==>
                Accepts(writer.script, writer.calls, |payload| - sent)
    {
      var a := writer.Write(payload[sent..]);
      if a.count < 0 || a.count > |payload| - sent {
        return Some(InvalidCount);
      }
      assert payload[..sent] + payload[sent..][..a.count] == payload[..sent + a.count];
      sent := sent + a.count;
      if a.failure.Some? {
        return Some(Transport(ContextError(a.requestEnded, a.failure.value)));
      }
      if a.count == 0 {
        return Some(NoProgress);
      }
    }
    assert payload[..sent] == payload;
    return None;
  }

  /** `isNoResponseTimeout` on an empty transfer: only the probe's own deadline
      counts as silence, and only when it is the single cause. */
  predicate IsSilence(t: Transfer) {
    && t.count == 0 && !t.requestEnded && !t.endedLater && t.probe == Expired
    && (t.failure == Some(Single(DeadlineExceeded)) || t.failure == Some(Single(TransferCancelled)))
  }

  /** Silence is a transfer of nothing while the request stays live and the probe's
      own time runs out, with no cause but that. */
  lemma OnlyTheProbeEndsInSilence(t: Transfer)
    ensures IsSilence(t) <==>
            && t.count == 0 && Delivered(t) == [] && !t.requestEnded && !t.endedLater && t.probe == Expired
            && t.failure.Some? && t.failure.value.Single?
            && !t.failure.value.leaf.EndOfFile? && !t.failure.value.leaf.Other?
  {
  }

  datatype DrainReport = DrainReport(discardedBytes: nat, readCalls: nat)

  // ---- The session --------------------------------------------------------------------

  class EndpointSession {
    const reader: BulkReader
    const writer: BulkWriter
    const maximumBytes: nat
    var buffer: seq<Byte>
    var deferredErr: Option<Failure>
    var needsIdleProbe: bool

    ghost predicate Valid()
      reads this
    {
      0 < maximumBytes <= DEFAULT_MAXIMUM_RESPONSE_BYTES
    }

    constructor (reader: BulkReader, writer: BulkWriter, limit: nat)
      requires NormalizeResponseLimit(limit).Ok?
      ensures Valid() && this.reader == reader && this.writer == writer
      ensures maximumBytes == NormalizeResponseLimit(limit).value
      ensures buffer == [] && deferredErr == None && !needsIdleProbe
    {
      this.reader := reader;
      this.writer := writer;
      maximumBytes := NormalizeResponseLimit(limit).value;
      buffer, deferredErr, needsIdleProbe := [], None, false;
    }

    /** Succeeds exactly when the next transfer is silence. */
    method VerifyNoResponse() returns (err: Option<EndpointError>)
      modifies reader
      ensures reader.calls == old(reader.calls) + 1
      ensures reader.received == old(reader.received) + Delivered(reader.script(old(reader.calls)))
      ensures err == None <==> IsSilence(reader.script(old(reader.calls)))
    {
      var t := reader.Read();
      if !ValidCount(t) {
        return Some(InvalidCount);
      }
      if t.count > 0 {
        return Some(Surplus(t.count));
      }
      if t.requestEnded {
        return Some(RequestEnded);
      }
      if t.failure.Some? {
        if IsSilence(t) {
          return None;
        }
        return Some(Transport(ContextError(t.endedLater, t.failure.value)));
      }
      return Some(NoProgress);
    }

    /** Appends one transfer to the buffer. Bytes that come with an end of file
        are kept and the error is deferred; any other error is reported now. */
    method Fill() returns (err: Option<EndpointError>)
      modifies this, reader
      ensures needsIdleProbe == old(needsIdleProbe)
      ensures old(buffer) <= buffer && reader.received == old(reader.received) + buffer[|old(buffer)|..]
      ensures err == None <==> old(deferredErr) == None && Fills(reader.script(old(reader.calls)))
      ensures err == None ==>
                var t := reader.script(old(reader.calls));
                && buffer == old(buffer) + t.data && |t.data| > 0 && deferredErr == t.failure
                && reader.calls == old(reader.calls) + 1
      ensures old(deferredErr).Some? ==> err.Some? && buffer == old(buffer) && deferredErr == old(deferredErr)
    {
      if deferredErr.Some? {
        return Some(Transport(deferredErr.value));
      }
      var t := reader.Read();
      if !ValidCount(t) {
        return Some(InvalidCount);
      }
      buffer := buffer + t.data;
      if t.failure.Some? {
        var failure := ContextError(t.requestEnded, t.failure.value);
        deferredErr := Some(failure);
        if failure != Single(EndOfFile) || t.count == 0 {
          return Some(Transport(failure));
        }
      }
      if t.count == 0 {
        return Some(NoProgress);
      }
      return None;
    }

    /** Feeds the buffer to the decoder and keeps what is left of it: nothing,
        when the frame is still undecided. */
    method FeedBuffer(decoder: FrameDecoder)
      requires decoder.Valid() && decoder.Status() == Incomplete
      modifies this`buffer, decoder, decoder.prefix
      ensures decoder.Valid()
      ensures decoder.taken + buffer == old(decoder.taken) + old(buffer)
      ensures decoder.Status() == Incomplete ==> buffer == []
      ensures decoder.Status() == Incomplete && old(buffer) != [] ==> |decoder.taken| > |old(decoder.taken)|
      ensures |decoder.taken| >= |old(decoder.taken)|
    {
      WhollyConsumed(decoder.mode, decoder.maximumBytes, decoder.taken, buffer);
      var consumed, done, error := decoder.Feed(buffer);
      SplitAt(old(decoder.taken), buffer, consumed);
      buffer := if error.Some? || done then buffer[consumed..] else [];
    }

    /** What is still going to be answered, with `stream` received so far. */
    ghost function Awaited(mode: ResponseMode, stream: seq<Byte>): Option<seq<Byte>>
      requires IsReadable(mode)
      reads this`deferredErr, reader`calls
    {
      Answer(mode, maximumBytes, reader.script, reader.calls, stream, deferredErr)
    }

    /** The verdict of a decoder that has decided. */
    method Reply(decoder: FrameDecoder) returns (r: Result<seq<Byte>, EndpointError>)
      requires decoder.Valid() && decoder.Status() != Incomplete && decoder.maximumBytes == maximumBytes
      ensures Answers(decoder.mode, decoder.maximumBytes, decoder.taken + buffer, buffer, r)
      ensures Settles(Awaited(decoder.mode, decoder.taken + buffer), buffer, r)
    {
      var payload := decoder.Payload();
      r := if payload.Ok? then Ok(payload.value) else Err(BadFrame(payload.error));
      AnswerDecided(decoder.mode, maximumBytes, reader.script, reader.calls, decoder.taken, buffer, deferredErr);
      Answered(decoder.mode, decoder.maximumBytes, decoder.taken, buffer, r);
    }

    /** Another transfer for a frame that is undecided after `taken`. */
    method ReadMore(mode: ResponseMode, ghost taken: seq<Byte>) returns (err: Option<EndpointError>)
      requires IsReadable(mode) && Decode(mode, maximumBytes, taken) == Incomplete && buffer == []
      modifies this, reader
      ensures needsIdleProbe == old(needsIdleProbe) && reader.received == old(reader.received) + buffer
      ensures err == None ==> buffer != [] && (deferredErr == None || deferredErr == Some(Single(EndOfFile)))
      ensures err == None ==> Awaited(mode, taken + buffer) == old(Awaited(mode, taken))
      ensures err.Some? ==> old(Awaited(mode, taken)) == None
      ensures old(deferredErr).Some? ==> deferredErr == old(deferredErr)
    {
      AnswerGoesOn(mode, maximumBytes, reader.script, reader.calls, taken, deferredErr);
      assert [] + reader.script(reader.calls).data == reader.script(reader.calls).data;
      err := Fill();
    }

    /** The same, with an eye on all that came in since the `start`. */
    method Continue(mode: ResponseMode, ghost taken: seq<Byte>, ghost start: seq<Byte>, ghost before: seq<Byte>)
      returns (err: Option<EndpointError>, ghost stream: seq<Byte>)
      requires IsReadable(mode) && Decode(mode, maximumBytes, taken) == Incomplete && buffer == []
      requires Follows(start, before, reader.received, taken)
      modifies this, reader
      ensures needsIdleProbe == old(needsIdleProbe)
      ensures stream == taken + buffer && Follows(start, before, reader.received, stream)
      ensures err == None ==> buffer != [] && (deferredErr == None || deferredErr == Some(Single(EndOfFile)))
      ensures err == None ==> Awaited(mode, stream) == old(Awaited(mode, taken))
      ensures err.Some? ==>
                && old(Awaited(mode, taken)) == None
                && Answers(mode, maximumBytes, stream, buffer, Err(TruncatedBy(err.value)))
      ensures old(deferredErr).Some? ==> deferredErr == old(deferredErr)
    {
      FollowsMoreAlways(start, before, reader.received, taken);
      err := ReadMore(mode, taken);
      stream := taken + buffer;
      if err.Some? {
        Answered(mode, maximumBytes, taken, buffer, Err(TruncatedBy(err.value)));
      }
    }

    /** One round of `ReadResponse`: feeds what is buffered, and reads more if that
        decides nothing. */
    method Round(decoder: FrameDecoder, ghost stream: seq<Byte>, ghost start: seq<Byte>, ghost before: seq<Byte>)
      returns (r: Option<Result<seq<Byte>, EndpointError>>, ghost stream': seq<Byte>)
      requires decoder.Valid() && decoder.Status() == Incomplete && decoder.maximumBytes == maximumBytes
      requires decoder.taken + buffer == stream && Follows(start, before, reader.received, stream)
      modifies this, reader, decoder, decoder.prefix
      ensures decoder.Valid() && needsIdleProbe == old(needsIdleProbe)
      ensures Follows(start, before, reader.received, stream')
      ensures deferredErr == old(deferredErr) || old(deferredErr) == None
      ensures r.None? ==>
                && decoder.Status() == Incomplete && decoder.taken + buffer == stream' && buffer != []
                && (deferredErr == None || deferredErr == Some(Single(EndOfFile)))
                && |decoder.taken| >= |old(decoder.taken)|
                && (old(buffer) != [] ==> |decoder.taken| > |old(decoder.taken)|)
                && |decoder.taken| < maximumBytes + PREFIX_BYTES
                && Awaited(decoder.mode, stream') == old(Awaited(decoder.mode, stream))
      ensures r.Some? ==>
                && Answers(decoder.mode, maximumBytes, stream', buffer, r.value)
                && Settles(old(Awaited(decoder.mode, stream)), buffer, r.value)
                && (r.value.Ok? ==> deferredErr == old(deferredErr))
    {
      FeedBuffer(decoder);
      if decoder.err.Some? || decoder.complete {
        var verdict := Reply(decoder);
        return Some(verdict), stream;
      }
      assert decoder.taken + [] == decoder.taken;
      UndecidedIsShort(decoder.mode, maximumBytes, decoder.taken);
      var fillErr;
      fillErr, stream' := Continue(decoder.mode, decoder.taken, start, before);
      r := if fillErr.Some? then Some(Err(TruncatedBy(fillErr.value))) else None;
    }

    /** Reads one frame. Whatever the outcome, the bytes transferred are those
        the decoder consumed followed by those still buffered, and the outcome
        is that of the one-shot reference on the consumed bytes. It is a payload
        with nothing left over exactly when the transfers answer with it. */
    method ReadResponse(mode: ResponseMode) returns (r: Result<seq<Byte>, EndpointError>)
      requires Valid() && IsReadable(mode)
      modifies this, reader
      ensures needsIdleProbe == old(needsIdleProbe)
      ensures old(reader.received) <= reader.received
      ensures Answers(mode, maximumBytes, old(buffer) + reader.received[|old(reader.received)|..], buffer, r)
      ensures r.Ok? && old(deferredErr) == None ==> deferredErr == None || deferredErr == Some(Single(EndOfFile))
      ensures Settles(old(Awaited(mode, buffer)), buffer, r)
    {
      var decoder, configurationErr := NewFrameDecoder(mode, maximumBytes);
      ghost var start, before, stream := buffer, reader.received, buffer;
      FollowsNothing(start, before);
      assert [] + buffer == buffer;
      while true
        invariant decoder.Valid() && decoder.mode == mode && decoder.maximumBytes == maximumBytes
        invariant fresh(decoder) && fresh(decoder.prefix)
        invariant decoder.Status() == Incomplete && needsIdleProbe == old(needsIdleProbe)
        invariant decoder.taken + buffer == stream && Follows(start, before, reader.received, stream)
        invariant |decoder.taken| < maximumBytes + PREFIX_BYTES
        invariant old(deferredErr) == None ==> deferredErr == None || deferredErr == Some(Single(EndOfFile))
        invariant Awaited(mode, stream) == old(Awaited(mode, buffer))
        decreases maximumBytes + PREFIX_BYTES - |decoder.taken|, buffer == []
      {
        var verdict;
        verdict, stream := Round(decoder, stream, start, before);
        if verdict.Some? {
          return verdict.value;
        }
      }
    }

    /** One command and its reply. Nothing is written while bytes are buffered,
        an error is deferred, or the quiet period owed after a no-response
        command has not been observed. On success the whole command was written
        once, the bytes received since are exactly one frame of the declared
        mode (none at all in no-response mode), and nothing is left buffered. */
    method Exchange(command: Command) returns (r: Result<seq<Byte>, EndpointError>)
      requires Valid()
      modifies this, reader, writer
      ensures old(reader.received) <= reader.received && old(writer.written) <= writer.written
      ensures CommandBytes(command) == None || old(buffer) != [] || old(deferredErr).Some? ==>
                && r.Err? && writer.written == old(writer.written) && reader.received == old(reader.received)
                && buffer == old(buffer) && deferredErr == old(deferredErr) && needsIdleProbe == old(needsIdleProbe)
      ensures old(needsIdleProbe) && !IsSilence(reader.script(old(reader.calls))) ==>
                r.Err? && writer.written == old(writer.written) && needsIdleProbe
      ensures CommandBytes(command).Some? ==> writer.written <= old(writer.written) + CommandBytes(command).value
      ensures CommandBytes(command).Some? && old(buffer) == [] && old(deferredErr) == None
              && (old(needsIdleProbe) ==> IsSilence(reader.script(old(reader.calls)))) ==>
                needsIdleProbe == (r.Ok? && command.mode.NoResponse?)
      ensures old(buffer) == [] && old(deferredErr) == None ==>
                match Exchanged(CommandBytes(command), command.mode, maximumBytes, reader.script, old(reader.calls),
                                writer.script, old(writer.calls), old(needsIdleProbe))
                case Some(payload) => r == Ok(payload)
                case None => r.Err?
      ensures r.Ok? ==>
                && CommandBytes(command).Some? && writer.written == old(writer.written) + CommandBytes(command).value
                && buffer == [] && needsIdleProbe == command.mode.NoResponse?
                && var frame := reader.received[|old(reader.received)|..];
                   if command.mode.NoResponse? then
                     frame == [] && r.value == [] && deferredErr == None
                     && reader.calls > old(reader.calls) && IsSilence(reader.script(reader.calls - 1))
                   else
                     && Decode(command.mode, maximumBytes, frame) == Complete(r.value, |frame|)
                     && (deferredErr == None || deferredErr == Some(Single(EndOfFile)))
    {
      var request := CommandBytes(command);
      if request == None {
        return Err(InvalidCommand);
      }
      if buffer != [] || deferredErr.Some? {
        return Err(Surplus(|buffer|));
      }
      if needsIdleProbe {
        var probeErr := VerifyNoResponse();
        if probeErr.Some? {
          return Err(probeErr.value);
        }
        needsIdleProbe := false;
      }
      assert reader.received == old(reader.received);
      var writeErr := WriteAll(writer, request.value);
      if writeErr.Some? {
        return Err(writeErr.value);
      }
      if command.mode.NoResponse? {
        var quietErr := VerifyNoResponse();
        if quietErr.Some? {
          return Err(quietErr.value);
        }
        needsIdleProbe := true;
        return Ok([]);
      }
      r := ReadWhole(command.mode);
    }

    /** The last part of `Exchange`: a frame, and nothing behind it. */
    method ReadWhole(mode: ResponseMode) returns (r: Result<seq<Byte>, EndpointError>)
      requires Valid() && IsReadable(mode) && buffer == [] && deferredErr == None
      modifies this, reader
      ensures needsIdleProbe == old(needsIdleProbe) && old(reader.received) <= reader.received
      ensures match old(Awaited(mode, []))
              case Some(payload) => r == Ok(payload)
              case None => r.Err?
      ensures r.Ok? ==>
                && buffer == [] && (deferredErr == None || deferredErr == Some(Single(EndOfFile)))
                && var frame := reader.received[|old(reader.received)|..];
                   Decode(mode, maximumBytes, frame) == Complete(r.value, |frame|)
    {
      r := ReadResponse(mode);
      ghost var frame := reader.received[|old(reader.received)|..];
      assert [] + frame == frame;
      if r.Ok? && buffer != [] {
        return Err(Surplus(|buffer|));
      }
      assert r.Ok? ==> frame[..|frame|] == frame;
    }

    /** Discards what a freshly opened candidate still has to say, up to the
        largest frame allowed, until one probe observes silence. Terminates
        against every reader, because each further read discards something. */
    method DrainPending() returns (report: DrainReport, err: Option<EndpointError>)
      requires Valid()
      modifies this`buffer, reader
      ensures old(reader.received) <= reader.received
      ensures old(deferredErr).Some? ==>
                err.Some? && buffer == old(buffer) && reader.calls == old(reader.calls)
      ensures old(deferredErr) == None ==>
                && buffer == []
                && (err != Some(RequestEnded) ==>
                      report.discardedBytes == |old(buffer)| + |reader.received| - |old(reader.received)|)
                && report.readCalls == reader.calls - old(reader.calls)
      ensures err == None <==>
                && old(deferredErr) == None && |old(buffer)| <= maximumBytes + RESPONSE_DRAIN_LENGTH_PREFIX_BYTES
                && Drained(reader.script, old(reader.calls),
                     maximumBytes + RESPONSE_DRAIN_LENGTH_PREFIX_BYTES - |old(buffer)|).Some?
      ensures err == None ==>
                && Some(reader.calls) == Drained(reader.script, old(reader.calls),
                                           maximumBytes + RESPONSE_DRAIN_LENGTH_PREFIX_BYTES - |old(buffer)|)
                && report.discardedBytes <= maximumBytes + RESPONSE_DRAIN_LENGTH_PREFIX_BYTES
                && report.readCalls > 0 && IsSilence(reader.script(reader.calls - 1))
    {
      report := DrainReport(0, 0);
      if deferredErr.Some? {
        return report, Some(Transport(deferredErr.value));
      }
      var maximumDiscarded := maximumBytes + RESPONSE_DRAIN_LENGTH_PREFIX_BYTES;
      report := report.(discardedBytes := |buffer|);
      buffer := [];
      if report.discardedBytes > maximumDiscarded {
        return report, Some(BadFrame(TooLarge(report.discardedBytes, maximumDiscarded)));
      }
      while true
        invariant buffer == [] && old(reader.received) <= reader.received
        invariant report.discardedBytes == |old(buffer)| + |reader.received| - |old(reader.received)|
        invariant report.readCalls == reader.calls - old(reader.calls)
        invariant report.discardedBytes <= maximumDiscarded
        invariant Drained(reader.script, old(reader.calls), maximumDiscarded - |old(buffer)|) ==
                  Drained(reader.script, reader.calls, maximumDiscarded - report.discardedBytes)
        decreases maximumDiscarded - report.discardedBytes
      {
        var t := reader.Read();
        report := report.(readCalls := report.readCalls + 1);
        if !ValidCount(t) {
          return report, Some(InvalidCount);
        }
        if t.requestEnded {
          return report, Some(RequestEnded);
        }
        if t.count > 0 {
          report := report.(discardedBytes := report.discardedBytes + t.count);
          if report.discardedBytes > maximumDiscarded {
            return report, Some(BadFrame(TooLarge(report.discardedBytes, maximumDiscarded)));
          }
          if t.failure.Some? || t.probe != Running {
            return report, Some(Surplus(t.count));
          }
        } else {
          if t.failure == None {
            return report, Some(NoProgress);
          }
          if IsSilence(t) {
            return report, None;
          }
          return report, Some(Transport(ContextError(t.endedLater, t.failure.value)));
        }
      }
    }
  }

  lemma SplitAt(taken: seq<Byte>, fragment: seq<Byte>, consumed: nat)
    requires consumed <= |fragment|
    ensures taken + fragment[..consumed] + fragment[consumed..] == taken + fragment
    ensures taken + fragment[..consumed] == taken + fragment ==> consumed == |fragment|
  {
    assert fragment[..consumed] + fragment[consumed..] == fragment;
    assert |taken + fragment[..consumed]| == |taken| + consumed;
  }

  /** `stream` is what was there at the `start` and what came in since. */
  predicate Follows(start: seq<Byte>, before: seq<Byte>, received: seq<Byte>, stream: seq<Byte>) {
    before <= received && stream == start + received[|before|..]
  }

  lemma FollowsNothing(start: seq<Byte>, before: seq<Byte>)
    ensures Follows(start, before, before, start)
  {
  }

  lemma FollowsMoreAlways(start: seq<Byte>, before: seq<Byte>, received: seq<Byte>, stream: seq<Byte>)
    requires Follows(start, before, received, stream)
    ensures forall data :: Follows(start, before, received + data, stream + data)
  {
    forall data ensures Follows(start, before, received + data, stream + data) {
      assert (received + data)[|before|..] == received[|before|..] + data;
    }
  }

  /** The reference's verdict on the bytes a decoder has taken. */
  lemma Answered(mode: ResponseMode, limit: nat, taken: seq<Byte>, buffer: seq<Byte>,
                 r: Result<seq<Byte>, EndpointError>)
    requires IsReadable(mode)
    requires match Decode(mode, limit, taken)
             case Complete(payload, n) => r == Ok(payload) && n == |taken|
             case Oversized(size, n) => r == Err(BadFrame(TooLarge(size, limit))) && n == |taken|
             case Incomplete => r.Err? && r.error.TruncatedBy?
    ensures Answers(mode, limit, taken + buffer, buffer, r)
  {
    assert (taken + buffer)[..|taken + buffer| - |buffer|] == taken;
  }

  /** A stream of transferred bytes splits into what the frame decoder consumed
      and what is still buffered, and `r` is the reference's verdict on the
      consumed part. */
  ghost predicate Answers(
    mode: ResponseMode, limit: nat, stream: seq<Byte>, buffer: seq<Byte>, r: Result<seq<Byte>, EndpointError>)
    requires IsReadable(mode)
  {
    && |buffer| <= |stream|
    && var consumed := stream[..|stream| - |buffer|];
       && stream == consumed + buffer
       && match Decode(mode, limit, consumed)
          case Complete(payload, n) => r == Ok(payload) && n == |consumed|
          case Oversized(size, n) => r == Err(BadFrame(TooLarge(size, limit))) && n == |consumed|
          case Incomplete => r.Err? && r.error.TruncatedBy?
  }

  /** An undecided frame is shorter than the largest frame allowed. */
  lemma UndecidedIsShort(mode: ResponseMode, limit: nat, taken: seq<Byte>)
    requires IsReadable(mode) && Decode(mode, limit, taken) == Incomplete
    ensures |taken| < limit + PREFIX_BYTES
  {
  }

  /** No decision means the fragment was wholly consumed, which is why the
      buffer may be dropped. */
  lemma WhollyConsumed(mode: ResponseMode, limit: nat, taken: seq<Byte>, fragment: seq<Byte>)
    requires IsReadable(mode)
    ensures Decode(mode, limit, taken + fragment) == Incomplete ==>
              Absorb(mode, limit, taken, fragment) == taken + fragment
  {
  }
}
