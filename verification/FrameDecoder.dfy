/** `owonprotocol.FrameDecoder` and `owonprotocol.ReadResponse`: both refine the
    one-shot reference of `Framing`. */
module FrameDecoding {
  import opened Commands
  import opened Wrappers
  import opened Framing

  const RESPONSE_READ_BYTES := 4096

  /** Zero selects the fixed cap, and nothing may exceed it. */
  function NormalizeResponseLimit(maximumBytes: nat): (r: Result<nat, FrameError>)
    ensures r.Ok? ==> 0 < r.value <= DEFAULT_MAXIMUM_RESPONSE_BYTES && (maximumBytes != 0 ==> r.value == maximumBytes)
    ensures r.Err? <==> maximumBytes > DEFAULT_MAXIMUM_RESPONSE_BYTES
    ensures maximumBytes == 0 ==> r == Ok(DEFAULT_MAXIMUM_RESPONSE_BYTES)
  {
    if maximumBytes == 0 then Ok(DEFAULT_MAXIMUM_RESPONSE_BYTES)
    else if maximumBytes > DEFAULT_MAXIMUM_RESPONSE_BYTES then Err(InvalidLimit(maximumBytes))
    else Ok(maximumBytes)
  }

  function Min(a: int, b: int): int {
    if a < b then a else b
  }

  lemma SplitFragment(taken: seq<Byte>, fragment: seq<Byte>, first: nat, second: nat)
    requires first + second <= |fragment|
    ensures (taken + fragment[..first]) + fragment[first..] == taken + fragment
    ensures (taken + fragment[..first]) + fragment[first..][..second] == taken + fragment[..first + second]
  {
    assert fragment[..first] + fragment[first..] == fragment;
    assert fragment[..first] + fragment[first..][..second] == fragment[..first + second];
  }

  /** An incremental decoder of one frame. `taken` is history: the bytes of the
      stream that it has consumed. */
  class FrameDecoder {
    const mode: ResponseMode
    const maximumBytes: nat
    const prefix: array<Byte>
    var prefixBytes: nat
    var payload: seq<Byte>
    var length: nat
    var complete: bool
    var err: Option<FrameError>
    ghost var taken: seq<Byte>

    /** What the fields say has been decided. */
    ghost function Status(): Outcome
      reads this
    {
      if err.Some? then Oversized(if err.value.TooLarge? then err.value.size else 0, |taken|)
      else if complete then Complete(payload, |taken|)
      else Incomplete
    }

    ghost predicate Valid()
      reads this, prefix
    {
      && IsReadable(mode)
      && prefix.Length == PREFIX_BYTES
      && Status() == Decode(mode, maximumBytes, taken)
      && (err.Some? ==> err.value.TooLarge? && err.value.limit == maximumBytes)
      && (mode.Ascii? && Status() == Incomplete ==> payload == taken)
      && (mode.LengthPrefixed? ==>
            && prefixBytes == (if |taken| < PREFIX_BYTES then |taken| else PREFIX_BYTES)
            && prefix[..prefixBytes] == taken[..prefixBytes]
            && (prefixBytes < PREFIX_BYTES ==> payload == [] && length == 0)
            && (prefixBytes == PREFIX_BYTES && err == None ==>
                  && length == LittleEndian(prefix[..])
                  && payload == taken[PREFIX_BYTES..]))
    }

    constructor (mode: ResponseMode, maximumBytes: nat)
      requires IsReadable(mode)
      ensures Valid() && fresh(prefix)
      ensures this.mode == mode && this.maximumBytes == maximumBytes && taken == [] && Status() == Incomplete
    {
      this.mode := mode;
      this.maximumBytes := maximumBytes;
      prefix := new Byte[PREFIX_BYTES](_ => 0);
      prefixBytes, payload, length, complete, err := 0, [], 0, false, None;
      taken := [];
    }

    /** Takes exactly what the reference says belongs to the frame, and ends in
        the state the reference gives for all bytes seen so far. A decided
        decoder takes nothing and stays as it is. */
    method Feed(fragment: seq<Byte>) returns (consumed: nat, done: bool, error: Option<FrameError>)
      requires Valid()
      modifies this, prefix
      ensures Valid()
      ensures consumed <= |fragment|
      ensures taken == old(taken) + fragment[..consumed] == Absorb(mode, maximumBytes, old(taken), fragment)
      ensures Status() == Decode(mode, maximumBytes, old(taken) + fragment)
      ensures old(Status()) != Incomplete ==> consumed == 0 && Status() == old(Status()) && err == old(err)
      ensures done == complete && error == err
      ensures error.Some? <==> Status().Oversized?
      ensures error == None ==> done == Status().Complete?
    {
      if err.Some? || complete {
        assert fragment[..0] == [];
        assert taken + [] == taken;
        DecidedForGood(mode, maximumBytes, taken, fragment);
        assert (taken + fragment)[..|taken|] == taken;
        return 0, complete, err;
      }
      if mode.Ascii? {
        consumed := FeedAscii(fragment);
      } else {
        consumed := FeedLengthPrefixed(fragment);
      }
      assert old(taken) + fragment[..consumed] == (old(taken) + fragment)[..|taken|];
      return consumed, complete, err;
    }

    method FeedAscii(fragment: seq<Byte>) returns (consumed: nat)
      requires Valid() && Status() == Incomplete && mode.Ascii?
      modifies this
      ensures Valid() && consumed <= |fragment|
      ensures taken == old(taken) + fragment[..consumed]
      ensures Status() == Decode(mode, maximumBytes, old(taken) + fragment)
      ensures Status() == Incomplete ==> consumed == |fragment|
    {
      var remaining := maximumBytes - |payload|;
      var window := fragment[..Min(|fragment|, remaining + 1)];
      LineByWindow(maximumBytes, taken, fragment, |window|);
      var size := LineEnd(window);
      TakeExtent(mode, maximumBytes, taken, fragment, if size < |window| then size + 1 else size);
      if size > remaining {
        err := Some(TooLarge(maximumBytes + 1, maximumBytes));
        taken := taken + fragment[..size];
        return size;
      }
      if size == |window| {
        payload := payload + fragment[..size];
        taken := taken + fragment[..size];
        return size;
      }
      consumed := FinishLine(fragment, size);
    }

    /** The line ends behind `size` bytes of `fragment`; its carriage return, if
        any, is not payload. */
    method FinishLine(fragment: seq<Byte>, size: nat) returns (consumed: nat)
      requires Valid() && Status() == Incomplete && mode.Ascii? && size < |fragment|
      requires Decode(mode, maximumBytes, taken + fragment[..size + 1]) ==
               Complete(WithoutReturn(taken + fragment[..size]), |taken| + size + 1)
      modifies this
      ensures Valid() && consumed == size + 1 && taken == old(taken) + fragment[..consumed]
      ensures Status() == Decode(mode, maximumBytes, old(taken) + fragment[..size + 1])
    {
      var needed := |payload| + size;
      payload := payload + fragment[..size];
      complete := true;
      if needed > 0 && payload[needed - 1] == CR {
        payload := payload[..needed - 1];
      }
      taken := taken + fragment[..size + 1];
      return size + 1;
    }

    method FeedLengthPrefixed(fragment: seq<Byte>) returns (consumed: nat)
      requires Valid() && Status() == Incomplete && mode.LengthPrefixed?
      modifies this, prefix
      ensures Valid() && consumed <= |fragment|
      ensures taken == old(taken) + fragment[..consumed]
      ensures Status() == Decode(mode, maximumBytes, old(taken) + fragment)
      ensures Status() == Incomplete ==> consumed == |fragment|
    {
      consumed := 0;
      if prefixBytes < PREFIX_BYTES {
        var ready;
        consumed, ready := FeedPrefix(fragment);
        if !ready {
          return;
        }
      } else {
        assert prefix[..] == taken[..PREFIX_BYTES];
        assert taken + fragment[..0] == taken;
      }
      var size := FeedPayload(fragment[consumed..]);
      SplitFragment(old(taken), fragment, consumed, size);
      consumed := consumed + size;
    }

    /** The prefix is complete and within the limit. */
    ghost predicate PayloadReady()
      reads this, prefix
    {
      && mode.LengthPrefixed? && prefix.Length == prefixBytes == PREFIX_BYTES <= |taken|
      && prefix[..] == taken[..PREFIX_BYTES] && payload == taken[PREFIX_BYTES..]
      && length == LittleEndian(prefix[..]) <= maximumBytes && |payload| <= length && err == None
    }

    /** The prefix part of one step; unless it completes the prefix, the whole
        of it. */
    method FeedPrefix(fragment: seq<Byte>) returns (consumed: nat, ready: bool)
      requires Valid() && Status() == Incomplete && mode.LengthPrefixed? && prefixBytes < PREFIX_BYTES
      modifies this, prefix
      ensures consumed <= |fragment| && taken == old(taken) + fragment[..consumed]
      ensures if ready then PayloadReady() else
                && Valid() && Status() == Decode(mode, maximumBytes, old(taken) + fragment)
                && (Status() == Incomplete ==> consumed == |fragment|)
    {
      ghost var whole := taken + fragment;
      consumed := CopyPrefix(fragment);
      assert taken == whole[..prefixBytes];
      if prefixBytes < PREFIX_BYTES {
        assert taken == whole;
        return consumed, false;
      }
      assert prefix[..] == whole[..PREFIX_BYTES];
      var declared := LittleEndian(prefix[..]);
      if declared > maximumBytes {
        err := Some(TooLarge(declared, maximumBytes));
        return consumed, false;
      }
      length := declared;
      return consumed, true;
    }

    /** The payload part of the same step. */
    method FeedPayload(fragment: seq<Byte>) returns (size: nat)
      requires PayloadReady()
      modifies this`payload, this`complete, this`taken
      ensures Valid() && size <= |fragment| && taken == old(taken) + fragment[..size]
      ensures Status() == Decode(mode, maximumBytes, old(taken) + fragment)
      ensures Status() == Incomplete ==> size == |fragment|
    {
      size := Min(|fragment|, length - |payload|);
      PayloadByCount(maximumBytes, taken, fragment, size);
      payload := payload + fragment[..size];
      complete := |payload| == length;
      taken := taken + fragment[..size];
    }

    /** Go's `copy` into the unfilled part of the four-byte prefix. */
    method CopyPrefix(fragment: seq<Byte>) returns (copied: nat)
      requires prefix.Length == PREFIX_BYTES && prefixBytes < PREFIX_BYTES && prefixBytes == |taken|
      requires prefix[..prefixBytes] == taken
      modifies this`prefixBytes, this`taken, prefix
      ensures copied == Min(PREFIX_BYTES - old(prefixBytes), |fragment|)
      ensures prefixBytes == old(prefixBytes) + copied && prefixBytes == |taken| <= PREFIX_BYTES
      ensures taken == old(taken) + fragment[..copied] && prefix[..prefixBytes] == taken
    {
      copied := 0;
      ghost var before := taken;
      while prefixBytes < PREFIX_BYTES && copied < |fragment|
        invariant copied <= |fragment| && prefixBytes == old(prefixBytes) + copied <= PREFIX_BYTES
        invariant prefixBytes == |taken| && taken == before + fragment[..copied]
        invariant prefix[..prefixBytes] == taken
      {
        prefix[prefixBytes] := fragment[copied];
        taken := taken + [fragment[copied]];
        prefixBytes, copied := prefixBytes + 1, copied + 1;
      }
    }

    /** The payload, once complete; otherwise the failure or `Malformed`. */
    method Payload() returns (r: Result<seq<Byte>, FrameError>)
      requires Valid()
      ensures r == match Status()
                   case Complete(p, _) => Ok(p)
                   case Oversized(size, _) => Err(TooLarge(size, maximumBytes))
                   case Incomplete => Err(Malformed)
    {
      if err.Some? {
        return Err(err.value);
      }
      if complete {
        return Ok(payload);
      }
      return Err(Malformed);
    }

    /** A read size that cannot reach beyond the frame; see `ReadSizeIsExact`. */
    method NextReadSize() returns (n: nat)
      requires Valid() && Status() == Incomplete
      ensures n == ReadSize(mode, maximumBytes, taken)
    {
      if mode.Ascii? {
        return 1;
      }
      if prefixBytes < PREFIX_BYTES {
        return PREFIX_BYTES - prefixBytes;
      }
      assert prefix[..] == taken[..PREFIX_BYTES];
      return length - |payload|;
    }
  }

  method NewFrameDecoder(mode: ResponseMode, maximumBytes: nat)
    returns (decoder: FrameDecoder?, err: Option<FrameError>)
    ensures decoder != null <==> NormalizeResponseLimit(maximumBytes).Ok? && IsReadable(mode)
    ensures decoder != null ==>
              && fresh(decoder) && fresh(decoder.prefix) && decoder.Valid()
              && decoder.mode == mode && decoder.maximumBytes == NormalizeResponseLimit(maximumBytes).value
              && decoder.taken == [] && decoder.Status() == Incomplete && err == None
    ensures decoder == null ==>
              err == Some(if NormalizeResponseLimit(maximumBytes).Err? then InvalidLimit(maximumBytes) else Malformed)
  {
    var limit := NormalizeResponseLimit(maximumBytes);
    if limit.Err? {
      return null, Some(limit.error);
    }
    if !IsReadable(mode) {
      return null, Some(Malformed);
    }
    decoder := new FrameDecoder(mode, limit.value);
    err := None;
  }

  // ---- Synchronous reading ------------------------------------------------------

  /** A synchronous byte stream that ends in an error after `data`. */
  class ByteSource {
    const data: seq<Byte>
    var position: nat

    ghost predicate Valid()
      reads this
    {
      position <= |data|
    }

    ghost function Rest(): seq<Byte>
      requires Valid()
      reads this
    {
      data[position..]
    }

    constructor (data: seq<Byte>)
      ensures Valid() && Rest() == data
    {
      this.data := data;
      position := 0;
    }

    /** `io.ReadFull`: all the bytes asked for, or whatever was left and an error. */
    method ReadFull(n: nat) returns (chunk: seq<Byte>, failed: bool)
      requires Valid()
      modifies this
      ensures Valid() && chunk + Rest() == old(Rest())
      ensures |chunk| == Min(n, |old(Rest())|) && failed == (|chunk| < n)
    {
      var end := Min(position + n, |data|);
      chunk := data[position..end];
      failed := |chunk| < n;
      position := end;
    }
  }

  datatype ReadError = Frame(frame: FrameError) | Truncated

  /** What reading one frame from a stream should give: the payload or error of
      the reference decoder on the whole rest of the stream. */
  function FrameResult(mode: ResponseMode, limit: nat, rest: seq<Byte>): Result<seq<Byte>, ReadError>
    requires IsReadable(mode)
  {
    match Decode(mode, limit, rest)
    case Complete(payload, _) => Ok(payload)
    case Oversized(size, _) => Err(Frame(TooLarge(size, limit)))
    case Incomplete => Err(Truncated)
  }

  /** Reads one frame from a synchronous stream, taking exactly the bytes of
      that frame and no more. */
  method ReadResponse(reader: ByteSource, mode: ResponseMode, maximumBytes: nat)
    returns (r: Result<seq<Byte>, ReadError>)
    requires reader.Valid()
    modifies reader
    ensures reader.Valid()
    ensures NormalizeResponseLimit(maximumBytes).Err? ==>
              r == Err(Frame(InvalidLimit(maximumBytes))) && reader.Rest() == old(reader.Rest())
    ensures NormalizeResponseLimit(maximumBytes).Ok? && !IsReadable(mode) ==>
              r == Err(Frame(Malformed)) && reader.Rest() == old(reader.Rest())
    ensures NormalizeResponseLimit(maximumBytes).Ok? && IsReadable(mode) ==>
              var limit, rest := NormalizeResponseLimit(maximumBytes).value, old(reader.Rest());
              && Extent(mode, limit, rest) <= |rest|
              && reader.Rest() == rest[Extent(mode, limit, rest)..]
              && r == FrameResult(mode, limit, rest)
  {
    var decoder, err := NewFrameDecoder(mode, maximumBytes);
    if decoder == null {
      return Err(Frame(err.value));
    }
    r := ReadFrame(reader, decoder);
  }

  /** One read of as much as the decoder can say is the frame's, fed to it. */
  method ReadChunk(reader: ByteSource, decoder: FrameDecoder) returns (failed: bool)
    requires reader.Valid() && decoder.Valid() && decoder.Status() == Incomplete
    modifies reader, decoder, decoder.prefix
    ensures reader.Valid() && decoder.Valid()
    ensures decoder.taken + reader.Rest() == old(decoder.taken + reader.Rest())
    ensures Absorb(decoder.mode, decoder.maximumBytes, [], decoder.taken) == decoder.taken
    ensures if failed then reader.Rest() == [] else |reader.Rest()| < |old(reader.Rest())|
  {
    ghost var taken, before := decoder.taken, reader.Rest();
    var size := decoder.NextReadSize();
    var chunk;
    chunk, failed := reader.ReadFull(Min(RESPONSE_READ_BYTES, size));
    ReadSizeIsExact(decoder.mode, decoder.maximumBytes, taken, chunk);
    var consumed, done, error := decoder.Feed(chunk);
    assert taken + before == (taken + chunk) + reader.Rest();
    AbsorbedFromStart(decoder.mode, decoder.maximumBytes, taken, chunk);
  }

  lemma AbsorbedFromStart(mode: ResponseMode, limit: nat, taken: seq<Byte>, chunk: seq<Byte>)
    requires IsReadable(mode) && Decode(mode, limit, taken) == Incomplete
    requires Absorb(mode, limit, taken, chunk) == taken + chunk
    ensures Absorb(mode, limit, [], taken + chunk) == taken + chunk
  {
    assert [] + (taken + chunk) == taken + chunk;
  }

  /** The read loop of `ReadResponse`. */
  method ReadFrame(reader: ByteSource, decoder: FrameDecoder) returns (r: Result<seq<Byte>, ReadError>)
    requires reader.Valid() && decoder.Valid() && decoder.taken == [] && decoder.Status() == Incomplete
    modifies reader, decoder, decoder.prefix
    ensures reader.Valid()
    ensures var mode, limit, rest := decoder.mode, decoder.maximumBytes, old(reader.Rest());
            && Extent(mode, limit, rest) <= |rest|
            && reader.Rest() == rest[Extent(mode, limit, rest)..]
            && r == FrameResult(mode, limit, rest)
  {
    ghost var rest, mode, limit := reader.Rest(), decoder.mode, decoder.maximumBytes;
    while true
      invariant reader.Valid() && decoder.Valid() && decoder.Status() == Incomplete
      invariant decoder.taken + reader.Rest() == rest
      decreases |reader.Rest()|
    {
      var failed := ReadChunk(reader, decoder);
      if decoder.err.Some? || decoder.complete {
        FrameOfStream(mode, limit, decoder.taken, reader.Rest());
        if decoder.err.Some? {
          return Err(Frame(decoder.err.value));
        }
        var payload := decoder.Payload();
        return Ok(payload.value);
      }
      if failed {
        assert rest == decoder.taken;
        return Err(Truncated);
      }
    }
  }
}
