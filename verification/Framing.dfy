/** What one response frame is: the one-shot reference that the incremental
    decoder, the synchronous reader and the USB session are measured against. */
module Framing {
  import opened Commands

  type Byte = b: int | 0 <= b < 256

  const LF: Byte := 10
  const CR: Byte := 13
  const PREFIX_BYTES := 4
  const DEFAULT_MAXIMUM_RESPONSE_BYTES := 16 * 1024 * 1024

  datatype FrameError = InvalidLimit(limit: nat) | Malformed | TooLarge(size: nat, limit: nat)

  /** What the first bytes of a stream decide. */
  datatype Outcome =
    | Incomplete
    | Complete(payload: seq<Byte>, consumed: nat)
    | Oversized(size: nat, consumed: nat)

  predicate IsReadable(mode: ResponseMode) {
    mode.Ascii? || mode.LengthPrefixed?
  }

  /** The index of the first line feed from `from` on, or the length when there
      is none. */
  function IndexOfLF(bs: seq<Byte>, from: nat): (n: nat)
    requires from <= |bs|
    ensures from <= n <= |bs|
    decreases |bs| - from
  {
    if from == |bs| || bs[from] == LF then from else IndexOfLF(bs, from + 1)
  }

  function LineEnd(bs: seq<Byte>): (n: nat)
    ensures n <= |bs|
  {
    IndexOfLF(bs, 0)
  }

  lemma {:induction false} IndexIsFirst(bs: seq<Byte>, from: nat)
    requires from <= |bs|
    ensures IndexOfLF(bs, from) < |bs| ==> bs[IndexOfLF(bs, from)] == LF
    ensures forall i | from <= i < IndexOfLF(bs, from) :: bs[i] != LF
    decreases |bs| - from
  {
    if from < |bs| && bs[from] != LF {
      IndexIsFirst(bs, from + 1);
    }
  }

  /** `n` is the line end exactly when no line feed comes before it, and one is
      there unless the bytes end. */
  lemma LineEndIs(bs: seq<Byte>, n: nat)
    requires n <= |bs|
    ensures LineEnd(bs) == n <==> (forall i | 0 <= i < n :: bs[i] != LF) && (n < |bs| ==> bs[n] == LF)
  {
    IndexIsFirst(bs, 0);
    if LineEnd(bs) < n {
      assert bs[LineEnd(bs)] == LF;
    }
  }

  function WithoutReturn(line: seq<Byte>): seq<Byte> {
    if line != [] && line[|line| - 1] == CR then line[..|line| - 1] else line
  }

  function LittleEndian(bs: seq<Byte>): nat
    requires |bs| == PREFIX_BYTES
  {
    bs[0] as int + 0x100 * (bs[1] as int) + 0x1_0000 * (bs[2] as int) + 0x100_0000 * (bs[3] as int)
  }

  function DecodeLine(limit: nat, bs: seq<Byte>): Outcome {
    var n := LineEnd(bs);
    if n > limit then Oversized(limit + 1, limit + 1)
    else if n < |bs| then Complete(WithoutReturn(bs[..n]), n + 1)
    else Incomplete
  }

  function DecodePrefixed(limit: nat, bs: seq<Byte>): Outcome {
    if |bs| < PREFIX_BYTES then Incomplete else
    var n := LittleEndian(bs[..PREFIX_BYTES]);
    if n > limit then Oversized(n, PREFIX_BYTES)
    else if |bs| < PREFIX_BYTES + n then Incomplete
    else Complete(bs[PREFIX_BYTES..PREFIX_BYTES + n], PREFIX_BYTES + n)
  }

  /** The reference decoder: looks at all the bytes at once. */
  function Decode(mode: ResponseMode, limit: nat, bs: seq<Byte>): Outcome
    requires IsReadable(mode)
  {
    if mode.Ascii? then DecodeLine(limit, bs) else DecodePrefixed(limit, bs)
  }

  /** How many of the bytes belong to the frame. */
  function Extent(mode: ResponseMode, limit: nat, bs: seq<Byte>): nat
    requires IsReadable(mode)
  {
    match Decode(mode, limit, bs)
    case Incomplete => |bs|
    case Complete(_, consumed) => consumed
    case Oversized(_, consumed) => consumed
  }

  /** The bytes a decoder that has taken `taken` holds after one more fragment. */
  function Absorb(mode: ResponseMode, limit: nat, taken: seq<Byte>, fragment: seq<Byte>): seq<Byte>
    requires IsReadable(mode)
  {
    ExtentIsBounded(mode, limit, taken + fragment);
    (taken + fragment)[..Extent(mode, limit, taken + fragment)]
  }

  function AbsorbAll(mode: ResponseMode, limit: nat, taken: seq<Byte>, fragments: seq<seq<Byte>>): seq<Byte>
    requires IsReadable(mode)
    decreases |fragments|
  {
    if fragments == [] then taken
    else AbsorbAll(mode, limit, Absorb(mode, limit, taken, fragments[0]), fragments[1..])
  }

  function Concat(fragments: seq<seq<Byte>>): seq<Byte> {
    if fragments == [] then [] else fragments[0] + Concat(fragments[1..])
  }

  // ---- Properties of the reference ------------------------------------------

  lemma ExtentIsBounded(mode: ResponseMode, limit: nat, bs: seq<Byte>)
    requires IsReadable(mode)
    ensures Extent(mode, limit, bs) <= |bs|
    ensures |bs| > 0 ==> Extent(mode, limit, bs) > 0
  {
  }

  lemma LineEndOfPrefix(a: seq<Byte>, b: seq<Byte>)
    ensures LineEnd(a + b) == if LineEnd(a) < |a| then LineEnd(a) else |a| + LineEnd(b)
  {
    var n := if LineEnd(a) < |a| then LineEnd(a) else |a| + LineEnd(b);
    LineEndIs(a, LineEnd(a));
    LineEndIs(b, LineEnd(b));
    LineEndIs(a + b, n);
  }

  /** Once the first bytes decide the frame, later bytes change nothing. */
  lemma DecidedForGood(mode: ResponseMode, limit: nat, a: seq<Byte>, b: seq<Byte>)
    requires IsReadable(mode) && Decode(mode, limit, a) != Incomplete
    ensures Decode(mode, limit, a + b) == Decode(mode, limit, a)
  {
    if mode.Ascii? {
      LineEndOfPrefix(a, b);
      if LineEnd(a) <= limit {
        assert (a + b)[..LineEnd(a)] == a[..LineEnd(a)];
      }
    } else {
      assert (a + b)[..PREFIX_BYTES] == a[..PREFIX_BYTES];
      var n := LittleEndian(a[..PREFIX_BYTES]);
      if n <= limit {
        assert (a + b)[PREFIX_BYTES..PREFIX_BYTES + n] == a[PREFIX_BYTES..PREFIX_BYTES + n];
      }
    }
  }

  lemma LineExtentDecides(limit: nat, bs: seq<Byte>)
    ensures Extent(Ascii, limit, bs) <= |bs|
    ensures DecodeLine(limit, bs[..Extent(Ascii, limit, bs)]) == DecodeLine(limit, bs)
  {
    var n := Extent(Ascii, limit, bs);
    LineEndOfWindow(bs, n);
    if LineEnd(bs) < n {
      assert bs[..n][..LineEnd(bs)] == bs[..LineEnd(bs)];
    }
  }

  /** The consumed bytes alone already decide the frame. */
  lemma ExtentDecides(mode: ResponseMode, limit: nat, bs: seq<Byte>)
    requires IsReadable(mode)
    ensures Extent(mode, limit, bs) <= |bs|
    ensures Decode(mode, limit, bs[..Extent(mode, limit, bs)]) == Decode(mode, limit, bs)
  {
    if mode.Ascii? {
      LineExtentDecides(limit, bs);
    } else {
      var front := bs[..Extent(mode, limit, bs)];
      if |bs| >= PREFIX_BYTES {
        assert front[..PREFIX_BYTES] == bs[..PREFIX_BYTES];
      }
    }
  }

  /** Nothing shorter than the extent decides it. */
  lemma UndecidedBefore(mode: ResponseMode, limit: nat, bs: seq<Byte>, k: nat)
    requires IsReadable(mode) && k <= |bs| && k < Extent(mode, limit, bs)
    ensures Decode(mode, limit, bs[..k]) == Incomplete
  {
    assert bs[..k] + bs[k..] == bs;
    if Decode(mode, limit, bs[..k]) != Incomplete {
      DecidedForGood(mode, limit, bs[..k], bs[k..]);
      ExtentIsBounded(mode, limit, bs[..k]);
    }
  }

  /** Two fragments or their concatenation: the same bytes are taken. */
  lemma AbsorbTwice(mode: ResponseMode, limit: nat, taken: seq<Byte>, a: seq<Byte>, b: seq<Byte>)
    requires IsReadable(mode)
    ensures Absorb(mode, limit, Absorb(mode, limit, taken, a), b) == Absorb(mode, limit, taken, a + b)
  {
    var whole := taken + a;
    var first := Absorb(mode, limit, taken, a);
    assert taken + (a + b) == whole + b;
    ExtentDecides(mode, limit, whole);
    if Decode(mode, limit, whole) == Incomplete {
      assert first == whole;
    } else {
      DecidedForGood(mode, limit, whole, b);
      DecidedForGood(mode, limit, first, b);
      assert (whole + b)[..|first|] == first;
      assert (first + b)[..|first|] == first;
    }
  }

  lemma {:induction false} AbsorbAllIsAbsorb(mode: ResponseMode, limit: nat, taken: seq<Byte>,
                                             fragments: seq<seq<Byte>>)
    requires IsReadable(mode) && Absorb(mode, limit, taken, []) == taken
    ensures AbsorbAll(mode, limit, taken, fragments) == Absorb(mode, limit, taken, Concat(fragments))
    decreases |fragments|
  {
    if fragments != [] {
      var next := Absorb(mode, limit, taken, fragments[0]);
      AbsorbTwice(mode, limit, taken, fragments[0], []);
      assert fragments[0] + [] == fragments[0];
      AbsorbAllIsAbsorb(mode, limit, next, fragments[1..]);
      AbsorbTwice(mode, limit, taken, fragments[0], Concat(fragments[1..]));
    }
  }

  /** However a byte string is cut into fragments, feeding them one by one
      takes the same bytes, and decides the same payload, error or
      incompleteness, as decoding the whole string at once. */
  lemma FragmentationIndependence(mode: ResponseMode, limit: nat, fragments: seq<seq<Byte>>)
    requires IsReadable(mode)
    ensures var bs, taken := Concat(fragments), AbsorbAll(mode, limit, [], fragments);
            && |taken| == Extent(mode, limit, bs) <= |bs|
            && taken == bs[..|taken|]
            && Decode(mode, limit, taken) == Decode(mode, limit, bs)
  {
    var bs := Concat(fragments);
    assert [] + bs == bs;
    ExtentDecides(mode, limit, bs);
    AbsorbAllIsAbsorb(mode, limit, [], fragments);
  }

  /** Bytes after an undecided prefix are never left behind: the frame ends
      within them or takes them all. */
  lemma ExtentGrows(mode: ResponseMode, limit: nat, taken: seq<Byte>, fragment: seq<Byte>)
    requires IsReadable(mode) && Decode(mode, limit, taken) == Incomplete
    ensures |taken| <= Extent(mode, limit, taken + fragment) <= |taken| + |fragment|
    ensures fragment != [] ==> |taken| < Extent(mode, limit, taken + fragment)
  {
    if mode.Ascii? {
      LineEndOfPrefix(taken, fragment);
    } else if |taken| >= PREFIX_BYTES {
      assert (taken + fragment)[..PREFIX_BYTES] == taken[..PREFIX_BYTES];
    }
  }

  /** Taking the extent of `whole` leaves a decoder exactly as decided as
      `whole` is. */
  lemma TakeExtent(mode: ResponseMode, limit: nat, taken: seq<Byte>, fragment: seq<Byte>, consumed: nat)
    requires IsReadable(mode) && Decode(mode, limit, taken) == Incomplete && consumed <= |fragment|
    requires |taken| + consumed == Extent(mode, limit, taken + fragment)
    ensures taken + fragment[..consumed] == Absorb(mode, limit, taken, fragment)
    ensures Decode(mode, limit, taken + fragment[..consumed]) == Decode(mode, limit, taken + fragment)
  {
    var whole := taken + fragment;
    ExtentDecides(mode, limit, whole);
    assert taken + fragment[..consumed] == whole[..|taken| + consumed];
  }

  lemma LineEndOfWindow(fragment: seq<Byte>, k: nat)
    requires k <= |fragment|
    ensures LineEnd(fragment[..k]) == if LineEnd(fragment) < k then LineEnd(fragment) else k
  {
    assert fragment == fragment[..k] + fragment[k..];
    LineEndOfPrefix(fragment[..k], fragment[k..]);
  }

  /** An undecided line is decided by the first line feed of the bytes that
      still fit, together with one byte more. */
  lemma LineByWindow(limit: nat, taken: seq<Byte>, fragment: seq<Byte>, k: nat)
    requires DecodeLine(limit, taken) == Incomplete
    requires k == if |fragment| < limit - |taken| + 1 then |fragment| else limit - |taken| + 1
    ensures var size := LineEnd(fragment[..k]);
            DecodeLine(limit, taken + fragment) ==
            if size > limit - |taken| then Oversized(limit + 1, |taken| + size)
            else if size == k then Incomplete
            else Complete(WithoutReturn(taken + fragment[..size]), |taken| + size + 1)
  {
    LineEndOfPrefix(taken, fragment);
    LineEndOfWindow(fragment, k);
    var size := LineEnd(fragment[..k]);
    assert (taken + fragment)[..|taken| + size] == taken + fragment[..size];
  }

  /** Once the prefix is in, a frame is decided by counting payload bytes. */
  lemma PayloadByCount(limit: nat, taken: seq<Byte>, fragment: seq<Byte>, size: nat)
    requires |taken| >= PREFIX_BYTES && LittleEndian(taken[..PREFIX_BYTES]) <= limit
    requires |taken| - PREFIX_BYTES <= LittleEndian(taken[..PREFIX_BYTES])
    requires var missing := LittleEndian(taken[..PREFIX_BYTES]) - (|taken| - PREFIX_BYTES);
             size == if |fragment| < missing then |fragment| else missing
    ensures var whole, kept := taken + fragment, taken + fragment[..size];
            && DecodePrefixed(limit, whole) == DecodePrefixed(limit, kept)
            && DecodePrefixed(limit, kept) ==
               if |kept| == PREFIX_BYTES + LittleEndian(taken[..PREFIX_BYTES])
               then Complete(kept[PREFIX_BYTES..], |kept|) else Incomplete
  {
    var whole, kept := taken + fragment, taken + fragment[..size];
    assert whole[..PREFIX_BYTES] == kept[..PREFIX_BYTES] == taken[..PREFIX_BYTES];
    var n := LittleEndian(taken[..PREFIX_BYTES]);
    if |kept| == PREFIX_BYTES + n {
      assert whole[PREFIX_BYTES..PREFIX_BYTES + n] == kept[PREFIX_BYTES..];
    }
  }

  /** How much may be read without reaching beyond the frame. */
  function ReadSize(mode: ResponseMode, limit: nat, taken: seq<Byte>): nat
    requires IsReadable(mode) && Decode(mode, limit, taken) == Incomplete
  {
    if mode.Ascii? then 1
    else if |taken| < PREFIX_BYTES then PREFIX_BYTES - |taken|
    else PREFIX_BYTES + LittleEndian(taken[..PREFIX_BYTES]) - |taken|
  }

  lemma ReadSizeIsExact(mode: ResponseMode, limit: nat, taken: seq<Byte>, chunk: seq<Byte>)
    requires IsReadable(mode) && Decode(mode, limit, taken) == Incomplete
    requires |chunk| <= ReadSize(mode, limit, taken)
    ensures ReadSize(mode, limit, taken) > 0
    ensures Absorb(mode, limit, taken, chunk) == taken + chunk
  {
    ExtentGrows(mode, limit, taken, chunk);
    if mode.LengthPrefixed? && |taken| >= PREFIX_BYTES {
      assert (taken + chunk)[..PREFIX_BYTES] == taken[..PREFIX_BYTES];
    }
  }

  /** A line is read byte by byte; otherwise what is read at once completes the
      prefix or the frame. */
  lemma ReadSizeCompletes(mode: ResponseMode, limit: nat, taken: seq<Byte>, chunk: seq<Byte>)
    requires IsReadable(mode) && Decode(mode, limit, taken) == Incomplete
    requires |chunk| == ReadSize(mode, limit, taken)
    ensures mode.Ascii? ==> |chunk| == 1
    ensures mode.LengthPrefixed? && |taken| < 4 ==> |taken + chunk| == 4
    ensures mode.LengthPrefixed? && |taken| >= 4 ==> Decode(mode, limit, taken + chunk).Complete?
  {
    if mode.LengthPrefixed? && |taken| >= 4 {
      assert (taken + chunk)[..4] == taken[..4];
    }
  }

  /** A frame taken from the front of a stream is the frame of the stream. */
  lemma FrameOfStream(mode: ResponseMode, limit: nat, taken: seq<Byte>, rest: seq<Byte>)
    requires IsReadable(mode) && Absorb(mode, limit, [], taken) == taken && Decode(mode, limit, taken) != Incomplete
    ensures Decode(mode, limit, taken + rest) == Decode(mode, limit, taken)
    ensures Extent(mode, limit, taken + rest) == |taken|
    ensures (taken + rest)[|taken|..] == rest
  {
    DecidedForGood(mode, limit, taken, rest);
    assert [] + taken == taken;
  }

  /** No payload exceeds the limit, and none carries the whole line ending. */
  lemma PayloadIsBounded(mode: ResponseMode, limit: nat, bs: seq<Byte>)
    requires IsReadable(mode) && Decode(mode, limit, bs).Complete?
    ensures |Decode(mode, limit, bs).payload| <= limit
    ensures Decode(mode, limit, bs).consumed <= limit + PREFIX_BYTES
    ensures mode.Ascii? ==> LF !in Decode(mode, limit, bs).payload
  {
    LineEndIs(bs, LineEnd(bs));
  }

  // ---- Verdicts ---------------------------------------------------------------

  /** The three verdicts on a line, told by its bytes: `n` is the place of the
      first line feed, or the end. */
  lemma LineVerdict(limit: nat, bs: seq<Byte>, n: nat)
    requires n <= |bs| && (forall i | 0 <= i < n :: bs[i] != 10) && (n < |bs| ==> bs[n] == 10)
    ensures n > limit ==> Decode(Ascii, limit, bs) == Oversized(limit + 1, limit + 1)
    ensures n <= limit && n == |bs| ==> Decode(Ascii, limit, bs) == Incomplete
    ensures n <= limit && n < |bs| ==>
              Decode(Ascii, limit, bs) ==
              Complete(if n > 0 && bs[n - 1] == 13 then bs[..n - 1] else bs[..n], n + 1)
  {
    LineEndIs(bs, n);
    assert bs[..n] == [] || bs[..n][..n - 1] == bs[..n - 1];
  }

  /** And those on a length-prefixed frame. */
  lemma PrefixedVerdict(limit: nat, bs: seq<Byte>)
    ensures |bs| < 4 ==> Decode(LengthPrefixed, limit, bs) == Incomplete
    ensures |bs| >= 4 ==>
              var n: int := bs[0] as int + 256 * (bs[1] as int + 256 * (bs[2] as int + 256 * (bs[3] as int)));
              Decode(LengthPrefixed, limit, bs) ==
              if n > limit then Oversized(n, 4)
              else if |bs| < 4 + n then Incomplete
              else Complete(bs[4..4 + n], 4 + n)
  {
  }

  // ---- Round trips ------------------------------------------------------------

  function LittleEndianBytes(n: nat): seq<Byte>
    requires n < 0x1_0000_0000
  {
    var second := n / 0x100;
    var third := second / 0x100;
    [n % 0x100, second % 0x100, third % 0x100, third / 0x100]
  }

  /** A length-prefixed frame comes back whole, with whatever follows it left
      unconsumed, exactly when its payload fits the limit. */
  lemma LengthPrefixedRoundTrip(limit: nat, payload: seq<Byte>, suffix: seq<Byte>)
    requires |payload| < 0x1_0000_0000
    ensures Decode(LengthPrefixed, limit, LittleEndianBytes(|payload|) + payload + suffix) ==
            if |payload| <= limit then Complete(payload, PREFIX_BYTES + |payload|)
            else Oversized(|payload|, PREFIX_BYTES)
  {
    var n := |payload|;
    var prefix := LittleEndianBytes(n);
    var bs := prefix + payload + suffix;
    assert bs[..PREFIX_BYTES] == prefix;
    LittleEndianInverse(n);
    assert bs[PREFIX_BYTES..PREFIX_BYTES + n] == payload;
  }

  lemma LittleEndianInverse(n: nat)
    requires n < 0x1_0000_0000
    ensures LittleEndian(LittleEndianBytes(n)) == n
  {
  }

  /** A line ended by a bare line feed comes back exactly when it fits, holds no
      line feed and does not itself end in a carriage return. */
  lemma LineRoundTrip(limit: nat, line: seq<Byte>, suffix: seq<Byte>)
    ensures Decode(Ascii, limit, line + [LF] + suffix) == Complete(line, |line| + 1)
            <==> |line| <= limit && LF !in line && (line == [] || line[|line| - 1] != CR)
  {
    var bs := line + [LF] + suffix;
    LineEndIs(bs, |line|);
    assert bs[..|line|] == line;
    if LF !in line {
      assert forall i | 0 <= i < |line| :: bs[i] == line[i];
    } else {
      var k :| 0 <= k < |line| && line[k] == LF;
      assert bs[k] == LF;
    }
  }

  /** A line ended by CR LF comes back exactly when it and its carriage return
      fit and it holds no line feed. */
  lemma ReturnedLineRoundTrip(limit: nat, line: seq<Byte>, suffix: seq<Byte>)
    ensures Decode(Ascii, limit, line + [CR, LF] + suffix) == Complete(line, |line| + 2)
            <==> |line| + 1 <= limit && LF !in line
  {
    var bs := line + [CR, LF] + suffix;
    LineEndIs(bs, |line| + 1);
    assert bs[..|line| + 1] == line + [CR];
    assert WithoutReturn(line + [CR]) == line;
    if LF !in line {
      assert forall i | 0 <= i < |line| :: bs[i] == line[i];
    } else {
      var k :| 0 <= k < |line| && line[k] == LF;
      assert bs[k] == LF;
    }
  }
}
