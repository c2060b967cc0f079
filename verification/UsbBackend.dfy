/** `Backend`: it owns at most one set of native handles that is not closed
    completely, replaces it only after it is, and publishes a session only after
    the instrument has proved its identity. */
module UsbBackends {
  import opened Wrappers
  import opened FrameDecoding
  import opened EndpointSessions
  import opened UsbIdentity
  import opened UsbResources

  // ---- Opening ---------------------------------------------------------------------------

  datatype Stage = Enumeration | Selection | Configuration | Claiming | Endpoints

  /** What discovery meets: the devices found, the serial of the one selected,
      where it fails if it does, how native closes turn out, what the endpoints
      do, and whether the request's context has ended when it cleans up. */
  datatype Discovery = Discovery(
    found: nat, serial: Text, failure: Option<Stage>, closes: nat -> bool, instrument: Instrument, ended: bool)

  /** A session nobody has used yet. */
  ghost predicate IsNew(session: EndpointSession, i: Instrument, limit: nat)
    reads session, session.reader, session.writer
  {
    && session.Valid() && NormalizeResponseLimit(limit) == Ok(session.maximumBytes)
    && session.buffer == [] && session.deferredErr == None && !session.needsIdleProbe
    && session.reader.script == i.input && session.reader.calls == 0
    && session.writer.script == i.output && session.writer.calls == 0
  }

  ghost predicate IsFreshSession(session: EndpointSession?, i: Instrument, limit: nat)
    reads if session == null then {} else {session, session.reader, session.writer}
  {
    session != null && IsNew(session, i, limit)
  }

  /** `newEndpointSession`. */
  method NewSession(i: Instrument, limit: nat) returns (session: EndpointSession)
    requires NormalizeResponseLimit(limit).Ok?
    ensures fresh(session) && fresh(session.reader) && fresh(session.writer) && IsNew(session, i, limit)
  {
    var reader := new BulkReader(i.input);
    var writer := new BulkWriter(i.output);
    session := new EndpointSession(reader, writer, limit);
  }

  /** The wire part of the proof of identity: draining, then the query. */
  method AskIdentity(session: EndpointSession, ghost i: Instrument, ghost limit: nat) returns (reply: Option<Text>)
    requires IsNew(session, i, limit)
    modifies session, session.reader, session.writer
    ensures reply == IdentityReply(i, session.maximumBytes)
  {
    var report, drainErr := session.DrainPending();
    if drainErr.Some? {
      return None;
    }
    IdentityQueryIsSent();
    var response := session.Exchange(IDENTITY_QUERY);
    return if response.Ok? then Some(response.value) else None;
  }

  /** `openUSBResources`, behind the first look at the context. A failure cleans
      up; what could not be closed is returned with it. */
  method OpenResources(d: Discovery, limit: nat) returns (resources: Resources, ok: bool)
    ensures fresh(resources) && resources.Valid() && resources.serial == d.serial
    ensures ok ==>
              && resources.device && resources.release && resources.usbContext && true !in resources.extraDevices
              && IsFreshSession(resources.session, d.instrument, limit)
              && fresh(resources.session) && fresh(resources.session.reader) && fresh(resources.session.writer)
    ensures ok ==> d.failure.None? && d.found > 0
    ensures Succeeds(d, limit) ==> ok
    ensures !ok ==> resources.session == null && ((forall k :: d.closes(k)) ==> resources.Spent())
  {
    resources := new Resources(d.serial, d.closes);
    ok := false;
    var errs;
    if d.failure == Some(Enumeration) || d.failure == Some(Selection) || d.found == 0 {
      resources.Adopt(d.found, false);
      errs := resources.Close(d.ended);
      return;
    }
    resources.Adopt(d.found - 1, true);
    errs := resources.CloseExtraDevices();
    if errs != [] || d.failure == Some(Configuration) || d.failure == Some(Claiming) {
      errs := resources.Close(d.ended);
      return;
    }
    resources.Claim();
    if d.failure.Some? || NormalizeResponseLimit(limit).Err? {
      // Only the endpoints and their session are left to fail.
      errs := resources.Close(d.ended);
      return;
    }
    resources.session := NewSession(d.instrument, limit);
    ok := true;
  }

  /** Devices are found, nothing fails, and natives close. */
  ghost predicate Succeeds(d: Discovery, limit: nat) {
    d.failure.None? && d.found > 0 && NormalizeResponseLimit(limit).Ok? && forall k :: d.closes(k)
  }

  // ---- The backend -------------------------------------------------------------------------

  datatype BackendError =
    | Untouched
    | SerialMismatch
    | CloseFailed
    | EndedAfterClose
    | OpenFailed
    | Rejected(closed: bool)

  class Backend {
    /** The selected serial; the empty one selects any. */
    var serial: Text
    const expectedModel: Text
    const responseLimit: nat
    const judge: Judge
    var resources: Resources?

    // The surroundings: contexts and discoveries, in order of use.
    const endings: nat -> bool
    const discoveries: nat -> Option<Discovery>
    var checked: nat
    var openings: nat

    /** Every set ever acquired. */
    ghost var owned: seq<Resources>

    /** Whatever is not closed completely is at hand for another attempt. */
    ghost predicate Valid()
      reads this, owned
    {
      && (resources != null ==> resources in owned)
      && (forall k | 0 <= k < |owned| :: owned[k].Valid() && (owned[k] != resources ==> owned[k].Spent()))
    }

    constructor (serial: Text, expectedModel: Text, responseLimit: nat, judge: Judge, endings: nat -> bool,
                 discoveries: nat -> Option<Discovery>)
      ensures Valid() && resources == null && owned == [] && this.serial == serial
      ensures this.expectedModel == expectedModel && this.responseLimit == responseLimit && this.judge == judge
      ensures this.endings == endings && this.discoveries == discoveries && checked == 0 && openings == 0
    {
      this.serial, this.expectedModel, this.responseLimit, this.resources := serial, expectedModel, responseLimit, null;
      this.endings, this.discoveries, this.judge := endings, discoveries, judge;
      checked, openings, owned := 0, 0, [];
    }

    method ContextEnded() returns (ended: bool)
      modifies this`checked
      ensures ended == endings(old(checked)) && checked == old(checked) + 1
    {
      ended := endings(checked);
      checked := checked + 1;
    }

    /** `Close`: the set is let go only when all of it is closed. */
    method Close(ended: bool) returns (ok: bool)
      requires Valid()
      modifies this`resources, resources
      ensures Valid() && (ok <==> resources == null)
      ensures old(resources) == null ==> ok
      ensures !ended && old(resources) != null && (forall k :: old(resources).closes(k)) ==> ok
      ensures resources != null ==> resources == old(resources) && resources.session == null
      ensures !ok && !ended ==> !resources.Spent()
    {
      if resources == null {
        return true;
      }
      var errs := resources.Close(ended);
      if errs == [] {
        resources := null;
      }
      return errs == [];
    }

    /** The precondition of every acquisition: nothing is owned. */
    ghost predicate OwnsNothing()
      reads this, owned
    {
      resources == null && forall k | 0 <= k < |owned| :: owned[k].Spent()
    }

    /** The opener. */
    method Acquire() returns (candidate: Resources?, ok: bool)
      requires Valid() && OwnsNothing()
      modifies this`openings, this`owned
      ensures openings == old(openings) + 1 && (ok ==> candidate != null)
      ensures candidate == null <==> discoveries(old(openings)).None?
      ensures candidate == null ==> owned == old(owned)
      ensures discoveries(old(openings)).Some? && Succeeds(discoveries(old(openings)).value, responseLimit) ==> ok
      ensures candidate != null ==>
                && fresh(candidate) && candidate.Valid() && owned == old(owned) + [candidate]
                && candidate.serial == discoveries(old(openings)).value.serial
                && (!ok ==> candidate.session == null)
      ensures ok ==>
                && IsFreshSession(candidate.session, discoveries(old(openings)).value.instrument, responseLimit)
                && fresh(candidate.session) && fresh(candidate.session.reader) && fresh(candidate.session.writer)
    {
      var d := discoveries(openings);
      openings := openings + 1;
      if d.None? {
        return null, false;
      }
      candidate, ok := OpenResources(d.value, responseLimit);
      owned := owned + [candidate];
    }

    /** `rejectResources`. */
    method Reject(candidate: Resources) returns (err: BackendError)
      requires resources == null && candidate in owned && candidate.Valid()
      requires forall k | 0 <= k < |owned| :: owned[k].Valid() && (owned[k] != candidate ==> owned[k].Spent())
      modifies this`checked, this`resources, candidate
      ensures Valid() && err == Rejected(resources == null)
      ensures resources != null ==> resources == candidate && resources.session == null
    {
      var ended := ContextEnded();
      var errs := candidate.Close(ended);
      if errs != [] {
        resources := candidate;
      } else {
        resources := null;
      }
      return Rejected(errs == []);
    }

    /** The proof of identity, before anything is published: draining, then the
        identity query over the candidate's own endpoints. A candidate with a
        right descriptor serial is accepted if and only if the context is live and
        the instrument says over the wire that it is the one expected. */
    method Identify(candidate: Resources, ghost i: Instrument) returns (ok: bool)
      requires IsFreshSession(candidate.session, i, responseLimit)
      modifies this`checked, candidate.session, candidate.session.reader, candidate.session.writer
      ensures ok <==>
                && !endings(old(checked)) && IsSelected(candidate.serial)
                && Identifies(judge, i, candidate.session.maximumBytes, candidate.serial, expectedModel)
    {
      var ended := ContextEnded();
      if ended || candidate.serial == [] || (serial != [] && candidate.serial != serial) {
        return false;
      }
      var reply := AskIdentity(candidate.session, i, responseLimit);
      if reply.None? {
        return false;
      }
      ok := judge(reply.value, candidate.serial, expectedModel);
    }

    predicate IsSelected(found: Text)
      reads this
    {
      found != [] && (serial == [] || found == serial)
    }

    /** The instrument that the `k`-th discovery finds proves its identity. */
    ghost predicate Proves(k: nat)
      reads this
    {
      var d := discoveries(k);
      && d.Some? && IsSelected(d.value.serial) && NormalizeResponseLimit(responseLimit).Ok?
      && Identifies(judge, d.value.instrument, NormalizeResponseLimit(responseLimit).value, d.value.serial,
           expectedModel)
    }

    /** The next discovery succeeds, and the instrument it finds is the right one
        and says so. */
    ghost predicate FindsInstrument()
      reads this
    {
      Proves(openings) && Succeeds(discoveries(openings).value, responseLimit)
    }

    ghost predicate ContextLasts()
      reads this
    {
      forall k :: !endings(k)
    }

    ghost predicate PreviousCloses()
      reads this
    {
      resources != null ==> forall k :: resources.closes(k)
    }

    /** The second half of `replaceAndValidate`: nothing is owned when a new set
        is acquired. */
    method AcquireAndValidate() returns (err: Option<BackendError>)
      requires Valid() && OwnsNothing()
      modifies this
      ensures Valid() && serial == old(serial)
      ensures old(owned) <= owned && |owned| <= |old(owned)| + 1
      ensures |owned| > |old(owned)| ==> fresh(owned[|old(owned)|])
      ensures forall k | 0 <= k < |old(owned)| :: owned[k].Spent()
      ensures err.None? ==>
                && |owned| > |old(owned)| && resources == owned[|old(owned)|] && resources.session != null
                && IsSelected(resources.serial) && old(Proves(openings))
                && resources.serial == discoveries(old(openings)).value.serial
      ensures err.Some? ==> err.value != Untouched && (resources == null || resources.session == null)
      ensures old(FindsInstrument()) && !endings(old(checked)) ==> err.None?
    {
      var candidate, acquired := Acquire();
      if !acquired {
        if candidate != null {
          resources := candidate;
        }
        return Some(OpenFailed);
      }
      var identified := Identify(candidate, discoveries(old(openings)).value.instrument);
      if !identified {
        var rejected := Reject(candidate);
        return Some(rejected);
      }
      resources := candidate;
      return None;
    }

    /** `replaceAndValidate`. */
    method ReplaceAndValidate() returns (err: Option<BackendError>)
      requires Valid()
      modifies this, resources
      ensures Valid() && serial == old(serial)
      ensures old(owned) <= owned && |owned| <= |old(owned)| + 1
      ensures |owned| > |old(owned)| ==>
                fresh(owned[|old(owned)|]) && forall k | 0 <= k < |old(owned)| :: owned[k].Spent()
      ensures err.None? ==>
                && |owned| > |old(owned)| && resources == owned[|old(owned)|] && resources.session != null
                && IsSelected(resources.serial) && old(Proves(openings))
                && resources.serial == discoveries(old(openings)).value.serial
      ensures old(FindsInstrument() && ContextLasts() && PreviousCloses()) ==> err.None?
      ensures err == Some(Untouched) ==> resources == old(resources) && owned == old(owned)
      ensures err.Some? && err != Some(Untouched) ==> resources == null || resources.session == null
    {
      var ended := ContextEnded();
      if ended {
        return Some(Untouched);
      }
      ended := ContextEnded();
      var closed := Close(ended);
      if !closed {
        return Some(CloseFailed);
      }
      ended := ContextEnded();
      if ended {
        return Some(EndedAfterClose);
      }
      err := AcquireAndValidate();
    }

    /** `ReopenAndValidate`: recovery is for the serial the backend was opened
        with, and no other. */
    method ReopenAndValidate(expected: Text) returns (err: Option<BackendError>)
      requires Valid()
      modifies this, resources
      ensures Valid() && serial == old(serial)
      ensures expected == [] || expected != serial ==>
                err == Some(SerialMismatch) && unchanged(this) && (resources != null ==> unchanged(resources))
      ensures err.None? ==> resources != null && resources.session != null && resources.serial == expected == serial
      ensures err.None? ==> old(Proves(openings))
      ensures |owned| > |old(owned)| ==>
                old(owned) <= owned && forall k | 0 <= k < |old(owned)| :: owned[k].Spent()
    {
      if expected == [] || expected != serial {
        return Some(SerialMismatch);
      }
      err := ReplaceAndValidate();
    }
  }

  datatype Opening = Opened(backend: Backend) | Failed | FailedRetaining(backend: Backend)

  /** `open`: a backend with a proved identity, pinned to its serial; or an error,
      which keeps the backend if and only if something is left to be closed. */
  method Open(serial: Text, expectedModel: Text, responseLimit: nat, judge: Judge, endings: nat -> bool,
              discoveries: nat -> Option<Discovery>)
    returns (opening: Opening, ghost backend: Backend)
    ensures fresh(backend) && backend.Valid()
    ensures opening.Opened? ==>
              && opening.backend == backend && backend.resources != null && backend.resources.session != null
              && backend.serial == backend.resources.serial != [] && (serial == [] || backend.serial == serial)
              && NormalizeResponseLimit(responseLimit).Ok? && discoveries(0).Some?
              && Identifies(judge, discoveries(0).value.instrument, NormalizeResponseLimit(responseLimit).value,
                            backend.serial, expectedModel)
    ensures opening.Failed? ==> backend.OwnsNothing()
    ensures opening.FailedRetaining? ==>
              opening.backend == backend && backend.resources != null && !backend.resources.Spent()
  {
    var b := new Backend(serial, expectedModel, responseLimit, judge, endings, discoveries);
    backend := b;
    if NormalizeResponseLimit(responseLimit).Err? {
      return Failed, b;
    }
    var err := b.ReplaceAndValidate();
    if err.Some? {
      // The cleanup is not subject to the request's cancellation.
      var closed := b.Close(false);
      if closed {
        return Failed, b;
      }
      return FailedRetaining(b), b;
    }
    b.serial := b.resources.serial;
    return Opened(b), b;
  }
}
