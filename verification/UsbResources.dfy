/** `usbResources`: the native handles of one opened instrument, closed in order,
    each once, and kept for another attempt when closing fails. */
module UsbResources {
  import opened EndpointSessions
  import opened UsbIdentity

  /** The handles of one set: the libusb context, the selected device, and the
      other devices that enumeration opened. */
  datatype Handle = LibusbContext | SelectedDevice | PeerDevice(index: nat)

  /** What happened to the natives, failed attempts aside. */
  datatype NativeEvent = InterfaceReleased | Closed(handle: Handle)

  /** What was ever acquired, besides the context. */
  datatype Acquired = Acquired(peers: nat, device: bool, claimed: bool)

  datatype CloseError =
    | ContextEnded
    | DeviceFailed
    | PeerFailed(index: nat)
    | LibusbContextRetained
    | LibusbContextFailed

  /** `e` may happen after `before`: only acquired handles are closed, the device
      after its interface was released, the context after all devices. */
  ghost predicate Legitimate(a: Acquired, before: seq<NativeEvent>, e: NativeEvent) {
    match e
    case InterfaceReleased => a.claimed
    case Closed(SelectedDevice) => a.device && (a.claimed ==> InterfaceReleased in before)
    case Closed(PeerDevice(k)) => k < a.peers
    case Closed(LibusbContext) =>
      && (a.device ==> Closed(SelectedDevice) in before)
      && (forall k: nat | k < a.peers :: Closed(PeerDevice(k)) in before)
  }

  /** Nothing happens twice, and nothing out of order. */
  ghost predicate Lawful(a: Acquired, log: seq<NativeEvent>) {
    log == [] ||
    (var n := |log| - 1; Lawful(a, log[..n]) && log[n] !in log[..n] && Legitimate(a, log[..n], log[n]))
  }

  lemma LawfulAppend(a: Acquired, log: seq<NativeEvent>, e: NativeEvent)
    requires Lawful(a, log) && e !in log && Legitimate(a, log, e)
    ensures Lawful(a, log + [e])
  {
    assert (log + [e])[..|log|] == log;
  }

  /** At any two places of a lawful log stand different events. */
  lemma {:induction false} OnlyOnce(a: Acquired, log: seq<NativeEvent>, i: nat, j: nat)
    requires Lawful(a, log) && i < j < |log|
    ensures log[i] != log[j]
  {
    if j < |log| - 1 {
      OnlyOnce(a, log[..|log| - 1], i, j);
    }
  }

  /** The device's close comes after its interface's release, the context's after
      every device's. */
  lemma {:induction false} ClosedInOrder(a: Acquired, log: seq<NativeEvent>, i: nat)
    requires Lawful(a, log) && i < |log|
    ensures Legitimate(a, log[..i], log[i])
  {
    if i < |log| - 1 {
      ClosedInOrder(a, log[..|log| - 1], i);
      assert log[..|log| - 1][..i] == log[..i];
    }
  }

  function CountOpen(devices: seq<bool>): nat {
    if devices == [] then 0
    else CountOpen(devices[..|devices| - 1]) + if devices[|devices| - 1] then 1 else 0
  }

  lemma CountNext(devices: seq<bool>, index: nat)
    requires index < |devices|
    ensures CountOpen(devices[..index + 1]) == CountOpen(devices[..index]) + if devices[index] then 1 else 0
  {
    assert devices[..index + 1][..index] == devices[..index];
  }

  /** Every open device was attempted once, in order, from attempt `first` on, and
      is open afterwards if and only if it was and its own attempt failed. */
  predicate PeersTried(before: seq<bool>, after: seq<bool>, closes: nat -> bool, first: nat) {
    |after| == |before| &&
    (before == [] ||
     (var n := |before| - 1;
      && PeersTried(before[..n], after[..n], closes, first)
      && (after[n] <==> before[n] && !closes(first + CountOpen(before[..n])))))
  }

  lemma PeerTried(before: seq<bool>, open: bool, after: seq<bool>, still: bool, closes: nat -> bool, first: nat)
    requires PeersTried(before, after, closes, first)
    requires still <==> open && !closes(first + CountOpen(before))
    ensures PeersTried(before + [open], after + [still], closes, first)
  {
    assert (before + [open])[..|before|] == before && (after + [still])[..|after|] == after;
  }

  /** The peers before `index` had their turn, those behind it not yet. */
  ghost predicate TriedUpTo(before: seq<bool>, now: seq<bool>, closes: nat -> bool, first: nat, index: nat,
                            attempts: nat, failing: bool)
  {
    && index <= |now| == |before| && now[index..] == before[index..]
    && PeersTried(before[..index], now[..index], closes, first)
    && attempts == first + CountOpen(before[..index])
    && (failing <==> true in now[..index])
  }

  lemma TriedOneMore(before: seq<bool>, was: seq<bool>, now: seq<bool>, closes: nat -> bool, first: nat, index: nat,
                     tried: nat, attempts: nat, failing: bool)
    requires TriedUpTo(before, was, closes, first, index, tried, failing) && index < |was|
    requires now == was[index := was[index] && !closes(tried)]
    requires attempts == tried + if was[index] then 1 else 0
    ensures TriedUpTo(before, now, closes, first, index + 1, attempts, failing || now[index])
  {
    CountNext(before, index);
    HeadOfTail(before, was, index);
    OnePlaceChanged(before, was, now, index);
    PeerTried(before[..index], before[index], was[..index], now[index], closes, first);
  }

  lemma TriedAll(before: seq<bool>, now: seq<bool>, closes: nat -> bool, first: nat, attempts: nat, failing: bool)
    requires TriedUpTo(before, now, closes, first, |now|, attempts, failing)
    ensures PeersTried(before, now, closes, first) && attempts == first + CountOpen(before)
    ensures failing <==> true in now
    ensures (forall k | k >= first :: closes(k)) ==> !failing
  {
    assert before[..|now|] == before && now[..|now|] == now;
    if forall k | k >= first :: closes(k) {
      NoneFails(before, now, closes, first);
    }
  }

  lemma HeadOfTail(before: seq<bool>, was: seq<bool>, index: nat)
    requires index < |was| == |before| && was[index..] == before[index..]
    ensures was[index] == before[index]
  {
    assert was[index..][0] == before[index..][0];
  }

  lemma OnePlaceChanged(before: seq<bool>, was: seq<bool>, now: seq<bool>, index: nat)
    requires index < |now| == |was| == |before| && was[index..] == before[index..]
    requires now == was[index := now[index]]
    ensures now[index + 1..] == before[index + 1..] && now[..index + 1] == was[..index] + [now[index]]
    ensures before[..index + 1] == before[..index] + [before[index]]
  {
    assert now[index + 1..] == was[index..][1..] == before[index..][1..] == before[index + 1..];
  }

  lemma {:induction false} NoneFails(before: seq<bool>, after: seq<bool>, closes: nat -> bool, first: nat)
    requires PeersTried(before, after, closes, first) && forall k | k >= first :: closes(k)
    ensures true !in after
  {
    if before != [] {
      NoneFails(before[..|before| - 1], after[..|before| - 1], closes, first);
    }
  }

  /** Peer by peer. */
  lemma {:induction false} EachPeerTried(before: seq<bool>, after: seq<bool>, closes: nat -> bool, first: nat, k: nat)
    requires PeersTried(before, after, closes, first) && k < |before|
    ensures |after| == |before| && (after[k] <==> before[k] && !closes(first + CountOpen(before[..k])))
  {
    if k < |before| - 1 {
      EachPeerTried(before[..|before| - 1], after[..|before| - 1], closes, first, k);
      assert before[..|before| - 1][..k] == before[..k];
    }
  }

  class Resources {
    const serial: Text
    var usbContext: bool
    var device: bool
    var extraDevices: seq<bool>
    var release: bool
    var session: EndpointSession?

    /** Whether each native close succeeds, in order of attempts. */
    const closes: nat -> bool
    var attempts: nat

    ghost var acquired: Acquired
    ghost var log: seq<NativeEvent>

    /** The fields hold exactly the handles that were acquired and are not closed
        yet; so far all went by the rules. */
    ghost predicate Valid()
      reads this
    {
      && (usbContext <==> Closed(LibusbContext) !in log)
      && (device <==> acquired.device && Closed(SelectedDevice) !in log)
      && |extraDevices| == acquired.peers
      && (forall k: nat | k < acquired.peers :: extraDevices[k] <==> Closed(PeerDevice(k)) !in log)
      && (release <==> acquired.claimed && InterfaceReleased !in log)
      && Lawful(acquired, log)
    }

    /** Nothing is owned any more. */
    ghost predicate Spent()
      reads this
    {
      Valid() && !usbContext && !device && !release && true !in extraDevices
    }

    /** A new libusb context. */
    constructor (serial: Text, closes: nat -> bool)
      ensures Valid() && session == null && log == [] && acquired == Acquired(0, false, false)
      ensures this.serial == serial && this.closes == closes && usbContext
    {
      this.serial, this.closes := serial, closes;
      usbContext, device, extraDevices, release, session, attempts := true, false, [], false, null, 0;
      acquired, log := Acquired(0, false, false), [];
    }

    /** Enumeration opened devices, one of which may be selected. */
    method Adopt(peers: nat, selected: bool)
      requires Valid() && log == [] && acquired == Acquired(0, false, false)
      modifies this`device, this`extraDevices, this`acquired
      ensures Valid() && acquired == Acquired(peers, selected, false)
    {
      extraDevices := seq(peers, _ => true);
      device := selected;
      acquired := Acquired(peers, selected, false);
    }

    /** The interface of the selected device was claimed. */
    method Claim()
      requires Valid() && device && !acquired.claimed
      modifies this`release, this`acquired
      ensures Valid() && acquired == old(acquired).(claimed := true) && release
    {
      ClaimingIsLawful(acquired, log);
      release := true;
      acquired := acquired.(claimed := true);
    }

    method CloseNative() returns (ok: bool)
      modifies this`attempts
      ensures ok == closes(old(attempts)) && attempts == old(attempts) + 1
    {
      ok := closes(attempts);
      attempts := attempts + 1;
    }

    /** `hasOpenExtraDevice`. */
    method HasOpenExtraDevice() returns (open: bool)
      ensures open <==> true in extraDevices
    {
      for k := 0 to |extraDevices|
        invariant true !in extraDevices[..k]
      {
        if extraDevices[k] {
          return true;
        }
      }
      return false;
    }

    /** One attempt on one open peer. */
    method ClosePeer(index: nat) returns (ok: bool)
      requires Valid() && index < |extraDevices| && extraDevices[index]
      modifies this`extraDevices, this`attempts, this`log
      ensures Valid() && old(log) <= log
      ensures extraDevices == old(extraDevices)[index := !ok]
      ensures ok == closes(old(attempts)) && attempts == old(attempts) + 1
      ensures Closed(LibusbContext) in log <==> Closed(LibusbContext) in old(log)
    {
      ok := CloseNative();
      if ok {
        LawfulAppend(acquired, log, Closed(PeerDevice(index)));
        log := log + [Closed(PeerDevice(index))];
        extraDevices := extraDevices[index := false];
      }
    }

    /** The turn of one peer: nothing to do if it is closed. */
    method TryPeer(index: nat, ghost before: seq<bool>, ghost first: nat, ghost failing: bool)
      returns (errs: seq<CloseError>)
      requires Valid() && index < |extraDevices|
      requires TriedUpTo(before, extraDevices, closes, first, index, attempts, failing)
      modifies this`extraDevices, this`attempts, this`log
      ensures Valid() && old(log) <= log && |extraDevices| == |old(extraDevices)|
      ensures TriedUpTo(before, extraDevices, closes, first, index + 1, attempts, failing || errs != [])
      ensures Closed(LibusbContext) in log <==> Closed(LibusbContext) in old(log)
    {
      ghost var was, tried := extraDevices, attempts;
      errs := [];
      if extraDevices[index] {
        var ok := ClosePeer(index);
        if !ok {
          errs := [PeerFailed(index)];
        }
      }
      TriedOneMore(before, was, extraDevices, closes, first, index, tried, attempts, failing);
    }

    /** `closeExtraDevices`: every peer still open is attempted once, failures
        stay for a retry. */
    method CloseExtraDevices() returns (errs: seq<CloseError>)
      requires Valid()
      modifies this`extraDevices, this`attempts, this`log
      ensures Valid() && old(log) <= log
      ensures errs == [] <==> true !in extraDevices
      ensures Closed(LibusbContext) in log <==> Closed(LibusbContext) in old(log)
      ensures attempts == old(attempts) + CountOpen(old(extraDevices))
      ensures PeersTried(old(extraDevices), extraDevices, closes, old(attempts))
      ensures (forall k | k >= old(attempts) :: closes(k)) ==> errs == []
    {
      errs := [];
      for index := 0 to |extraDevices|
        invariant Valid() && old(log) <= log && |extraDevices| == |old(extraDevices)|
        invariant TriedUpTo(old(extraDevices), extraDevices, closes, old(attempts), index, attempts, errs != [])
        invariant Closed(LibusbContext) in log <==> Closed(LibusbContext) in old(log)
      {
        var failed := TryPeer(index, old(extraDevices), old(attempts), errs != []);
        errs := errs + failed;
      }
      TriedAll(old(extraDevices), extraDevices, closes, old(attempts), attempts, errs != []);
    }

    /** The interface first. It cannot fail, and happens once. */
    method ReleaseInterface()
      requires Valid()
      modifies this`release, this`session, this`log
      ensures Valid() && !release && session == null && old(log) <= log
      ensures Closed(LibusbContext) in log <==> Closed(LibusbContext) in old(log)
    {
      if release {
        LawfulAppend(acquired, log, InterfaceReleased);
        log := log + [InterfaceReleased];
        release := false;
      }
      session := null;
    }

    method CloseDevice() returns (errs: seq<CloseError>)
      requires Valid() && !release
      modifies this`device, this`attempts, this`log
      ensures Valid() && old(log) <= log
      ensures errs == [] <==> !device
      ensures Closed(LibusbContext) in log <==> Closed(LibusbContext) in old(log)
      ensures attempts == old(attempts) + if old(device) then 1 else 0
      ensures device <==> old(device) && !closes(old(attempts))
    {
      if device {
        var ok := CloseNative();
        if !ok {
          return [DeviceFailed];
        }
        LawfulAppend(acquired, log, Closed(SelectedDevice));
        log := log + [Closed(SelectedDevice)];
        device := false;
      }
      return [];
    }

    lemma DevicesAreClosed()
      requires Valid() && !device && true !in extraDevices
      ensures Legitimate(acquired, log, Closed(LibusbContext))
    {
      forall k: nat | k < acquired.peers ensures Closed(PeerDevice(k)) in log {
        assert !extraDevices[k];
      }
    }

    /** The context last, and only once no device is open. */
    method CloseContext() returns (errs: seq<CloseError>)
      requires Valid() && !release
      modifies this`usbContext, this`attempts, this`log
      ensures Valid() && old(log) <= log
      ensures errs == [] <==> !usbContext
      ensures attempts == old(attempts) + if old(usbContext) && !device && true !in extraDevices then 1 else 0
      ensures usbContext <==> old(usbContext) && (device || true in extraDevices || !closes(old(attempts)))
    {
      if !usbContext {
        return [];
      }
      var open := HasOpenExtraDevice();
      if device || open {
        return [LibusbContextRetained];
      }
      DevicesAreClosed();
      var ok := TryContext();
      return if ok then [] else [LibusbContextFailed];
    }

    /** The one attempt on the context. */
    method TryContext() returns (ok: bool)
      requires Valid() && usbContext && Legitimate(acquired, log, Closed(LibusbContext))
      modifies this`usbContext, this`attempts, this`log
      ensures Valid() && old(log) <= log
      ensures ok == closes(old(attempts)) == !usbContext && attempts == old(attempts) + 1
    {
      ok := CloseNative();
      if ok {
        LawfulAppend(acquired, log, Closed(LibusbContext));
        log := log + [Closed(LibusbContext)];
        usbContext := false;
      }
    }

    /** What was attempted from `first` on: the device and then every peer, if
        open, and the context if none of them is left. */
    ghost predicate AllTried(device': bool, peers: seq<bool>, usbContext': bool, first: nat)
      reads this
    {
      var behind := first + (if device' then 1 else 0) + CountOpen(peers);
      var free := usbContext' && !device && true !in extraDevices;
      && (device <==> device' && !closes(first))
      && PeersTried(peers, extraDevices, closes, first + if device' then 1 else 0)
      && attempts == behind + (if free then 1 else 0)
      && (usbContext <==> usbContext' && (!free || !closes(behind)))
    }

    /** The handles, in order, whatever the ones before gave. */
    method CloseHandles() returns (errs: seq<CloseError>)
      requires Valid() && !release
      modifies this`device, this`extraDevices, this`usbContext, this`attempts, this`log
      ensures Valid() && old(log) <= log
      ensures errs == [] <==> !device && true !in extraDevices && !usbContext
      ensures AllTried(old(device), old(extraDevices), old(usbContext), old(attempts))
    {
      errs := CloseDevices();
      var failed := CloseContext();
      errs := errs + failed;
    }

    /** The device and its peers. */
    method CloseDevices() returns (errs: seq<CloseError>)
      requires Valid() && !release
      modifies this`device, this`extraDevices, this`attempts, this`log
      ensures Valid() && old(log) <= log
      ensures errs == [] <==> !device && true !in extraDevices
      ensures device <==> old(device) && !closes(old(attempts))
      ensures PeersTried(old(extraDevices), extraDevices, closes, old(attempts) + if old(device) then 1 else 0)
      ensures attempts == old(attempts) + (if old(device) then 1 else 0) + CountOpen(old(extraDevices))
    {
      errs := CloseDevice();
      var failed := CloseExtraDevices();
      errs := errs + failed;
    }

    lemma OneCallIsEnough(device': bool, peers: seq<bool>, usbContext': bool, first: nat)
      requires AllTried(device', peers, usbContext', first) && forall k | k >= first :: closes(k)
      ensures !device && true !in extraDevices && !usbContext
    {
      NoneFails(peers, extraDevices, closes, first + if device' then 1 else 0);
    }

    /** `Close`: succeeds if and only if nothing is owned afterwards and the
        request's context was live; an ended context is reported, but does not
        keep anything open. A failure stops nothing behind it: the device and then
        every open peer are attempted once, whatever the others gave, and the
        context if none of them is left. Each stays open if and only if its own
        attempt failed. If none fails, one call is enough. */
    method Close(ended: bool) returns (errs: seq<CloseError>)
      requires Valid()
      modifies this
      ensures Valid() && !release && session == null && old(log) <= log && acquired == old(acquired)
      ensures errs == [] <==> !ended && Spent()
      ensures AllTried(old(device), old(extraDevices), old(usbContext), old(attempts))
      ensures (forall k | k >= old(attempts) :: closes(k)) ==> Spent()
    {
      ReleaseInterface();
      errs := if ended then [ContextEnded] else [];
      var failed := CloseHandles();
      errs := errs + failed;
      if forall k | k >= old(attempts) :: closes(k) {
        OneCallIsEnough(old(device), old(extraDevices), old(usbContext), old(attempts));
      }
    }

    /** A context that is closed has no open devices. */
    lemma ContextOutlivesDevices()
      requires Valid()
      ensures !usbContext ==> !device && true !in extraDevices
    {
      if !usbContext {
        var i :| 0 <= i < |log| && log[i] == Closed(LibusbContext);
        ClosedInOrder(acquired, log, i);
        forall k: nat | k < acquired.peers ensures !extraDevices[k] {
          assert Closed(PeerDevice(k)) in log[..i];
        }
      }
    }
  }

  /** Claiming the interface while the device is open breaks no rule. */
  lemma {:induction false} ClaimingIsLawful(a: Acquired, log: seq<NativeEvent>)
    requires Lawful(a, log) && a.device && !a.claimed && Closed(SelectedDevice) !in log
    ensures Lawful(a.(claimed := true), log) && InterfaceReleased !in log
  {
    if log != [] {
      ClaimingIsLawful(a, log[..|log| - 1]);
    }
  }
}
