/**
 The task that talks to the utility server: what it knows of the server, what it still has to send, and
 the gate that keeps commands from sending while a retry is scheduled. Every answer of the server is an input.
 */
module Sep2ConnectionTask {
  import opened ResourceTypes
  import opened Wrappers
  import PollTable
  import ResponseQueue

  datatype ServerDevice = ServerDevice(lfdi: Option<Lfdi>, hasRegistrationLink: bool, hasDerListLink: bool)

  datatype Der = Der(hasSettingsLink: bool, hasStatusLink: bool, hasCapabilityLink: bool)

  datatype Slot = Settings | Status | Capabilities | Readings

  datatype Command =
    | SubscribeToResource(href: Href, kind: ResourceKind, pollRate: Option<nat>)
    | UnsubscribeFromResource(target: Href)
    | SendDevice(slot: Slot, value: int)
    | SendControlResponse(response: ResponseQueue.Response)
    | UpdatePostRates(postRates: PostRates)
    | ResetConnection
    | Wake

  datatype Error = InvalidInput | UnexpectedDevice

  /** An EndDeviceList: the count it states and the items it brings. */
  datatype DeviceList = DeviceList(all: nat, items: seq<ServerDevice>)

  /** The answers a pass gets, `None` or `false` for a failed request, and the time it happens at. */
  datatype Answers = Answers(
    now: int,
    dcap: Option<DeviceCapability>,
    devices: Option<DeviceList>,
    registered: Option<ServerDevice>,
    pin: Option<nat>,
    responses: seq<ResponseQueue.Outcome>,
    ders: Option<seq<Der>>,
    puts: set<Slot>)

  /** What is known of the server. */
  datatype Knowledge = Knowledge(dcap: Option<DeviceCapability>, device: Option<ServerDevice>, der: Option<Der>) {

    /** Each thing known was reached through the one before it. */
    predicate Chained() {
      && (der.Some? ==> device.Some?)
      && (device.Some? ==> dcap.Some?)
      && (dcap.Some? ==> dcap.value.endDeviceListLink.Some?)
    }

    predicate Complete() {
      Chained() && der.Some?
    }
  }

  const NOTHING_KNOWN := Knowledge(None, None, None)

  /**
   One transfer of a slot's value to the server, with the circumstances in which it was made: when, under which
   post rate, and in which epoch of the slot. A new epoch begins when the task forgets when it last sent the slot.
   */
  datatype Sending = Sending(
    slot: Slot, value: int, accepted: bool, knowledge: Knowledge, queued: nat, at: int, rate: nat, epoch: nat)

  /** The values waiting to be sent. */
  datatype Slots = Slots(settings: Option<int>, status: Option<int>, capabilities: Option<int>, readings: Option<int>) {

    function Of(slot: Slot): Option<int> {
      match slot
      case Settings => settings
      case Status => status
      case Capabilities => capabilities
      case Readings => readings
    }

    function With(slot: Slot, value: Option<int>): (r: Slots)
      ensures forall other :: r.Of(other) == if other == slot then value else Of(other)
    {
      match slot
      case Settings => this.(settings := value)
      case Status => this.(status := value)
      case Capabilities => this.(capabilities := value)
      case Readings => this.(readings := value)
    }
  }

  /** What is left to send: a success clears its slot, except that capabilities are kept for the next reset. */
  function Left(slots: Slots, sent: seq<Sending>): Slots {
    if sent == [] then slots else
    var n := |sent| - 1;
    var before := Left(slots, sent[..n]);
    if sent[n].accepted && sent[n].slot != Capabilities then before.With(sent[n].slot, None) else before
  }

  lemma {:induction false} LeftConcat(slots: Slots, a: seq<Sending>, b: seq<Sending>)
    ensures Left(slots, a + b) == Left(Left(slots, a), b)
    decreases |b|
  {
    if b == [] {
      assert a + b == a;
    } else {
      assert (a + b)[..|a| + |b| - 1] == a + b[..|b| - 1];
      LeftConcat(slots, a, b[..|b| - 1]);
    }
  }

  /** A slot is cleared exactly by an accepted transfer of it; nothing else changes. */
  lemma {:induction false} LeftClears(slots: Slots, sent: seq<Sending>, slot: Slot)
    ensures Left(slots, sent).Of(slot) ==
            if slot != Capabilities && exists e <- sent :: e.slot == slot && e.accepted then None else slots.Of(slot)
    decreases |sent|
  {
    if sent != [] {
      var n := |sent| - 1;
      LeftClears(slots, sent[..n], slot);
      assert sent == sent[..n] + [sent[n]];
    }
  }

  const POST_RATE_GENERIC: nat := 300
  const POST_RATE_CAPABILITIES: nat := 86400

  /** The slots after a command, before anything is sent. */
  function Stored(slots: Slots, command: Command): (r: Slots)
    ensures forall slot :: r.Of(slot) == if command.SendDevice? && command.slot == slot then Some(command.value)
                                         else slots.Of(slot)
  {
    if command.SendDevice? then slots.With(command.slot, Some(command.value)) else slots
  }

  /** The times of the last transfers after a command: a reset forgets all of them, changed capabilities theirs. */
  function Remembered(lastSent: map<Slot, int>, slots: Slots, command: Command): (r: map<Slot, int>)
    ensures forall slot :: TimeOf(r, slot) ==
                           if command.ResetConnection?
                              || (command.SendDevice? && slot == command.slot == Capabilities
                                  && slots.capabilities != Some(command.value)) then None
                           else TimeOf(lastSent, slot)
  {
    if command.ResetConnection? then map[]
    else if ChangesCapabilities(slots, command) then lastSent - {Capabilities}
    else lastSent
  }

  predicate ChangesCapabilities(slots: Slots, command: Command) {
    command.SendDevice? && command.slot == Capabilities && slots.capabilities != Some(command.value)
  }

  /** An accepted transfer sets the time of its slot. */
  function Stamped(lastSent: map<Slot, int>, sent: seq<Sending>): map<Slot, int> {
    if sent == [] then lastSent else
    var n := |sent| - 1;
    var before := Stamped(lastSent, sent[..n]);
    if sent[n].accepted then before[sent[n].slot := sent[n].at] else before
  }

  lemma {:induction false} StampedConcat(lastSent: map<Slot, int>, a: seq<Sending>, b: seq<Sending>)
    ensures Stamped(lastSent, a + b) == Stamped(Stamped(lastSent, a), b)
    decreases |b|
  {
    if b == [] {
      assert a + b == a;
    } else {
      assert (a + b)[..|a| + |b| - 1] == a + b[..|b| - 1];
      StampedConcat(lastSent, a, b[..|b| - 1]);
    }
  }

  // Spacing.

  /** The time of the last accepted transfer of a slot in one of its epochs. */
  function LastAccepted(log: seq<Sending>, slot: Slot, epoch: nat): Option<int> {
    if log == [] then None else
    var e := log[|log| - 1];
    if e.accepted && e.slot == slot && e.epoch == epoch then Some(e.at) else LastAccepted(log[..|log| - 1], slot, epoch)
  }

  /** Every transfer was made more than the post rate after the last accepted one of its slot and epoch. */
  ghost predicate Spaced(log: seq<Sending>) {
    log == [] ||
    var e, before := log[|log| - 1], log[..|log| - 1];
    var last := LastAccepted(before, e.slot, e.epoch);
    Spaced(before) && (last.Some? ==> e.at - last.value > e.rate)
  }

  lemma {:induction false} NoneInNewEpoch(log: seq<Sending>, slot: Slot, epoch: nat)
    requires forall e <- log :: e.slot == slot ==> e.epoch < epoch
    ensures LastAccepted(log, slot, epoch) == None
  {
    if log != [] {
      assert log[|log| - 1] in log;
      NoneInNewEpoch(log[..|log| - 1], slot, epoch);
    }
  }

  lemma {:induction false} LastAcceptedIsLatest(log: seq<Sending>, i: nat)
    requires Spaced(log) && i < |log| && log[i].accepted
    ensures var last := LastAccepted(log, log[i].slot, log[i].epoch);
            last.Some? && last.value >= log[i].at
  {
    var n := |log| - 1;
    if i < n {
      LastAcceptedIsLatest(log[..n], i);
    }
  }

  lemma {:induction false} SpacedPrefix(log: seq<Sending>, n: nat)
    requires Spaced(log) && n <= |log|
    ensures Spaced(log[..n])
  {
    if n < |log| {
      SpacedPrefix(log[..|log| - 1], n);
      assert log[..|log| - 1][..n] == log[..n];
    } else {
      assert log[..n] == log;
    }
  }

  /**
   Within one epoch of a slot, after an accepted transfer no other is even attempted before its post
   rate has elapsed.
   */
  lemma TransfersKeepTheirRate(log: seq<Sending>, i: nat, j: nat)
    requires Spaced(log) && i < j < |log|
    requires log[i].accepted && log[i].slot == log[j].slot && log[i].epoch == log[j].epoch
    ensures log[j].at - log[i].at > log[j].rate
  {
    SpacedPrefix(log, j + 1);
    SpacedPrefix(log, j);
    assert log[..j + 1][..j] == log[..j];
    LastAcceptedIsLatest(log[..j], i);
  }

  /** The current epoch of a slot after so many resets and changes of capabilities. */
  function EpochOf(slot: Slot, resets: nat, changes: nat): nat {
    resets + if slot == Capabilities then changes else 0
  }

  function TimeOf(lastSent: map<Slot, int>, slot: Slot): Option<int> {
    if slot in lastSent then Some(lastSent[slot]) else None
  }

  /** The remembered times are those of the last accepted transfers, and all transfers kept their rate. */
  ghost predicate Timed(log: seq<Sending>, lastSent: map<Slot, int>, resets: nat, changes: nat) {
    && Spaced(log)
    && (forall e <- log :: e.epoch <= EpochOf(e.slot, resets, changes))
    && (forall slot :: TimeOf(lastSent, slot) == LastAccepted(log, slot, EpochOf(slot, resets, changes)))
  }

  lemma TimedAfterSending(log: seq<Sending>, lastSent: map<Slot, int>, resets: nat, changes: nat, e: Sending)
    requires Timed(log, lastSent, resets, changes)
    requires e.epoch == EpochOf(e.slot, resets, changes)
    requires e.slot in lastSent ==> e.at - lastSent[e.slot] > e.rate
    ensures Timed(log + [e], Stamped(lastSent, [e]), resets, changes)
  {
    assert (log + [e])[..|log|] == log && [e][..0] == [];
    assert TimeOf(lastSent, e.slot) == LastAccepted(log, e.slot, e.epoch);
    forall slot
      ensures TimeOf(Stamped(lastSent, [e]), slot) == LastAccepted(log + [e], slot, EpochOf(slot, resets, changes))
    {
      assert TimeOf(lastSent, slot) == LastAccepted(log, slot, EpochOf(slot, resets, changes));
    }
  }

  lemma TimedAfterReset(log: seq<Sending>, lastSent: map<Slot, int>, resets: nat, changes: nat)
    requires Timed(log, lastSent, resets, changes)
    ensures Timed(log, map[], resets + 1, changes)
  {
    var later, none: map<Slot, int> := resets + 1, map[];
    forall slot ensures TimeOf(none, slot) == LastAccepted(log, slot, EpochOf(slot, later, changes)) {
      NoneInNewEpoch(log, slot, EpochOf(slot, later, changes));
    }
  }

  lemma TimedAfterChange(log: seq<Sending>, lastSent: map<Slot, int>, resets: nat, changes: nat)
    requires Timed(log, lastSent, resets, changes)
    ensures Timed(log, lastSent - {Capabilities}, resets, changes + 1)
  {
    NoneInNewEpoch(log, Capabilities, EpochOf(Capabilities, resets, changes + 1));
    var others := lastSent - {Capabilities};
    forall slot
      ensures TimeOf(others, slot) == LastAccepted(log, slot, EpochOf(slot, resets, changes + 1))
    {
      assert TimeOf(lastSent, slot) == LastAccepted(log, slot, EpochOf(slot, resets, changes));
    }
  }

  lemma OneSent(slots: Slots, lastSent: map<Slot, int>, e: Sending)
    ensures Left(slots, [e]) == if e.accepted && e.slot != Capabilities then slots.With(e.slot, None) else slots
    ensures Stamped(lastSent, [e]) == if e.accepted then lastSent[e.slot := e.at] else lastSent
  {
    assert [e][..0] == [];
  }

  /** The time, the post rates and the epochs of one pass. */
  datatype Circumstances = Circumstances(now: int, der: nat, mup: nat, resets: nat, changes: nat)

  /**
   The transfer carried the value that was waiting in its slot to the link the DER has for it, with everything
   known and no response queued, in these circumstances.
   */
  ghost predicate Carries(e: Sending, slots: Slots, c: Circumstances) {
    && e.knowledge.Complete() && e.queued == 0
    && e.at == c.now && e.epoch == EpochOf(e.slot, c.resets, c.changes)
    && var der := e.knowledge.der.value;
    match e.slot
    case Settings => slots.settings == Some(e.value) && der.hasSettingsLink && e.rate == c.der
    case Status => slots.status == Some(e.value) && der.hasStatusLink && e.rate == c.der
    case Capabilities => slots.capabilities == Some(e.value) && der.hasCapabilityLink && e.rate == 86400
    case Readings => slots.readings == Some(e.value) && e.rate == c.mup
  }

  lemma CarriesOf(e: Sending, slots: Slots, other: Slots, c: Circumstances)
    requires Carries(e, slots, c) && other.Of(e.slot) == slots.Of(e.slot)
    ensures Carries(e, other, c)
  {
  }

  /** From the slots and times before to those after, some transfers were made in one pass. */
  ghost predicate Transferred(
    before: Slots, lastBefore: map<Slot, int>, after: Slots, lastAfter: map<Slot, int>, sent: seq<Sending>,
    c: Circumstances)
  {
    && after == Left(before, sent) && lastAfter == Stamped(lastBefore, sent)
    && (forall e <- sent :: Carries(e, before, c))
  }

  lemma Appended(log: seq<Sending>, a: seq<Sending>, b: seq<Sending>)
    ensures log + a + b == log + (a + b)
  {
  }

  lemma TransferredConcat(
    before: Slots, lastBefore: map<Slot, int>, mid: Slots, lastMid: map<Slot, int>,
    after: Slots, lastAfter: map<Slot, int>, a: seq<Sending>, b: seq<Sending>, c: Circumstances)
    requires Transferred(before, lastBefore, mid, lastMid, a, c)
    requires Transferred(mid, lastMid, after, lastAfter, b, c)
    ensures Transferred(before, lastBefore, after, lastAfter, a + b, c)
  {
    LeftConcat(before, a, b);
    StampedConcat(lastBefore, a, b);
    forall e | e in b ensures Carries(e, before, c) {
      assert Carries(e, mid, c);
      LeftClears(before, a, e.slot);
      CarriesOf(e, mid, before, c);
    }
  }

  // What a pass learns.

  /** The server's list has our device alone, or is empty and the device was registered there. */
  ghost predicate Finds(a: Answers, ourLfdi: Lfdi, found: ServerDevice) {
    a.devices.Some? &&
    var list := a.devices.value;
    || (list.all == 0 && a.registered == Some(found))
    || (list.all == 1 && list.items != [] && list.items[0] == found && found.lfdi == Some(ourLfdi))
  }

  /** The server's list does not bring the device it counts, or brings another device. */
  ghost predicate Refuses(a: Answers, ourLfdi: Lfdi, e: Error) {
    a.devices.Some? &&
    var list := a.devices.value;
    || (e == InvalidInput && list.all == 1 && list.items == [])
    || (e == UnexpectedDevice && list.all == 1 && list.items != [] && list.items[0].lfdi != Some(ourLfdi))
    || (e == UnexpectedDevice && list.all > 1)
  }

  predicate IsOnly(ders: Option<seq<Der>>, found: Der) {
    ders.Some? && |ders.value| == 1 && ders.value[0] == found
  }

  /**
   What was known stays known. An entry point is learnt if it has an EndDeviceList, then the device, and then, when
   it is asked for, the DER: the only one in the list that the device links to.
   */
  ghost predicate Learned(before: Knowledge, after: Knowledge, a: Answers, ourLfdi: Lfdi, asksForDer: bool) {
    && (before.dcap.Some? ==> after.dcap == before.dcap)
    && (before.dcap.None? ==>
          after.dcap == if a.dcap.Some? && a.dcap.value.endDeviceListLink.Some? then a.dcap else None)
    && (before.device.Some? ==> after.device == before.device)
    && (before.device.None? ==>
          forall found :: after.device == Some(found) <==> after.dcap.Some? && Finds(a, ourLfdi, found))
    && (before.der.Some? || !asksForDer ==> after.der == before.der)
    && (before.der.None? && asksForDer ==>
          forall found :: after.der == Some(found)
                          <==> after.device.Some? && after.device.value.hasDerListLink && IsOnly(a.ders, found))
  }

  class Task {
    const ourLfdi: Lfdi
    const expectedPin: Option<nat>
    const polls: PollTable.Connection
    const responses: ResponseQueue.Queue

    var dcap: Option<DeviceCapability>
    var device: Option<ServerDevice>
    var registration: Option<nat>
    var der: Option<Der>
    var slots: Slots
    var lastSent: map<Slot, int>
    var postRateDer: nat
    var postRateMup: nat
    var retryRequested: bool
    /** Whether a retry task is running. */
    var retrying: bool

    /**
     Whether the last attempted pass did not finish; every transfer so far; whether this device was
     registered by us.
     */
    ghost var unfinished: bool
    ghost var log: seq<Sending>
    ghost var registeredHere: bool
    /** How often the connection was reset, and how often the capabilities changed. */
    ghost var resets: nat
    ghost var changes: nat

    constructor (ourLfdi: Lfdi, expectedPin: Option<nat>, defaultRate: nat)
      ensures Valid() && !retrying && log == []
      ensures Known() == NOTHING_KNOWN && slots == Slots(None, None, None, None) && lastSent == map[]
      ensures postRateDer == postRateMup == 300
    {
      this.ourLfdi, this.expectedPin := ourLfdi, expectedPin;
      polls := new PollTable.Connection(defaultRate);
      responses := new ResponseQueue.Queue();
      dcap, device, registration, der := None, None, None, None;
      slots, lastSent := Slots(None, None, None, None), map[];
      postRateDer, postRateMup := POST_RATE_GENERIC, POST_RATE_GENERIC;
      retryRequested, retrying := false, false;
      unfinished, log, registeredHere, resets, changes := false, [], false, 0, 0;
    }

    function Known(): Knowledge
      reads `dcap, `device, `der
    {
      Knowledge(dcap, device, der)
    }

    /** Holds throughout a turn. */
    ghost predicate Consistent()
      reads `dcap, `device, `der, `registration, `registeredHere, `log, `lastSent, `resets, `changes, responses
    {
      && Known().Chained()
      && (registration.Some? ==> device.Some?)
      && (device.Some? ==> device.value.lfdi == Some(ourLfdi) || registeredHere)
      && |responses.queue| < ResponseQueue.MAX_RESPONSE_QUEUE_SIZE
      && (forall e <- log :: e.knowledge.Complete() && e.queued == 0)
      && Timed(log, lastSent, resets, changes)
    }

    /** Holds whenever the task waits for a command: a retry is scheduled exactly after an unfinished pass. */
    ghost predicate Valid()
      reads this, responses
    {
      Consistent() && retrying == retryRequested == unfinished
    }

    ghost function Now(a: Answers): Circumstances
      reads `postRateDer, `postRateMup, `resets, `changes
    {
      Circumstances(a.now, postRateDer, postRateMup, resets, changes)
    }

    function RateOf(slot: Slot): nat
      reads `postRateDer, `postRateMup
    {
      match slot
      case Settings => postRateDer
      case Status => postRateDer
      case Capabilities => POST_RATE_CAPABILITIES
      case Readings => postRateMup
    }

    predicate HasLink(slot: Slot)
      reads `der
    {
      der.Some? &&
      match slot
      case Settings => der.value.hasSettingsLink
      case Status => der.value.hasStatusLink
      case Capabilities => der.value.hasCapabilityLink
      case Readings => true
    }

    /** The slot holds a value that may be sent now. */
    predicate Waiting(slot: Slot, now: int)
      reads `slots, `der, `lastSent, `postRateDer, `postRateMup
    {
      slots.Of(slot).Some? && HasLink(slot) && (slot !in lastSent || now - lastSent[slot] > RateOf(slot))
    }

    method SendSlot(slot: Slot, a: Answers) returns (ok: bool, ghost sent: seq<Sending>)
      requires Known().Complete() && responses.queue == [] && Timed(log, lastSent, resets, changes)
      modifies `slots, `lastSent, `log
      ensures Timed(log, lastSent, resets, changes) && log == old(log) + sent
      ensures Transferred(old(slots), old(lastSent), slots, lastSent, sent, Now(a))
      ensures ok == !Waiting(slot, a.now)
      ensures forall other :: other != slot ==> Waiting(other, a.now) == old(Waiting(other, a.now))
    {
      sent := [];
      if !Waiting(slot, a.now) { return true, []; }
      ghost var epoch := EpochOf(slot, resets, changes);
      ghost var e := Sending(slot, slots.Of(slot).value, slot in a.puts, Known(), |responses.queue|, a.now,
                             RateOf(slot), epoch);
      TimedAfterSending(log, lastSent, resets, changes, e);
      OneSent(slots, lastSent, e);
      sent := [e];
      log := log + sent;
      if slot !in a.puts { return false, sent; }
      if slot != Capabilities { slots := slots.With(slot, None); }
      lastSent := lastSent[slot := a.now];
      return true, sent;
    }

    /** Two transfers, the second only if the first leaves nothing to retry. */
    method SendTwo(first: Slot, second: Slot, a: Answers) returns (ok: bool, ghost sent: seq<Sending>)
      requires first != second
      requires Known().Complete() && responses.queue == [] && Timed(log, lastSent, resets, changes)
      modifies `slots, `lastSent, `log
      ensures Timed(log, lastSent, resets, changes) && log == old(log) + sent
      ensures Transferred(old(slots), old(lastSent), slots, lastSent, sent, Now(a))
      ensures ok <==> !Waiting(first, a.now) && !Waiting(second, a.now)
      ensures forall other :: other != first && other != second ==> Waiting(other, a.now) == old(Waiting(other, a.now))
    {
      ok, sent := SendSlot(first, a);
      if !ok { return; }
      ghost var start, more, mid, lastMid := old(log), [], slots, lastSent;
      ok, more := SendSlot(second, a);
      Appended(start, sent, more);
      TransferredConcat(old(slots), old(lastSent), mid, lastMid, slots, lastSent, sent, more, Now(a));
      sent := sent + more;
    }

    /** The four transfers of a pass, stopping at the first that fails. */
    method SendSlots(a: Answers) returns (ok: bool, ghost sent: seq<Sending>)
      requires Known().Complete() && responses.queue == [] && Timed(log, lastSent, resets, changes)
      modifies `slots, `lastSent, `log
      ensures Timed(log, lastSent, resets, changes) && log == old(log) + sent
      ensures Transferred(old(slots), old(lastSent), slots, lastSent, sent, Now(a))
      ensures ok <==> NothingLeft(a.now)
    {
      ok, sent := SendTwo(Settings, Status, a);
      if !ok {
        assert Waiting(Settings, a.now) || Waiting(Status, a.now);
        return;
      }
      ghost var start, more, mid, lastMid := old(log), [], slots, lastSent;
      ok, more := SendTwo(Capabilities, Readings, a);
      Appended(start, sent, more);
      assert !Waiting(Settings, a.now) && !Waiting(Status, a.now);
      TransferredConcat(old(slots), old(lastSent), mid, lastMid, slots, lastSent, sent, more, Now(a));
      sent := sent + more;
    }

    /**
     The server is reached and our device found or registered there, and its PIN is the expected one
     if that is checked now.
     */
    method Connect(a: Answers) returns (r: Result<bool, Error>)
      requires Consistent()
      modifies `dcap, `device, `registration, `registeredHere
      ensures Consistent() && der == old(der)
      ensures r.Ok? ==> (r.value <==> Reached(old(registration)))
      ensures r.Ok? ==> Learned(old(Known()), Known(), a, ourLfdi, false)
      ensures registration == if old(registration).None? && PinWanted() then a.pin else old(registration)
      ensures forall e :: r == Err(e) <==> old(device).None? && dcap.Some? && Refuses(a, ourLfdi, e)
    {
      if dcap.None? { dcap := a.dcap; }
      if dcap.None? { return Ok(false); }
      if dcap.value.endDeviceListLink.None? {
        dcap := None;
        return Ok(false);
      }
      if device.None? {
        var found :- Registered(a, ourLfdi);
        device := found;
        if a.devices.Some? && a.devices.value.all == 0 && device.Some? { registeredHere := true; }
      }
      if device.None? { return Ok(false); }
      if registration.None? && device.value.hasRegistrationLink && expectedPin.Some? {
        if a.pin.None? { return Ok(false); }
        registration := a.pin;
        if expectedPin != registration { return Ok(false); }
      }
      return Ok(true);
    }

    /**
     The PIN was checked now and could not be read or is not the expected one; a PIN once read is
     not checked again.
     */
    predicate PinProblem(before: Option<nat>)
      reads `device, `registration
    {
      before.None? && PinWanted() && registration != expectedPin
    }

    predicate PinWanted()
      reads `device
    {
      device.Some? && device.value.hasRegistrationLink && expectedPin.Some?
    }

    /** What a pass does first: the server is reached, all responses are sent, and the DER is found. */
    method Prepare(a: Answers) returns (r: Result<bool, Error>)
      requires Consistent()
      modifies `dcap, `device, `registration, `registeredHere, `der, responses
      ensures Consistent()
      ensures r.Ok? ==> (r.value <==> AsksForDer(old(registration)) && der.Some?)
      ensures r.Ok? ==> Learned(old(Known()), Known(), a, ourLfdi, AsksForDer(old(registration)))
      ensures registration == if old(registration).None? && PinWanted() then a.pin else old(registration)
      ensures r.Ok? ==> responses.Contents() == if Reached(old(registration))
                                                then ResponseQueue.Sent(old(responses.Contents()), a.responses).0
                                                else old(responses.Contents())
      ensures forall e :: r == Err(e) <==> old(device).None? && dcap.Some? && Refuses(a, ourLfdi, e)
    {
      var connected := Connect(a);
      if connected.Err? { return Err(connected.error); }
      if !connected.value { return Ok(false); }
      ResponseQueue.SentKeepsHistory(responses.Contents(), a.responses);
      ResponseQueue.SentStopsAtFailure(responses.Contents(), a.responses);
      var retry := responses.SendAll(a.responses);
      if retry { return Ok(false); }
      if der.None? { der := DerOf(device.value, a); }
      return Ok(der.Some?);
    }

    /** One attempt to send everything; `Ok(true)` when there is nothing to retry. */
    method Pass(a: Answers) returns (r: Result<bool, Error>, ghost sent: seq<Sending>)
      requires Consistent()
      modifies `dcap, `device, `registration, `registeredHere, `der, `slots, `lastSent, `log, responses
      ensures Consistent()
      ensures log == old(log) + sent
      ensures Transferred(old(slots), old(lastSent), slots, lastSent, sent, Now(a))
      ensures r.Ok? ==> (r.value <==> !PinProblem(old(registration)) && Done(a.now))
      ensures r.Ok? ==> Learned(old(Known()), Known(), a, ourLfdi, AsksForDer(old(registration)))
      ensures registration == if old(registration).None? && PinWanted() then a.pin else old(registration)
      ensures r.Ok? ==> responses.Contents() == if Reached(old(registration))
                                                then ResponseQueue.Sent(old(responses.Contents()), a.responses).0
                                                else old(responses.Contents())
      ensures forall e :: r == Err(e) <==> old(device).None? && dcap.Some? && Refuses(a, ourLfdi, e)
    {
      sent := [];
      r := Prepare(a);
      if r.Err? || !r.value { return; }
      var ok;
      ok, sent := SendSlots(a);
      r := Ok(ok);
    }

    /** The post rates are those of the command, five minutes if it leaves one out. */
    predicate RatesFollow(der: nat, mup: nat, command: Command)
      reads `postRateDer, `postRateMup
    {
      match command
      case UpdatePostRates(rates) =>
        postRateDer == rates.der.UnwrapOr(300) && postRateMup == rates.mirrorUsagePoint.UnwrapOr(300)
      case _ => postRateDer == der && postRateMup == mup
    }

    /** The device is found and its PIN is no problem. */
    predicate Reached(before: Option<nat>)
      reads `device, `registration
    {
      device.Some? && !PinProblem(before)
    }

    /** What is more, every response is sent. */
    ghost predicate AsksForDer(before: Option<nat>)
      reads `device, `registration, responses
    {
      Reached(before) && responses.queue == []
    }

    /** Everything is known, every response is sent, and nothing else is left to send. */
    ghost predicate Done(now: int)
      reads `dcap, `device, `der, `slots, `lastSent, `postRateDer, `postRateMup, responses
    {
      Known().Complete() && responses.queue == [] && NothingLeft(now)
    }

    /** The last accepted transfer of the slot is no longer ago than the post rate. */
    predicate Recent(slot: Slot, rate: nat, now: int)
      reads `lastSent
    {
      slot in lastSent && now - lastSent[slot] <= rate
    }

    /** A value is left only where the DER has no link for it, or was sent too recently to be sent again. */
    predicate NothingLeft(now: int)
      requires der.Some?
      reads `slots, `der, `lastSent, `postRateDer, `postRateMup
    {
      && (slots.settings.None? || !der.value.hasSettingsLink || Recent(Settings, postRateDer, now))
      && (slots.status.None? || !der.value.hasStatusLink || Recent(Status, postRateDer, now))
      && (slots.capabilities.None? || !der.value.hasCapabilityLink || Recent(Capabilities, 86400, now))
      && (slots.readings.None? || Recent(Readings, postRateMup, now))
    }

    /** Takes in a value to send; changed capabilities may be sent at once. */
    method Store(slot: Slot, value: int)
      requires Consistent()
      modifies `slots, `lastSent, `changes
      ensures Consistent() && slots == old(slots).With(slot, Some(value))
      ensures var changed := slot == Capabilities && old(slots).capabilities != Some(value);
              && lastSent == (if changed then old(lastSent) - {Capabilities} else old(lastSent))
              && changes == old(changes) + if changed then 1 else 0
    {
      if slot == Capabilities && slots.capabilities != Some(value) {
        TimedAfterChange(log, lastSent, resets, changes);
        lastSent := lastSent - {Capabilities};
        changes := changes + 1;
      }
      slots := slots.With(slot, Some(value));
    }

    /** Starts over: nothing is known of the server, and everything may be sent at once. */
    method Forget()
      requires Consistent()
      modifies `dcap, `device, `registration, `der, `lastSent, `registeredHere, `resets
      ensures Consistent() && !registeredHere
      ensures Known() == NOTHING_KNOWN && registration == None && lastSent == map[] && resets == old(resets) + 1
    {
      TimedAfterReset(log, lastSent, resets, changes);
      dcap, device, registration, der, lastSent := None, None, None, None, map[];
      registeredHere := false;
      resets := resets + 1;
    }

    /** Takes in a command; returns false if it is only about polls. */
    method Receive(command: Command) returns (proceed: bool)
      requires Consistent()
      modifies this, polls, responses
      ensures Consistent() && retrying == old(retrying) && retryRequested == old(retryRequested)
      ensures proceed == (!command.SubscribeToResource? && !command.UnsubscribeFromResource?)
      ensures slots == Stored(old(slots), command) && log == old(log) && unfinished == old(unfinished)
      ensures lastSent == Remembered(old(lastSent), old(slots), command)
      ensures RatesFollow(old(postRateDer), old(postRateMup), command)
      ensures resets == old(resets) + if command.ResetConnection? then 1 else 0
      ensures changes == old(changes) + if ChangesCapabilities(old(slots), command) then 1 else 0
      ensures Known() == if command.ResetConnection? then NOTHING_KNOWN else old(Known())
      ensures registration == if command.ResetConnection? then None else old(registration)
      ensures var queue := old(responses.Contents());
              responses.Contents() ==
              if command.SendControlResponse? then ResponseQueue.Pushed(queue, command.response) else queue
      ensures polls.polls == match command
                             case SubscribeToResource(href, kind, pollRate) =>
                               PollTable.Subscribed(old(polls.polls), href, kind, pollRate, polls.defaultRate)
                             case UnsubscribeFromResource(target) => old(polls.polls) - {target}
                             case _ => old(polls.polls)
    {
      proceed := !command.SubscribeToResource? && !command.UnsubscribeFromResource?;
      match command
      case SubscribeToResource(href, kind, pollRate) => polls.Subscribe(href, kind, pollRate);
      case UnsubscribeFromResource(target) => polls.Unsubscribe(target);
      case SendDevice(slot, value) =>
        Store(slot, value);
      case SendControlResponse(response) =>
        ResponseQueue.TrimmedKeepsHistory(responses.Contents().(queue := responses.queue + [response]));
        responses.PushBack(response);
      case UpdatePostRates(rates) =>
        postRateDer := rates.der.UnwrapOr(POST_RATE_GENERIC);
        postRateMup := rates.mirrorUsagePoint.UnwrapOr(POST_RATE_GENERIC);
      case ResetConnection =>
        Forget();
      case Wake =>
    }

    /**
     One turn of the loop, from one wait for a command to the next; an error ends the task. While a retry
     is scheduled nothing is sent except on waking up or starting over, and the retry stays scheduled
     until a pass has nothing left to do.
     */
    method Turn(command: Command, a: Answers) returns (r: Result<(), Error>, ghost sent: seq<Sending>)
      requires Valid()
      modifies this, polls, responses
      ensures r.Ok? ==> Valid()
      ensures Consistent()
      ensures log == old(log) + sent
      ensures Transferred(Stored(old(slots), command), Remembered(old(lastSent), old(slots), command), slots,
                          lastSent, sent, Now(a))
      ensures RatesFollow(old(postRateDer), old(postRateMup), command)
      ensures resets == old(resets) + if command.ResetConnection? then 1 else 0
      ensures changes == old(changes) + if ChangesCapabilities(old(slots), command) then 1 else 0
      ensures var reset := command.ResetConnection?;
              var skips := command.SubscribeToResource? || command.UnsubscribeFromResource?
                           || (old(retrying) && !command.Wake? && !reset);
              var knowledge := if reset then NOTHING_KNOWN else old(Known());
              var pin := if reset then None else old(registration);
              var queue := if command.SendControlResponse?
                           then ResponseQueue.Pushed(old(responses.Contents()), command.response)
                           else old(responses.Contents());
              && (skips ==> && r.Ok? && sent == [] && retrying == old(retrying)
                            && Known() == knowledge && responses.Contents() == queue)
              && (!skips && r.Ok? ==>
                    && (!retrying <==> Done(a.now) && !PinProblem(pin))
                    && Learned(knowledge, Known(), a, ourLfdi, AsksForDer(pin))
                    && responses.Contents() == if Reached(pin) then ResponseQueue.Sent(queue, a.responses).0 else queue)
              && forall e :: r == Err(e) <==>
                             !skips && knowledge.device.None? && dcap.Some? && Refuses(a, ourLfdi, e)
    {
      var proceed := Receive(command);
      if !proceed || (retrying && !command.Wake? && !command.ResetConnection?) { return Ok(()), []; }
      r, sent := Attempt(a);
    }

    /** Before the next wait a retry task is started or stopped as requested. */
    method Settle(finished: bool)
      requires retryRequested
      modifies `retryRequested, `retrying, `unfinished
      ensures retrying == retryRequested == unfinished == !finished
    {
      if finished { retryRequested := false; }
      unfinished := !finished;
      retrying := retryRequested;
    }

    /** One pass, after which a retry task is running exactly if the pass did not finish. */
    method Attempt(a: Answers) returns (r: Result<(), Error>, ghost sent: seq<Sending>)
      requires Consistent()
      modifies `dcap, `device, `registration, `registeredHere, `der, `slots, `lastSent, `log, `retryRequested,
               `retrying, `unfinished, responses
      ensures r.Ok? ==> Valid()
      ensures Consistent()
      ensures log == old(log) + sent
      ensures Transferred(old(slots), old(lastSent), slots, lastSent, sent, Now(a))
      ensures r.Ok? ==> (!retrying <==> Done(a.now) && !PinProblem(old(registration)))
      ensures r.Ok? ==> Learned(old(Known()), Known(), a, ourLfdi, AsksForDer(old(registration)))
      ensures r.Ok? ==> responses.Contents() == if Reached(old(registration))
                                                then ResponseQueue.Sent(old(responses.Contents()), a.responses).0
                                                else old(responses.Contents())
      ensures forall e :: r == Err(e) <==> old(device).None? && dcap.Some? && Refuses(a, ourLfdi, e)
    {
      retryRequested := true;
      var finished;
      finished, sent := Pass(a);
      if finished.Err? { return Err(finished.error), sent; }
      Settle(finished.value);
      return Ok(()), sent;
    }
  }

  /** Finds our device in the list, or registers it if the list is empty. */
  function Registered(a: Answers, ourLfdi: Lfdi): Result<Option<ServerDevice>, Error> {
    match a.devices
    case None => Ok(None)
    case Some(list) =>
      if list.all == 0 then Ok(a.registered)
      else if list.all == 1 then
        if list.items == [] then Err(InvalidInput)
        else if list.items[0].lfdi != Some(ourLfdi) then Err(UnexpectedDevice)
        else Ok(Some(list.items[0]))
      else Err(UnexpectedDevice)
  }

  /** The device's DER, if its list has exactly one. */
  function DerOf(device: ServerDevice, a: Answers): Option<Der> {
    if !device.hasDerListLink then None else
    match a.ders
    case None => None
    case Some(ders) => if |ders| == 1 then Some(ders[0]) else None
  }
}
