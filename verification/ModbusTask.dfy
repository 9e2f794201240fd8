/**
 The task that keeps a device at the current parameters: it connects, sends what changed, retries
 what had to be deferred, polls, and drops the connection on any failure.
 */
module ModbusTask {
  import opened LimitConvergence
  import opened LimitDevice
  import opened LimitRegisters
  import opened MachineInts
  import opened Wrappers

  /** What happens around one turn of the loop; `wMaxRtg` and `wSf` are what a connected device reports. */
  datatype Turn = Turn(command: Option<Parameters>, wMaxRtg: Option<u16>, wSf: Option<i16>, pollDue: bool,
                       pollAnswered: bool)

  /** What has to be written to a connected device. */
  function Due(parameters: Option<Parameters>, lastSent: Option<Parameters>, pending: bool,
               info: DeviceInfo): seq<Write> {
    if parameters.None? then []
    else if lastSent != parameters then FullWrites(parameters.value, info)
    else if pending then LimitWrites(parameters.value, info, true)
    else []
  }

  /** A full send of `p` is in the log of the connection. */
  ghost predicate SentAt(log: seq<Write>, p: Parameters, at: nat, info: DeviceInfo) {
    var writes := FullWrites(p, info);
    at + |writes| <= |log| && log[at..at + |writes|] == writes
  }

  /** Everything the registers show is what `p` asks for, except for what is pending. */
  ghost predicate Shown(regs: Registers, p: Parameters, pending: bool, last: DeviceInfo, info: DeviceInfo) {
    pending == Deferred(p, last, false) && Holds(regs, p, last) && SameButRating(last, info)
  }

  /** A full send stays in the log where it is. */
  lemma StaysSent(log: seq<Write>, more: seq<Write>, p: Parameters, at: nat, info: DeviceInfo)
    requires SentAt(log, p, at, info)
    ensures SentAt(log + more, p, at, info)
  {
    var n := |FullWrites(p, info)|;
    assert (log + more)[at..at + n] == log[at..at + n];
  }

  lemma SendShows(start: Registers, log: seq<Write>, p: Parameters, info: DeviceInfo)
    ensures var after := log + FullWrites(p, info);
            SentAt(after, p, |log|, info) && Shown(PutAll(start, after), p, Deferred(p, info, false), info, info)
  {
    var writes := FullWrites(p, info);
    assert (log + writes)[|log|..|log| + |writes|] == writes;
    PutAllConcat(start, log, writes);
    HoldsAfterFullSend(PutAll(start, log), p, info);
  }

  lemma RetryShows(start: Registers, log: seq<Write>, p: Parameters, last: DeviceInfo, info: DeviceInfo)
    requires Shown(PutAll(start, log), p, true, last, info)
    ensures var after, pending := log + LimitWrites(p, info, true), Deferred(p, info, true);
            Shown(PutAll(start, after), p, pending, info, info) && pending == !RatingAvailable(info)
  {
    HoldsAfterRetry(PutAll(start, log), p, last, info);
    PutAllConcat(start, log, LimitWrites(p, info, true));
  }

  class Task {
    var device: Device?
    var parameters: Option<Parameters>
    var lastSent: Option<Parameters>
    var pending: bool
    /** Where in the connection's log the last full send starts, and what the device reported then. */
    ghost var sentAt: nat
    ghost var sentInfo: DeviceInfo
    /** What the device reported at the last send or retry. */
    ghost var lastInfo: DeviceInfo

    /** A full send of `p` was completed on this connection, and everything but what is pending is in force. */
    ghost predicate Applied(p: Parameters)
      requires device != null
      reads this, device
    {
      SentAt(device.log, p, sentAt, sentInfo) && Shown(device.regs, p, pending, lastInfo, device.info)
    }

    ghost predicate Valid()
      reads this, device
    {
      device != null ==> device.Valid() && device.healthy && (lastSent.Some? ==> Applied(lastSent.value))
    }

    constructor ()
      ensures Valid() && device == null && parameters == None && lastSent == None
    {
      device, parameters, lastSent, pending := null, None, None, false;
    }

    /** Takes a new connection; the device may have been restarted, so nothing is known to be sent. */
    method Connect(newDevice: Device)
      requires device == null && newDevice.Valid() && newDevice.healthy
      modifies this
      ensures Valid() && device == newDevice && parameters == old(parameters)
      ensures lastSent == None && !pending
    {
      device := newDevice;
      lastSent := None;
      pending := false;
    }

    method SendNew(p: Parameters)
      requires Valid() && device != null && parameters == Some(p)
      modifies `device, `lastSent, `pending, `sentAt, `sentInfo, `lastInfo, device
      ensures Valid()
      ensures device == if old(device).healthy then old(device) else null
      ensures device != null ==>
                && lastSent == Some(p) && lastInfo == device.info == old(device.info)
                && device.log == old(device.log) + FullWrites(p, device.info)
      ensures device == null
              ==> lastSent == old(lastSent)
                  && Progress(old(device.log), old(device).log, FullWrites(p, old(device.info)), false)
    {
      ghost var before := device.log;
      var status := device.SendParameters(p);
      if status.Err? {
        device := null;
        return;
      }
      assert device.log == before + FullWrites(p, device.info);
      SendShows(device.start, before, p, device.info);
      lastSent := Some(p);
      pending := status.value;
      sentAt, sentInfo, lastInfo := |before|, device.info, device.info;
    }

    method Retry(p: Parameters)
      requires Valid() && device != null && parameters == lastSent == Some(p) && pending
      modifies `device, `pending, `lastInfo, device
      ensures Valid()
      ensures device == if old(device).healthy then old(device) else null
      ensures device != null ==>
                && lastInfo == device.info == old(device.info) && pending == !RatingAvailable(device.info)
                && device.log == old(device.log) + LimitWrites(p, device.info, true)
    {
      ghost var before, writes := device.log, LimitWrites(p, device.info, true);
      RetryShows(device.start, before, p, lastInfo, device.info);
      StaysSent(before, writes, p, sentAt, sentInfo);
      var status := device.SendLimits(p, true);
      if status.Err? {
        device := null;
        return;
      }
      assert device.log == before + writes;
      pending := status.value;
      lastInfo := device.info;
    }

    /** Sends the current parameters if they are new to this connection, or what is pending. */
    method Update()
      requires Valid()
      modifies this, device
      ensures Valid() && parameters == old(parameters)
      ensures device == if old(device) != null && old(device).healthy then old(device) else null
      ensures device != null ==> device.info == old(device.info)
      ensures device != null && parameters.Some? ==>
                lastSent == parameters && (RatingAvailable(device.info) ==> !pending)
      ensures device != null
              ==> device.log == old(device.log) + Due(parameters, old(lastSent), old(pending), device.info)
    {
      if device == null || parameters.None? { return; }
      if lastSent != parameters {
        SendNew(parameters.value);
        if device != null { DeferredWhen(parameters.value, device.info, false); }
      } else if pending {
        Retry(parameters.value);
      }
    }

    /**
     One turn. While connected the current parameters are always the last sent ones; a connection that
     had them already only sees what was pending; and while the rating is reported nothing is pending.
     */
    method RunOnce(turn: Turn, connection: Result<Device, Error>)
      requires Valid()
      requires connection.Ok? ==> && connection.value.Valid() && connection.value.healthy
                                  && connection.value.log == [] && connection.value != device
      modifies this, device, if connection.Ok? then {connection.value} else {}
      ensures Valid()
      ensures parameters == if turn.command.Some? then turn.command else old(parameters)
      ensures var target := if old(device) != null then old(device)
                            else if connection.Ok? then connection.value else null;
              device == if target != null && target.healthy && (turn.pollDue ==> turn.pollAnswered) then target
              else null
      ensures device != null && parameters.Some? ==>
                lastSent == parameters && (RatingAvailable(device.info) ==> !pending)
      ensures device != null && device == old(device) && parameters == old(lastSent) ==>
                device.log == old(device.log) + if parameters.Some? && old(pending)
                then LimitWrites(parameters.value, device.info, true) else []
      ensures device != null && device == old(device) && parameters.Some? && parameters != old(lastSent) ==>
                device.log == old(device.log) + FullWrites(parameters.value, device.info)
      ensures device != null && old(device) == null ==>
                device.log == if parameters.None? then [] else FullWrites(parameters.value, device.info)
    {
      if turn.command.Some? { parameters := turn.command; }
      if device == null && connection.Ok? { Connect(connection.value); }
      if device != null { device.Rerate(turn.wMaxRtg, turn.wSf); }
      Update();
      if turn.pollDue && device != null && !turn.pollAnswered {
        device := null;
      }
    }
  }
}
