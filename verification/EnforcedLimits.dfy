/** What the task that sends parameters guarantees of the limits of a control. */
module EnforcedLimits {
  import opened LimitControls
  import opened LimitConvergence
  import opened LimitRegisters
  import opened ModbusTask
  import opened SentRegisters
  import opened Wrappers

  /**
   While the task is connected and nothing is pending, the limits of the control last sent are in force in the
   device's registers, derived from a rating that it has reported.
   */
  lemma ConnectedDeviceEnforces(task: Task, base: ControlBase)
    requires task.Valid() && task.device != null && task.lastSent == Some(ToParameters(base, true))
    requires task.device.info.has704 && !task.pending
    ensures InForce(task.device.regs, base, task.lastInfo)
  {
    var p, info, regs := ToParameters(base, true), task.lastInfo, task.device.regs;
    HoldsWhenSendChangesNothing(regs, p, info);
    DeferredWhen(p, info, false);
    if base.opModExpLimW.Some? {
      ExportLimitIsEnforced(base, regs, info);
    }
    if OnlyImportLimit(base) {
      ImportLimitIsEnforced(base, regs, info);
    }
  }

  /**
   While it is connected, every limit register holds what the control last sent asks for, as far as the rating last
   read allows; and something is pending exactly if that rating is needed and missing.
   */
  lemma ConnectedDeviceIsAsAsked(task: Task, base: ControlBase, site: bool)
    requires task.Valid() && task.device != null && task.lastSent == Some(ToParameters(base, site))
    requires task.device.info.has704
    ensures AsAsked(task.device.regs, task.device.regs, base, site, task.lastInfo)
    ensures task.pending <==> AsksForRating(base, site) && !RatingAvailable(task.lastInfo)
  {
    var p, info, regs := ToParameters(base, site), task.lastInfo, task.device.regs;
    HoldsWhenSendChangesNothing(regs, p, info);
    DeferredWhen(p, info, false);
    RegistersAreAsAsked(regs, base, site, info);
  }
}
