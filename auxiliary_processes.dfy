/**
 * The registry of auxiliary (web, network, ...) processes kept by the web
 * context (AuxiliaryProcessesContainer.java).
 *
 * Each process type owns MAX_AUX_PROCESSES slots; a process is registered in
 * the first free slot of its type and is found again by its pid. A per-type
 * cursor, `firstAvailableSlot`, always points at the lowest free slot (or at
 * MAX_AUX_PROCESSES when every slot is taken).
 */
module AuxiliaryProcesses {
  import opened Wrappers

  const MAX_AUX_PROCESSES := 40

  /**
   * A bound service connection. `processType` is the ordinal of its process
   * type; the enumeration of process types is not part of this model, so the
   * container is built for a given number of types.
   */
  datatype ServiceConnection = ServiceConnection(id: nat, processType: nat)

  /** `AuxiliaryProcess`: a connection and the slot it occupies. */
  datatype AuxiliaryProcess = AuxiliaryProcess(processSlot: int, connection: ServiceConnection)
  {
    function ProcessType(): nat { connection.processType }
  }

  datatype RegisterError = LimitExceeded(processType: nat)

  class AuxiliaryProcessesContainer {
    const typeCount: nat
    /** `processes[type][slot]`, `None` for an empty slot. */
    const processes: array2<Option<AuxiliaryProcess>>
    var pidToProcess: map<int, AuxiliaryProcess>
    const firstAvailableSlot: array<int>
    /** The connections whose processes were terminated by `Unregister`, in order. */
    var terminated: seq<ServiceConnection>

    predicate Occupied(t: nat, s: int)
      reads this, processes
      requires t < processes.Length0
    {
      0 <= s < processes.Length1 && processes[t, s].Some?
    }

    ghost predicate Valid()
      reads this, processes, firstAvailableSlot
    {
      processes.Length0 == typeCount && processes.Length1 == MAX_AUX_PROCESSES
      && firstAvailableSlot.Length == typeCount
      // each cursor names the lowest free slot of its type, or MAX_AUX_PROCESSES when all are taken
      && (forall t :: 0 <= t < typeCount ==> 0 <= firstAvailableSlot[t] <= MAX_AUX_PROCESSES)
      && (forall t, s :: 0 <= t < typeCount && 0 <= s < firstAvailableSlot[t] ==> processes[t, s].Some?)
      && (forall t :: 0 <= t < typeCount && firstAvailableSlot[t] < MAX_AUX_PROCESSES ==>
            processes[t, firstAvailableSlot[t]].None?)
      // a stored process records its own slot and type
      && (forall t, s :: 0 <= t < typeCount && 0 <= s < MAX_AUX_PROCESSES && processes[t, s].Some? ==>
            processes[t, s].value.processSlot == s && processes[t, s].value.ProcessType() == t)
      // the pid map and the slot array agree
      && (forall pid :: pid in pidToProcess ==> MappedInPlace(pidToProcess[pid]))
      // no two pids share a process
      && (forall p1, p2 :: p1 in pidToProcess && p2 in pidToProcess && p1 != p2 ==>
            pidToProcess[p1] != pidToProcess[p2])
    }

    ghost predicate MappedInPlace(p: AuxiliaryProcess)
      reads this, processes
    {
      p.ProcessType() < processes.Length0 && 0 <= p.processSlot < processes.Length1
      && processes[p.ProcessType(), p.processSlot] == Some(p)
    }

    constructor (typeCount: nat)
      ensures Valid() && this.typeCount == typeCount
      ensures pidToProcess == map[] && terminated == []
      ensures forall t :: 0 <= t < typeCount ==> firstAvailableSlot[t] == 0
      ensures fresh(processes) && fresh(firstAvailableSlot)
    {
      this.typeCount := typeCount;
      processes := new Option<AuxiliaryProcess>[typeCount, MAX_AUX_PROCESSES]((_, _) => None);
      firstAvailableSlot := new int[typeCount](_ => 0);
      pidToProcess := map[];
      terminated := [];
    }

    /** `getFirstAvailableSlot`: the lowest free slot of the type, or MAX_AUX_PROCESSES when all are taken. */
    function GetFirstAvailableSlot(processType: nat): (slot: int)
      reads this, processes, firstAvailableSlot
      requires Valid() && processType < typeCount
      ensures 0 <= slot <= MAX_AUX_PROCESSES
      ensures forall s :: 0 <= s < slot ==> processes[processType, s].Some?
      ensures slot < MAX_AUX_PROCESSES ==> processes[processType, slot].None?
    {
      firstAvailableSlot[processType]
    }

    /**
     * `register`: store a new process for `connection` in the first free slot
     * of its type, map `pid` to it and move the cursor to the next free slot.
     * When every slot is taken it fails and changes nothing. A pid that is
     * already mapped is re-mapped; its earlier process keeps its slot.
     */
    method Register(pid: int, connection: ServiceConnection) returns (result: Result<(), RegisterError>)
      requires Valid() && connection.processType < typeCount
      modifies processes, firstAvailableSlot, this`pidToProcess
      ensures Valid()
      ensures var t, slot := connection.processType, old(firstAvailableSlot[connection.processType]);
        if slot >= MAX_AUX_PROCESSES then
          result == Err(LimitExceeded(t))
          && pidToProcess == old(pidToProcess)
          && unchanged(processes) && unchanged(firstAvailableSlot)
        else
          result == Ok(())
          && processes[t, slot] == Some(AuxiliaryProcess(slot, connection))
          && (forall t', s :: 0 <= t' < typeCount && 0 <= s < MAX_AUX_PROCESSES && (t', s) != (t, slot) ==>
                processes[t', s] == old(processes[t', s]))
          && pidToProcess == old(pidToProcess)[pid := AuxiliaryProcess(slot, connection)]
          && slot < firstAvailableSlot[t]
          && (forall t' :: 0 <= t' < typeCount && t' != t ==> firstAvailableSlot[t'] == old(firstAvailableSlot[t']))
    {
      var t := connection.processType;
      var slot := firstAvailableSlot[t];
      if slot >= MAX_AUX_PROCESSES {
        return Err(LimitExceeded(t));
      }
      // the source's `assert processes[typeIdx][slot] == null` holds
      assert processes[t, slot].None?;
      var process := AuxiliaryProcess(slot, connection);
      processes[t, slot] := Some(process);
      pidToProcess := pidToProcess[pid := process];

      var cursor := slot + 1;
      while cursor < MAX_AUX_PROCESSES && processes[t, cursor].Some?
        invariant slot < cursor <= MAX_AUX_PROCESSES
        invariant forall s :: 0 <= s < cursor ==> processes[t, s].Some?
      {
        cursor := cursor + 1;
      }
      firstAvailableSlot[t] := cursor;
      result := Ok(());
    }

    /**
     * `unregister`: forget `pid`, terminate its process, free its slot and
     * lower the cursor of its type to that slot if it was above it. An
     * unknown pid changes nothing.
     */
    method Unregister(pid: int)
      requires Valid()
      modifies processes, firstAvailableSlot, this`pidToProcess, this`terminated
      ensures Valid()
      ensures pid !in old(pidToProcess) ==>
        pidToProcess == old(pidToProcess) && terminated == old(terminated)
        && unchanged(processes) && unchanged(firstAvailableSlot)
      ensures pid in old(pidToProcess) ==>
        var p := old(pidToProcess)[pid];
        var t, slot := p.ProcessType(), p.processSlot;
        pidToProcess == old(pidToProcess) - {pid}
        && terminated == old(terminated) + [p.connection]
        && processes[t, slot].None?
        && (forall t', s :: 0 <= t' < typeCount && 0 <= s < MAX_AUX_PROCESSES && (t', s) != (t, slot) ==>
              processes[t', s] == old(processes[t', s]))
        && firstAvailableSlot[t] == (if slot < old(firstAvailableSlot[t]) then slot else old(firstAvailableSlot[t]))
        && (forall t' :: 0 <= t' < typeCount && t' != t ==> firstAvailableSlot[t'] == old(firstAvailableSlot[t']))
    {
      if pid !in pidToProcess {
        return;
      }
      var process := pidToProcess[pid];
      pidToProcess := pidToProcess - {pid};
      terminated := terminated + [process.connection];

      var t := process.ProcessType();
      processes[t, process.processSlot] := None;
      firstAvailableSlot[t] := if process.processSlot < firstAvailableSlot[t] then process.processSlot else firstAvailableSlot[t];
    }
  }
}
