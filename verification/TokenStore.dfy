// The broker's state file (store.go): what is on disk, what is in memory, and the
// write that keeps the two in step across failures and crashes.
module TokenStore {
  import opened Wrappers

  // One persisted record. Times are whole units of the broker's clock.
  datatype State = State(
    refreshToken: string,
    accessToken: string,
    expiresAt: int,
    deviceHash: string,
    updatedAt: int,
    rejectedAt: Option<int>,
    rejectedReason: string)
  {
    predicate Seeded() { refreshToken != "" && deviceHash != "" }

    predicate Rejected() { rejectedAt.Some? }

    // The re-check every caller makes before it asks Fold for a new token.
    predicate Fresh(now: int, lead: int) { expiresAt - now > lead && accessToken != "" }
  }

  const ZERO: State := State("", "", 0, "", 0, None, "")

  // A file holds nothing, some prefix of a record, or a whole record.
  datatype File = Absent | Partial | Whole(state: State)

  // What a process that starts now would read. A partial file cannot be decoded.
  function Load(file: File): Result<State, string> {
    match file
    case Absent => Ok(ZERO)
    case Partial => Err("decode state")
    case Whole(state) => Ok(state)
  }

  // The effects of one atomic write, in order, and the return to its caller.
  datatype Effect = CreateTemp | Chmod | Write | Sync | Close | Rename | SyncDir | Return

  // What the machine does to one write: nothing, an error from one of its effects, or
  // the process dying just before one.
  datatype Fault = NoFault | ErrorAt(at: Effect) | DiesBefore(at: Effect)

  datatype Outcome = Done | Failed | Died

  // A failed directory sync is ignored, so nothing after the rename fails the call.
  function OutcomeOf(fault: Fault): Outcome {
    match fault
    case NoFault => Done
    case ErrorAt(at) => if at.SyncDir? || at.Return? then Done else Failed
    case DiesBefore(_) => Died
  }

  // Whether the rename took place: the one point at which the record changes hands.
  predicate Renamed(fault: Fault) {
    match fault
    case NoFault => true
    case ErrorAt(at) => at.SyncDir? || at.Return?
    case DiesBefore(at) => at.SyncDir? || at.Return?
  }

  // A call is done exactly when nothing goes wrong up to the rename and the process lives; then, and where
  // it dies later, the record has changed hands.
  lemma RenameDecides(fault: Fault)
    ensures var early := {CreateTemp, Chmod, Write, Sync, Close, Rename};
      && (OutcomeOf(fault) == Failed <==> fault.ErrorAt? && fault.at in early)
      && (OutcomeOf(fault) == Died <==> fault.DiesBefore?)
      && (Renamed(fault) <==> fault == NoFault || fault.at !in early)
    ensures OutcomeOf(fault) == Done ==> Renamed(fault)
  {
  }

  class Store {
    var disk: File
    var temp: File
    var memory: State

    // Memory is what a restart would read back.
    ghost predicate InStep()
      reads this
    {
      Load(disk) == Ok(memory)
    }

    // OpenStore: a missing file is a fresh install.
    constructor Open(disk: File)
      requires Load(disk).Ok?
      ensures this.disk == disk && InStep()
    {
      this.disk := disk;
      this.temp := Absent;
      this.memory := Load(disk).value;
    }

    // writeFileAtomic: write a sibling, then rename it over the record. Whatever goes
    // wrong and wherever, the record is the old one or the whole new one.
    method WriteFileAtomic(next: State, fault: Fault) returns (outcome: Outcome)
      modifies `disk, `temp
      ensures outcome == OutcomeOf(fault)
      ensures disk == if Renamed(fault) then Whole(next) else old(disk)
      ensures outcome == Done ==> temp == Absent
      ensures outcome == Failed && fault != ErrorAt(CreateTemp) ==> temp == Absent
    {
      assert fault.DiesBefore? ==>
        fault.at.CreateTemp? || fault.at.Chmod? || fault.at.Write? || fault.at.Sync?
        || fault.at.Close? || fault.at.Rename? || fault.at.SyncDir? || fault.at.Return?;
      if fault == DiesBefore(CreateTemp) { return Died; }
      if fault == ErrorAt(CreateTemp) { return Failed; }
      temp := Partial;
      if fault == DiesBefore(Chmod) { return Died; }
      if fault == ErrorAt(Chmod) { temp := Absent; return Failed; }
      if fault == DiesBefore(Write) { return Died; }
      if fault == ErrorAt(Write) { temp := Absent; return Failed; }
      temp := Whole(next);
      if fault == DiesBefore(Sync) { return Died; }
      if fault == ErrorAt(Sync) { temp := Absent; return Failed; }
      if fault == DiesBefore(Close) { return Died; }
      if fault == ErrorAt(Close) { temp := Absent; return Failed; }
      if fault == DiesBefore(Rename) { return Died; }
      if fault == ErrorAt(Rename) { temp := Absent; return Failed; }
      disk, temp := temp, Absent;
      if fault == DiesBefore(SyncDir) || fault == DiesBefore(Return) { return Died; }
      return Done;
    }

    // Set: persist, then publish. On an error memory keeps the last good record.
    method Set(next: State, fault: Fault) returns (outcome: Outcome)
      requires InStep()
      modifies this
      ensures outcome == OutcomeOf(fault)
      ensures disk == if Renamed(fault) then Whole(next) else old(disk)
      ensures memory == if outcome == Done then next else old(memory)
      ensures outcome != Died ==> InStep()
      ensures Load(disk) == Ok(next) || Load(disk) == old(Load(disk))
    {
      outcome := WriteFileAtomic(next, fault);
      if outcome == Done {
        memory := next;
      }
    }

    method Get() returns (snapshot: State)
      ensures snapshot == memory
    {
      snapshot := memory;
    }
  }
}
