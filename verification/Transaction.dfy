/** The lease and the journal store behind a preset transaction. */
module Transaction {
  import opened Wrappers

  // ----------------------------------------------------------------- the lease

  datatype Attempt = Free | WouldBlock | Broken

  datatype Acquisition = Acquired | DeviceBusy | LockError

  const PollMs := 20

  /** Tries the lock every 20 ms until it is free, broken, or the deadline has
    * passed; the `k`-th answer comes `20 * k` ms after the start. */
  method AcquireLease(answers: nat -> Attempt, timeoutMs: nat) returns (r: Acquisition, tries: nat)
    ensures tries >= 1 && PollMs * (tries - 1) < timeoutMs + PollMs
    ensures forall k :: 0 <= k < tries - 1 ==> answers(k).WouldBlock?
    ensures match r
            case Acquired => answers(tries - 1).Free?
            case LockError => answers(tries - 1).Broken?
            case DeviceBusy => answers(tries - 1).WouldBlock? && PollMs * (tries - 1) >= timeoutMs
    ensures r.DeviceBusy? <==> forall k: nat :: PollMs * k < timeoutMs + PollMs ==> answers(k).WouldBlock?
  {
    tries := 0;
    while true
      invariant PollMs * tries < timeoutMs + PollMs
      invariant forall k :: 0 <= k < tries ==> answers(k).WouldBlock?
      decreases timeoutMs + PollMs - PollMs * tries
    {
      var answer := answers(tries);
      var elapsed := PollMs * tries;
      tries := tries + 1;
      if answer.Free? { return Acquired, tries; }
      if answer.Broken? { return LockError, tries; }
      if elapsed >= timeoutMs { return DeviceBusy, tries; }
    }
  }

  // --------------------------------------------------------- the journal store

  const SchemaVersion := 2

  /** What the journal file holds: bytes that parse to a document, or not. */
  datatype File = Document(schema: nat, reportSchema: nat, planSchema: nat, report: nat) | Unparsable

  datatype Reading = Missing | Found(report: nat) | Refused

  predicate Current(f: File) {
    f.Document? && f.schema == SchemaVersion && f.reportSchema == SchemaVersion && f.planSchema == SchemaVersion
  }

  /** The steps of a journal write that can fail, in order. */
  datatype WriteFault = NoFault | AtDirectory | AtTemporary | AtContents | AtPersist | AtSync

  datatype RemoveFault = RemoveFine | AtUnlink | AtUnlinkSync

  /** `file` is the journal as any process sees it, `durable` what survives a
    * power loss; a temporary file never has the journal's name. */
  class JournalStore {
    var file: Option<File>
    var durable: Option<File>
    var temporaries: nat

    constructor (file: Option<File>)
      ensures this.file == file && durable == file && temporaries == 0
    {
      this.file, this.durable, this.temporaries := file, file, 0;
    }

    /** Refuses whatever it cannot read as a current journal. */
    method Existing(readable: bool) returns (r: Reading)
      ensures r.Missing? <==> readable && file.None?
      ensures r.Found? <==> readable && file.Some? && Current(file.value)
      ensures r.Found? ==> r.report == file.value.report
    {
      if !readable { return Refused; }
      if file.None? { return Missing; }
      match file.value
      case Unparsable => r := Refused;
      case Document(schema, reportSchema, planSchema, report) =>
        if schema != SchemaVersion || reportSchema != SchemaVersion || planSchema != SchemaVersion {
          r := Refused;
        } else {
          r := Found(report);
        }
    }

    /** The old journal or the new one, never a torn one; success is durable. */
    method Write(report: nat, fault: WriteFault) returns (ok: bool)
      modifies this
      ensures ok <==> fault.NoFault?
      ensures ok ==> file == durable == Some(Document(SchemaVersion, SchemaVersion, SchemaVersion, report))
      ensures !ok ==> durable == old(durable)
      ensures fault.AtSync? ==> file == Some(Document(SchemaVersion, SchemaVersion, SchemaVersion, report))
      ensures !ok && !fault.AtSync? ==> file == old(file)
      ensures temporaries == old(temporaries)
    {
      if fault.AtDirectory? || fault.AtTemporary? { return false; }
      var contents := Document(SchemaVersion, SchemaVersion, SchemaVersion, report);
      temporaries := temporaries + 1;
      if fault.AtContents? || fault.AtPersist? {
        temporaries := temporaries - 1;
        return false;
      }
      temporaries := temporaries - 1;
      file := Some(contents);
      if fault.AtSync? { return false; }
      durable := file;
      ok := true;
    }

    /** Removing a journal that is not there succeeds. */
    method Remove(fault: RemoveFault) returns (ok: bool)
      modifies this`file, this`durable
      ensures old(file).None? && !fault.AtUnlink? ==> ok && file.None? && durable == old(durable)
      ensures old(file).Some? ==> (ok <==> fault.RemoveFine?)
      ensures old(file).Some? && ok ==> file.None? && durable.None?
      ensures old(file).Some? && fault.AtUnlinkSync? ==> file.None? && durable == old(durable)
      ensures fault.AtUnlink? ==> !ok && file == old(file) && durable == old(durable)
    {
      if fault.AtUnlink? { return false; }
      if file.None? { return true; }
      file := None;
      if fault.AtUnlinkSync? { return false; }
      durable := None;
      ok := true;
    }
  }
}
