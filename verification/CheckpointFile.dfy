/** The stored checkpoint as an object: save, load guarded by the file hash, delete. */
module CheckpointFile {
  import opened Basics
  import opened SharedStore
  import opened CrashRecovery

  class CheckpointStore {
    var stored: Option<Checkpoint>

    constructor ()
      ensures stored == None
    {
      stored := None;
    }

    /** The file is replaced whole or, when it cannot be written, left alone. */
    method Save(checkpoint: Checkpoint, writable: bool) returns (saved: bool)
      modifies this
      ensures saved == writable
      ensures stored == if writable then Some(checkpoint) else old(stored)
    {
      if !writable {
        return false;
      }
      stored := Some(checkpoint);
      return true;
    }

    method Delete()
      modifies this
      ensures stored == None
    {
      stored := None;
    }

    /** A checkpoint is returned exactly when it is there for this content; one for other content is gone. */
    method LoadCheckpoint(currentHash: string) returns (checkpoint: Option<Checkpoint>)
      modifies this
      ensures checkpoint == if old(stored).Some? && old(stored).value.fileHash == currentHash then old(stored) else None
      ensures stored == checkpoint
    {
      if stored.Some? && stored.value.fileHash != currentHash {
        Delete();
      }
      checkpoint := stored;
    }

    /** How `import_data` begins: the step `Start` of the recovery protocol. */
    method BeginImport(job: Job, target: Target, resume: bool, crew: Crew) returns (phase: Phase)
      modifies this
      ensures World(target, stored, phase) == Start(job, World(target, old(stored), Stopped), resume, crew)
    {
      var checkpoint := None;
      if resume {
        checkpoint := LoadCheckpoint(job.fileHash);
      }
      if checkpoint.Some? && checkpoint.value.pass1Complete {
        phase := Pass1Done(checkpoint.value.idMap);
      } else {
        phase := Loading(crew, [], target.db);
      }
    }
  }
}
