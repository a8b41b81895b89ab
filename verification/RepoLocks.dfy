/** The repository leases of internal/app/repolock.go: lease files shared by every process on the machine,
    and the in-memory maps each process keeps beside them. A lease file is named by a hash of its key, which
    is taken to be injective, so the directory is a map from keys. */
module RepoLocks {

  import opened Wrappers

  type Key = string
  type RunId = string

  /** A lease file. Until its record has been written it names no run to a reader; run is then only known
      to the thread that is writing it. */
  datatype Lease = Lease(run: RunId, written: bool)

  /** owners and keysByRun of one RepoLocks value. */
  datatype Process = Process(owners: set<Key>, keysByRun: map<RunId, Key>)

  datatype Leases = Leases(files: map<Key, Lease>, process: Process)

  predicate Owns(files: map<Key, Lease>, key: Key, run: RunId) {
    key in files && files[key] == Lease(run, true)
  }

  /** What acquiring a free key leaves behind. */
  function Acquired(s: Leases, key: Key, run: RunId): Leases {
    Leases(s.files[key := Lease(run, true)],
           Process(s.process.owners + {key}, s.process.keysByRun[run := key]))
  }

  /** releaseEntry: only a lease file holding the run's own record is removed, and only then does the
      process forget it. */
  function Released(s: Leases, key: Key, run: RunId): Leases {
    if !Owns(s.files, key, run) then s
    else
      Leases(s.files - {key},
             Process(s.process.owners - {key},
                     if run in s.process.keysByRun && s.process.keysByRun[run] == key
                     then s.process.keysByRun - {run} else s.process.keysByRun))
  }

  /** Releasing what was just acquired gives back the files and the process as they were. */
  lemma ReleaseUndoesAcquire(s: Leases, key: Key, run: RunId)
    requires key !in s.files && key !in s.process.owners && run !in s.process.keysByRun
    ensures Released(Acquired(s, key, run), key, run) == s
  {
    assert s.process.owners + {key} - {key} == s.process.owners;
    assert s.process.keysByRun[run := key] - {run} == s.process.keysByRun;
    assert s.files[key := Lease(run, true)] - {key} == s.files;
  }

  /** A release never touches another run's lease, nor another key. */
  lemma ReleaseIsExact(s: Leases, key: Key, run: RunId, other: Key)
    requires other in s.files && (other != key || !Owns(s.files, key, run))
    ensures other in Released(s, key, run).files && Released(s, key, run).files[other] == s.files[other]
    ensures other in s.process.owners ==> other in Released(s, key, run).process.owners
  {
  }

  datatype Outcome = Acquiring | Busy | Fault

  /** What goes wrong while a lease file is made: the directory, the creation, or the writing of the record,
      after which the record may be complete and the file may or may not be removed again. */
  datatype AcquireFault = NoFault | NoDirectory | NoFile | BadWrite(written: bool, removed: bool)

  /** The lease directory. */
  class Directory {
    var files: map<Key, Lease>
    constructor () ensures files == map[] { files := map[]; }
  }

  class Locks {
    const directory: Directory
    var owners: set<Key>
    var keysByRun: map<RunId, Key>

    constructor (directory: Directory)
      ensures this.directory == directory && State() == Leases(directory.files, Process({}, map[]))
    {
      this.directory := directory;
      owners, keysByRun := {}, map[];
    }

    ghost function State(): Leases
      reads this, directory
    {
      Leases(directory.files, Process(owners, keysByRun))
    }

    /** A fault leaves the process as it was, and the directory too unless a file could not be removed. */
    method Acquire(key: Key, run: RunId, fault: AcquireFault) returns (outcome: Outcome)
      modifies this, directory
      ensures outcome == Busy <==>
                || run == "" || key in old(owners)
                || (key in old(directory.files) && fault != NoDirectory && fault != NoFile)
      ensures outcome == Acquiring <==> outcome != Busy && fault == NoFault
      ensures outcome == Acquiring ==> State() == Acquired(old(State()), key, run)
      ensures outcome != Acquiring ==>
                State() == if outcome == Fault && fault.BadWrite? && !fault.removed
                           then old(State()).(files := old(directory.files)[key := Lease(run, fault.written)])
                           else old(State())
    {
      if run == "" || key in owners { return Busy; }
      if fault == NoDirectory || fault == NoFile { return Fault; }
      if key in directory.files { return Busy; }
      directory.files := directory.files[key := Lease(run, false)];
      if fault.BadWrite? {
        directory.files := directory.files[key := Lease(run, fault.written)];
        if fault.removed { directory.files := directory.files - {key}; }
        assert fault.removed ==> directory.files == old(directory.files);
        assert !fault.removed ==> directory.files == old(directory.files)[key := Lease(run, fault.written)];
        return Fault;
      }
      directory.files := directory.files[key := Lease(run, true)];
      assert directory.files == old(directory.files)[key := Lease(run, true)];
      owners := owners + {key};
      keysByRun := keysByRun[run := key];
      return Acquiring;
    }

    /** "fails" stands for an error while the file is read or removed: then nothing is forgotten. */
    method ReleaseEntry(key: Key, run: RunId, fails: bool)
      modifies this, directory
      ensures State() == if fails then old(State()) else Released(old(State()), key, run)
    {
      if key !in directory.files || fails || directory.files[key] != Lease(run, true) { return; }
      directory.files := directory.files - {key};
      owners := owners - {key};
      if run in keysByRun && keysByRun[run] == key {
        keysByRun := keysByRun - {run};
      }
    }

    /** Releases the key the process remembers for the run, or else the first readable file of the directory
        listing that holds the run's record. There may be no listing; unreadable files are skipped. */
    method ReleaseRun(run: RunId, listing: Option<seq<Key>>, unreadable: set<Key>, fails: bool)
      requires listing.Some? ==> forall key :: key in listing.value <==> key in directory.files
      modifies this, directory
      ensures run in old(keysByRun) ==>
                State() == if fails then old(State()) else Released(old(State()), old(keysByRun[run]), run)
      ensures run !in old(keysByRun) ==>
                if listing.None? || fails || (forall key :: Owns(old(directory.files), key, run) ==> key in unreadable)
                then State() == old(State())
                else exists key :: Owns(old(directory.files), key, run) && key !in unreadable
                                   && State() == Released(old(State()), key, run)
    {
      if run in keysByRun {
        ReleaseEntry(keysByRun[run], run, fails);
        return;
      }
      if listing.None? { return; }
      for i := 0 to |listing.value|
        invariant State() == old(State())
        invariant forall j | 0 <= j < i :: Owns(directory.files, listing.value[j], run) ==> listing.value[j] in unreadable
      {
        var key := listing.value[i];
        if key !in unreadable && directory.files[key] == Lease(run, true) {
          assert Owns(old(directory.files), key, run);
          ReleaseEntry(key, run, fails);
          return;
        }
      }
      assert forall key :: Owns(directory.files, key, run) ==> key in unreadable;
    }
  }
}
