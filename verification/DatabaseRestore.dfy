/**
 The crash-atomic restore of the controller's two databases: a stage directory, a rollback directory,
 a journal, and recovery when the data directory is next locked.  Every file operation is one step that
 takes effect, fails without effect, or is never reached because the process crashed before it.
 */
module DatabaseRestore {
  import opened Options
  import opened Disk

  datatype Outcome = Done | Failed | Crashed

  /** One restore: the pair it replaces, the pair it brings, and the directory of its rollback copies. */
  datatype Session = Session(before: Pair, after: Pair, folder: nat) {
    function Record(): Item {
      Note(folder, before.Keys)
    }
  }

  ghost predicate AtRest(d: Disk, pair: Pair) {
    && d.Valid() && d.TargetsDurable() && Holds(d.files, pair)
    && forall item :: d.CouldBe(Journal, item) ==> item == None
  }

  /** Every rollback copy is in place for good. */
  ghost predicate CopiesSafe(d: Disk, s: Session) {
    forall name | name in s.before ::
      && d.Kept(Folder(s.folder)) && d.Durable(In(s.folder, name)) && s.before[name].Sound?
      && d.At(In(s.folder, name)) == Some(Database(s.before[name]))
  }

  /** Any rollback copy that may be found, now or after a power loss, is the right one, and stays once it is found. */
  ghost predicate CopiesHonest(d: Disk, s: Session) {
    forall name | name in s.before ::
      && (forall item | d.CouldBe(In(s.folder, name), item) :: item == None || item == Some(Database(s.before[name])))
      && (In(s.folder, name) in d.files ==> d.Durable(In(s.folder, name)))
  }

  /** The rollback copies are written and durable in their directory, which itself may not be durable yet. */
  ghost predicate CopiesWritten(d: Disk, s: Session) {
    forall name | name in s.before ::
      && Folder(s.folder) in d.files && d.Durable(In(s.folder, name)) && s.before[name].Sound?
      && d.At(In(s.folder, name)) == Some(Database(s.before[name]))
  }

  /** The journal of an earlier restore that a power loss may bring back, as its removal is not durable. */
  datatype Shadow = NoShadow | Shadow(session: Session)

  predicate Apart(s: Session, sh: Shadow) {
    sh.Shadow? ==> sh.session.folder != s.folder
  }

  ghost predicate Comes(d: Disk, sh: Shadow) {
    sh.Shadow? && d.CouldBe(Journal, Some(sh.session.Record()))
  }

  /** The journal that is found is that of the restore; a power loss may bring back one more, with its copies. */
  ghost predicate JournalOurs(d: Disk, s: Session, sh: Shadow) {
    && (forall item | d.CouldBe(Journal, item) ::
          item == None || item == Some(s.Record()) || (sh.Shadow? && item == Some(sh.session.Record())))
    && (d.At(Journal) == None || d.At(Journal) == Some(s.Record()))
    && (d.At(Journal) == None && d.CouldBe(Journal, Some(s.Record())) ==> !Comes(d, sh))
    && (Comes(d, sh) ==> CopiesSafe(d, sh.session))
  }

  /** The databases still read as before the restore, or again do; a journal that comes back finds its copies. */
  ghost predicate Untouched(d: Disk, s: Session, sh: Shadow) {
    && d.TargetsDurable() && Holds(d.files, s.before) && JournalOurs(d, s, sh)
    && (d.CouldBe(Journal, Some(s.Record())) ==> CopiesHonest(d, s) && (Journal in d.files || CopiesSafe(d, s)))
  }

  /** A restore's journal is there, or not even a power loss brings it back. */
  predicate ThereOrNever(d: Disk, s: Session) {
    Journal in d.files || !d.CouldBe(Journal, Some(s.Record()))
  }

  /** Nothing of the restore's own journal exists yet. */
  ghost predicate Ready(d: Disk, s: Session, sh: Shadow) {
    d.Valid() && Untouched(d, s, sh) && Apart(s, sh) && !d.CouldBe(Journal, Some(s.Record()))
  }

  /** Whatever has become of the databases, the journal and the copies that undo it are in place for good. */
  ghost predicate Secured(d: Disk, s: Session) {
    && d.At(Journal) == Some(s.Record()) && d.Durable(Journal)
    && CopiesSafe(d, s)
  }

  /** The journal and the copies that undo the restore are in place, for good once the data directory is synced. */
  ghost predicate Held(d: Disk, s: Session) {
    d.At(Journal) == Some(s.Record()) && CopiesWritten(d, s)
  }

  /** The new databases are in place for good; a journal that comes back still finds its copies. */
  ghost predicate Replaced(d: Disk, s: Session) {
    && d.TargetsDurable() && Fresh(d.files, s.after) && JournalOurs(d, s, NoShadow)
    && (d.CouldBe(Journal, Some(s.Record())) ==> CopiesSafe(d, s))
  }

  /** What holds at every step of a restore and of every recovery that follows it. */
  ghost predicate Recoverable(d: Disk, s: Session, committed: bool, sh: Shadow) {
    && d.Valid() && Apart(s, sh)
    && if committed then Replaced(d, s) && Journal !in d.files else Untouched(d, s, sh) || Secured(d, s)
  }

  /** A journal that is found is there for good, and so are the copies that it names. */
  predicate Anchored(d: Disk) {
    match d.At(Journal)
    case Some(Note(folder, hadOriginal)) =>
      && d.Durable(Journal)
      && forall name | name in hadOriginal ::
           (Folder(folder) in d.files ==> d.Kept(Folder(folder))) && d.Durable(In(folder, name))
    case _ => true
  }

  ghost const SCRATCH := iset p: Path | p.Temp? || p.Staged? || p.JournalTemp?
  ghost const TARGETS := iset p: Path | IsTarget(p) || p in SCRATCH

  ghost function CopiesOf(folder: nat): iset<Path> {
    iset p: Path | p.In? && p.id == folder
  }

  ghost function PathsOf(name: Name): iset<Path> {
    iset{Main(name), Wal(name), Shm(name), Temp(name), Staged(name)}
  }

  lemma AllNames(name: Name)
    ensures name == NAMES[0] || name == NAMES[1]
  {
  }

  class DataDirectory {
    var disk: Disk
    var exposed: bool           // a recovery changes databases under a journal that is not durable yet
    ghost var session: Session  // the restore that was begun last
    ghost var committed: bool   // its commit step has removed the journal, and it has not come back
    ghost var shadow: Shadow
    const answers: nat -> Outcome  // what becomes of each step
    var asked: nat                 // the steps taken so far

    ghost predicate Valid()
      reads this
    {
      if exposed then disk.Valid() && !committed && Held(disk, session) && Apart(session, shadow)
      else Recoverable(disk, session, committed, shadow)
    }

    /** What the databases are to read as. */
    ghost function Current(): Pair
      reads this
    {
      if committed then session.after else session.before
    }

    constructor (files: Files, volatile: bool, answers: nat -> Outcome, ghost pair: Pair)
      requires Holds(files, pair) && Journal !in files
      ensures Valid() && disk == Disk(files, {}, volatile) && Current() == pair && shadow == NoShadow && !exposed
      ensures this.answers == answers && asked == 0
    {
      this.answers, asked := answers, 0;
      disk := Disk(files, {}, volatile);
      exposed := false;
      session, committed, shadow := Session(pair, pair, 0), false, NoShadow;
    }

    /** Every step since then was done. */
    ghost predicate Smooth(since: nat)
      reads this
    {
      forall i | since <= i < asked :: answers(i).Done?
    }

    /** No step since then has reported a failure; the process may have crashed. */
    ghost predicate Unfailing(since: nat)
      reads this
    {
      forall i | since <= i < asked :: !answers(i).Failed?
    }

    /** What can be done at all is done, unless one of its own steps is not. */
    twostate predicate Ends(r: Outcome, able: bool)
      reads this
    {
      old(asked) <= asked && (able && Smooth(old(asked)) ==> r.Done?)
    }

    /** Of the steps since then at most one has failed, and the process has not crashed. */
    ghost predicate OneFails(since: nat)
      reads this
    {
      && (forall i | since <= i < asked :: !answers(i).Crashed?)
      && forall i, j | since <= i < j < asked :: answers(i).Done? || answers(j).Done?
    }

    lemma RestIsSmooth(since: nat, middle: nat)
      requires OneFails(since) && since <= middle <= asked && exists i | since <= i < middle :: !answers(i).Done?
      ensures Smooth(middle)
    {
    }

    // ----- File operations -----

    method Step() returns (r: Outcome)
      modifies this`asked
      ensures r == answers(old(asked)) && asked == old(asked) + 1
    {
      r := answers(asked);
      asked := asked + 1;
    }

    method Remove(p: Path) returns (r: Outcome)
      modifies this`disk, this`asked
      ensures disk == if r.Done? then old(disk).Drop(p) else old(disk)
      ensures r == answers(old(asked)) && asked == old(asked) + 1
    {
      r := Step();
      if r.Done? {
        disk := disk.Drop(p);
      }
    }

    method Create(p: Path, item: Item) returns (r: Outcome)
      modifies this`disk, this`asked
      ensures disk == if r.Done? then old(disk).Put(p, item) else old(disk)
      ensures r == answers(old(asked)) && asked == old(asked) + 1
    {
      r := Step();
      if r.Done? {
        disk := disk.Put(p, item);
      }
    }

    method Rename(p: Path, q: Path) returns (r: Outcome)
      modifies this`disk, this`asked
      ensures r.Done? ==> p in old(disk.files) && disk == old(disk).Put(q, old(disk).files[p]).Drop(p)
      ensures !r.Done? ==> disk == old(disk)
      ensures Ends(r, p in old(disk.files))
      ensures asked == old(asked) + 1 && (p in old(disk.files) ==> r == answers(old(asked)))
    {
      r := Step();
      if r.Done? {
        if p !in disk.files {
          return Failed;
        }
        disk := disk.Put(q, disk.files[p]).Drop(p);
      }
    }

    method SyncDirectory(directory: Directory) returns (r: Outcome)
      modifies this`disk, this`asked
      ensures disk == if r.Done? then old(disk).Sync(directory) else old(disk)
      ensures r == answers(old(asked)) && asked == old(asked) + 1
    {
      r := Step();
      if r.Done? {
        disk := disk.Sync(directory);
      }
    }

    /** Copies what a database reads as into a file of its own and syncs that file; a partial copy is junk. */
    method Materialize(source: Option<Content>, destination: Path) returns (r: Outcome)
      requires disk.Valid()
      modifies this`disk, this`asked
      ensures disk.Valid() && Within(old(disk), disk, iset{destination})
      ensures r.Done? ==> && source.Some? && source.value.Sound?
                          && disk.At(destination) == Some(Database(source.value))
      ensures Ends(r, source.Some? && source.value.Sound?)
    {
      if source.None? || source.value.Damaged? {
        r := Step();
        return if r.Crashed? then r else Failed;
      }
      r := Remove(destination);
      if !r.Done? {
        return;
      }
      r := Create(destination, Junk);
      if !r.Done? {
        return;
      }
      r := Step();
      if r.Done? {
        disk := Disk(disk.files[destination := Database(source.value)], disk.unsynced, disk.volatile);
      }
    }

    /** Removes a database and its side files, trying each of them whatever becomes of the others. */
    method RemoveSqliteFiles(name: Name) returns (r: Outcome)
      requires disk.Valid()
      modifies this`disk, this`asked
      ensures disk.Valid() && Within(old(disk), disk, iset{Main(name), Wal(name), Shm(name)})
      ensures r.Done? ==> FreshName(disk.files, name, None)
      ensures Ends(r, true)
    {
      var candidates := [Main(name), Wal(name), Shm(name)];
      r := Done;
      var i := 0;
      while i < |candidates|
        invariant i <= |candidates| && !r.Crashed? && disk.Valid() && Ends(r, true)
        invariant Within(old(disk), disk, iset{Main(name), Wal(name), Shm(name)})
        invariant r.Done? ==> forall k | 0 <= k < i :: candidates[k] !in disk.files
      {
        var one := Remove(candidates[i]);
        if one.Crashed? {
          return one;
        }
        if one.Failed? {
          r := Failed;
        }
        i := i + 1;
      }
      assert r.Done? ==> candidates[0] !in disk.files && candidates[1] !in disk.files && candidates[2] !in disk.files;
    }

    // ----- Recovery -----

    /** The copies are checked before any database changes. */
    method ValidateCopies(folder: nat, hadOriginal: set<Name>) returns (r: Outcome)
      modifies this`asked
      ensures r.Done? ==> forall name | name in hadOriginal ::
                            Copy(disk.files, folder, name).Some? && Copy(disk.files, folder, name).value.Sound?
      ensures Ends(r, AllIntact(disk, folder, hadOriginal))
    {
      r := Done;
      var i := 0;
      while i < |NAMES|
        invariant i <= |NAMES| && r.Done? && old(asked) <= asked
        invariant forall k | 0 <= k < i && NAMES[k] in hadOriginal ::
                    Copy(disk.files, folder, NAMES[k]).Some? && Copy(disk.files, folder, NAMES[k]).value.Sound?
      {
        if NAMES[i] in hadOriginal {
          r := Step();
          var copy := Copy(disk.files, folder, NAMES[i]);
          assert AllIntact(disk, folder, hadOriginal) ==> Intact(disk, folder, NAMES[i]);
          if r.Done? && (copy.None? || copy.value.Damaged?) {
            r := Failed;
          }
          if !r.Done? {
            return;
          }
        }
        i := i + 1;
      }
      forall name | name in hadOriginal
        ensures Copy(disk.files, folder, name).Some? && Copy(disk.files, folder, name).value.Sound?
      {
        AllNames(name);
      }
    }

    /** Puts a prepared file in the place of a database. */
    method Install(source: Path, name: Name, ghost content: Content) returns (r: Outcome)
      requires disk.Valid() && source in {Temp(name), Staged(name)} && disk.At(source) == Some(Database(content))
      modifies this`disk, this`asked
      ensures disk.Valid() && Within(old(disk), disk, PathsOf(name))
      ensures r.Done? ==> FreshName(disk.files, name, Some(content))
      ensures Ends(r, true)
    {
      r := RemoveSqliteFiles(name);
      if !r.Done? {
        return;
      }
      assert disk.At(source) == old(disk).At(source);
      r := Rename(source, Main(name));
    }

    /** Prepares the copy of a database: a new file, removed again so that the copy can take its name. */
    method PrepareCopy(folder: nat, name: Name) returns (r: Outcome)
      requires disk.Valid()
      modifies this`disk, this`asked
      ensures disk.Valid() && Within(old(disk), disk, iset{Temp(name)})
      ensures r.Done? ==> Intact(old(disk), folder, name)
      ensures r.Done? ==> disk.At(Temp(name)) == Some(Database(Copy(old(disk).files, folder, name).value))
      ensures Ends(r, Intact(old(disk), folder, name))
    {
      r := Create(Temp(name), Junk);
      if !r.Done? {
        return;
      }
      r := Remove(Temp(name));
      if r.Crashed? {
        return;
      }
      r := Materialize(Copy(disk.files, folder, name), Temp(name));
    }

    /** Puts one database back from its copy. */
    method RestoreCopy(folder: nat, name: Name) returns (r: Outcome)
      requires disk.Valid()
      modifies this`disk, this`asked
      ensures disk.Valid() && Within(old(disk), disk, PathsOf(name))
      ensures r.Done? ==> FreshName(disk.files, name, Copy(old(disk).files, folder, name))
      ensures Ends(r, Intact(old(disk), folder, name))
      ensures r.Failed? && Intact(old(disk), folder, name) && OneFails(old(asked)) ==> Temp(name) !in disk.files
    {
      r := PrepareCopy(folder, name);
      if r.Done? {
        r := Install(Temp(name), name, Copy(old(disk).files, folder, name).value);
      }
      if r.Failed? {
        ghost var since := asked;
        var cleanup := Remove(Temp(name));
        if cleanup.Crashed? {
          return cleanup;
        }
        if Intact(old(disk), folder, name) && OneFails(old(asked)) {
          RestIsSmooth(old(asked), since);
        }
      }
    }

    /** Takes one database back to what it was: its copy, or absence. */
    method RollbackOne(folder: nat, name: Name, had: bool) returns (r: Outcome)
      requires disk.Valid()
      modifies this`disk, this`asked
      ensures disk.Valid() && Within(old(disk), disk, PathsOf(name))
      ensures r.Done? ==> FreshName(disk.files, name, Original(old(disk), folder, name, had))
      ensures Ends(r, had ==> Intact(old(disk), folder, name))
    {
      if had {
        r := RestoreCopy(folder, name);
      } else {
        r := RemoveSqliteFiles(name);
      }
    }

    /**
     Puts both databases back: unless every copy is sound nothing at all changes, and success means that
     each database is its copy, for good and without side files.  Nothing but the databases changes.
     */
    method RestoreRollback(folder: nat, hadOriginal: set<Name>) returns (r: Outcome)
      requires disk.Valid()
      modifies this`disk, this`asked, this`exposed
      ensures disk.Valid() && Within(old(disk), disk, TARGETS)
      ensures !AllIntact(old(disk), folder, hadOriginal) ==>
                !r.Done? && disk == old(disk) && exposed == old(exposed)
      ensures disk != old(disk) || exposed != old(exposed) || r.Done? ==>
                AllIntact(old(disk), folder, hadOriginal)
      ensures exposed ==> old(exposed) || !Anchored(old(disk))
      ensures !exposed && (disk != old(disk) || old(exposed)) ==>
                disk.DataSynced() || (Anchored(old(disk)) && !old(exposed))
      ensures r.Done? ==> disk.DataSynced() && !exposed
      ensures r.Done? ==> forall name: Name ::
                FreshName(disk.files, name, Original(old(disk), folder, name, name in hadOriginal))
      ensures Ends(r, AllIntact(old(disk), folder, hadOriginal))
    {
      r := ValidateCopies(folder, hadOriginal);
      if !r.Done? {
        return;
      }
      exposed := exposed || !Anchored(disk);
      var failed := RollbackAll(folder, hadOriginal);
      if failed.Crashed? {
        return failed;
      }
      r := SyncDirectory(Data);
      if r.Done? {
        exposed := false;
        r := failed;
      }
    }

    /** Takes both databases back, trying the second one whatever becomes of the first. */
    method RollbackAll(folder: nat, hadOriginal: set<Name>) returns (r: Outcome)
      requires disk.Valid()
      modifies this`disk, this`asked
      ensures disk.Valid() && Within(old(disk), disk, TARGETS)
      ensures r.Done? ==> forall name: Name ::
                FreshName(disk.files, name, Original(old(disk), folder, name, name in hadOriginal))
      ensures Ends(r, AllIntact(old(disk), folder, hadOriginal))
    {
      ghost var start := disk;
      var failed := false;
      var i := 0;
      while i < |NAMES|
        invariant i <= |NAMES| && disk.Valid() && Within(start, disk, TARGETS)
        invariant Ends(if failed then Failed else Done, AllIntact(start, folder, hadOriginal))
        invariant !failed ==> forall k | 0 <= k < i ::
                    FreshName(disk.files, NAMES[k], Original(start, folder, NAMES[k], NAMES[k] in hadOriginal))
      {
        var name := NAMES[i];
        ghost var here := disk;
        SameOriginal(start, disk, folder, name);
        assert name in hadOriginal && AllIntact(start, folder, hadOriginal) ==> Intact(disk, folder, name) by {
          assert Original(disk, folder, name, true) == Original(start, folder, name, true);
        }
        r := RollbackOne(folder, name, name in hadOriginal);
        if r.Crashed? {
          return;
        }
        if r.Failed? {
          failed := true;
        }
        forall k | 0 <= k < i
          ensures forall content :: FreshName(here.files, NAMES[k], content) ==>
                FreshName(disk.files, NAMES[k], content)
        {
          StillFresh(here, disk, NAMES[k], name);
        }
        i := i + 1;
      }
      r := if failed then Failed else Done;
      forall name: Name | r.Done?
        ensures FreshName(disk.files, name, Original(start, folder, name, name in hadOriginal))
      {
        AllNames(name);
      }
    }

    /** Removes the journal; for the commit step this is the moment at which the new databases become current. */
    method RemoveRestoreJournal(ghost commit: bool) returns (r: Outcome)
      modifies this`disk, this`asked, this`committed
      ensures r.Done? ==> disk == old(disk).Drop(Journal).Sync(Data)
      ensures !r.Done? ==> disk == old(disk) || disk == old(disk).Drop(Journal)
      ensures committed == if commit then Journal !in disk.files else old(committed)
      ensures Ends(r, true)
    {
      r := Remove(Journal);
      committed := if commit then Journal !in disk.files else committed;
      if r.Done? {
        r := SyncDirectory(Data);
      }
    }

    /**
     Undoes a restore: what the journal names is put back and only then is the journal removed.  Wherever
     this stops, doing it again still puts the same pair back.  Under a journal that is not durable a power
     loss must not come before the data directory is synced.
     */
    method RollbackInterruptedRestore(folder: nat, hadOriginal: set<Name>, ghost s: Session, ghost sh: Shadow)
      returns (r: Outcome)
      requires disk.Valid() && Note(folder, hadOriginal) == s.Record() && disk.At(Journal) == Some(s.Record())
      requires Apart(s, sh) && if exposed then Held(disk, s) else Secured(disk, s) || Untouched(disk, s, sh)
      modifies this`disk, this`asked, this`committed, this`exposed
      ensures committed == old(committed)
      ensures if exposed then disk.Valid() && Held(disk, s) else Recoverable(disk, s, false, sh)
      ensures exposed ==> old(exposed) || !Anchored(old(disk))
      ensures !AllIntact(old(disk), folder, hadOriginal) ==>
                !r.Done? && disk == old(disk) && exposed == old(exposed)
      ensures r.Done? ==> !exposed && AtRest(disk, s.before) && Fresh(disk.files, s.before)
      ensures Ends(r, AllIntact(old(disk), folder, hadOriginal)) && SameFolders(old(disk), disk)
      ensures Salvaged(old(disk), s) ==> Salvaged(disk, s)
    {
      r := PutBack(folder, hadOriginal, s, sh);
      if r.Done? {
        r := EndRollback(s, sh);
      }
    }

    /** The first half of that: the databases are put back, and the journal still stands. */
    method PutBack(folder: nat, hadOriginal: set<Name>, ghost s: Session, ghost sh: Shadow) returns (r: Outcome)
      requires disk.Valid() && Note(folder, hadOriginal) == s.Record() && disk.At(Journal) == Some(s.Record())
      requires if exposed then Held(disk, s) else Secured(disk, s) || Untouched(disk, s, sh)
      modifies this`disk, this`asked, this`exposed
      ensures disk.Valid() && if exposed then Held(disk, s) else Untouched(disk, s, sh) || Secured(disk, s)
      ensures exposed ==> old(exposed) || !Anchored(old(disk))
      ensures !AllIntact(old(disk), folder, hadOriginal) ==>
                !r.Done? && disk == old(disk) && exposed == old(exposed)
      ensures r.Done? ==> !exposed && Secured(disk, s) && disk.DataSynced() && Fresh(disk.files, s.before)
      ensures Ends(r, AllIntact(old(disk), folder, hadOriginal)) && SameFolders(old(disk), disk)
      ensures Salvaged(old(disk), s) ==> Salvaged(disk, s)
    {
      r := RestoreRollback(folder, hadOriginal);
      FoldersWithin(old(disk), disk);
      SalvagedWithin(old(disk), disk, TARGETS, s);
      RollbackKeeps(old(disk), old(exposed), disk, exposed, r.Done?, s, sh);
    }

    method EndRollback(ghost s: Session, ghost sh: Shadow) returns (r: Outcome)
      requires disk.Valid() && disk.DataSynced() && Secured(disk, s) && Fresh(disk.files, s.before) && Apart(s, sh)
      modifies this`disk, this`asked, this`committed
      ensures committed == old(committed) && Recoverable(disk, s, false, sh)
      ensures r.Done? ==> AtRest(disk, s.before) && Fresh(disk.files, s.before)
      ensures Ends(r, true) && SameFolders(old(disk), disk)
      ensures Salvaged(old(disk), s) ==> Salvaged(disk, s)
    {
      RolledBack(disk, s, sh);
      r := RemoveRestoreJournal(false);
      if r.Done? {
        AtRestIsUntouched(disk, s, sh);
      }
    }

    /** Recovery as it runs before the data directory can be used at all. */
    method RecoverInterruptedRestore() returns (r: Outcome)
      requires Valid()
      modifies this`disk, this`asked, this`committed, this`exposed
      ensures Valid() && committed == old(committed)
      ensures exposed ==> old(exposed) || !Anchored(old(disk))
      ensures Journal !in old(disk).files ==> disk == old(disk) && exposed == old(exposed)
      ensures Journal in old(disk).files && !AllIntact(old(disk), session.folder, session.before.Keys) ==>
                !r.Done? && disk == old(disk) && exposed == old(exposed)
      ensures r.Done? ==> Journal !in disk.files && !exposed
      ensures r.Done? && Journal in old(disk).files ==> AtRest(disk, session.before)
                                                        && Fresh(disk.files, session.before)
      ensures Ends(r, Salvaged(old(disk), session)) && SameFolders(old(disk), disk)
      ensures Salvaged(old(disk), session) ==> Salvaged(disk, session)
    {
      assert disk.CouldBe(Journal, disk.At(Journal));
      r := Step();
      if r.Crashed? || Journal !in disk.files || r.Failed? {
        return;
      }
      match disk.files[Journal]
      case Note(folder, hadOriginal) =>
        r := RollbackInterruptedRestore(folder, hadOriginal, session, shadow);
        assert disk.CouldBe(Journal, disk.At(Journal));
      case _ =>
        r := Failed;
    }

    /**
     Taking the lock: success leaves no journal, and the databases read as the new pair exactly when the
     commit step has removed the journal, as the old pair otherwise.  They are never mixed.
     */
    method AcquireLock() returns (r: Outcome)
      requires Valid()
      modifies this`disk, this`asked, this`committed, this`exposed
      ensures Valid() && committed == old(committed)
      ensures exposed ==> old(exposed) || !Anchored(old(disk))
      ensures Journal !in old(disk).files ==> disk == old(disk) && exposed == old(exposed)
      ensures Journal in old(disk).files && !AllIntact(old(disk), session.folder, session.before.Keys) ==>
                !r.Done? && disk == old(disk) && exposed == old(exposed)
      ensures r.Done? ==> Journal !in disk.files && !exposed && Holds(disk.files, Current())
      ensures r.Done? ==> LeadsTo(old(disk).files, Current())
      ensures r.Done? && Journal in old(disk).files ==> AtRest(disk, session.before)
                                                        && Fresh(disk.files, session.before)
      ensures Ends(r, Salvaged(old(disk), session)) && SameFolders(old(disk), disk)
      ensures Salvaged(old(disk), session) ==> Salvaged(disk, session)
    {
      r := Step();  // creating the directory, opening the lock file, taking the lock
      if r.Done? {
        r := RecoverInterruptedRestore();
      }
      if r.Done? {
        Settled(disk, session, committed, shadow);
        if Journal in old(disk).files && !old(exposed) {
          IntactIsHeld(old(disk), session, shadow);
        }
        if Journal in old(disk).files {
          HeldLeadsTo(old(disk), session);
        }
      }
    }

    // ----- Restore -----

    /** Prepares sound copies of the backup in the stage directory. */
    method StageBackup(backup: Pair) returns (r: Outcome)
      requires disk.Valid() && forall name: Name :: name in backup
      modifies this`disk, this`asked
      ensures disk.Valid() && Within(old(disk), disk, SCRATCH)
      ensures r.Done? ==> StagedAll(disk, backup)
      ensures Ends(r, AllSound(backup))
      ensures r.Done? ==> AllSound(backup)
    {
      r := Done;
      var i := 0;
      while i < |NAMES|
        invariant i <= |NAMES| && r.Done? && disk.Valid() && Within(old(disk), disk, SCRATCH) && old(asked) <= asked
        invariant forall k | 0 <= k < i :: StagedOne(disk, backup, NAMES[k])
      {
        r := Materialize(Some(backup[NAMES[i]]), Staged(NAMES[i]));
        if !r.Done? {
          return;
        }
        i := i + 1;
      }
      forall name: Name ensures StagedOne(disk, backup, name) {
        AllNames(name);
      }
      assert forall name | name in backup :: StagedOne(disk, backup, name);
    }

    /** Tries to remove everything in the stage directory. */
    method RemoveStage() returns (r: Outcome)
      requires disk.Valid()
      modifies this`disk, this`asked
      ensures disk.Valid() && Within(old(disk), disk, SCRATCH) && !r.Failed?
      ensures Ends(r, true) && (Smooth(old(asked)) ==> StageEmpty(disk))
    {
      var i := 0;
      while i < |NAMES|
        invariant i <= |NAMES| && disk.Valid() && Within(old(disk), disk, SCRATCH) && old(asked) <= asked
        invariant Smooth(old(asked)) ==> forall k | 0 <= k < i :: Staged(NAMES[k]) !in disk.files
      {
        r := Remove(Staged(NAMES[i]));
        if r.Crashed? {
          return;
        }
        i := i + 1;
      }
      r := Done;
      forall name: Name | Smooth(old(asked)) ensures Staged(name) !in disk.files {
        AllNames(name);
      }
    }

    /** Tries to remove a rollback directory; any part of it may stay. */
    method RemoveRollback(folder: nat) returns (r: Outcome)
      requires disk.Valid()
      modifies this`disk, this`asked
      ensures disk.Valid() && OnlyRemoved(old(disk), disk, folder) && !r.Failed?
      ensures Ends(r, true) && (Smooth(old(asked)) ==> RollbackGone(disk, folder))
    {
      hide OnlyRemoved;
      NothingRemoved(disk, folder);
      var i := 0;
      while i < |NAMES|
        invariant i <= |NAMES| && disk.Valid() && OnlyRemoved(old(disk), disk, folder) && old(asked) <= asked
        invariant Smooth(old(asked)) ==> forall k | 0 <= k < i :: In(folder, NAMES[k]) !in disk.files
      {
        RemovedToo(old(disk), disk, In(folder, NAMES[i]), folder);
        r := Remove(In(folder, NAMES[i]));
        if r.Crashed? {
          return;
        }
        i := i + 1;
      }
      RemovedToo(old(disk), disk, Folder(folder), folder);
      r := Remove(Folder(folder));
      if r.Failed? {
        r := Done;
      }
      forall name: Name | Smooth(old(asked)) ensures In(folder, name) !in disk.files {
        AllNames(name);
      }
    }

    /** Copies each database that is there into the rollback directory, and makes the copies durable. */
    method CopyOriginals(folder: nat) returns (r: Outcome, hadOriginal: set<Name>)
      requires disk.Valid()
      modifies this`disk, this`asked
      ensures disk.Valid() && Within(old(disk), disk, CopiesOf(folder))
      ensures r.Done? ==> forall name: Name :: name in hadOriginal <==> Main(name) in old(disk).files
      ensures r.Done? ==> forall name | name in hadOriginal :: CopiedOne(old(disk), disk, folder, name)
      ensures r.Done? ==> forall name | name in hadOriginal :: disk.Durable(In(folder, name))
      ensures Ends(r, OriginalsSound(old(disk)))
    {
      hadOriginal := {};
      r := Done;
      var i := 0;
      while i < |NAMES|
        invariant i <= |NAMES| && r.Done? && disk.Valid() && Within(old(disk), disk, CopiesOf(folder))
        invariant old(asked) <= asked
        invariant forall name | name in hadOriginal :: exists k :: 0 <= k < i && NAMES[k] == name
        invariant forall k | 0 <= k < i :: NAMES[k] in hadOriginal <==> Main(NAMES[k]) in old(disk).files
        invariant forall name | name in hadOriginal :: CopiedOne(old(disk), disk, folder, name)
      {
        var name := NAMES[i];
        SameReading(old(disk), disk, CopiesOf(folder), name);
        r := Step();  // looking whether the database is there
        if !r.Done? {
          return;
        }
        if Main(name) in disk.files {
          r := Materialize(Reads(disk.files, name), In(folder, name));
          if !r.Done? {
            return;
          }
          hadOriginal := hadOriginal + {name};
        }
        i := i + 1;
      }
      forall name: Name ensures name in hadOriginal <==> Main(name) in old(disk).files {
        AllNames(name);
      }
      r := SyncDirectory(Rollback(folder));
    }

    /** From the rename on a power loss may bring back either state; after the sync the journal is there for good. */
    method PublishJournal(ghost s: Session, ghost sh: Shadow) returns (r: Outcome)
      requires Ready(disk, s, sh) && CopiesWritten(disk, s) && disk.At(JournalTemp) == Some(s.Record())
      modifies this`disk, this`asked
      ensures disk.Valid() && Within(old(disk), disk, iset{Journal, JournalTemp})
      ensures if r.Done? then Secured(disk, s) else Untouched(disk, s, sh) && ThereOrNever(disk, s)
      ensures Ends(r, true)
      ensures Journal in disk.files ==> Held(disk, s)
      ensures r.Failed? ==> !Unfailing(old(asked))
    {
      JournalRenamed(disk, s, sh);
      r := Rename(JournalTemp, Journal);
      if r.Done? {
        JournalSynced(disk, s);
        r := SyncDirectory(Data);
      }
    }

    /** Writes the journal under a name of its own, then publishes it. */
    method WriteRestoreJournal(folder: nat, hadOriginal: set<Name>, ghost s: Session, ghost sh: Shadow)
      returns (r: Outcome)
      requires Note(folder, hadOriginal) == s.Record() && Ready(disk, s, sh) && CopiesWritten(disk, s)
      modifies this`disk, this`asked
      ensures disk.Valid() && Within(old(disk), disk, iset{Journal, JournalTemp})
      ensures r.Done? ==> Secured(disk, s)
      ensures r.Failed? ==> Untouched(disk, s, sh) && ThereOrNever(disk, s)
      ensures r.Crashed? ==> Untouched(disk, s, sh) || Secured(disk, s)
      ensures Ends(r, true)
      ensures Journal in disk.files ==> Held(disk, s)
      ensures r.Failed? ==> !Unfailing(old(asked))
      ensures r.Failed? && OneFails(old(asked)) && JournalTemp in disk.files ==> JournalTemp in old(disk).files
    {
      r := Create(JournalTemp, Note(folder, hadOriginal));
      if !r.Done? {
        return;
      }
      ReadyWithin(old(disk), disk, iset{JournalTemp}, s, sh);
      r := Step();  // permissions, contents, sync and close
      if r.Done? {
        r := PublishJournal(s, sh);
      }
      if !r.Crashed? {
        ghost var since := asked;
        r := RemovePrivateJournal(r, s, sh);
        if r.Failed? && OneFails(old(asked)) {
          RestIsSmooth(old(asked), since);
        }
      }
    }

    /** The deferred clean-up of the journal's private name. */
    method RemovePrivateJournal(result: Outcome, ghost s: Session, ghost sh: Shadow) returns (r: Outcome)
      requires disk.Valid()
      requires if result.Done? then Secured(disk, s) else Untouched(disk, s, sh) && ThereOrNever(disk, s)
      modifies this`disk, this`asked
      ensures disk.Valid() && Within(old(disk), disk, iset{JournalTemp})
      ensures r == result || r.Crashed?
      ensures if result.Done? then Secured(disk, s) else Untouched(disk, s, sh) && ThereOrNever(disk, s)
      ensures Ends(r, result.Done?) && (Smooth(old(asked)) ==> JournalTemp !in disk.files)
      ensures Held(old(disk), s) ==> Held(disk, s)
    {
      r := Remove(JournalTemp);
      ScratchLeaves(old(disk), disk, s, sh);
      if !r.Crashed? {
        r := result;
      }
    }

    /** Moves the staged databases into place, one after the other. */
    method ReplaceDatabases(ghost backup: Pair) returns (r: Outcome)
      requires disk.Valid() && StagedAll(disk, backup)
      modifies this`disk, this`asked
      ensures disk.Valid() && Within(old(disk), disk, TARGETS)
      ensures r.Done? ==> Fresh(disk.files, backup)
      ensures Ends(r, true)
    {
      forall name: Name ensures name in backup {
        assert StagedOne(disk, backup, name);
      }
      r := Done;
      var i := 0;
      while i < |NAMES|
        invariant i <= |NAMES| && r.Done? && disk.Valid() && Within(old(disk), disk, TARGETS) && old(asked) <= asked
        invariant forall k | 0 <= k < i :: FreshName(disk.files, NAMES[k], Lookup(backup, NAMES[k]))
        invariant forall k | i <= k < |NAMES| :: StagedOne(disk, backup, NAMES[k])
      {
        var name := NAMES[i];
        ghost var here := disk;
        r := Install(Staged(name), name, backup[name]);
        if !r.Done? {
          return;
        }
        forall k | 0 <= k < |NAMES| && k != i
          ensures forall content :: FreshName(here.files, NAMES[k], content) ==>
                FreshName(disk.files, NAMES[k], content)
          ensures disk.At(Staged(NAMES[k])) == here.At(Staged(NAMES[k]))
        {
          StillFresh(here, disk, NAMES[k], name);
          SamePath(here, disk, PathsOf(name), Staged(NAMES[k]));
        }
        i := i + 1;
      }
      forall name: Name ensures FreshName(disk.files, name, Lookup(backup, name)) {
        AllNames(name);
      }
    }

    method PutInPlace(ghost s: Session) returns (r: Outcome)
      requires disk.Valid() && Secured(disk, s) && StagedAll(disk, s.after)
      modifies this`disk, this`asked
      ensures disk.Valid() && Secured(disk, s) && Ends(r, true)
      ensures r.Done? ==> disk.TargetsDurable() && Fresh(disk.files, s.after)
    {
      r := ReplaceDatabases(s.after);
      SecuredWithin(old(disk), disk, s);
      if r.Done? {
        Synced(disk, s);
        r := SyncDirectory(Data);
      }
    }

    /**
     Replaces the databases under the journal: success commits the restore, and an error undoes it.  The journal
     stays only if the error came with the commit itself, or undoing failed too.
     */
    method ReplaceUnderJournal(folder: nat, hadOriginal: set<Name>, ghost s: Session, ghost sh: Shadow)
      returns (r: Outcome, journalWritten: bool)
      requires disk.Valid() && !committed && !exposed && Secured(disk, s) && Note(folder, hadOriginal) == s.Record()
      requires StagedAll(disk, s.after) && Apart(s, sh)
      modifies this`disk, this`asked, this`committed, this`exposed
      ensures Recoverable(disk, s, committed, sh) && !exposed
      ensures r.Done? ==> committed && AtRest(disk, s.after) && Fresh(disk.files, s.after)
      ensures r.Failed? && !journalWritten ==> !committed && AtRest(disk, s.before)
      ensures Ends(r, true)
      ensures Salvaged(disk, s)
      ensures r.Failed? && journalWritten && OneFails(old(asked)) ==> Fresh(disk.files, s.after)
    {
      journalWritten := true;
      r := PutInPlace(s);
      if r.Crashed? {
        return;
      }
      if r.Failed? {
        ghost var since := asked;
        r := RollbackInterruptedRestore(folder, hadOriginal, s, sh);
        if OneFails(old(asked)) {
          RestIsSmooth(old(asked), since);
        }
        if r.Done? {
          r, journalWritten := Failed, false;
        }
        return;
      }
      Committed(disk, s);
      r := RemoveRestoreJournal(true);
      journalWritten := !r.Done?;
    }

    /** From the rollback copies to the commit; `keep` says that the rollback directory is still needed. */
    method CopyAndReplace(folder: nat, ghost s: Session, ghost sh: Shadow) returns (r: Outcome, keep: bool)
      requires Ready(disk, s, sh) && !committed && !exposed && s.folder == folder && Folder(folder) in disk.files
      requires StagedAll(disk, s.after)
      modifies this`disk, this`asked, this`committed, this`exposed
      ensures Recoverable(disk, s, committed, sh) && !exposed
      ensures r.Done? ==> keep && committed && AtRest(disk, s.after) && Fresh(disk.files, s.after)
      ensures r.Failed? && !keep ==> !committed && Untouched(disk, s, sh) && ThereOrNever(disk, s)
      ensures Ends(r, AllSound(s.before))
      ensures Salvaged(disk, s) && (r.Failed? && !keep && Journal in disk.files ==> !Unfailing(old(asked)))
      ensures r.Failed? && keep && OneFails(old(asked)) ==> Fresh(disk.files, s.after)
      ensures r.Done? ==> AllSound(s.before)
    {
      keep := false;
      var hadOriginal: set<Name>;
      r, hadOriginal := CopyOriginals(folder);
      ReadyWithin(old(disk), disk, CopiesOf(folder), s, sh);
      assert disk.CouldBe(Journal, disk.At(Journal));
      if !r.Done? {
        return;
      }
      OriginalsCopied(old(disk), disk, hadOriginal, s);
      ghost var copied := disk;
      r := WriteRestoreJournal(folder, hadOriginal, s, sh);
      if !r.Done? {
        return;
      }
      StillStaged(old(disk), copied, disk, s);
      var journalWritten: bool;
      r, journalWritten := ReplaceUnderJournal(folder, hadOriginal, s, sh);
      keep := journalWritten || r.Done?;
      if r.Failed? && !keep {
        assert disk.CouldBe(Journal, disk.At(Journal));
        AtRestIsUntouched(disk, s, sh);
      }
    }

    /** Makes the rollback directory, and clears it away again when nothing refers to it. */
    method ReplaceWithRollback(folder: nat, ghost s: Session, ghost sh: Shadow) returns (r: Outcome)
      requires Ready(disk, s, sh) && !committed && !exposed && s.folder == folder && StagedAll(disk, s.after)
      modifies this`disk, this`asked, this`committed, this`exposed
      ensures Recoverable(disk, s, committed, sh) && !exposed
      ensures r.Done? ==> committed && AtRest(disk, s.after) && Fresh(disk.files, s.after)
      ensures Ends(r, AllSound(s.before) && Folder(folder) !in old(disk).files)
      ensures Unfailing(old(asked)) ==> Salvaged(disk, s)
      ensures r.Done? ==> AllSound(s.before) && Folder(folder) !in old(disk).files
      ensures r.Failed? && OneFails(old(asked)) ==> Whole(disk, s)
      ensures r.Failed? && OneFails(old(asked)) && AllSound(s.before) && Folder(folder) !in old(disk).files ==>
                Fresh(disk.files, s.after) || Folder(folder) !in disk.files
    {
      if Folder(folder) in disk.files {
        return Failed;
      }
      r := Create(Folder(folder), Subdirectory);
      if !r.Done? {
        return;
      }
      ReadyWithin(old(disk), disk, iset{Folder(folder)}, s, sh);
      StillStagedWithin(old(disk), disk, iset{Folder(folder)}, s.after);
      var keep: bool;
      r, keep := CopyAndReplace(folder, s, sh);
      if r.Failed? && !keep {
        ghost var unneeded, since := disk, asked;
        var cleanup := RemoveRollback(folder);
        if OneFails(old(asked)) && AllSound(s.before) {
          RestIsSmooth(old(asked), since);
        }
        RemovalLeaves(unneeded, disk, s, sh);
        if cleanup.Crashed? {
          return cleanup;
        }
      }
    }

    /**
     Replaces both databases by the backup, whatever an earlier restore has left behind.  Wherever it stops,
     what is on the disk can be recovered, and success means that the new databases are in place for good,
     with no side file of the old ones.  What it replaces is what the earlier restore has come to.  If only one
     step has failed, the databases are a whole pair already, without any recovery.
     */
    method Restore(backup: Pair, folder: nat) returns (r: Outcome)
      requires Valid() && folder != session.folder && (shadow.Shadow? ==> folder != shadow.session.folder)
      modifies this
      ensures Valid()
      ensures if session == old(session) then committed == old(committed) && shadow == old(shadow) && !r.Done?
              else && session == Session(old(Current()), backup, folder) && !exposed
                   && (shadow.Shadow? ==> shadow.session == old(session) || shadow == old(shadow))
      ensures r.Done? ==> committed && AtRest(disk, backup) && Fresh(disk.files, backup)
      ensures Ends(r, Restorable(old(disk), old(session), old(Current()), backup, folder))
      ensures Unfailing(old(asked)) && Salvaged(old(disk), old(session)) ==> Salvaged(disk, session)
      ensures r.Done? ==> Restorable(old(disk), old(session), old(Current()), backup, folder)
      ensures r.Failed? && session != old(session) && OneFails(old(asked)) ==> Whole(disk, session)
      ensures r.Done? && Smooth(old(asked)) ==> StageEmpty(disk)
    {
      if Controller !in backup || Operations !in backup {
        return Failed;
      }
      forall name: Name ensures name in backup {
        AllNames(name);
      }
      r := AcquireLock();
      if !r.Done? {
        return;
      }
      Begin(backup, folder);
      r := StageAndReplace(backup, folder);
    }

    /** The backup is staged, takes the place of the databases, and the stage is cleared away. */
    method StageAndReplace(backup: Pair, folder: nat) returns (r: Outcome)
      requires Ready(disk, session, shadow) && !committed && !exposed && forall name: Name :: name in backup
      requires session.after == backup && session.folder == folder
      modifies this`disk, this`asked, this`committed, this`exposed
      ensures Valid() && !exposed && (Unfailing(old(asked)) ==> Salvaged(disk, session))
      ensures r.Failed? && OneFails(old(asked)) ==> Whole(disk, session)
      ensures r.Done? ==> committed && AtRest(disk, backup) && Fresh(disk.files, backup)
      ensures r.Done? ==> Replaceable(old(disk), session) && (Smooth(old(asked)) ==> StageEmpty(disk))
      ensures Ends(r, Replaceable(old(disk), session))
    {
      assert disk.CouldBe(Journal, disk.At(Journal));
      r := StageBackup(backup);
      ReadyWithin(old(disk), disk, SCRATCH, session, shadow);
      SamePath(old(disk), disk, SCRATCH, Folder(folder));
      SamePath(old(disk), disk, SCRATCH, Journal);
      if r.Done? {
        r := ReplaceWithRollback(folder, session, shadow);
      }
      if !r.Crashed? {
        r := FinishStage(r);
      }
    }

    /** Clears the stage directory away; nothing of that matters to the databases. */
    method FinishStage(result: Outcome) returns (r: Outcome)
      requires Valid() && !exposed
      requires result.Done? ==> committed && AtRest(disk, session.after) && Fresh(disk.files, session.after)
      modifies this`disk, this`asked
      ensures Valid() && (r == result || r.Crashed?)
      ensures r.Done? ==> AtRest(disk, session.after) && Fresh(disk.files, session.after)
      ensures Ends(r, result.Done?)
      ensures Salvaged(old(disk), session) ==> Salvaged(disk, session)
      ensures (Whole(old(disk), session) ==> Whole(disk, session)) && (Smooth(old(asked)) ==> StageEmpty(disk))
    {
      var cleanup := RemoveStage();
      ScratchLeaves(old(disk), disk, session, shadow);
      ScratchLeavesDatabases(old(disk), disk, session.before);
      ScratchLeavesDatabases(old(disk), disk, session.after);
      SamePath(old(disk), disk, SCRATCH, Journal);
      SalvagedWithin(old(disk), disk, SCRATCH, session);
      r := if cleanup.Crashed? then cleanup else result;
    }

    /** From here on the restore in charge is a new one, and that before it at most a shadow. */
    ghost method Begin(backup: Pair, folder: nat)
      requires Valid() && !exposed && Journal !in disk.files && folder != session.folder
      requires shadow.Shadow? ==> folder != shadow.session.folder
      modifies this`session, this`committed, this`shadow
      ensures session == Session(old(Current()), backup, folder) && !committed && Ready(disk, session, shadow)
      ensures shadow.Shadow? ==> shadow.session == old(session) || shadow == old(shadow)
    {
      NextIsReady(disk, session, committed, shadow, Session(Current(), backup, folder));
      session, committed, shadow :=
        Session(Current(), backup, folder), false, NextShadow(disk, session, committed, shadow);
    }

    // ----- Whole runs -----

    /** A power loss: every path keeps what it holds or falls back to what it held since its last sync. */
    method PowerLoss(after: Files)
      requires Valid() && !exposed && disk.Survives(after)
      modifies this`disk, this`session, this`committed, this`shadow
      ensures Valid() && disk == Disk(after, {}, old(disk.volatile)) && Anchored(disk) && shadow == NoShadow
      ensures session == old(session) || (old(shadow).Shadow? && session == old(shadow).session && !committed)
      ensures session == old(session) ==> committed == (old(committed) && Journal !in after)
    {
      SurvivorsRecover(disk, after, session, committed, shadow);
      if shadow.Shadow? && At(after, Journal) == Some(shadow.session.Record()) {
        session, committed := shadow.session, false;
      } else {
        committed := committed && Journal !in after;
      }
      disk, shadow := Disk(after, {}, disk.volatile), NoShadow;
    }

    /**
     The holder of the lock changes the databases, in whatever way SQLite changes its files, and what it has
     written is there for good.  A journal that may still come back then undoes this too.
     */
    method ChangeDatabases(files: Files, next: Pair, ghost folder: nat)
      requires Valid() && !exposed && Journal !in disk.files && OnlyTargets(disk.files, files) && Holds(files, next)
      requires folder != session.folder && (shadow.Shadow? ==> folder != shadow.session.folder)
      modifies this`disk, this`session, this`committed, this`shadow
      ensures Valid() && disk == old(disk).Rewrite(files) && Journal !in disk.files && Holds(disk.files, Current())
      ensures session == Session(next, next, folder) && !committed
      ensures shadow == NextShadow(old(disk), old(session), old(committed), old(shadow))
    {
      ChangeIsReady(disk, session, committed, shadow, files, Session(next, next, folder));
      shadow := NextShadow(disk, session, committed, shadow);
      disk, session, committed := disk.Rewrite(files), Session(next, next, folder), false;
    }

    /** The pairs that the databases may read as once they are recovered. */
    ghost function Possible(): set<Pair>
      reads this
    {
      {session.before} + (if committed then {session.after} else {})
      + if shadow.Shadow? then {shadow.session.before} else {}
    }

    /** No journal that is gone can come back. */
    ghost predicate NeverBack()
      reads this
    {
      Journal in disk.files || disk.Durable(Journal)
    }

    /**
     Any number of restores, of attempts to take the lock and of changes to the databases while it is held, each
     of which may fail or crash at any step, with a power loss before any of them, but for a power loss before a
     recovery under a journal that is not durable has synced the data directory.  Whoever gets the lock finds
     one whole pair, one of those that the history leaves possible.
     */
    method RunRestores(steps: nat, first: nat) returns (locked: bool, history: seq<Event>)
      requires Valid() && UsedBelow(first)
      modifies this
      ensures Valid() && (locked ==> LockHeld())
      ensures Current() in PairsAfter(old(Possible()), old(NeverBack()), history)
      ensures Lasting(old(NeverBack()), history) ==> NeverBack()
      ensures old(asked) <= asked
      ensures Lost !in history && Unfailing(old(asked)) && old(Salvaged(disk, session)) ==> Salvaged(disk, session)
    {
      hide Recoverable, Held, Holds;
      locked, history := false, [];
      var folder := first;
      for i := 0 to steps
        invariant Valid() && UsedBelow(folder) && Accounted(old(Possible()), old(NeverBack()), history)
        invariant (locked ==> LockHeld()) && old(asked) <= asked
        invariant Lost !in history && Unfailing(old(asked)) && old(Salvaged(disk, session)) ==> Salvaged(disk, session)
      {
        var event: Event;
        ghost var pairs, neverBack := Possible(), NeverBack();
        locked, event := RunStep(locked, folder);
        HistoryGrows(old(Possible()), old(NeverBack()), history, event, pairs, neverBack);
        history, folder := history + [event], folder + 1;
      }
    }

    /**
     Process crashes are always survived: after any history without a power loss in which no step has reported a
     failure, an attempt to take the lock gets it if every step of its own is done.
     */
    method RunThenLock(steps: nat, first: nat) returns (history: seq<Event>, ghost since: nat, r: Outcome)
      requires Valid() && UsedBelow(first) && Salvaged(disk, session)
      modifies this
      ensures Valid() && (r.Done? ==> LockHeld()) && old(asked) <= since <= asked
      ensures Lost !in history && (forall i | old(asked) <= i < since :: !answers(i).Failed?) && Smooth(since) ==>
                r.Done?
    {
      var locked: bool;
      locked, history := RunRestores(steps, first);
      since := asked;
      r := LockOnce();
    }

    ghost predicate Accounted(start: set<Pair>, neverBack: bool, history: seq<Event>)
      reads this
    {
      Possible() <= PairsAfter(start, neverBack, history) && (Lasting(neverBack, history) ==> NeverBack())
    }

    /** Whoever holds the lock finds no journal and one whole pair. */
    ghost predicate LockHeld()
      reads this
    {
      !exposed && Journal !in disk.files && Holds(disk.files, Current())
    }

    ghost predicate UsedBelow(folder: nat)
      reads this
    {
      session.folder < folder && (shadow.Shadow? ==> shadow.session.folder < folder)
    }

    method RunStep(locked: bool, folder: nat) returns (holds: bool, event: Event)
      requires Valid() && UsedBelow(folder) && (locked ==> LockHeld())
      modifies this
      ensures Valid() && UsedBelow(folder + 1) && (holds ==> LockHeld())
      ensures Possible() <= Leaves(event, old(Possible()), old(NeverBack()))
      ensures Settles(event, old(NeverBack())) ==> NeverBack()
      ensures old(asked) <= asked
      ensures !event.Lost? && Unfailing(old(asked)) && Salvaged(old(disk), old(session)) ==> Salvaged(disk, session)
      ensures event.Locked? ==> (holds <==> event.result.Done?) && Ends(event.result, Salvaged(old(disk), old(session)))
      ensures event.Restored? ==>
                Ends(event.result, Restorable(old(disk), old(session), old(Current()), event.backup, folder))
    {
      var kind: nat, files: Files, pair: Pair := *, *, *;
      if kind == 0 && !exposed && disk.Survives(files) {
        Interrupt(files);
        holds, event := false, Lost;
      } else if kind == 1 {
        var r := RestoreOnce(pair, folder);
        holds, event := false, Restored(pair, r);
      } else if kind == 2 && locked && OnlyTargets(disk.files, files) && Holds(files, pair) {
        ChangeOnce(files, pair, folder);
        holds, event := true, Changed(pair);
      } else if kind == 3 && locked {
        SyncWhileHeld();
        holds, event := true, Flushed;
      } else {
        var found := Journal in disk.files;
        var r := LockOnce();
        holds, event := r.Done?, Locked(found, r);
      }
    }

    /** An attempt to take the lock; one that has recovered a restore leaves no journal that can come back. */
    method LockOnce() returns (r: Outcome)
      requires Valid()
      modifies this`disk, this`asked, this`committed, this`exposed
      ensures Valid() && Possible() == old(Possible())
      ensures r.Done? ==> LockHeld()
      ensures Settles(Locked(Journal in old(disk).files, r), old(NeverBack())) ==> NeverBack()
      ensures Ends(r, Salvaged(old(disk), session))
      ensures Salvaged(old(disk), session) ==> Salvaged(disk, session)
    {
      r := AcquireLock();
      if r.Done? && Journal in old(disk).files {
        AtRestIsForGood(disk, session.before);
      }
    }

    /** A power loss that comes while no recovery is exposed to it. */
    method Interrupt(after: Files)
      requires Valid() && !exposed && disk.Survives(after)
      modifies this`disk, this`session, this`committed, this`shadow
      ensures Valid() && Possible() <= old(Possible()) && NeverBack() && shadow == NoShadow
      ensures session == old(session) || (old(shadow).Shadow? && session == old(shadow).session)
    {
      PowerLoss(after);
    }

    /** A restore; once it has succeeded nothing can come back from before it. */
    method RestoreOnce(backup: Pair, folder: nat) returns (r: Outcome)
      requires Valid() && UsedBelow(folder)
      modifies this
      ensures Valid() && UsedBelow(folder + 1)
      ensures Possible() <= if r.Done? then {backup} else old(Possible()) + {backup}
      ensures r.Done? ==> NeverBack()
      ensures old(asked) <= asked
      ensures Unfailing(old(asked)) && Salvaged(old(disk), old(session)) ==> Salvaged(disk, session)
      ensures Ends(r, Restorable(old(disk), old(session), old(Current()), backup, folder))
    {
      r := Restore(backup, folder);
      if r.Done? {
        session, committed, shadow := Session(backup, backup, folder), false, NoShadow;
        AtRestIsUntouched(disk, session, shadow);
        AtRestIsForGood(disk, backup);
      }
    }

    /** A change; if no journal can come back it is all that is left. */
    method ChangeOnce(files: Files, next: Pair, folder: nat)
      requires Valid() && UsedBelow(folder) && LockHeld() && OnlyTargets(disk.files, files) && Holds(files, next)
      modifies this`disk, this`session, this`committed, this`shadow
      ensures Valid() && UsedBelow(folder + 1) && LockHeld()
      ensures Possible() <= (if old(NeverBack()) then {} else old(Possible())) + {next}
      ensures old(NeverBack()) ==> NeverBack()
    {
      ChangeDatabases(files, next, folder);
    }

    /** The data directory is synced while the lock is held, as SQLite may do. */
    method SyncWhileHeld()
      requires Valid() && LockHeld()
      modifies this`disk
      ensures Valid() && NeverBack() && LockHeld() && disk == old(disk).Sync(Data)
    {
      SyncedIsRecoverable(disk, session, committed, shadow);
      disk := disk.Sync(Data);
    }
  }

  /** What a run consists of; a lock either finds a journal or does not. */
  datatype Event =
    | Restored(backup: Pair, result: Outcome)
    | Locked(journal: bool, result: Outcome)
    | Changed(next: Pair)
    | Flushed
    | Lost

  /** The pairs that may be found after an event, given those before it and whether a journal could not come back. */
  function Leaves(event: Event, pairs: set<Pair>, neverBack: bool): set<Pair> {
    match event
    case Restored(backup, result) => if result.Done? then {backup} else pairs + {backup}
    case Changed(next) => (if neverBack then {} else pairs) + {next}
    case _ => pairs
  }

  /** Whether no journal that is gone can come back after an event. */
  predicate Settles(event: Event, neverBack: bool) {
    match event
    case Restored(_, result) => result.Done?
    case Locked(journal, result) => if journal then result.Done? else neverBack
    case Changed(_) => neverBack
    case Flushed => true
    case Lost => true
  }

  predicate Lasting(start: bool, history: seq<Event>) {
    if history == [] then start
    else Settles(history[|history| - 1], Lasting(start, history[..|history| - 1]))
  }

  /**
   The pairs that may be found after a history: a restore that succeeds leaves its own backup alone, and so does
   a change unless a journal may still come back.
   */
  function PairsAfter(start: set<Pair>, neverBack: bool, history: seq<Event>): set<Pair> {
    if history == [] then start
    else
      var before := history[..|history| - 1];
      Leaves(history[|history| - 1], PairsAfter(start, neverBack, before), Lasting(neverBack, before))
  }

  /** What may still come back once no journal is found. */
  ghost function NextShadow(d: Disk, s: Session, committed: bool, sh: Shadow): Shadow {
    if d.CouldBe(Journal, Some(s.Record())) then Shadow(s) else if Comes(d, sh) then sh else NoShadow
  }

  lemma NextIsReady(d: Disk, s: Session, committed: bool, sh: Shadow, next: Session)
    requires Recoverable(d, s, committed, sh) && Journal !in d.files
    requires next.before == (if committed then s.after else s.before) && next.folder != s.folder
    requires sh.Shadow? ==> next.folder != sh.session.folder
    ensures Ready(d, next, NextShadow(d, s, committed, sh))
  {
    assert d.At(Journal) == None;
    if committed {
      FreshHolds(d.files, s.after);
    }
  }

  /** What is possible after an event grows with what was possible before it. */
  lemma HistoryGrows(start: set<Pair>, neverBack: bool, history: seq<Event>, event: Event, pairs: set<Pair>,
                     here: bool)
    requires pairs <= PairsAfter(start, neverBack, history) && (Lasting(neverBack, history) ==> here)
    ensures Leaves(event, pairs, here) <= PairsAfter(start, neverBack, history + [event])
    ensures Lasting(neverBack, history + [event]) ==> Settles(event, here)
  {
    assert (history + [event])[..|history|] == history;
  }

  /** Changes of the databases leave a later restore what it needs. */
  lemma ChangeIsReady(d: Disk, s: Session, committed: bool, sh: Shadow, files: Files, next: Session)
    requires Recoverable(d, s, committed, sh) && Journal !in d.files
    requires OnlyTargets(d.files, files) && Holds(files, next.before) && next.folder != s.folder
    requires sh.Shadow? ==> next.folder != sh.session.folder
    ensures Ready(d.Rewrite(files), next, NextShadow(d, s, committed, sh))
  {
    RewriteLeaves(d, files);
    SamePath(d, d.Rewrite(files), (iset p | IsTarget(p)), Journal);
    assert d.At(Journal) == None;
    var back := NextShadow(d, s, committed, sh);
    if back.Shadow? {
      SameCopies(d, d.Rewrite(files), (iset p | IsTarget(p)), back.session);
    }
  }

  lemma RewriteLeaves(d: Disk, files: Files)
    requires OnlyTargets(d.files, files)
    ensures Within(d, d.Rewrite(files), (iset p | IsTarget(p))) && d.Rewrite(files).TargetsDurable()
  {
  }

  lemma AtRestIsForGood(d: Disk, pair: Pair)
    requires AtRest(d, pair)
    ensures Journal !in d.files && d.Durable(Journal)
  {
    assert d.CouldBe(Journal, d.At(Journal));
    forall u | u in d.unsynced && u.0 == Journal ensures u.1 == None {
      assert d.CouldBe(Journal, u.1);
    }
  }

  lemma SyncedIsRecoverable(d: Disk, s: Session, committed: bool, sh: Shadow)
    requires Recoverable(d, s, committed, sh) && Journal !in d.files
    ensures Recoverable(d.Sync(Data), s, committed, sh)
  {
  }

  /** What the next recovery makes the databases read as: what they are, or the copies that a journal names. */
  ghost predicate LeadsTo(files: Files, pair: Pair) {
    match At(files, Journal)
    case Some(Note(folder, hadOriginal)) =>
      forall name: Name :: (if name in hadOriginal then Copy(files, folder, name) else None) == Lookup(pair, name)
    case _ => Holds(files, pair)
  }

  lemma HeldLeadsTo(d: Disk, s: Session)
    requires Held(d, s)
    ensures LeadsTo(d.files, s.before)
  {
    forall name: Name
      ensures (if name in s.before then Copy(d.files, s.folder, name) else None) == Lookup(s.before, name)
    {
      if name in s.before {
        assert d.At(In(s.folder, name)) == Some(Database(s.before[name]));
      }
    }
  }

  /** What a database was, by its rollback copy. */
  function Original(d: Disk, folder: nat, name: Name, had: bool): Option<Content> {
    if had then Copy(d.files, folder, name) else None
  }

  lemma SameOriginal(before: Disk, after: Disk, folder: nat, name: Name)
    requires Within(before, after, TARGETS)
    ensures forall had :: Original(after, folder, name, had) == Original(before, folder, name, had)
  {
    SamePath(before, after, TARGETS, Folder(folder));
    SamePath(before, after, TARGETS, In(folder, name));
  }

  ghost predicate Intact(d: Disk, folder: nat, name: Name) {
    Copy(d.files, folder, name).Some? && Copy(d.files, folder, name).value.Sound?
  }

  ghost predicate AllIntact(d: Disk, folder: nat, names: set<Name>) {
    forall name | name in names :: Intact(d, folder, name)
  }

  // ----- What it takes to succeed -----

  /** There is nothing to recover, or every copy that the recovery needs is sound. */
  ghost predicate Salvaged(d: Disk, s: Session) {
    Journal !in d.files || AllIntact(d, s.folder, s.before.Keys)
  }

  predicate AllSound(pair: Pair) {
    forall name | name in pair :: pair[name].Sound?
  }

  predicate OriginalsSound(d: Disk) {
    forall name: Name | Main(name) in d.files :: Reads(d.files, name).Some? && Reads(d.files, name).value.Sound?
  }

  ghost predicate SameFolders(before: Disk, after: Disk) {
    forall id: nat {:trigger Folder(id) in after.files} :: Folder(id) in after.files <==> Folder(id) in before.files
  }

  /** A whole sound backup, over sound databases, in a directory that holds nothing of this restore yet. */
  ghost predicate Restorable(d: Disk, s: Session, current: Pair, backup: Pair, folder: nat) {
    && Controller in backup && Operations in backup && Salvaged(d, s)
    && Replaceable(d, Session(current, backup, folder))
  }

  ghost predicate StageEmpty(d: Disk) {
    forall name: Name :: Staged(name) !in d.files
  }

  /** Nothing is left of a rollback directory. */
  ghost predicate RollbackGone(d: Disk, folder: nat) {
    Folder(folder) !in d.files && forall name: Name :: In(folder, name) !in d.files
  }

  /** The databases are the old pair, or the new one with no side file of the old. */
  ghost predicate Whole(d: Disk, s: Session) {
    Holds(d.files, s.before) || Fresh(d.files, s.after)
  }

  predicate Replaceable(d: Disk, s: Session) {
    AllSound(s.after) && AllSound(s.before) && Folder(s.folder) !in d.files
  }

  /** What a recovery needs stays as it is. */
  lemma SalvagedWithin(before: Disk, after: Disk, paths: iset<Path>, s: Session)
    requires Within(before, after, paths)
    requires Journal !in paths && Folder(s.folder) !in paths && forall name: Name :: In(s.folder, name) !in paths
    ensures Salvaged(before, s) <==> Salvaged(after, s)
  {
    SamePath(before, after, paths, Journal);
    SamePath(before, after, paths, Folder(s.folder));
    forall name: Name ensures Copy(after.files, s.folder, name) == Copy(before.files, s.folder, name) {
      SamePath(before, after, paths, In(s.folder, name));
    }
  }

  /**
   A restore whose journal was renamed, but whose directory sync failed, removes its copies and leaves the journal:
   the old databases are untouched, and every later attempt to take the lock fails.
   */
  lemma UnsyncedJournalLocksOut(d: Disk, s: Session, after: Disk, name: Name)
    requires Ready(d, s, NoShadow) && CopiesWritten(d, s) && after.Valid()
    requires OnlyRemoved(d.Put(Journal, s.Record()).Drop(JournalTemp), after, s.folder)
    requires name in s.before && In(s.folder, name) !in after.files
    ensures Recoverable(after, s, false, NoShadow) && Holds(after.files, s.before)
    ensures Journal in after.files && !Salvaged(after, s)
  {
    var renamed := d.Put(Journal, s.Record()).Drop(JournalTemp);
    JournalRenamed(d, s, NoShadow);
    RemovalLeaves(renamed, after, s, NoShadow);
    SamePath(renamed, after, (iset p: Path | p == Folder(s.folder) || (p.In? && p.id == s.folder)), Journal);
    assert !Intact(after, s.folder, name);
  }

  lemma FoldersWithin(before: Disk, after: Disk)
    requires Within(before, after, TARGETS)
    ensures SameFolders(before, after)
  {
    forall id: nat ensures Folder(id) in after.files <==> Folder(id) in before.files {
      SamePath(before, after, TARGETS, Folder(id));
    }
  }

  /** Working on one database leaves the other as it is. */
  lemma StillFresh(before: Disk, after: Disk, name: Name, other: Name)
    requires name != other && Within(before, after, PathsOf(other))
    ensures forall content :: FreshName(before.files, name, content) ==> FreshName(after.files, name, content)
  {
    assert after.At(Main(name)) == before.At(Main(name));
    assert after.At(Wal(name)) == before.At(Wal(name));
    assert after.At(Shm(name)) == before.At(Shm(name));
  }

  lemma SecuredWithin(before: Disk, after: Disk, s: Session)
    requires Secured(before, s) && Within(before, after, TARGETS)
    ensures Secured(after, s)
  {
    assert after.At(Journal) == before.At(Journal) && after.At(Folder(s.folder)) == before.At(Folder(s.folder));
    forall name | name in s.before
      ensures after.Durable(In(s.folder, name)) && after.At(In(s.folder, name)) == before.At(In(s.folder, name))
    {
    }
  }

  lemma HeldWithin(before: Disk, after: Disk, s: Session)
    requires Held(before, s) && Within(before, after, TARGETS)
    ensures Held(after, s)
  {
    assert after.At(Journal) == before.At(Journal) && after.At(Folder(s.folder)) == before.At(Folder(s.folder));
    forall name | name in s.before
      ensures after.Durable(In(s.folder, name)) && after.At(In(s.folder, name)) == before.At(In(s.folder, name))
    {
    }
  }

  /** Once the data directory is synced the journal and the rollback directory stay. */
  lemma HeldSynced(d: Disk, s: Session)
    requires Held(d, s) && d.DataSynced()
    ensures Secured(d, s)
  {
  }

  lemma IntactIsHeld(d: Disk, s: Session, sh: Shadow)
    requires d.At(Journal) == Some(s.Record()) && (Secured(d, s) || Untouched(d, s, sh))
    requires forall name | name in s.before :: Intact(d, s.folder, name)
    ensures Held(d, s)
  {
    if !Secured(d, s) {
      forall name | name in s.before
        ensures d.At(In(s.folder, name)) == Some(Database(s.before[name])) && s.before[name].Sound?
      {
        assert d.CouldBe(In(s.folder, name), d.At(In(s.folder, name)));
        assert Intact(d, s.folder, name);
      }
    }
  }

  /** A recovery that has begun keeps the means to undo the restore, and one that is done has undone it. */
  lemma RollbackKeeps(before: Disk, wasExposed: bool, after: Disk, exposed: bool, done: bool, s: Session, sh: Shadow)
    requires before.Valid() && before.At(Journal) == Some(s.Record()) && Within(before, after, TARGETS)
    requires if wasExposed then Held(before, s) else Secured(before, s) || Untouched(before, s, sh)
    requires after != before || exposed != wasExposed || done ==> AllIntact(before, s.folder, s.before.Keys)
    requires !exposed && (after != before || wasExposed) ==> after.DataSynced() || (Anchored(before) && !wasExposed)
    requires done ==> after.DataSynced() && !exposed && forall name: Name ::
                        FreshName(after.files, name, Original(before, s.folder, name, name in s.before))
    ensures if exposed then Held(after, s) else Untouched(after, s, sh) || Secured(after, s)
    ensures done ==> Secured(after, s) && Fresh(after.files, s.before)
  {
    if after != before || exposed != wasExposed || done {
      if !wasExposed {
        IntactIsHeld(before, s, sh);
      }
      HeldWithin(before, after, s);
      if after.DataSynced() {
        HeldSynced(after, s);
      } else if !exposed {
        IntactIsSecured(before, s, sh);
        SecuredWithin(before, after, s);
      }
      if done {
        FreshAgain(before, after, s, sh);
      }
    }
  }

  /** What recovery has put back is the old pair. */
  lemma FreshAgain(before: Disk, after: Disk, s: Session, sh: Shadow)
    requires before.At(Journal) == Some(s.Record()) && Held(before, s)
    requires forall name: Name :: FreshName(after.files, name, Original(before, s.folder, name, name in s.before))
    ensures Fresh(after.files, s.before)
  {
    forall name: Name ensures FreshName(after.files, name, Lookup(s.before, name)) {
      if name in s.before {
        assert before.At(In(s.folder, name)) == Some(Database(s.before[name]));
      }
      assert FreshName(after.files, name, Original(before, s.folder, name, name in s.before));
    }
  }

  lemma CopiesArePair(d: Disk, s: Session)
    requires CopiesSafe(d, s)
    ensures forall name: Name :: Original(d, s.folder, name, name in s.before) == Lookup(s.before, name)
  {
    forall name: Name
      ensures Original(d, s.folder, name, name in s.before) == Lookup(s.before, name)
    {
      if name in s.before {
        assert d.At(In(s.folder, name)) == Some(Database(s.before[name]));
      }
    }
  }

  /** Copies that are found intact, under a journal that is there for good, are the right ones for good. */
  lemma IntactIsSecured(d: Disk, s: Session, sh: Shadow)
    requires d.At(Journal) == Some(s.Record())
    requires Secured(d, s) || (Untouched(d, s, sh) && Anchored(d))
    requires forall name | name in s.before :: Intact(d, s.folder, name)
    ensures Secured(d, s)
  {
    if !Secured(d, s) {
      forall name | name in s.before
        ensures d.At(In(s.folder, name)) == Some(Database(s.before[name])) && s.before[name].Sound?
      {
        assert d.CouldBe(In(s.folder, name), d.At(In(s.folder, name)));
        assert Intact(d, s.folder, name);
      }
    }
  }

  lemma RolledBack(d: Disk, s: Session, sh: Shadow)
    requires d.Valid() && Secured(d, s) && d.TargetsDurable() && Fresh(d.files, s.before) && Apart(s, sh)
    ensures Untouched(d.Drop(Journal), s, sh)
    ensures AtRest(d.Drop(Journal).Sync(Data), s.before) && Fresh(d.Drop(Journal).Sync(Data).files, s.before)
  {
    JournalDropped(d, s.before);
    FreshHolds(d.Drop(Journal).files, s.before);
    SameCopies(d, d.Drop(Journal), iset{Journal}, s);
    DroppedIsUntouched(d, s, sh);
    RollbackSynced(d.Drop(Journal), s);
  }

  lemma DroppedIsUntouched(d: Disk, s: Session, sh: Shadow)
    requires Secured(d, s) && d.TargetsDurable() && Apart(s, sh)
    requires Holds(d.Drop(Journal).files, s.before) && CopiesSafe(d.Drop(Journal), s)
    ensures Untouched(d.Drop(Journal), s, sh)
  {
  }

  lemma RollbackSynced(d: Disk, s: Session)
    requires d.Valid() && d.TargetsDurable() && Holds(d.files, s.before) && Journal !in d.files
    ensures AtRest(d.Sync(Data), s.before)
  {
  }

  /** Without a journal the databases are the new pair if the restore was committed, and the old one if not. */
  lemma Settled(d: Disk, s: Session, committed: bool, sh: Shadow)
    requires Recoverable(d, s, committed, sh) && Journal !in d.files
    ensures Holds(d.files, if committed then s.after else s.before)
  {
    if committed {
      FreshHolds(d.files, s.after);
    }
  }

  // ----- Restore, phase by phase -----

  predicate StagedOne(d: Disk, backup: Pair, name: Name) {
    name in backup && backup[name].Sound? && d.At(Staged(name)) == Some(Database(backup[name]))
  }

  predicate StagedAll(d: Disk, backup: Pair) {
    forall name: Name :: StagedOne(d, backup, name)
  }

  ghost predicate OnlyRemoved(before: Disk, after: Disk, folder: nat) {
    && Within(before, after, iset p: Path | p == Folder(folder) || (p.In? && p.id == folder))
    && (forall p, item | after.CouldBe(p, item) :: item == None || before.CouldBe(p, item))
    && forall p | p in after.files :: p in before.files && (before.Durable(p) ==> after.Durable(p))
  }

  lemma NothingRemoved(d: Disk, folder: nat)
    requires d.Valid()
    ensures OnlyRemoved(d, d, folder)
  {
  }

  lemma RemovedToo(before: Disk, after: Disk, p: Path, folder: nat)
    requires after.Valid() && OnlyRemoved(before, after, folder)
    requires p == Folder(folder) || (p.In? && p.id == folder)
    ensures OnlyRemoved(before, after.Drop(p), folder) && after.Drop(p).Valid()
  {
  }

  predicate CopiedOne(before: Disk, after: Disk, folder: nat, name: Name) {
    var content := Reads(before.files, name);
    content.Some? && content.value.Sound? && after.At(In(folder, name)) == Some(Database(content.value))
  }

  lemma AtRestIsUntouched(d: Disk, s: Session, sh: Shadow)
    requires AtRest(d, s.before)
    ensures Untouched(d, s, sh) && ThereOrNever(d, s)
  {
    assert d.CouldBe(Journal, d.At(Journal));
  }

  /** Nothing that a restore relies on before its journal is written lies at these paths. */
  lemma ReadyWithin(before: Disk, after: Disk, paths: iset<Path>, s: Session, sh: Shadow)
    requires Ready(before, s, sh) && after.Valid() && Within(before, after, paths)
    requires Journal !in paths && forall p | IsTarget(p) :: p !in paths
    requires sh.Shadow? ==> Folder(sh.session.folder) !in paths
                            && forall name: Name :: In(sh.session.folder, name) !in paths
    ensures Ready(after, s, sh)
  {
    forall name: Name ensures Reads(after.files, name) == Reads(before.files, name) {
      SameReading(before, after, paths, name);
    }
    SamePath(before, after, paths, Journal);
    if sh.Shadow? {
      SameCopies(before, after, paths, sh.session);
    }
  }

  lemma SameCopies(before: Disk, after: Disk, paths: iset<Path>, s: Session)
    requires Within(before, after, paths)
    requires Folder(s.folder) !in paths && forall name: Name :: In(s.folder, name) !in paths
    ensures CopiesSafe(before, s) ==> CopiesSafe(after, s)
    ensures CopiesHonest(before, s) ==> CopiesHonest(after, s)
    ensures CopiesWritten(before, s) ==> CopiesWritten(after, s)
  {
    SamePath(before, after, paths, Folder(s.folder));
    forall name: Name
      ensures after.At(In(s.folder, name)) == before.At(In(s.folder, name))
      ensures before.Durable(In(s.folder, name)) ==> after.Durable(In(s.folder, name))
      ensures forall item | after.CouldBe(In(s.folder, name), item) :: before.CouldBe(In(s.folder, name), item)
    {
      SamePath(before, after, paths, In(s.folder, name));
    }
  }

  lemma JournalSynced(d: Disk, s: Session)
    requires CopiesWritten(d, s) && d.At(Journal) == Some(s.Record())
    ensures Secured(d.Sync(Data), s)
  {
  }

  lemma JournalRenamed(d: Disk, s: Session, sh: Shadow)
    requires Ready(d, s, sh) && CopiesWritten(d, s)
    ensures var renamed := d.Put(Journal, s.Record()).Drop(JournalTemp);
            Untouched(renamed, s, sh) && CopiesWritten(renamed, s)
  {
    var renamed := d.Put(Journal, s.Record()).Drop(JournalTemp);
    RenameLeaves(d, s);
    SameCopies(d, renamed, iset{Journal, JournalTemp}, s);
    if sh.Shadow? {
      SameCopies(d, renamed, iset{Journal, JournalTemp}, sh.session);
    }
  }

  lemma RenameLeaves(d: Disk, s: Session)
    ensures var renamed := d.Put(Journal, s.Record()).Drop(JournalTemp);
            && Within(d, renamed, iset{Journal, JournalTemp}) && renamed.At(Journal) == Some(s.Record())
            && (d.TargetsDurable() ==> renamed.TargetsDurable())
            && (Holds(d.files, s.before) ==> Holds(renamed.files, s.before))
            && forall item | renamed.CouldBe(Journal, item) :: item == Some(s.Record()) || d.CouldBe(Journal, item)
  {
    var written := d.Put(Journal, s.Record());
    var renamed := written.Drop(JournalTemp);
    assert renamed.At(Journal) == written.At(Journal) == Some(s.Record());
    forall name: Name ensures Reads(renamed.files, name) == Reads(d.files, name) {
      SameReading(d, renamed, iset{Journal, JournalTemp}, name);
    }
  }

  lemma ScratchLeavesDatabases(before: Disk, after: Disk, pair: Pair)
    requires Within(before, after, SCRATCH)
    ensures Holds(before.files, pair) ==> Holds(after.files, pair)
    ensures Fresh(before.files, pair) ==> Fresh(after.files, pair)
    ensures before.TargetsDurable() ==> after.TargetsDurable()
  {
    forall name: Name
      ensures Reads(after.files, name) == Reads(before.files, name)
      ensures forall content :: FreshName(before.files, name, content) ==> FreshName(after.files, name, content)
    {
      SameReading(before, after, SCRATCH, name);
    }
  }

  lemma ScratchLeaves(before: Disk, after: Disk, s: Session, sh: Shadow)
    requires Within(before, after, SCRATCH)
    ensures Untouched(before, s, sh) ==> Untouched(after, s, sh)
    ensures Secured(before, s) ==> Secured(after, s)
    ensures Replaced(before, s) ==> Replaced(after, s)
  {
    ScratchLeavesDatabases(before, after, s.before);
    ScratchLeavesDatabases(before, after, s.after);
    SameCopies(before, after, SCRATCH, s);
    if sh.Shadow? {
      SameCopies(before, after, SCRATCH, sh.session);
    }
    SamePath(before, after, SCRATCH, Journal);
  }

  lemma Synced(d: Disk, s: Session)
    requires d.Valid() && Secured(d, s)
    ensures Secured(d.Sync(Data), s) && d.Sync(Data).TargetsDurable() && d.Sync(Data).Valid()
  {
  }

  lemma JournalDropped(d: Disk, pair: Pair)
    requires Fresh(d.files, pair)
    ensures Fresh(d.Drop(Journal).files, pair)
  {
    assert Within(d, d.Drop(Journal), iset{Journal});
    forall name: Name ensures FreshName(d.Drop(Journal).files, name, Lookup(pair, name)) {
      SameReading(d, d.Drop(Journal), iset{Journal}, name);
    }
  }

  lemma CommitSynced(d: Disk, s: Session)
    requires d.Valid() && Replaced(d, s) && Journal !in d.files
    ensures Replaced(d.Sync(Data), s) && AtRest(d.Sync(Data), s.after)
  {
    FreshHolds(d.files, s.after);
  }

  /** Once the new databases are durable, removing the journal is all that the commit takes. */
  lemma Committed(d: Disk, s: Session)
    requires d.Valid() && Secured(d, s) && d.TargetsDurable() && Fresh(d.files, s.after)
    ensures Replaced(d.Drop(Journal), s)
    ensures Replaced(d.Drop(Journal).Sync(Data), s) && AtRest(d.Drop(Journal).Sync(Data), s.after)
  {
    JournalDropped(d, s.after);
    CommitSynced(d.Drop(Journal), s);
  }

  /** What is left of a rollback directory never misleads a recovery. */
  lemma RemovalLeaves(before: Disk, after: Disk, s: Session, sh: Shadow)
    requires Untouched(before, s, sh) && ThereOrNever(before, s)
    requires OnlyRemoved(before, after, s.folder) && Apart(s, sh)
    ensures Untouched(after, s, sh)
  {
    var paths := iset p: Path | p == Folder(s.folder) || (p.In? && p.id == s.folder);
    forall name: Name ensures Reads(after.files, name) == Reads(before.files, name) {
      SameReading(before, after, paths, name);
    }
    SamePath(before, after, paths, Journal);
    if sh.Shadow? {
      SameCopies(before, after, paths, sh.session);
    }
    if before.CouldBe(Journal, Some(s.Record())) {
      RemovedCopies(before, after, s);
    }
  }

  lemma RemovedCopies(before: Disk, after: Disk, s: Session)
    requires CopiesHonest(before, s) && OnlyRemoved(before, after, s.folder)
    ensures CopiesHonest(after, s)
  {
  }

  lemma OriginalsCopied(before: Disk, after: Disk, hadOriginal: set<Name>, s: Session)
    requires Holds(before.files, s.before) && Within(before, after, CopiesOf(s.folder))
        && Folder(s.folder) in before.files
    requires forall name: Name :: name in hadOriginal <==> Main(name) in before.files
    requires forall name | name in hadOriginal :: CopiedOne(before, after, s.folder, name)
                                                  && after.Durable(In(s.folder, name))
    ensures hadOriginal == s.before.Keys && CopiesWritten(after, s)
  {
    SamePath(before, after, CopiesOf(s.folder), Folder(s.folder));
    forall name: Name ensures name in hadOriginal <==> name in s.before {
      assert Reads(before.files, name) == Lookup(s.before, name);
    }
  }

  lemma StillStagedWithin(before: Disk, after: Disk, paths: iset<Path>, backup: Pair)
    requires StagedAll(before, backup) && Within(before, after, paths) && forall name: Name :: Staged(name) !in paths
    ensures StagedAll(after, backup)
  {
    forall name: Name ensures StagedOne(after, backup, name) {
      assert StagedOne(before, backup, name);
      SamePath(before, after, paths, Staged(name));
    }
  }

  lemma StillStaged(before: Disk, copied: Disk, after: Disk, s: Session)
    requires StagedAll(before, s.after) && Within(before, copied, CopiesOf(s.folder))
        && Within(copied, after, iset{Journal, JournalTemp})
    ensures StagedAll(after, s.after)
  {
    StillStagedWithin(before, copied, CopiesOf(s.folder), s.after);
    StillStagedWithin(copied, after, iset{Journal, JournalTemp}, s.after);
  }

  lemma SurvivingTargets(d: Disk, after: Files, name: Name)
    requires d.TargetsDurable() && d.Survives(after)
    ensures Reads(after, name) == Reads(d.files, name)
    ensures forall content :: FreshName(d.files, name, content) ==> FreshName(after, name, content)
  {
    forall p | p in {Main(name), Wal(name), Shm(name)} ensures At(after, p) == d.At(p) {
      d.SurvivorCouldBe(after, p);
      assert IsTarget(p) && d.Durable(p);
    }
    assert At(after, Main(name)) == d.At(Main(name)) && At(after, Wal(name)) == d.At(Wal(name));
    assert At(after, Shm(name)) == d.At(Shm(name));
  }

  lemma SurvivingPair(d: Disk, after: Files, pair: Pair)
    requires d.TargetsDurable() && d.Survives(after)
    ensures Holds(d.files, pair) ==> Holds(after, pair)
    ensures Fresh(d.files, pair) ==> Fresh(after, pair)
  {
    forall name: Name
      ensures Reads(after, name) == Reads(d.files, name)
      ensures forall content :: FreshName(d.files, name, content) ==> FreshName(after, name, content)
    {
      SurvivingTargets(d, after, name);
    }
  }

  lemma SurvivingCopies(d: Disk, after: Files, s: Session)
    requires d.Survives(after)
    ensures CopiesSafe(d, s) ==> CopiesSafe(Disk(after, {}, d.volatile), s)
    ensures CopiesHonest(d, s) ==> CopiesHonest(Disk(after, {}, d.volatile), s)
  {
    d.SurvivorCouldBe(after, Folder(s.folder));
    forall name: Name
      ensures d.CouldBe(In(s.folder, name), At(after, In(s.folder, name)))
    {
      d.SurvivorCouldBe(after, In(s.folder, name));
    }
  }

  lemma SurvivorsRecover(d: Disk, after: Files, s: Session, committed: bool, sh: Shadow)
    requires Recoverable(d, s, committed, sh) && d.Survives(after)
    ensures if sh.Shadow? && At(after, Journal) == Some(sh.session.Record())
            then Recoverable(Disk(after, {}, d.volatile), sh.session, false, NoShadow)
            else Recoverable(Disk(after, {}, d.volatile), s, committed && Journal !in after, NoShadow)
  {
    d.SurvivorCouldBe(after, Journal);
    if sh.Shadow? && At(after, Journal) == Some(sh.session.Record()) {
      ShadowRecovers(d, after, s, committed, sh);
    } else {
      SurvivingCopies(d, after, s);
      if d.TargetsDurable() {
        SurvivingPair(d, after, s.before);
        SurvivingPair(d, after, s.after);
      }
    }
  }

  /** The journal of an earlier restore that has come back undoes that one. */
  lemma ShadowRecovers(d: Disk, after: Files, s: Session, committed: bool, sh: Shadow)
    requires Recoverable(d, s, committed, sh) && d.Survives(after)
    requires sh.Shadow? && At(after, Journal) == Some(sh.session.Record()) && d.CouldBe(Journal, At(after, Journal))
    ensures Recoverable(Disk(after, {}, d.volatile), sh.session, false, NoShadow)
  {
    assert !committed && Untouched(d, s, sh);
    SurvivingCopies(d, after, sh.session);
    SurvivingPair(d, after, s.before);
  }

  // ----- Changes under a journal that may come back -----

  /**
   Changes made while the lock is held outlast every power loss if and only if no journal can come back, or the
   one that can would bring back what they have come to anyway.  Taking the lock where no journal is found does
   not sync the data directory, so it takes a removal that was synced.
   */
  lemma ChangesLastExactlyWhenNeverBack(d: Disk, s: Session, committed: bool, sh: Shadow, files: Files, next: Pair)
    requires Recoverable(d, s, committed, sh) && Journal !in d.files && OnlyTargets(d.files, files)
    requires Holds(files, next)
    ensures var back := NextShadow(d, s, committed, sh);
            (forall after | d.Rewrite(files).Survives(after) :: LeadsTo(after, next))
            <==> d.Durable(Journal) || (back.Shadow? && back.session.before == next)
  {
    var back := NextShadow(d, s, committed, sh);
    RewriteLeaves(d, files);
    if back.Shadow? {
      SameCopies(d, d.Rewrite(files), (iset p | IsTarget(p)), back.session);
    }
    if d.Durable(Journal) || (back.Shadow? && back.session.before == next) {
      forall after | d.Rewrite(files).Survives(after) ensures LeadsTo(after, next) {
        SurvivingPair(d.Rewrite(files), after, next);
        if Journal in after {
          NextComes(d, s, committed, sh, files, after);
          BackLeadsTo(d.Rewrite(files), after, back.session);
        }
      }
    } else {
      SomeJournalComes(d, s, committed, sh);
      var after := ComesBack(d.Rewrite(files), back.session, next);
    }
  }

  lemma SomeJournalComes(d: Disk, s: Session, committed: bool, sh: Shadow)
    requires Recoverable(d, s, committed, sh) && Journal !in d.files && !d.Durable(Journal)
    ensures var back := NextShadow(d, s, committed, sh);
            back.Shadow? && (Journal, Some(back.session.Record())) in d.unsynced && CopiesSafe(d, back.session)
  {
    var u :| u in d.unsynced && u.0 == Journal && u.1 != d.At(Journal);
    assert d.CouldBe(Journal, u.1) && d.At(Journal) == None;
  }

  /** Only one journal can come back. */
  lemma NextComes(d: Disk, s: Session, committed: bool, sh: Shadow, files: Files, after: Files)
    requires Recoverable(d, s, committed, sh) && Journal !in d.files && OnlyTargets(d.files, files)
    requires d.Rewrite(files).Survives(after) && Journal in after
    ensures !d.Durable(Journal)
    ensures var back := NextShadow(d, s, committed, sh);
            back.Shadow? && after[Journal] == back.session.Record() && CopiesSafe(d, back.session)
  {
    assert d.At(Journal) == None && d.CouldBe(Journal, Some(after[Journal]));
  }

  lemma BackLeadsTo(d: Disk, after: Files, back: Session)
    requires d.Survives(after) && CopiesSafe(d, back) && At(after, Journal) == Some(back.Record())
    ensures LeadsTo(after, back.before)
  {
    SurvivingCopies(d, after, back);
    HeldLeadsTo(Disk(after, {}, d.volatile), back);
  }

  /** A journal that may come back, with other databases in its copies, does so in some power loss. */
  lemma ComesBack(d: Disk, back: Session, next: Pair) returns (after: Files)
    requires d.CouldBe(Journal, Some(back.Record())) && CopiesSafe(d, back) && back.before != next
    ensures d.Survives(after) && LeadsTo(after, back.before) && !LeadsTo(after, next)
  {
    after := d.files[Journal := back.Record()];
    BackLeadsTo(d, after, back);
    var name := PairsDiffer(back.before, next);
  }

  lemma PairsDiffer(a: Pair, b: Pair) returns (name: Name)
    requires a != b
    ensures Lookup(a, name) != Lookup(b, name)
  {
    if forall name: Name :: Lookup(a, name) == Lookup(b, name) {
      SamePair(a, b);
    }
    name :| Lookup(a, name) != Lookup(b, name);
  }

  lemma SamePair(a: Pair, b: Pair)
    requires forall name: Name :: Lookup(a, name) == Lookup(b, name)
    ensures a == b
  {
    forall name: Name ensures (name in a <==> name in b) && (name in a ==> a[name] == b[name]) {
      assert Lookup(a, name) == Lookup(b, name);
    }
  }

  /**
   Such a disk is reached: a restore whose commit could not sync the data directory leaves it, and reports a
   failure although the new databases are in place.  Whatever is written from then on may be undone.
   */
  lemma UnsyncedCommitUndoesChanges(d: Disk, s: Session, files: Files, next: Pair) returns (after: Files)
    requires d.volatile && Secured(d, s) && d.TargetsDurable() && Fresh(d.files, s.after)
    requires OnlyTargets(d.Drop(Journal).files, files) && Holds(files, next) && next != s.before
    ensures Recoverable(d.Drop(Journal), s, true, NoShadow) && !d.Drop(Journal).Durable(Journal)
    ensures d.Drop(Journal).Rewrite(files).Survives(after) && LeadsTo(after, s.before) && !LeadsTo(after, next)
  {
    var dropped := d.Drop(Journal);
    Committed(d, s);
    RewriteLeaves(dropped, files);
    assert (Journal, Some(s.Record())) in dropped.unsynced;
    SameCopies(dropped, dropped.Rewrite(files), (iset p | IsTarget(p)), s);
    after := ComesBack(dropped.Rewrite(files), s, next);
  }

  // ----- Recovery under a journal that is not durable -----

  /**
   What a later recovery can still make of a disk: the old pair as it is, or from the copies that the journal
   names.
   */
  ghost predicate Salvageable(files: Files, s: Session) {
    if Journal !in files then Holds(files, s.before)
    else
      && files[Journal] == s.Record()
      && forall name | name in s.before :: Copy(files, s.folder, name) == Some(s.before[name])
  }

  /**
   Recovery that starts to remove a database is safe against a power loss if and only if the journal it
   follows and the copies that this names are durable.  A process crash right after the journal's rename
   leaves them not durable, and the recovery that comes next does not sync the directory first.
   */
  lemma RecoveryIsSafeExactlyWhenAnchored(d: Disk, s: Session, name: Name)
    requires d.Valid() && Untouched(d, s, NoShadow) && d.At(Journal) == Some(s.Record()) && name in s.before
    requires forall n | n in s.before :: Intact(d, s.folder, n)
    ensures (forall after | d.Drop(Main(name)).Survives(after) :: Salvageable(after, s)) <==> Anchored(d)
  {
    var d' := d.Drop(Main(name));
    assert Reads(d.files, name) == Lookup(s.before, name);
    if Anchored(d) {
      IntactIsSecured(d, s, NoShadow);
      SecuredWithin(d, d', s);
      forall after | d'.Survives(after) ensures Salvageable(after, s) {
        d'.SurvivorCouldBe(after, Journal);
        SurvivingCopies(d', after, s);
        CopiesArePair(Disk(after, {}, d.volatile), s);
        forall n | n in s.before ensures Copy(after, s.folder, n) == Some(s.before[n]) {
          assert Original(Disk(after, {}, d.volatile), s.folder, n, n in s.before) == Lookup(s.before, n);
        }
      }
    } else {
      var lost := UnanchoredPath(d, s);
      var after := d'.files - {lost};
      assert d'.Survives(after);
      assert !Salvageable(after, s) by {
        if lost == Journal {
          assert Reads(after, name) == None;
        } else {
          assert after[Journal] == s.Record();
          var n :| n in s.before;
          assert Copy(after, s.folder, n) == None;
        }
      }
    }
  }

  /**
   Such a disk is reached: a process that crashes right after the rename of its journal leaves it.  The recovery
   that comes next removes a database first, and a power loss that comes then may leave neither the database
   nor the journal.
   */
  lemma CrashAfterRenameIsUnanchored(d: Disk, s: Session, name: Name) returns (after: Files)
    requires d.volatile && AtRest(d, s.before) && CopiesWritten(d, s) && name in s.before
    ensures var renamed := d.Put(Journal, s.Record()).Drop(JournalTemp);
            && Untouched(renamed, s, NoShadow) && Held(renamed, s) && !Anchored(renamed)
            && renamed.Drop(Main(name)).Survives(after) && !Salvageable(after, s)
  {
    AtRestIsUntouched(d, s, NoShadow);
    JournalRenamed(d, s, NoShadow);
    NewJournalMayGo(d, s);
    after := BothLost(d.Put(Journal, s.Record()).Drop(JournalTemp), s, name);
  }

  lemma BothLost(d: Disk, s: Session, name: Name) returns (after: Files)
    requires (Journal, None) in d.unsynced && name in s.before
    ensures d.Drop(Main(name)).Survives(after) && !Salvageable(after, s)
  {
    after := d.Drop(Main(name)).files - {Journal};
    assert Reads(after, name) == None != Lookup(s.before, name);
  }

  lemma NewJournalMayGo(d: Disk, s: Session)
    requires d.volatile && AtRest(d, s.before)
    ensures var renamed := d.Put(Journal, s.Record()).Drop(JournalTemp);
            renamed.At(Journal) == Some(s.Record()) && (Journal, None) in renamed.unsynced && !Anchored(renamed)
  {
    assert d.CouldBe(Journal, d.At(Journal));
  }

  lemma UnanchoredPath(d: Disk, s: Session) returns (lost: Path)
    requires Untouched(d, s, NoShadow) && d.At(Journal) == Some(s.Record()) && !Anchored(d)
    requires forall n | n in s.before :: Intact(d, s.folder, n)
    ensures (lost, None) in d.unsynced && (lost == Journal || (lost == Folder(s.folder) && s.before != map[]))
  {
    if !d.Durable(Journal) {
      var u :| u in d.unsynced && u.0 == Journal && u.1 != d.At(Journal);
      assert d.CouldBe(Journal, u.1);
      return Journal;
    }
    var n :| n in s.before && Folder(s.folder) in d.files && !d.Kept(Folder(s.folder));
    return Folder(s.folder);
  }
}
