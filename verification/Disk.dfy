/**
 The part of the file system that a database restore touches.  Every path has the item that it holds
 now and, while no sync of its directory has followed a change, the items that a power loss may bring
 back: directory changes since the last sync survive in any subset.
 */
module Disk {
  import opened Options

  datatype Name = Controller | Operations

  const NAMES: seq<Name> := [Controller, Operations]

  /** What a database reads as: the changes made to it, or nothing that SQLite accepts. */
  datatype Content = Sound(changes: seq<nat>) | Damaged

  datatype Path =
    | Main(name: Name) | Wal(name: Name) | Shm(name: Name)
    | Journal | JournalTemp | Temp(name: Name)
    | Folder(id: nat) | In(id: nat, name: Name) | Staged(name: Name)

  datatype Directory = Data | Rollback(id: nat) | Stage

  function DirectoryOf(p: Path): Directory {
    match p
    case In(id, _) => Rollback(id)
    case Staged(_) => Stage
    case _ => Data
  }

  datatype Item =
    | Database(content: Content)
    | Frames(base: Content, changes: seq<nat>)  // a write-ahead log, and the main file it belongs to
    | SharedMemory
    | Note(folder: nat, hadOriginal: set<Name>)  // the journal of a restore
    | Subdirectory
    | Junk

  type Files = map<Path, Item>

  function At(files: Files, p: Path): Option<Item> {
    if p in files then Some(files[p]) else None
  }

  /** What SQLite reads: a log over the main file it belongs to adds its changes, any other log ruins it. */
  function Reads(files: Files, name: Name): Option<Content> {
    if Main(name) !in files then None
    else if !files[Main(name)].Database? then Some(Damaged)
    else
      var content := files[Main(name)].content;
      if Wal(name) !in files then Some(content)
      else if content.Sound? && files[Wal(name)].Frames? && files[Wal(name)].base == content
      then Some(Sound(content.changes + files[Wal(name)].changes))
      else Some(Damaged)
  }

  /** The rollback copy of a database, if its directory can be reached. */
  function Copy(files: Files, id: nat, name: Name): Option<Content> {
    if Folder(id) !in files || In(id, name) !in files then None
    else if files[In(id, name)].Database? then Some(files[In(id, name)].content)
    else Some(Damaged)
  }

  type Pair = map<Name, Content>

  function Lookup(pair: Pair, name: Name): Option<Content> {
    if name in pair then Some(pair[name]) else None
  }

  /** The two databases read as the pair says; an absent one is absent. */
  predicate Holds(files: Files, pair: Pair) {
    forall name: Name :: Reads(files, name) == Lookup(pair, name)
  }

  predicate FreshName(files: Files, name: Name, content: Option<Content>) {
    && Wal(name) !in files && Shm(name) !in files
    && match content
       case None => Main(name) !in files
       case Some(c) => Main(name) in files && files[Main(name)] == Database(c)
  }

  /** Each main file holds exactly its database, and no side file of any earlier database is left. */
  predicate Fresh(files: Files, pair: Pair) {
    forall name: Name :: FreshName(files, name, Lookup(pair, name))
  }

  lemma FreshHolds(files: Files, pair: Pair)
    requires Fresh(files, pair)
    ensures Holds(files, pair)
  {
    forall name: Name ensures Reads(files, name) == Lookup(pair, name) {
      assert FreshName(files, name, Lookup(pair, name));
    }
  }

  predicate IsTarget(p: Path) {
    p.Main? || p.Wal? || p.Shm?
  }

  /** Only the databases and their side files differ. */
  predicate OnlyTargets(before: Files, after: Files) {
    forall p | p in before.Keys + after.Keys && !IsTarget(p) :: p in before && p in after && after[p] == before[p]
  }

  datatype Disk = Disk(files: Files, unsynced: set<(Path, Option<Item>)>, volatile: bool) {
    /** A disk that is not volatile keeps every change: only the process that uses it can crash. */
    predicate Valid() {
      !volatile ==> unsynced == {}
    }

    function At(p: Path): Option<Item> {
      if p in files then Some(files[p]) else None
    }

    /** Whether a power loss now may leave this at the path. */
    predicate CouldBe(p: Path, item: Option<Item>) {
      item == At(p) || (p, item) in unsynced
    }

    /** A power loss now cannot change what the path holds. */
    predicate Durable(p: Path) {
      forall u | u in unsynced :: u.0 == p ==> u.1 == At(p)
    }

    /** The path is there, and a power loss cannot take it away. */
    predicate Kept(p: Path) {
      p in files && (p, None) !in unsynced
    }

    ghost predicate TargetsDurable() {
      forall p | IsTarget(p) :: Durable(p)
    }

    /** Nothing that has happened to the data directory can be lost any more. */
    predicate DataSynced() {
      forall u | u in unsynced :: DirectoryOf(u.0) != Data
    }

    function Changed(p: Path): set<(Path, Option<Item>)> {
      if volatile then unsynced + {(p, At(p))} else unsynced
    }

    function Put(p: Path, item: Item): Disk {
      Disk(files[p := item], Changed(p), volatile)
    }

    function Drop(p: Path): Disk {
      if p in files then Disk(files - {p}, Changed(p), volatile) else this
    }

    function Sync(directory: Directory): Disk {
      Disk(files, (set u | u in unsynced && DirectoryOf(u.0) != directory), volatile)
    }

    /** The databases are changed for good; nothing else becomes more durable by that. */
    function Rewrite(after: Files): Disk {
      Disk(after, (set u | u in unsynced && !IsTarget(u.0)), volatile)
    }

    /** What a power loss may leave: every path holds an item that it could be. */
    predicate Survives(after: Files) {
      && (forall p | p in after :: CouldBe(p, Some(after[p])))
      && (forall p | p in files && p !in after :: CouldBe(p, None))
    }

    lemma SurvivorCouldBe(after: Files, p: Path)
      requires Survives(after)
      ensures CouldBe(p, if p in after then Some(after[p]) else None)
    {
      if p !in after && p !in files {
        assert At(p) == None;
      }
    }
  }

  /** From one disk to a later one, nothing outside these paths changed or became less durable. */
  ghost predicate Within(before: Disk, after: Disk, paths: iset<Path>) {
    && after.volatile == before.volatile
    && (forall p | p !in paths :: after.At(p) == before.At(p))
    && (forall p, item | p !in paths && (p, item) in after.unsynced :: (p, item) in before.unsynced)
  }

  lemma SamePath(before: Disk, after: Disk, paths: iset<Path>, p: Path)
    requires Within(before, after, paths) && p !in paths
    ensures after.At(p) == before.At(p)
    ensures forall item :: after.CouldBe(p, item) ==> before.CouldBe(p, item)
    ensures before.Durable(p) ==> after.Durable(p)
  {
  }

  lemma SameReading(before: Disk, after: Disk, paths: iset<Path>, name: Name)
    requires Within(before, after, paths) && Main(name) !in paths && Wal(name) !in paths && Shm(name) !in paths
    ensures Reads(after.files, name) == Reads(before.files, name)
    ensures Main(name) in after.files <==> Main(name) in before.files
    ensures forall content :: FreshName(before.files, name, content) ==> FreshName(after.files, name, content)
  {
    SamePath(before, after, paths, Main(name));
    SamePath(before, after, paths, Wal(name));
    SamePath(before, after, paths, Shm(name));
  }
}
