/**
 The operation log: a durable marker before an operation runs, a durable terminal record after it, and a
 manager that lets one operation run at a time.  Writing a record may fail, and then changes nothing; the
 process may crash at any time and starts again from the durable records.
 */
module OperationLog {
  import opened Options
  import opened OperationErrors

  const PERSIST_ATTEMPTS := 2
  const DEFAULT_LIMIT := 200
  const INTERRUPTED := "operation interrupted by controller restart"

  const IN_PROGRESS := "another operation is in progress"

  datatype Status = Running | Succeeded | Failed | Rejected

  datatype Entry = Entry(id: nat, kind: string, status: Status, message: string)

  /** The durable records by id; `readable` says whether the time of the record can be read back. */
  datatype Row = Row(entry: Entry, readable: bool)

  /** What a write comes to: the process may end before it or after it. */
  datatype Written = Done | Undone | Ended

  datatype Failure = InProgress | Persistence | Crash

  /** How a run ends: with the error it returns, if any, or with the process. */
  datatype Ending = Returned(error: Option<Error>) | Crashed

  predicate Increasing(entries: seq<Entry>) {
    forall i, j | 0 <= i < j < |entries| :: entries[i].id < entries[j].id
  }

  predicate AllUpTo(entries: seq<Entry>, bound: nat) {
    forall e | e in entries :: e.id <= bound
  }

  predicate NoneRunning(entries: seq<Entry>) {
    forall e | e in entries :: e.status != Running
  }

  /** The entry that runs is in the log, and no other entry runs. */
  predicate OnlyRunning(entries: seq<Entry>, id: nat) {
    && (exists e | e in entries :: e.id == id && e.status == Running)
    && (forall e | e in entries && e.status == Running :: e.id == id)
  }

  /** The entry with this id has ended, and every other entry is as it was. */
  predicate EntryEndedOnly(before: seq<Entry>, after: seq<Entry>, id: nat, status: Status, message: string) {
    && |after| == |before| && (exists k :: 0 <= k < |after| && after[k].id == id)
    && forall k | 0 <= k < |before| ::
         after[k] == if before[k].id == id then before[k].(status := status, message := message) else before[k]
  }

  /** As many of the entries as the limit lets in: of those that do not run, the oldest are dropped. */
  predicate TrimmedTo(before: seq<Entry>, after: seq<Entry>, limit: nat) {
    && |after| == (if |before| <= limit then |before| else limit) && Increasing(after)
    && (forall e | e in after :: e in before)
    && forall e | e in before && e !in after ::
         e.status != Running && forall kept | kept in after && kept.status != Running :: e.id < kept.id
  }

  /** A record that says running is marked as interrupted; no other record changes and none goes. */
  predicate MarkedInterrupted(before: map<nat, Row>, after: map<nat, Row>) {
    && after.Keys == before.Keys
    && forall id | id in before ::
         && after[id].readable == before[id].readable
         && if before[id].entry.status == Running
            then after[id].entry == Entry(before[id].entry.id, before[id].entry.kind, Failed, INTERRUPTED)
            else after[id].entry == before[id].entry
  }

  /** A refusal adds at most its own record to the store. */
  predicate RefusedWith(before: map<nat, Row>, after: map<nat, Row>, id: nat, kind: string, message: string) {
    after == before || after == before[id := Row(Entry(id, kind, Rejected, message), true)]
  }

  predicate Refused(before: map<nat, Row>, after: map<nat, Row>, id: nat, kind: string) {
    RefusedWith(before, after, id, kind, IN_PROGRESS)
  }

  predicate Keyed(rows: map<nat, Row>) {
    forall id | id in rows :: rows[id].entry.id == id
  }

  /** The durable records that still say running. */
  function Open(rows: map<nat, Row>): set<nat> {
    set id | id in rows && rows[id].entry.status == Running
  }

  predicate AtMostOne(ids: set<nat>) {
    forall a, b | a in ids && b in ids :: a == b
  }

  /** Every operation in the set has left a durable terminal record. */
  predicate Settled(rows: map<nat, Row>, ids: set<nat>) {
    forall id | id in ids :: id in rows && rows[id].entry.status != Running
  }

  /**
   What holds of the store at every instant, and all that a new process relies on: at most one record says
   running, and every operation that ever ran has a record.
   */
  predicate StoreOk(rows: map<nat, Row>, started: set<nat>) {
    AtMostOne(Open(rows)) && Keyed(rows) && forall id | id in started :: id in rows
  }

  predicate RunsOnly(entries: seq<Entry>, current: Option<nat>) {
    match current case Some(id) => OnlyRunning(entries, id) case None => NoneRunning(entries)
  }

  /** The log in memory: ordered by id, within its limit, and holding the operation that runs, if one does. */
  predicate LogOk(entries: seq<Entry>, limit: nat, nextId: nat, current: Option<nat>) {
    && |entries| <= limit && Increasing(entries) && AllUpTo(entries, nextId) && RunsOnly(entries, current)
    && (current.Some? ==> current.value <= nextId)
  }

  /** At most one terminal record waits to be written. */
  predicate PendingOk(pending: map<nat, Entry>, nextId: nat) {
    && AtMostOne(pending.Keys)
    && forall id | id in pending :: pending[id].id == id && pending[id].status != Running && id <= nextId
  }

  /** Only the operations in `unsettled` may lack a durable terminal record. */
  predicate DurableOk(rows: map<nat, Row>, nextId: nat, started: set<nat>, unsettled: set<nat>) {
    && (forall id | id in rows :: id <= nextId) && (forall id | id in started :: id <= nextId)
    && Open(rows) <= unsettled && Settled(rows, started - unsettled)
  }

  class Manager {
    var entries: seq<Entry>
    var maxEntries: nat
    var nextId: nat
    var running: bool
    var pendingTerminal: map<nat, Entry>
    var available: bool           // the store could be loaded
    var rows: map<nat, Row>       // the store
    var calm: bool                // no write fails and the process does not end
    ghost var current: nat        // the operation that runs
    ghost var started: set<nat>   // every operation that ever ran, in any process

    ghost predicate Valid()
      reads this
    {
      && 1 <= maxEntries && LogOk(entries, maxEntries, nextId, if running then Some(current) else None)
      && PendingOk(pendingTerminal, nextId) && (running || !available ==> pendingTerminal == map[])
      && StoreOk(rows, started)
      && (if available then DurableOk(rows, nextId, started, if running then {current} else pendingTerminal.Keys)
          else !running)
      && (running ==> current in started && Open(rows) == {current})
    }

    /** Writes one record; at no instant, and wherever the process ends, does the store hold two that say running. */
    method Upsert(entry: Entry) returns (w: Written)
      requires StoreOk(rows, started) && (available && entry.status == Running ==> Open(rows) <= {entry.id})
      modifies this`rows
      ensures StoreOk(rows, started)
      ensures w.Done? ==> available && rows == old(rows)[entry.id := Row(entry, true)]
      ensures w.Undone? ==> rows == old(rows)
      ensures w.Ended? ==> rows == old(rows) || (available && rows == old(rows)[entry.id := Row(entry, true)])
      ensures calm ==> w == if available then Done else Undone
    {
      var done: bool, ends: bool := *, *;
      done, ends := (calm || done) && available, !calm && ends;
      if done {
        OpenAfter(rows, Row(entry, true));
        rows := rows[entry.id := Row(entry, true)];
      }
      w := if ends then Ended else if done then Done else Undone;
    }

    method PersistEntry(entry: Entry) returns (failure: Option<Failure>)
      requires StoreOk(rows, started) && (available && entry.status == Running ==> Open(rows) <= {entry.id})
      modifies this`rows
      ensures StoreOk(rows, started)
      ensures failure.None? ==> available && rows == old(rows)[entry.id := Row(entry, true)]
      ensures failure.Some? ==> failure.value == Crash || (failure.value == Persistence && rows == old(rows))
      ensures rows == old(rows) || (available && rows == old(rows)[entry.id := Row(entry, true)])
      ensures calm ==> failure == if available then None else Some(Persistence)
    {
      var attempt := 0;
      while attempt < PERSIST_ATTEMPTS
        invariant rows == old(rows) && (calm && available ==> attempt == 0)
      {
        var w := Upsert(entry);
        if w.Done? {
          return None;
        }
        if w.Ended? {
          return Some(Crash);
        }
        attempt := attempt + 1;
      }
      return Some(Persistence);
    }

    /** Removes the oldest entries that do not run until the log fits its limit. */
    method TrimEntries()
      requires 1 <= maxEntries && Increasing(entries)
      requires forall e, f | e in entries && f in entries && e.status == Running && f.status == Running :: e.id == f.id
      modifies this`entries
      ensures TrimmedTo(old(entries), entries, maxEntries)
    {
      while |entries| > maxEntries
        invariant Increasing(entries) && (forall e | e in entries :: e in old(entries))
        invariant |entries| >= (if |old(entries)| <= maxEntries then |old(entries)| else maxEntries)
            && |entries| <= |old(entries)|
        invariant forall e | e in old(entries) && e !in entries ::
                    e.status != Running && forall kept | kept in entries && kept.status != Running :: e.id < kept.id
        decreases |entries|
      {
        assert entries[0] in entries && entries[1] in entries && entries[0].id < entries[1].id;
        var removeAt := 0;
        while removeAt < |entries| && entries[removeAt].status == Running
          invariant removeAt <= |entries| && forall i | 0 <= i < removeAt :: entries[i].status == Running
        {
          removeAt := removeAt + 1;
        }
        if removeAt == |entries| {
          return;
        }
        RemoveOne(entries, removeAt);
        entries := Without(entries, removeAt);
      }
    }

    /** Trims the log after an entry was appended: whatever runs stays in it. */
    method TrimAppended(ghost before: seq<Entry>, ghost entry: Entry, ghost current: Option<nat>)
      requires 1 <= maxEntries && nextId >= 1 && entry.id == nextId && LogOk(before, maxEntries, nextId - 1, current)
      requires entries == before + [entry] && (entry.status == Running ==> current.None?)
      modifies this`entries
      ensures LogOk(entries, maxEntries, nextId, if entry.status == Running then Some(entry.id) else current)
      ensures TrimmedTo(old(entries), entries, maxEntries)
    {
      Appended(before, maxEntries, nextId - 1, current, entry);
      ghost var longer := entries;
      TrimEntries();
      assert forall e | e in longer && e.status == Running :: e in entries;
    }

    /** Writes the terminal records that wait, up to the first that fails. */
    method FlushPendingTerminal() returns (failure: Option<Failure>)
      requires Valid() && !running
      modifies this`rows, this`pendingTerminal
      ensures StoreOk(rows, started) && (failure != Some(Crash) ==> Valid())
      ensures failure.None? ==> pendingTerminal == map[] && (available ==> Open(rows) == {} && Settled(rows, started))
      ensures failure == Some(Persistence) ==> rows == old(rows) && pendingTerminal == old(pendingTerminal)
      ensures failure != Some(InProgress) && (calm ==> failure.None?)
    {
      if pendingTerminal == map[] {
        return None;
      }
      var ids := pendingTerminal.Keys;
      while ids != {}
        invariant ids == pendingTerminal.Keys && (pendingTerminal == old(pendingTerminal) || pendingTerminal == map[])
        invariant Valid() && (pendingTerminal == old(pendingTerminal) ==> rows == old(rows))
        decreases |ids|
      {
        var id :| id in ids;
        assert ids == {id};
        failure := PersistEntry(pendingTerminal[id]);
        if failure.Some? {
          return;
        }
        TerminalWritten(old(rows), nextId, started, pendingTerminal[id]);
        pendingTerminal := pendingTerminal - {id};
        ids := ids - {id};
      }
      failure := None;
    }

    /**
     Starting an operation.  Success means that its marker is durable, that it is the only durable record
     that says running, and that every operation before it has a durable terminal record.
     */
    method Start(kind: string) returns (failure: Option<Failure>, id: nat)
      requires Valid()
      modifies this`entries, this`nextId, this`running, this`pendingTerminal, this`rows, this`current, this`started
      ensures StoreOk(rows, started) && (failure != Some(Crash) ==> Valid())
      ensures failure == Some(InProgress) <==> old(running)
      ensures old(running) ==> entries == old(entries) && rows == old(rows) && running && current == old(current)
                               && pendingTerminal == old(pendingTerminal) && nextId == old(nextId)
      ensures failure.None? ==> && running && id == current == nextId > old(nextId)
                                && started == old(started) + {current}
                                && current in rows && rows[current].entry == Entry(current, kind, Running, "")
                                && Settled(rows, old(started))
      ensures failure.None? ==> TrimmedTo(old(entries) + [Entry(current, kind, Running, "")], entries, maxEntries)
      ensures failure == Some(Persistence) ==> !running && entries == old(entries)
      ensures failure.Some? ==> started == old(started)
      ensures !available ==> failure.Some?
      ensures calm ==>
                failure == if old(running) then Some(InProgress) else if available then None else Some(Persistence)
    {
      id := 0;
      if running {
        return Some(InProgress), 0;
      }
      failure := FlushPendingTerminal();
      if failure.Some? {
        return;
      }
      failure := WriteMarker(kind);
      id := nextId;
    }

    /**
     Enters a new operation in the log and writes its marker; if that fails the entry goes, and only its id
     is used up.
     */
    method WriteMarker(kind: string) returns (failure: Option<Failure>)
      requires Valid() && !running && pendingTerminal == map[]
      requires available ==> Open(rows) == {} && Settled(rows, started)
      modifies this`entries, this`nextId, this`running, this`rows, this`current, this`started
      ensures StoreOk(rows, started) && (failure != Some(Crash) ==> Valid()) && failure != Some(InProgress)
      ensures failure.None? ==> && running && current == nextId > old(nextId) && started == old(started) + {current}
                                && current in rows && rows[current].entry == Entry(current, kind, Running, "")
                                && Settled(rows, old(started))
      ensures failure.None? ==> TrimmedTo(old(entries) + [Entry(current, kind, Running, "")], entries, maxEntries)
      ensures failure == Some(Persistence) ==> !running && entries == old(entries)
      ensures failure.Some? ==> started == old(started)
      ensures !available ==> failure.Some?
      ensures calm ==> failure == if available then None else Some(Persistence)
    {
      nextId := nextId + 1;
      var entry := Entry(nextId, kind, Running, "");
      entries := entries + [entry];
      failure := PersistEntry(entry);
      if failure.Some? {
        assert entries[..|entries| - 1] == old(entries);
        entries := entries[..|entries| - 1];
        return;
      }
      MarkerWritten(old(rows), old(nextId), started, entry);
      EnterRunning(old(entries), entry);
    }

    /** Once the marker is durable the operation runs. */
    method EnterRunning(ghost before: seq<Entry>, ghost entry: Entry)
      requires 1 <= maxEntries && nextId >= 1 && LogOk(before, maxEntries, nextId - 1, None)
          && entries == before + [entry]
      requires entry.id == nextId && entry.status == Running && available && pendingTerminal == map[]
      requires StoreOk(rows, started + {nextId}) && DurableOk(rows, nextId, started + {nextId}, {nextId})
      requires Open(rows) == {nextId}
      modifies this`entries, this`running, this`current, this`started
      ensures Valid() && running && current == nextId && started == old(started) + {nextId}
      ensures TrimmedTo(old(entries), entries, maxEntries)
    {
      hide TrimmedTo;
      TrimAppended(before, entry, None);
      running := true;
      current := nextId;
      started := started + {nextId};
    }

    /** Records a refused operation; whether that becomes durable does not matter, if the process goes on. */
    method Reject(kind: string, message: string) returns (crashed: bool)
      requires Valid()
      modifies this`entries, this`nextId, this`rows
      ensures StoreOk(rows, started) && (!crashed ==> Valid())
      ensures nextId == old(nextId) + 1
      ensures Open(rows) == Open(old(rows))
      ensures RefusedWith(old(rows), rows, nextId, kind, message)
      ensures !crashed ==>
                TrimmedTo(old(entries) + [Entry(nextId, kind, Rejected, message)], entries, maxEntries)
      ensures calm ==> !crashed && (available ==> nextId in rows)
    {
      nextId := nextId + 1;
      var entry := Entry(nextId, kind, Rejected, message);
      entries := entries + [entry];
      var failure := PersistEntry(entry);
      if available {
        RejectionLeaves(old(rows), entry);
      }
      if failure.None? {
        RejectionWritten(old(rows), old(nextId), started, if running then {current} else pendingTerminal.Keys, entry);
      }
      crashed := failure == Some(Crash);
      if !crashed {
        TrimAppended(old(entries), entry, if running then Some(current) else None);
      }
    }

    /** Writes the terminal record of the operation that runs, or lets it wait. */
    method PersistTerminal(entry: Entry) returns (failure: Option<Failure>)
      requires StoreOk(rows, started) && DurableOk(rows, nextId, started, {entry.id}) && Open(rows) == {entry.id}
      requires entry.status != Running && entry.id <= nextId && pendingTerminal == map[]
      modifies this`pendingTerminal, this`rows
      ensures StoreOk(rows, started) && failure != Some(InProgress)
      ensures failure == Some(Crash) ==> entry.id in rows && rows[entry.id].entry.status in {Running, entry.status}
      ensures failure == Some(Persistence) ==> rows == old(rows) && pendingTerminal == map[entry.id := entry]
      ensures failure.None? ==> && rows == old(rows)[entry.id := Row(entry, true)] && pendingTerminal == map[]
                                && Open(rows) == {}
      ensures failure != Some(Crash) ==> && PendingOk(pendingTerminal, nextId)
                                         && DurableOk(rows, nextId, started, pendingTerminal.Keys)
      ensures calm && available ==> failure.None?
    {
      assert entry.id in Open(rows);
      failure := PersistEntry(entry);
      if failure == Some(Crash) {
        return;
      }
      if failure.Some? {
        pendingTerminal := pendingTerminal[entry.id := entry];
      } else {
        TerminalWritten(old(rows), nextId, started, entry);
        pendingTerminal := pendingTerminal - {entry.id};
      }
    }

    /** Finishing the operation that runs: its entry is there, and its terminal record is durable or waits. */
    method Finish(id: nat, status: Status, message: string) returns (failure: Option<Failure>)
      requires Valid() && running && id == current && status != Running
      modifies this`entries, this`running, this`pendingTerminal, this`rows
      ensures StoreOk(rows, started) && failure != Some(InProgress)
      ensures failure != Some(Crash) ==>
                Valid() && !running && EntryEndedOnly(old(entries), entries, id, status, message)
      ensures failure == Some(Crash) ==> id in rows && rows[id].entry.status in {Running, status}
      ensures failure.None? ==> id in rows && rows[id].entry.status == status && Open(rows) == {}
                                && pendingTerminal == map[] && rows[id].entry in entries
                                && rows == old(rows)[id := Row(rows[id].entry, true)]
      ensures failure == Some(Persistence) ==> rows == old(rows) && pendingTerminal.Keys == {id}
                                               && pendingTerminal[id].status == status && pendingTerminal[id] in entries
      ensures calm ==> failure.None?
    {
      var i := 0;
      while i < |entries| && entries[i].id != id
        invariant i <= |entries| && forall k | 0 <= k < i :: entries[k].id != id
      {
        i := i + 1;
      }
      var found := i < |entries|;
      failure := None;
      if found {
        var entry := entries[i].(status := status, message := message);
        Replaced(entries, maxEntries, nextId, id, i, entry);
        EntryEnded(entries, i, status, message);
        entries := entries[i := entry];
        failure := PersistTerminal(entry);
        if failure == Some(Crash) {
          return;
        }
        assert failure.None? || failure.value == Persistence;
      }
      running := false;
      if !found {
        failure := Some(Persistence);
      }
    }

    // ----- Running an operation -----

    /**
     What an operation does, while others are refused; the process may end at any point of it.  It runs only
     once its marker is durable and every operation before it has a durable terminal record.
     */
    method ExecuteBody() returns (r: Ending)
      requires Valid() && running && Open(rows) == {current} && Settled(rows, started - {current})
      modifies this`entries, this`nextId, this`rows
      ensures StoreOk(rows, started) && Open(rows) == {current} && (r.Returned? ==> Valid())
      ensures calm ==> r.Returned?
    {
      var refused: nat, ends: bool := *, *;
      while refused > 0
        invariant Valid() && running && Open(rows) == {current}
      {
        var kind: string := *;
        var crashed := Reject(kind, IN_PROGRESS);
        if crashed {
          return Crashed;
        }
        refused := refused - 1;
      }
      var error: Option<Error> := *;
      r := if ends && !calm then Crashed else Returned(error);
    }

    /**
     Runs an operation and returns the error of its body, with the failure to record its end as a compensation
     of it.  If the process ends anywhere on the way, the store is what a new process can rely on.
     */
    method Run(kind: string) returns (r: Ending, body: Ending, executed: bool)
      requires Valid()
      modifies this`entries, this`nextId, this`running, this`pendingTerminal, this`rows, this`current, this`started
      ensures StoreOk(rows, started) && (r.Returned? ==> Valid() && running == old(running))
      ensures executed ==> !old(running) && old(available) && started == old(started) + {current}
                           && current !in old(started)
      ensures executed && r.Returned? ==> body.Returned? && Recorded(r.error, body.error)
      ensures executed && r.Crashed? ==> Honest(body)
      ensures !executed ==> started == old(started)
      ensures !executed && r.Returned? ==>
                r.error == Some(Leaf(if old(running) then OperationInProgress else OperationPersistence))
      ensures old(running) ==> nextId == old(nextId) + 1 && Refused(old(rows), rows, nextId, kind)
      ensures calm ==> r.Returned? && executed == (available && !old(running)) && (executed ==> r == body)
    {
      executed, body := false, Returned(None);
      var failure, id := Start(kind);
      if failure == Some(Crash) {
        return Crashed, body, false;
      }
      if failure.Some? {
        assert failure.value == InProgress || failure.value == Persistence;
        if failure == Some(InProgress) {
          var crashed := Reject(kind, IN_PROGRESS);
          return if crashed then Crashed else Returned(Some(Leaf(OperationInProgress))), body, false;
        }
        return Returned(Some(Leaf(OperationPersistence))), body, false;
      }
      r, body := RunStarted(id);
      executed := true;
    }

    /** How the end of the current operation is recorded, and what that makes of its error. */
    ghost predicate Recorded(error: Option<Error>, body: Option<Error>)
      reads this
    {
      var status := if body.None? then Succeeded else Failed;
      if current in pendingTerminal then
        && pendingTerminal.Keys == {current} && pendingTerminal[current].status == status && Open(rows) == {current}
        && error == if body.None? then Some(Leaf(OperationPersistence))
                    else AddCompensation(body, [Some(Leaf(OperationPersistence))])
      else
        current in rows && rows[current].entry.status == status && Open(rows) == {} && error == body
    }

    /** The record of the current operation, if it has ended, says how its body ended. */
    ghost predicate Honest(body: Ending)
      reads this
    {
      && current in rows
      && (rows[current].entry.status != Running ==>
            body.Returned? && rows[current].entry.status == if body.error.None? then Succeeded else Failed)
    }

    method RunStarted(id: nat) returns (r: Ending, body: Ending)
      requires Valid() && running && id == current
      modifies this`entries, this`nextId, this`running, this`pendingTerminal, this`rows
      ensures StoreOk(rows, started)
      ensures r.Returned? ==> Valid() && !running && body.Returned? && Recorded(r.error, body.error)
      ensures r.Crashed? ==> Honest(body)
      ensures calm ==> r.Returned? && r == body
    {
      body := ExecuteBody();
      if body.Crashed? {
        return Crashed, body;
      }
      var failure := Finish(id, if body.error.None? then Succeeded else Failed, "");
      if failure == Some(Crash) {
        return Crashed, body;
      }
      assert failure.None? || failure.value == Persistence;
      if failure.None? {
        r := body;
      } else if body.error.None? {
        r := Returned(Some(Leaf(OperationPersistence)));
      } else {
        r := Returned(AddCompensation(body.error, [Some(Leaf(OperationPersistence))]));
      }
    }

    // ----- Starting again -----

    /** Reads the records in the order of their ids, leaving out those whose time cannot be read. */
    method ReadRows() returns (read: seq<Entry>, highest: nat)
      requires Keyed(rows)
      ensures ReadUpTo(rows, rows.Keys, read, highest)
    {
      read, highest := [], 0;
      var ids := rows.Keys;
      ghost var done: set<nat> := {};
      while ids != {}
        invariant ids + done == rows.Keys && ReadUpTo(rows, done, read, highest)
        invariant forall id, other | id in done && other in ids :: id < other
        decreases ids
      {
        ghost var least := Least(ids);
        var id :| id in ids && forall other | other in ids :: id <= other;
        ReadOne(rows, done, read, highest, id);
        if rows[id].readable {
          read := read + [rows[id].entry];
        }
        highest := id;
        ids, done := ids - {id}, done + {id};
      }
      assert done == rows.Keys;
    }

    /** Ends what was running, then reads what is left of the log; any failure makes the store unavailable. */
    method Load(limit: nat) returns (loaded: Option<seq<Entry>>, highest: nat)
      requires StoreOk(rows, started) && limit >= 1
      modifies this`rows
      ensures StoreOk(rows, started) && (rows == old(rows) || MarkedInterrupted(old(rows), rows))
      ensures calm ==> loaded.Some?
      ensures loaded.Some? ==> && MarkedInterrupted(old(rows), rows) && Open(rows) == {} && Settled(rows, started)
                               && (forall id | id in rows :: id <= highest)
                               && MostRecent(rows, loaded.value, limit)
    {
      var updated: bool := *;
      if !updated && !calm {
        return None, 0;
      }
      rows := Interrupted(rows);
      InterruptedSettles(old(rows), started);
      var queried: bool := *;
      if !queried && !calm {
        return None, 0;
      }
      var read: seq<Entry>;
      read, highest := ReadRows();
      Newest(rows, read, highest, limit);
      loaded := Some(if |read| > limit then read[|read| - limit..] else read);
    }

    /**
     A new process, whatever the last one was doing: nothing runs, nothing waits, and if the log could be
     loaded no record says running and every operation that ever ran has a terminal record.
     */
    method Restart(limit: int)
      requires StoreOk(rows, started)
      modifies this`entries, this`maxEntries, this`nextId, this`running, this`pendingTerminal, this`available, this`rows
      ensures Valid() && !running && pendingTerminal == map[]
          && maxEntries == (if limit < 1 then DEFAULT_LIMIT else limit)
      ensures calm ==> available
      ensures available ==> && MarkedInterrupted(old(rows), rows) && Open(rows) == {} && Settled(rows, started)
                            && MostRecent(rows, entries, maxEntries)
      ensures !available ==> entries == []
    {
      maxEntries := if limit < 1 then DEFAULT_LIMIT else limit;
      var loaded, highest := Load(maxEntries);
      running, pendingTerminal, available := false, map[], loaded.Some?;
      if loaded.None? {
        entries, nextId := [], 0;
        return;
      }
      LoadedLog(rows, loaded.value, maxEntries, highest);
      entries, nextId := loaded.value, highest;
    }

    /**
     An operation in a process that may end at any point of it, and then a new process: once the log is loaded
     no record says running, every operation that ever ran has a terminal record, and the record of this one
     says succeeded only if its body did end without an error.
     */
    method RunThenRestart(kind: string, limit: int) returns (body: Ending, executed: bool)
      requires Valid() && !running
      modifies this
      ensures Valid() && !running && (executed ==> current in started && current !in old(started))
      ensures available ==> Open(rows) == {} && Settled(rows, started)
      ensures available && executed ==> && current in rows && rows[current].entry.status in {Succeeded, Failed}
                                        && (rows[current].entry.status == Succeeded ==> body == Returned(None))
    {
      var r: Ending;
      r, body, executed := Run(kind);
      Restart(limit);
    }

    /**
     Any run: operations, refusals, and processes that end at any point of them and start again.  Every
     operation that ran left a record, no two records ever say running, and with a store that can be loaded
     each of them has a durable terminal record, but for at most one whose record still waits.
     */
    method History(steps: nat) returns (alive: bool)
      requires Valid() && !running
      modifies this
      ensures StoreOk(rows, started) && old(started) <= started && (alive ==> Valid() && !running)
      ensures alive && available ==> AtMostOne(pendingTerminal.Keys) && Settled(rows, started - pendingTerminal.Keys)
    {
      alive := true;
      for i := 0 to steps
        invariant StoreOk(rows, started) && old(started) <= started && (alive ==> Valid() && !running)
      {
        var choice: nat, limit: int, kind: string := *, *, *;
        calm := *;
        if !alive || choice == 0 {
          Restart(limit);
          alive := true;
        } else if choice == 1 {
          var crashed := Reject(kind, IN_PROGRESS);
          alive := !crashed;
        } else {
          var r, body, executed := Run(kind);
          alive := r.Returned?;
        }
      }
    }

    /** However a run ended, a new process that can load the log finds every operation settled. */
    method HistoryThenRestart(steps: nat, limit: int)
      requires Valid() && !running
      modifies this
      ensures Valid() && !running && pendingTerminal == map[]
      ensures available ==> Open(rows) == {} && Settled(rows, started) && old(started) <= started
    {
      var alive := History(steps);
      Restart(limit);
    }
  }

  function Without(entries: seq<Entry>, at: nat): seq<Entry>
    requires at < |entries|
  {
    entries[..at] + entries[at + 1..]
  }

  lemma WithoutAt(entries: seq<Entry>, at: nat)
    requires at < |entries|
    ensures forall k | 0 <= k < |entries| - 1 :: Without(entries, at)[k] == entries[if k < at then k else k + 1]
    ensures forall k | 0 <= k < |entries| && k != at :: entries[k] in Without(entries, at)
    ensures forall e | e in Without(entries, at) :: e in entries
  {
    forall k | 0 <= k < |entries| && k != at ensures entries[k] in Without(entries, at) {
      assert Without(entries, at)[if k < at then k else k - 1] == entries[k];
    }
  }

  lemma RemoveOne(entries: seq<Entry>, at: nat)
    requires at < |entries| && Increasing(entries) && entries[at].status != Running
    requires forall i | 0 <= i < at :: entries[i].status == Running
    ensures var rest := Without(entries, at);
            && Increasing(rest) && (forall e | e in rest :: e in entries)
            && (forall e | e in entries && e !in rest :: e == entries[at])
            && forall e | e in rest && e.status != Running :: entries[at].id < e.id
  {
    WithoutAt(entries, at);
    var rest := Without(entries, at);
    forall e | e in rest && e.status != Running ensures entries[at].id < e.id {
      var k :| 0 <= k < |rest| && rest[k] == e;
      assert e == entries[if k < at then k else k + 1];
    }
  }

  lemma Appended(entries: seq<Entry>, limit: nat, nextId: nat, current: Option<nat>, entry: Entry)
    requires LogOk(entries, limit, nextId, current) && entry.id == nextId + 1
        && (entry.status == Running ==> current.None?)
    ensures var longer := entries + [entry];
            && Increasing(longer) && AllUpTo(longer, nextId + 1)
            && RunsOnly(longer, if entry.status == Running then Some(entry.id) else current)
  {
    var longer := entries + [entry];
    assert longer[|entries|] == entry;
    assert forall e | e in longer :: e in entries || e == entry;
    assert forall e | e in entries :: e in longer;
  }

  lemma Replaced(entries: seq<Entry>, limit: nat, nextId: nat, id: nat, i: nat, entry: Entry)
    requires LogOk(entries, limit, nextId, Some(id)) && i < |entries| && entries[i].id == id && entry.id == id
        && entry.status != Running
    ensures LogOk(entries[i := entry], limit, nextId, None)
  {
    var after := entries[i := entry];
    forall e | e in after ensures e.status != Running && e.id <= nextId {
      var k :| 0 <= k < |after| && after[k] == e;
      assert k != i ==> e == entries[k] && e in entries && e.id != id;
    }
  }

  lemma EntryEnded(entries: seq<Entry>, i: nat, status: Status, message: string)
    requires i < |entries| && Increasing(entries)
    ensures var ended := entries[i].(status := status, message := message);
            EntryEndedOnly(entries, entries[i := ended], entries[i].id, status, message)
  {
    var after := entries[i := entries[i].(status := status, message := message)];
    assert after[i].id == entries[i].id;
  }

  lemma MarkerWritten(rows: map<nat, Row>, nextId: nat, started: set<nat>, entry: Entry)
    requires DurableOk(rows, nextId, started, {}) && Keyed(rows) && entry.id == nextId + 1 && entry.status == Running
    ensures var after := rows[entry.id := Row(entry, true)];
            DurableOk(after, nextId + 1, started + {entry.id}, {entry.id}) && Keyed(after) && Open(after) == {entry.id}
            && Settled(after, started)
  {
    OpenAfter(rows, Row(entry, true));
  }

  lemma RejectionLeaves(rows: map<nat, Row>, entry: Entry)
    requires entry.status != Running && entry.id !in Open(rows)
    ensures Open(rows[entry.id := Row(entry, true)]) == Open(rows)
  {
    OpenAfter(rows, Row(entry, true));
  }

  lemma RejectionWritten(rows: map<nat, Row>, nextId: nat, started: set<nat>, unsettled: set<nat>, entry: Entry)
    requires DurableOk(rows, nextId, started, unsettled) && Keyed(rows) && entry.id == nextId + 1
        && entry.status != Running
    ensures var after := rows[entry.id := Row(entry, true)];
            DurableOk(after, nextId + 1, started, unsettled) && Keyed(after) && Open(after) == Open(rows)
  {
    OpenAfter(rows, Row(entry, true));
  }

  lemma TerminalWritten(rows: map<nat, Row>, nextId: nat, started: set<nat>, entry: Entry)
    requires DurableOk(rows, nextId, started, {entry.id}) && Keyed(rows) && entry.status != Running
        && entry.id <= nextId
    ensures var after := rows[entry.id := Row(entry, true)];
            DurableOk(after, nextId, started, {}) && Keyed(after) && Open(after) == {}
  {
    OpenAfter(rows, Row(entry, true));
  }

  lemma OpenAfter(rows: map<nat, Row>, row: Row)
    ensures Open(rows[row.entry.id := row]) ==
            if row.entry.status == Running then Open(rows) + {row.entry.id} else Open(rows) - {row.entry.id}
  {
  }

  /** What a restart makes of the records: whatever ran has failed. */
  function Interrupted(rows: map<nat, Row>): map<nat, Row> {
    map id | id in rows ::
      if rows[id].entry.status == Running
      then Row(rows[id].entry.(status := Failed, message := INTERRUPTED), rows[id].readable)
      else rows[id]
  }

  lemma InterruptedSettles(rows: map<nat, Row>, started: set<nat>)
    requires StoreOk(rows, started)
    ensures StoreOk(Interrupted(rows), started) && Open(Interrupted(rows)) == {} && Settled(Interrupted(rows), started)
  {
  }

  /** The readable records with these ids, in order, and a bound on the ids. */
  predicate ReadUpTo(rows: map<nat, Row>, ids: set<nat>, read: seq<Entry>, highest: nat) {
    && Increasing(read) && (forall e | e in read :: e.id in ids && e.id in rows && rows[e.id] == Row(e, true))
    && (forall id | id in ids && id in rows && rows[id].readable :: rows[id].entry in read)
    && forall id | id in ids :: id <= highest
  }

  /** The newest readable records, all of them if they fit. */
  predicate MostRecent(rows: map<nat, Row>, log: seq<Entry>, limit: nat) {
    && |log| <= limit && Increasing(log) && (forall e | e in log :: e.id in rows && rows[e.id] == Row(e, true))
    && forall id | id in rows && rows[id].readable && rows[id].entry !in log ::
         |log| == limit && forall e | e in log :: rows[id].entry.id < e.id
  }

  lemma ReadOne(rows: map<nat, Row>, ids: set<nat>, read: seq<Entry>, highest: nat, id: nat)
    requires Keyed(rows) && ReadUpTo(rows, ids, read, highest) && id in rows
        && forall other | other in ids :: other < id
    ensures ReadUpTo(rows, ids + {id}, if rows[id].readable then read + [rows[id].entry] else read, id)
  {
    if rows[id].readable {
      var longer := read + [rows[id].entry];
      assert longer[|read|] == rows[id].entry;
      assert forall e | e in longer :: e in read || e == rows[id].entry;
      assert forall e | e in read :: e in longer;
    }
  }

  lemma Newest(rows: map<nat, Row>, read: seq<Entry>, highest: nat, limit: nat)
    requires ReadUpTo(rows, rows.Keys, read, highest) && limit >= 1
    ensures MostRecent(rows, if |read| > limit then read[|read| - limit..] else read, limit)
  {
    if |read| > limit {
      var from := |read| - limit;
      var log := read[from..];
      assert forall k | 0 <= k < |log| :: log[k] == read[from + k];
      assert forall k | from <= k < |read| :: log[k - from] == read[k];
      forall e | e in log ensures e in read {
        var k :| 0 <= k < |log| && log[k] == e;
      }
      forall id, e | id in rows && rows[id].readable && rows[id].entry !in log && e in log
        ensures rows[id].entry.id < e.id
      {
        var j :| 0 <= j < |read| && read[j] == rows[id].entry;
        var k :| 0 <= k < |log| && log[k] == e;
        assert j < from;
      }
    }
  }

  lemma LoadedLog(rows: map<nat, Row>, log: seq<Entry>, limit: nat, highest: nat)
    requires MostRecent(rows, log, limit) && Open(rows) == {} && (forall id | id in rows :: id <= highest)
    ensures LogOk(log, limit, highest, None)
  {
    forall e | e in log ensures e.status != Running {
      assert e.id !in Open(rows);
    }
  }

  lemma {:induction false} Least(ids: set<nat>) returns (least: nat)
    requires ids != {}
    ensures least in ids && forall other | other in ids :: least <= other
    decreases ids
  {
    var some :| some in ids;
    var smaller := set id | id in ids && id < some;
    assert forall other | other in ids && other !in smaller :: some <= other;
    if smaller == {} {
      least := some;
    } else {
      least := Least(smaller);
    }
  }
}
