/**
 Timelines and the operations that create, attach and delete them.  Every call to the branch store's file,
 to the pageserver and to an endpoint may fail; a failed creation may leave a timeline that nobody has
 acknowledged, and a failed deletion may have deleted all the same.
 */
module TimelineSagas {
  import opened Options
  import opened OperationErrors

  type Name = string

  const MAIN: Name := "main"
  const RESOLVE_ATTEMPTS := 5

  datatype Timeline = Timeline(tenant: nat, id: nat)

  datatype Branch = Branch(parent: Name, deleted: bool, attachment: Option<Timeline>)

  type Branches = map<Name, Branch>

  predicate IsActive(branches: Branches, name: Name) {
    name in branches && !branches[name].deleted
  }

  predicate IsAttached(branches: Branches, name: Name) {
    IsActive(branches, name) && branches[name].attachment.Some?
  }

  function ActiveNames(branches: Branches): set<Name> {
    set name | name in branches && !branches[name].deleted
  }

  function Attached(branches: Branches): set<Timeline> {
    set name | name in branches && IsAttached(branches, name) :: branches[name].attachment.value
  }

  /** Walking up from a branch meets an attached branch or the root before it meets a branch twice or a missing one. */
  predicate Resolvable(branches: Branches, name: Name, visiting: set<Name>)
    decreases |ActiveNames(branches) - visiting|
  {
    && name !in visiting && IsActive(branches, name)
    && (|| IsAttached(branches, name) || name == MAIN || branches[name].parent == ""
        || (Shrinks(branches, name, visiting);
            Resolvable(branches, branches[name].parent, visiting + {name})))
  }

  lemma Shrinks(branches: Branches, name: Name, visiting: set<Name>)
    requires name !in visiting && IsActive(branches, name)
    ensures |ActiveNames(branches) - (visiting + {name})| < |ActiveNames(branches) - visiting|
  {
    var open := ActiveNames(branches) - visiting;
    assert ActiveNames(branches) - (visiting + {name}) == open - {name};
  }

  lemma AttachedIsResolvable(branches: Branches, name: Name)
    requires IsAttached(branches, name)
    ensures Resolvable(branches, name, {})
  {
  }

  lemma ResolvableStep(branches: Branches, name: Name, visiting: set<Name>)
    requires name !in visiting && IsActive(branches, name) && branches[name].attachment.None?
    ensures |ActiveNames(branches) - (visiting + {name})| < |ActiveNames(branches) - visiting|
    ensures Resolvable(branches, name, visiting) <==>
              name == MAIN || branches[name].parent == ""
              || Resolvable(branches, branches[name].parent, visiting + {name})
  {
    Shrinks(branches, name, visiting);
  }

  /**
   The parent graph may have a cycle: `a` is deleted and created again under its own child `b`.  Neither of
   them can be resolved until one of them is attached.
   */
  lemma CycleIsNotResolvable(branches: Branches, a: Name, b: Name)
    requires IsActive(branches, a) && IsActive(branches, b) && a != MAIN && b != MAIN && a != "" && b != ""
    requires branches[a].parent == b && branches[b].parent == a
    ensures Resolvable(branches, a, {}) <==> IsAttached(branches, a) || IsAttached(branches, b)
  {
    if !IsAttached(branches, a) {
      ResolvableStep(branches, a, {});
      if !IsAttached(branches, b) && a != b {
        ResolvableStep(branches, b, {} + {a});
      }
    }
  }

  /** Everything but the attachments is the same, and no attachment is lost. */
  predicate OnlyAttaches(before: Branches, after: Branches) {
    && before.Keys == after.Keys
    && forall name | name in before ::
         && after[name].parent == before[name].parent && after[name].deleted == before[name].deleted
         && (before[name].attachment.Some? || before[name].deleted ==>
               after[name].attachment == before[name].attachment)
  }

  /** No other branch has changed, or it has been attached. */
  predicate Beside(before: Branches, after: Branches, name: Name) {
    OnlyAttaches(before - {name}, after - {name})
  }

  /** No record is added, removed, deleted or moved to another parent. */
  predicate SameRecords(before: Branches, after: Branches) {
    && before.Keys == after.Keys
    && forall name | name in before ::
         after[name].parent == before[name].parent && after[name].deleted == before[name].deleted
  }

  /** What a reset takes besides calls that succeed. */
  predicate Resettable(branches: Branches, name: Name) {
    name != MAIN && name != "" && IsActive(branches, name) && Resolvable(branches, branches[name].parent, {})
  }

  /** At most this branch's attachment has changed. */
  predicate Reattached(before: Branches, after: Branches, name: Name) {
    name in before && name in after && after == before[name := before[name].(attachment := after[name].attachment)]
  }

  /** Only the root has no parent, and no branch is attached before the root is. */
  predicate Rooted(branches: Branches) {
    && IsActive(branches, MAIN) && "" !in branches
    && (forall name | name in branches :: branches[name].parent == "" <==> name == MAIN)
    && (Attached(branches) != {} ==> IsAttached(branches, MAIN))
  }

  /** A timeline belongs to one branch. */
  predicate Unshared(branches: Branches) {
    forall a, b | a in branches && b in branches && IsAttached(branches, a) && IsAttached(branches, b) && a != b ::
      branches[a].attachment != branches[b].attachment
  }

  predicate Below(ts: set<Timeline>, bound: nat) {
    forall t | t in ts :: t.id < bound
  }

  /** None of these timelines is gone, and all of them are old. */
  predicate Outlived(gone: set<Timeline>, former: set<Timeline>, bound: nat) {
    gone !! former && Below(former, bound)
  }

  /** What the primary manager, its selection file and compute, and the endpoints of published branches point at. */
  datatype Pointers = Pointers(selected: Name, attachment: Option<Timeline>, attachments: map<Name, Timeline>,
                               endpoints: map<Name, Timeline>, named: set<Timeline>)

  /** What an active branch or any of these refers to. */
  function Referenced(branches: Branches, p: Pointers): set<Timeline> {
    Attached(branches) + Its(p.attachment) + p.named + (set name | name in p.attachments :: p.attachments[name])
    + set name | name in p.endpoints :: p.endpoints[name]
  }

  predicate SparedBy(m: map<Name, Timeline>, gone: set<Timeline>, bound: nat) {
    forall n | n in m :: m[n] !in gone && m[n].id < bound
  }

  predicate Spared(selected: Option<Timeline>, attachments: map<Name, Timeline>, gone: set<Timeline>, bound: nat) {
    (selected.Some? ==> selected.value !in gone && selected.value.id < bound) && SparedBy(attachments, gone, bound)
  }

  predicate Misses(m: map<Name, Timeline>, t: Timeline) {
    forall n | n in m :: m[n] != t
  }

  predicate AllBelow(m: map<Name, Timeline>, since: nat) {
    forall n | n in m :: m[n].id < since
  }

  predicate ReferencesBelow(p: Pointers, since: nat) {
    (p.attachment.Some? ==> p.attachment.value.id < since) && AllBelow(p.attachments, since) && Below(p.named, since)
  }

  /** What a branch that is active is attached to. */
  function TimelineOf(branches: Branches, name: Name): set<Timeline> {
    if IsAttached(branches, name) then {branches[name].attachment.value} else {}
  }

  /** At most one branch's endpoint has changed: it is pointed at this timeline. */
  predicate PointedAt(before: map<Name, Timeline>, after: map<Name, Timeline>, name: Name, t: Timeline) {
    after == before || after == before[name := t]
  }

  /** The same for a branch that is published already. */
  predicate Repointed(before: map<Name, Timeline>, after: map<Name, Timeline>, name: Name, t: Timeline) {
    after == before || (name in before && after == before[name := t])
  }

  predicate OthersSame(before: map<Name, Timeline>, after: map<Name, Timeline>, name: Name) {
    forall n | n in before.Keys + after.Keys && n != name :: n in before && n in after && after[n] == before[n]
  }

  /** A reset moves nothing but its own branch, and the primary only if it serves that branch. */
  predicate Framed(before: Pointers, after: Pointers, name: Name, wasPrimary: bool) {
    && after.selected == before.selected
    && OthersSame(before.attachments, after.attachments, name) && OthersSame(before.endpoints, after.endpoints, name)
    && (!wasPrimary ==> after.attachment == before.attachment && after.named == before.named)
  }

  /** What a reset has undone: everything is as it was or pointed at what the branch was attached to. */
  predicate Undone(before: Pointers, after: Pointers, target: Option<Timeline>, wasPrimary: bool, name: Name) {
    && (|| after.attachments == before.attachments
        || (target.Some? && after.attachments == before.attachments[name := target.value]))
    && (|| after.endpoints == before.endpoints
        || (target.Some? && name in before.endpoints && after.endpoints == before.endpoints[name := target.value]))
    && (|| (after.attachment == before.attachment && after.named == before.named)
        || (wasPrimary && target.Some? && after.attachment == target && after.named == {target.value}))
  }

  /** The manager, the endpoint and, if it serves the branch, the primary are back on the old timeline. */
  predicate BackOn(before: Pointers, after: Pointers, target: Timeline, wasPrimary: bool, name: Name) {
    && after.attachments == before.attachments[name := target]
    && Repointed(before.endpoints, after.endpoints, name, target)
    && (name in after.endpoints ==> after.endpoints[name] == target)
    && (wasPrimary ==> after.attachment == Some(target) && after.named == {target})
  }

  /** The primary serves the branch on this timeline. */
  predicate MovedTo(p: Pointers, name: Name, t: Timeline) {
    p.selected == name && p.attachment == Some(t) && p.named == {t}
  }

  /** The primary has come to serve the branch, or the manager remembers what it did and nothing else is named. */
  predicate StaysOrMoves(before: Pointers, after: Pointers, name: Name, t: Timeline) {
    || MovedTo(after, name, t)
    || (&& after.selected == before.selected && after.attachment == before.attachment
        && after.named <= before.named + Its(before.attachment) + {t})
  }

  /** The same after a failure, with what the branch is attached to in the store by then. */
  predicate StaysOrTakes(before: Pointers, after: Pointers, name: Name, branches: Branches) {
    || (IsAttached(branches, name) && MovedTo(after, name, branches[name].attachment.value))
    || (&& after.selected == before.selected && after.attachment == before.attachment
        && after.named <= before.named + Its(before.attachment) + TimelineOf(branches, name))
  }

  function Noted(fault: Option<Cause>, cause: Cause): Option<Cause> {
    if fault.Some? then fault else Some(cause)
  }

  predicate Kept(before: Option<Cause>, after: Option<Cause>) {
    before.Some? ==> after == before
  }

  /** An error says why the call that failed first did, whatever failed after it. */
  predicate Blames(e: Error, fault: Option<Cause>) {
    fault.Some? && Uncompensated(e) == Wrapped(Leaf(fault.value))
  }

  /** An error of the resolver: a failed call, or without one a missing ancestor or a cycle. */
  predicate Unresolved(e: Error, fault: Option<Cause>, resolvable: bool) {
    || (Blames(e, fault) && !Is(e, NotFound))
    || (!resolvable && fault.None? && (e == Leaf(NotFound) || e == Wrapped(Leaf(Unavailable))))
  }

  /** The same for an operation, whatever its compensation came to. */
  predicate Classified(e: Error, fault: Option<Cause>, resolvable: bool) {
    || Blames(e, fault)
    || (!resolvable && (Uncompensated(e) == Leaf(NotFound) || Uncompensated(e) == Wrapped(Leaf(Unavailable))))
  }

  /** Why a record cannot be created. */
  predicate CreationRefused(e: Error, branches: Branches, parent: Name, name: Name) {
    || (e == Leaf(InvalidName) && name == "")
    || (e == Leaf(ParentMissing) && !IsActive(branches, ParentOrMain(parent)))
    || (e == Leaf(AlreadyExists) && IsActive(branches, name))
  }

  /** The time of a restore stands for a position in the history of the source. */
  predicate Placed(kind: Lookup) {
    kind == Present || kind == Future
  }

  predicate Unplaced(e: Error, kind: Lookup) {
    || (e == Leaf(HistoryUnavailable) && (kind == Past || kind == NoData))
    || (e == Wrapped(Leaf(Unavailable)) && kind == Unknown)
  }

  predicate RestoreRefused(e: Error, branches: Branches, source: Name, name: Name, tooEarly: bool, kind: Lookup) {
    || (e == Leaf(HistoryUnavailable) && tooEarly) || Unplaced(e, kind)
    || (e == Leaf(InvalidName) && name == "")
    || (e == Leaf(ParentMissing) && !IsActive(branches, source))
    || (e == Leaf(AlreadyExists) && IsActive(branches, name))
  }

  predicate ResetRefused(e: Error, branches: Branches, name: Name) {
    || (e == Leaf(Protected) && (name == MAIN || name == ""))
    || (e == Leaf(NotFound) && !IsActive(branches, name))
  }

  /** What a restore takes besides calls that succeed. */
  predicate Restorable(branches: Branches, source: Name, name: Name, tooEarly: bool, kind: Lookup) {
    Resolvable(branches, source, {}) && !tooEarly && Placed(kind) && !IsActive(branches, name) && name != ""
  }

  /** What a creation takes besides calls that succeed. */
  predicate Creatable(branches: Branches, parent: Name, name: Name, autoPublish: bool) {
    && name != "" && IsActive(branches, ParentOrMain(parent)) && !IsActive(branches, name)
    && (autoPublish ==> Resolvable(Added(branches, name, parent), name, {}))
  }

  function Added(branches: Branches, name: Name, parent: Name): Branches {
    branches[name := Branch(ParentOrMain(parent), false, None)]
  }

  function Unaccounted(created: set<Timeline>, gone: set<Timeline>, attached: set<Timeline>,
                       retired: set<Timeline>, superseded: set<Timeline>): set<Timeline> {
    created - gone - attached - retired - superseded
  }

  datatype Result = Ok(timeline: Timeline) | Err(error: Error)

  datatype Lookup = Present | Future | Past | NoData | Unknown

  class Controller {
    var branches: Branches                          // the branch store
    var selected: Name                              // the primary manager's branch, its attachment,
    var selectedAttachment: Option<Timeline>
    var attachments: map<Name, Timeline>            // and its attachments by branch
    var endpoints: map<Name, Timeline>              // what the computes of published branches are pointed at
    var named: set<Timeline>                        // what the selection file names and the primary compute serves
    var tenants: set<nat>                           // the pageserver
    var live: set<Timeline>
    var ancestors: map<Timeline, Option<Timeline>>
    var nextId: nat                                 // random ids never collide
    var calm: bool                                  // no call fails during the current operation
    ghost var gone: set<Timeline>                   // deleted by the controller
    ghost var created: set<Timeline>                // created by the controller and acknowledged
    ghost var retired: set<Timeline>                // of branches that a user has deleted
    ghost var superseded: set<Timeline>             // replaced by a successful reset
    ghost const found: set<Timeline>                // there before the controller was
    ghost var formerBelow: nat                        // what has been retired, replaced or found is older
    ghost var fault: Option<Cause>                  // of the call that failed first in the current operation

    ghost function References(): set<Timeline>
      reads this
    {
      Referenced(branches, Pointing())
    }

    function Pointing(): Pointers
      reads this
    {
      Pointers(selected, selectedAttachment, attachments, endpoints, named)
    }

    ghost predicate Valid()
      reads this
    {
      && Rooted(branches) && Unshared(branches)
      && gone !! Attached(branches) && gone !! live
      && Spared(selectedAttachment, attachments, gone, nextId) && SparedBy(endpoints, gone, nextId)
      && gone !! named && Below(named, nextId)
      && Below(Attached(branches), nextId) && Below(live, nextId) && Below(gone, nextId) && Below(created, nextId)
      && Outlived(gone, retired + superseded + found, formerBelow) && formerBelow <= nextId
      && (calm ==> fault.None?)
    }

    /** Timelines that keep what a user let go of, and those of somebody else. */
    ghost function Former(): set<Timeline>
      reads this
    {
      retired + superseded + found
    }

    ghost predicate Unreferenced(t: Timeline)
      reads this
    {
      && t !in Attached(branches) && Some(t) != selectedAttachment && t !in named
      && Misses(attachments, t) && Misses(endpoints, t)
    }

    /** Timelines that the controller has created and can no longer account for. */
    ghost function Leaked(): set<Timeline>
      reads this
    {
      Unaccounted(created, gone, Attached(branches), retired, superseded)
    }

    /** A store that holds the root alone, beside a pageserver that may hold timelines of its own. */
    constructor (tenants: set<nat>, live: set<Timeline>, nextId: nat)
      requires Below(live, nextId)
      ensures Valid() && Leaked() == {} && References() == {} && this.live == live && found == live
    {
      this.branches := map[MAIN := Branch("", false, None)];
      this.selected, this.selectedAttachment, this.attachments, this.endpoints := MAIN, None, map[], map[];
      this.named := {};
      this.tenants, this.live, this.ancestors, this.nextId := tenants, live, map[], nextId;
      this.calm, this.found, this.formerBelow := false, live, nextId;
      this.gone, this.created, this.retired, this.superseded, this.fault := {}, {}, {}, {}, None;
    }

    lemma NothingAbove(name: Name)
      requires Valid()
      ensures ReferencesBelow(Pointing(), nextId) && AllBelow(endpoints, nextId) && OthersBelow(endpoints, name, nextId)
    {
    }

    // ----- Calls that may fail -----

    method Try(cause: Cause) returns (done: bool)
      modifies this`fault
      ensures fault == (if done then old(fault) else Noted(old(fault), cause)) && (calm ==> done)
    {
      var fails: bool := *;
      done := calm || !fails;
      if !done {
        fault := Noted(fault, cause);
      }
    }

    method CreateTimeline(t: Timeline, ancestor: Option<Timeline>) returns (done: bool)
      requires Valid() && t.id < nextId && t !in gone && Unreferenced(t) && t !in created
      modifies this`live, this`created, this`ancestors, this`fault
      ensures Valid() && created == (if done then old(created) + {t} else old(created))
      ensures (old(live) <= live <= old(live) + {t})
          && (done ==> t in live && t in ancestors && ancestors[t] == ancestor)
      ensures forall x | x in old(ancestors) && x != t :: x in ancestors && ancestors[x] == old(ancestors)[x]
      ensures fault == if done then old(fault) else Noted(old(fault), Unavailable)
    {
      hide Outlived, Rooted, Unshared, Spared, SparedBy;
      done := Try(Unavailable);
      var effect: bool := *;
      if done || effect {
        live := live + {t};
        ancestors := ancestors[t := ancestor];
      }
      if done {
        created := created + {t};
      }
    }

    /** Nothing may refer to a timeline any more when its deletion is asked for, and it is nobody's history. */
    method DeleteTimeline(t: Timeline) returns (failure: Option<Error>)
      requires Valid() && Unreferenced(t) && t.id < nextId
      requires formerBelow <= t.id
      modifies this`live, this`gone, this`fault
      ensures Valid() && (failure.None? ==> t in gone)
      ensures old(gone) <= gone <= old(gone) + {t} && Kept(old(fault), fault)
      ensures failure.Some? ==> failure.value == Wrapped(Leaf(Unavailable))
      ensures Leaked() <= old(Leaked())
    {
      var done := Try(Unavailable);
      var effect: bool := *;
      if done || effect {
        live := live - {t};
        gone := gone + {t};
      }
      failure := if done then None else Some(Wrapped(Leaf(Unavailable)));
    }

    // ----- The branch store -----

    method SetAttachment(name: Name, t: Option<Timeline>) returns (failure: Option<Error>)
      modifies this`branches, this`fault
      ensures failure.None? ==> IsActive(old(branches), name) && t.Some? && fault == old(fault)
                                && branches == old(branches)[name := old(branches)[name].(attachment := t)]
      ensures failure.Some? ==> branches == old(branches) && Kept(old(fault), fault) && (calm ==> fault == old(fault))
      ensures failure.Some? && IsActive(branches, name) && name != "" && t.Some? ==>
                failure.value == Wrapped(Leaf(PersistFailed)) && fault == Noted(old(fault), PersistFailed) && !calm
    {
      if name == "" || !IsActive(branches, name) {
        return Some(Leaf(NotFound));
      }
      if t.None? {
        return Some(Leaf(InvalidName));
      }
      var done := Try(PersistFailed);
      if !done {
        return Some(Wrapped(Leaf(PersistFailed)));
      }
      branches := branches[name := branches[name].(attachment := t)];
      return None;
    }

    /** Attaches a timeline to a branch that has none. */
    method Attach(name: Name, t: Timeline) returns (failure: Option<Error>)
      requires Valid() && IsActive(branches, name) && branches[name].attachment.None? && t.id < nextId
      requires t !in gone && t !in Attached(branches) && (name != MAIN ==> IsAttached(branches, MAIN))
      modifies this`branches, this`fault
      ensures Valid()
      ensures failure.None? ==> branches == WithAttachment(old(branches), name, t) && fault == old(fault)
                                && Attached(branches) == Attached(old(branches)) + {t}
      ensures failure.Some? ==> branches == old(branches) && fault == Noted(old(fault), PersistFailed)
                                && failure.value == Wrapped(Leaf(PersistFailed))
    {
      failure := SetAttachment(name, Some(t));
      if failure.None? {
        AttachedAfter(old(branches), name, t);
        StillRooted(old(branches), name, t);
      }
    }

    // ----- The attachment resolver -----

    method FreshId() returns (id: Option<nat>)
      requires Valid()
      modifies this`nextId, this`fault
      ensures Valid() && nextId >= old(nextId)
      ensures id.Some? ==> old(nextId) <= id.value < nextId && fault == old(fault)
      ensures id.None? ==> fault == Noted(old(fault), Unavailable)
    {
      var done := Try(Unavailable);
      if !done {
        return None;
      }
      id := Some(nextId);
      nextId := nextId + 1;
    }

    /** The tenant of the pageserver, made if there is none. */
    method EnsureTenant() returns (tenant: Option<nat>)
      requires Valid()
      modifies this`tenants, this`nextId, this`fault
      ensures Valid() && nextId >= old(nextId)
      ensures fault == if tenant.Some? then old(fault) else Noted(old(fault), Unavailable)
      ensures old(tenants) <= tenants && (tenant.Some? ==> tenant.value in tenants)
      ensures tenant.Some? && old(tenants) != {} ==> tenants == old(tenants)
    {
      hide Outlived;
      var listed := Try(Unavailable);
      if !listed {
        return None;
      }
      if tenants != {} {
        var first :| first in tenants;
        return Some(first);
      }
      var id := FreshId();
      if id.None? {
        return None;
      }
      var made := Try(Unavailable);
      var effect: bool := *;
      if made || effect {
        tenants := tenants + {id.value};
      }
      return if made then id else None;
    }

    /** A timeline for the root: the first one that the pageserver lists, or a new one. */
    method EnsureMainAttachment() returns (t: Option<Timeline>, isNew: bool)
      requires Valid() && Attached(branches) == {}
      modifies this`tenants, this`live, this`created, this`ancestors, this`nextId, this`fault
      ensures Valid() && nextId >= old(nextId)
      ensures fault == if t.Some? then old(fault) else Noted(old(fault), Unavailable)
      ensures t.None? ==> created == old(created)
      ensures t.Some? ==> t.value.id < nextId && t.value !in gone
      ensures t.Some? ==> created == if isNew then old(created) + {t.value} else old(created)
      ensures isNew ==> t.Some? && t.value.id >= old(nextId) && forall x | x in old(live) :: x.tenant != t.value.tenant
      ensures t.Some? ==> t.value.tenant in tenants && (!isNew ==> t.value in old(live))
      ensures KeepsLineage(old(ancestors), ancestors, old(nextId))
    {
      hide Outlived, Rooted, Unshared;
      t, isNew := None, false;
      var tenant := EnsureTenant();
      if tenant.None? {
        return;
      }
      var listed := Try(Unavailable);
      if !listed {
        return;
      }
      var timelines := set x | x in live && x.tenant == tenant.value;
      if timelines != {} {
        var first :| first in timelines;
        return Some(first), false;
      }
      var id := FreshId();
      if id.None? {
        return;
      }
      var made := CreateTimeline(Timeline(tenant.value, id.value), None);
      if made {
        t, isNew := Some(Timeline(tenant.value, id.value)), true;
      }
    }

    /** Attaches a timeline made for the branch; if that cannot be recorded the timeline is deleted again. */
    method AttachNew(name: Name, t: Timeline, ghost leaked: set<Timeline>) returns (failure: Option<Error>)
      requires Valid() && IsActive(branches, name) && branches[name].attachment.None? && t.id < nextId
      requires t !in gone && Unreferenced(t) && (name != MAIN ==> IsAttached(branches, MAIN))
      requires Leaked() <= leaked + {t} && fault.None?
      requires formerBelow <= t.id
      modifies this`branches, this`live, this`gone, this`fault
      ensures Valid() && old(gone) <= gone
      ensures failure.None? ==> branches == WithAttachment(old(branches), name, t) && Leaked() <= leaked && fault.None?
      ensures failure.Some? ==> branches == old(branches) && Excused(failure, leaked, Leaked())
      ensures failure.Some? ==> Blames(failure.value, fault) && !Is(failure.value, NotFound)
      ensures failure.Some? ==> t in gone || Reports(failure.value) > 0
    {
      hide Outlived;
      failure := Attach(name, t);
      if failure.Some? {
        var cleanup := DeleteTimeline(t);
        ReportsOne(failure.value, cleanup);
        failure := AddCompensation(failure, [cleanup]);
      } else {
        assert Leaked() <= old(Leaked()) && t !in Leaked();
      }
    }

    /** Gives the root its timeline. */
    method ResolveRoot() returns (r: Result)
      requires Valid() && branches[MAIN].attachment.None? && fault.None?
      modifies this`branches, this`tenants, this`live, this`created, this`ancestors, this`gone, this`nextId, this`fault
      ensures Valid() && nextId >= old(nextId) && old(created) <= created && old(gone) <= gone
      ensures r.Ok? ==> branches == WithAttachment(old(branches), MAIN, r.timeline) && Leaked() <= old(Leaked())
                        && fault.None?
      ensures r.Err? ==> branches == old(branches) && Excused(Some(r.error), old(Leaked()), Leaked())
      ensures r.Err? ==> Blames(r.error, fault) && !Is(r.error, NotFound)
      ensures KeepsLineage(old(ancestors), ancestors, old(nextId))
    {
      hide Outlived, Unshared;
      NoneAttached(branches);
      var t, isNew := EnsureMainAttachment();
      var failure: Option<Error>;
      if t.None? {
        failure := Some(Wrapped(Leaf(Unavailable)));
      } else if isNew {
        failure := AttachNew(MAIN, t.value, old(Leaked()));
      } else {
        failure := Attach(MAIN, t.value);
      }
      r := if failure.None? then Ok(t.value) else Err(failure.value);
    }

    /** Branches a new timeline off the parent's. */
    method ResolveChild(name: Name, parent: Timeline) returns (r: Result)
      requires Valid() && name != MAIN && IsActive(branches, name) && branches[name].attachment.None?
      requires IsAttached(branches, MAIN) && fault.None?
      modifies this`branches, this`live, this`created, this`ancestors, this`gone, this`nextId, this`fault
      ensures Valid() && nextId >= old(nextId) && old(created) <= created && old(gone) <= gone
      ensures r.Ok? ==> branches == WithAttachment(old(branches), name, r.timeline) && Leaked() <= old(Leaked())
                        && fault.None?
      ensures r.Ok? ==> r.timeline.tenant == parent.tenant && r.timeline.id >= old(nextId)
                        && r.timeline in ancestors && ancestors[r.timeline] == Some(parent)
      ensures r.Err? ==> branches == old(branches) && Excused(Some(r.error), old(Leaked()), Leaked())
      ensures r.Err? ==> Blames(r.error, fault) && !Is(r.error, NotFound)
      ensures KeepsLineage(old(ancestors), ancestors, old(nextId))
    {
      r := BranchTimeline(parent);
      if r.Ok? {
        var failure := AttachNew(name, r.timeline, old(Leaked()));
        if failure.Some? {
          r := Err(failure.value);
        }
      }
    }

    /** Makes a timeline that branches off another one and that nothing refers to yet. */
    method BranchTimeline(parent: Timeline) returns (r: Result)
      requires Valid() && fault.None?
      modifies this`live, this`created, this`ancestors, this`nextId, this`fault
      ensures Valid() && nextId >= old(nextId)
      ensures r.Ok? ==> r.timeline.tenant == parent.tenant && old(nextId) <= r.timeline.id < nextId
                        && r.timeline in ancestors && ancestors[r.timeline] == Some(parent)
                        && created == old(created) + {r.timeline} && r.timeline !in gone && fault.None?
      ensures r.Err? ==> created == old(created) && fault == Some(Unavailable) && r.error == Wrapped(Leaf(Unavailable))
      ensures KeepsLineage(old(ancestors), ancestors, old(nextId))
    {
      var id := FreshId();
      if id.None? {
        return Err(Wrapped(Leaf(Unavailable)));
      }
      var t := Timeline(parent.tenant, id.value);
      var made := CreateTimeline(t, Some(parent));
      r := if made then Ok(t) else Err(Wrapped(Leaf(Unavailable)));
    }

    /** What resolving a branch comes to, from the state before to the state after. */
    twostate predicate ResolvedAs(r: Result, name: Name, visiting: set<Name>)
      reads this
    {
      && Valid() && nextId >= old(nextId) && old(created) <= created && old(gone) <= gone
      && Grown(old(branches), branches, ancestors, old(nextId)) && KeepsLineage(old(ancestors), ancestors, old(nextId))
      && SameAt(old(branches), branches, visiting)
      && (r.Ok? ==> IsAttached(branches, name) && branches[name].attachment == Some(r.timeline)
                    && Leaked() <= old(Leaked()) && fault.None?)
      && (r.Err? ==> Excused(Some(r.error), old(Leaked()), Leaked())
                     && (name in visiting || !IsAttached(branches, name))
                     && Unresolved(r.error, fault, Resolvable(old(branches), name, visiting)))
      && (!Resolvable(old(branches), name, visiting) ==>
            && r.Err? && branches == old(branches) && live == old(live) && fault.None?
            && created == old(created) && gone == old(gone) && nextId == old(nextId))
    }

    /**
     Resolving a branch attaches its whole unattached ancestor chain, each timeline branching off its
     parent's.  It ends on every parent graph: a cycle or a missing ancestor is an error that changes
     nothing, and without one only a failing call is.
     */
    method ResolveLocked(name: Name, visiting: set<Name>) returns (r: Result)
      requires Valid() && fault.None?
      modifies this`branches, this`tenants, this`live, this`created, this`ancestors, this`gone, this`nextId, this`fault
      decreases |ActiveNames(branches) - visiting|, 1
      ensures ResolvedAs(r, name, visiting)
    {
      if name in visiting {
        return Err(Wrapped(Leaf(Unavailable)));
      }
      if !IsActive(branches, name) {
        return Err(Leaf(NotFound));
      }
      if branches[name].attachment.Some? {
        return Ok(branches[name].attachment.value);
      }
      if name == MAIN || branches[name].parent == "" {
        r := ResolveAtRoot(visiting);
      } else {
        r := ResolveUnattached(name, visiting);
      }
    }

    method ResolveAtRoot(ghost visiting: set<Name>) returns (r: Result)
      requires Valid() && MAIN !in visiting && branches[MAIN].attachment.None? && fault.None?
      modifies this`branches, this`tenants, this`live, this`created, this`ancestors, this`gone, this`nextId, this`fault
      ensures Valid() && nextId >= old(nextId) && old(created) <= created && old(gone) <= gone
      ensures Grown(old(branches), branches, ancestors, old(nextId))
          && KeepsLineage(old(ancestors), ancestors, old(nextId))
      ensures SameAt(old(branches), branches, visiting) && Resolvable(old(branches), MAIN, visiting)
      ensures r.Ok? ==> IsAttached(branches, MAIN) && branches[MAIN].attachment == Some(r.timeline)
                        && Leaked() <= old(Leaked()) && fault.None?
      ensures r.Err? ==> Excused(Some(r.error), old(Leaked()), Leaked()) && !IsAttached(branches, MAIN)
      ensures r.Err? ==> Blames(r.error, fault) && !Is(r.error, NotFound)
    {
      ResolvableStep(branches, MAIN, visiting);
      r := ResolveRoot();
      GrownAtRoot(old(branches), branches, ancestors, old(nextId));
    }

    method ResolveUnattached(name: Name, visiting: set<Name>) returns (r: Result)
      requires Valid() && name !in visiting && IsActive(branches, name) && branches[name].attachment.None?
          && name != MAIN && fault.None?
      modifies this`branches, this`tenants, this`live, this`created, this`ancestors, this`gone, this`nextId, this`fault
      decreases |ActiveNames(branches) - visiting|, 0
      ensures ResolvedAs(r, name, visiting)
    {
      ResolvableStep(branches, name, visiting);
      r := ResolveLocked(branches[name].parent, visiting + {name});
      SameBelow(old(branches), branches, visiting, name);
      if r.Ok? {
        ghost var lineage, bound := ancestors, nextId;
        r := ResolveOnto(name, r.timeline, old(branches), old(nextId), old(Leaked()), visiting);
        LineageKept(old(ancestors), old(nextId), lineage, bound, ancestors);
      }
    }

    /** The last link of a chain: the branch is attached to what its parent was just attached to. */
    method ResolveOnto(name: Name, parent: Timeline, ghost before: Branches, ghost since: nat,
        ghost leaked: set<Timeline>, ghost visiting: set<Name>)
      returns (r: Result)
      requires Valid() && name != MAIN && IsActive(branches, name) && branches[name].attachment.None? && since <= nextId
      requires IsAttached(branches, branches[name].parent) && branches[branches[name].parent].attachment == Some(parent)
      requires Grown(before, branches, ancestors, since) && Leaked() <= leaked && fault.None?
      requires name !in visiting && SameAt(before, branches, visiting)
      modifies this`branches, this`live, this`created, this`ancestors, this`gone, this`nextId, this`fault
      ensures Valid() && nextId >= old(nextId) && old(created) <= created && old(gone) <= gone
      ensures Grown(before, branches, ancestors, since) && KeepsLineage(old(ancestors), ancestors, old(nextId))
      ensures SameAt(before, branches, visiting)
          && (r.Ok? ==> IsAttached(branches, name) && branches[name].attachment == Some(r.timeline))
      ensures r.Ok? ==> branches == WithAttachment(old(branches), name, r.timeline) && Leaked() <= leaked && fault.None?
      ensures r.Err? ==> branches == old(branches) && Excused(Some(r.error), leaked, Leaked())
      ensures r.Err? ==> Blames(r.error, fault) && !Is(r.error, NotFound)
    {
      SomeAttached(branches, branches[name].parent);
      r := ResolveChild(name, parent);
      if r.Ok? {
        GrownOnce(before, old(branches), old(ancestors), since, name, r.timeline, ancestors);
      } else {
        GrownKept(before, branches, old(ancestors), ancestors, since, old(nextId));
      }
    }

    method Resolve(name: Name) returns (r: Result)
      requires Valid() && fault.None?
      modifies this`branches, this`tenants, this`live, this`created, this`ancestors, this`gone, this`nextId, this`fault
      ensures ResolvedAs(r, name, {})
    {
      r := ResolveLocked(name, {});
    }

    // ----- Records -----

    method StoreCreate(name: Name, parent: Name, t: Option<Timeline>) returns (failure: Option<Error>)
      requires Valid() && fault.None?
      requires t.Some? ==> IsAttached(branches, MAIN) && t.value !in gone && t.value !in Attached(branches)
                           && t.value.id < nextId
      modifies this`branches, this`endpoints, this`fault
      ensures Valid() && endpoints == (if failure.None? then old(endpoints) - {name} else old(endpoints))
      ensures failure.None? ==> name != MAIN && name != "" && !IsActive(old(branches), name) && fault.None?
                                && IsActive(old(branches), ParentOrMain(parent))
                                && branches == old(branches)[name := Branch(ParentOrMain(parent), false, t)]
                                && Attached(branches) == Attached(old(branches)) + (if t.Some? then {t.value} else {})
      ensures Leaked() <= old(Leaked()) && (failure.None? && t.Some? ==> t.value in Attached(branches)
                                                                         && t.value !in Leaked())
      ensures failure.Some? ==> branches == old(branches)
                                && (Blames(failure.value, fault)
                                    || CreationRefused(failure.value, branches, parent, name))
    {
      hide Outlived, Rooted, Unshared;
      if name == "" {
        return Some(Leaf(InvalidName));
      }
      if !IsActive(branches, ParentOrMain(parent)) {
        return Some(Leaf(ParentMissing));
      }
      if IsActive(branches, name) {
        return Some(Leaf(AlreadyExists));
      }
      var done := Try(PersistFailed);
      if !done {
        return Some(Wrapped(Leaf(PersistFailed)));
      }
      RecordAdded(branches, name, ParentOrMain(parent), t);
      branches, endpoints := branches[name := Branch(ParentOrMain(parent), false, t)], endpoints - {name};
      return None;
    }

    /** Marks a record as deleted; from then on nothing serves the branch. */
    method SoftDelete(name: Name) returns (failure: Option<Error>)
      requires Valid()
      modifies this`branches, this`endpoints, this`fault
      ensures Valid() && Kept(old(fault), fault) && (failure.None? ==> fault == old(fault))
      ensures failure.None? ==> && name != MAIN && name in old(branches)
                                && branches == old(branches)[name := old(branches)[name].(deleted := true)]
                                && Attached(branches) == Attached(old(branches)) - TimelineOf(old(branches), name)
                                && endpoints == (if old(branches)[name].deleted then old(endpoints)
                                                 else old(endpoints) - {name})
                                && Leaked() <= old(Leaked()) + TimelineOf(old(branches), name)
      ensures failure.Some? ==> branches == old(branches) && endpoints == old(endpoints)
      ensures failure.Some? && name in branches && name != MAIN ==>
                failure.value == Wrapped(Leaf(PersistFailed)) && fault == Noted(old(fault), PersistFailed)
      ensures failure.Some? && (name !in branches || name == MAIN) ==>
                failure.value == Leaf(if name == MAIN then Protected else NotFound) && fault == old(fault)
    {
      hide Outlived;
      if name == MAIN {
        return Some(Leaf(Protected));
      }
      if name !in branches {
        return Some(Leaf(NotFound));
      }
      if branches[name].deleted {
        return None;
      }
      var done := Try(PersistFailed);
      if !done {
        return Some(Wrapped(Leaf(PersistFailed)));
      }
      RecordDeleted(branches, name);
      branches, endpoints := branches[name := branches[name].(deleted := true)], endpoints - {name};
      return None;
    }

    // ----- Endpoints -----

    /** A step outside this model that changes no attachment: a password, a port, a container, a connection. */
    method Step(cause: Cause) returns (failure: Option<Error>)
      modifies this`fault
      ensures failure.None? ==> fault == old(fault)
      ensures failure.Some? ==> failure.value == Wrapped(Leaf(cause)) && fault == Noted(old(fault), cause) && !calm
    {
      var done := Try(cause);
      failure := if done then None else Some(Wrapped(Leaf(cause)));
    }

    /** Points the compute of a branch at a timeline and has the branch published. */
    method PublishEndpoint(name: Name, t: Timeline) returns (failure: Option<Error>)
      requires Valid() && t !in gone && t.id < nextId
      modifies this`endpoints, this`fault
      ensures Valid() && PointedAt(old(endpoints), endpoints, name, t)
      ensures failure.None? ==> endpoints == old(endpoints)[name := t] && fault == old(fault)
      ensures failure.Some? ==> failure.value == Wrapped(Leaf(Unavailable)) && fault == Noted(old(fault), Unavailable)
    {
      hide Outlived, Rooted, Unshared;
      failure := Step(Unavailable);
      if failure.Some? {
        return;
      }
      if name in endpoints {
        endpoints := endpoints[name := t];
      }
      failure := Step(Unavailable);
      if failure.None? {
        endpoints := endpoints[name := t];
      }
    }

    /** Points the compute of a branch at a timeline, if the branch is published. */
    method Refresh(name: Name, t: Timeline) returns (failure: Option<Error>)
      requires Valid() && t !in gone && t.id < nextId
      modifies this`endpoints, this`fault
      ensures Valid() && Repointed(old(endpoints), endpoints, name, t)
      ensures failure.None? ==> fault == old(fault) && (name in endpoints ==> endpoints[name] == t)
      ensures failure.Some? ==> failure.value == Wrapped(Leaf(Unavailable)) && fault == Noted(old(fault), Unavailable)
    {
      if name !in endpoints {
        return None;
      }
      failure := Step(Unavailable);
      if failure.Some? {
        return;
      }
      endpoints := endpoints[name := t];
      failure := Step(Unavailable);
    }

    /**
     The manager takes over what it has been told is attached to the branch.  A switch that has not taken effect
     leaves what the manager remembers, but the file and the compute may be on either side, or back.  What it
     reports is asked for afterwards, so that it may have taken effect and still report an error.
     */
    method SwitchToBranch(name: Name) returns (failure: Option<Error>)
      requires Valid() && name in attachments
      modifies this`selected, this`selectedAttachment, this`named, this`fault
      ensures Valid() && StaysOrMoves(old(Pointing()), Pointing(), name, attachments[name])
      ensures failure.None? ==> MovedTo(Pointing(), name, attachments[name]) && fault == old(fault)
      ensures failure.Some? ==> failure.value == Wrapped(Leaf(Unavailable)) && fault == Noted(old(fault), Unavailable)
    {
      hide Outlived, Rooted, Unshared;
      failure := Step(Unavailable);
      if failure.None? {
        selected := name;
        selectedAttachment, named := Some(attachments[name]), {attachments[name]};
        failure := Step(Unavailable);
      } else {
        var left: set<Timeline> := *;
        named := (named + Its(selectedAttachment) + {attachments[name]}) * left;
      }
    }

    method SetBranchAttachment(name: Name, t: Timeline)
      requires Valid() && t !in gone && t.id < nextId
      modifies this`attachments
      ensures Valid() && attachments == old(attachments)[name := t]
    {
      attachments := attachments[name := t];
    }

    // ----- Operations -----

    /** Resolves again while a branch is not found; that changes nothing and so costs nothing. */
    method ResolveForPublish(name: Name, attempts: nat) returns (r: Result)
      requires Valid() && fault.None? && attempts > 0
      modifies this`branches, this`tenants, this`live, this`created, this`ancestors, this`gone, this`nextId, this`fault
      ensures ResolvedAs(r, name, {})
    {
      hide Outlived, Rooted, Unshared;
      r := Err(Leaf(NotFound));
      var attempt := 0;
      while attempt < attempts
        invariant Valid() && branches == old(branches) && KeepsLineage(old(ancestors), ancestors, nextId)
        invariant live == old(live) && created == old(created) && gone == old(gone) && nextId == old(nextId)
        invariant fault.None? && r == Err(Leaf(NotFound)) && (attempt > 0 ==> !Resolvable(branches, name, {}))
      {
        r := Resolve(name);
        if r.Ok? || !Is(r.error, NotFound) {
          return;
        }
        attempt := attempt + 1;
      }
      assert !IsAttached(branches, name);
    }

    /** Records the attachment once more and publishes the branch. */
    method PublishAttached(name: Name, t: Timeline) returns (failure: Option<Error>)
      requires Valid() && IsAttached(branches, name) && branches[name].attachment == Some(t) && name != ""
          && fault.None?
      modifies this`branches, this`endpoints, this`fault
      ensures Valid() && branches == old(branches) && PointedAt(old(endpoints), endpoints, name, t)
      ensures failure.None? ==> endpoints == old(endpoints)[name := t] && fault.None?
      ensures failure.Some? ==> Blames(failure.value, fault) && Reports(failure.value) == 0
    {
      SameRecord(branches, name);
      SomeAttached(branches, name);
      failure := SetAttachment(name, Some(t));
      if failure.None? {
        failure := PublishEndpoint(name, t);
      }
    }

    /** What publishing a branch comes to, from the state before to the state after. */
    twostate predicate PublishedAs(new failure: Option<Error>, name: Name)
      reads this
    {
      && Valid() && nextId >= old(nextId) && old(created) <= created && old(gone) <= gone
      && Grown(old(branches), branches, ancestors, old(nextId)) && KeepsLineage(old(ancestors), ancestors, old(nextId))
      && OthersSame(old(endpoints), endpoints, name)
      && (failure.None? ==> IsAttached(branches, name) && Leaked() <= old(Leaked()) && fault.None?
                            && name in endpoints && branches[name].attachment == Some(endpoints[name])
                            && Resolvable(old(branches), name, {}))
      && Excused(failure, old(Leaked()), Leaked())
      && (failure.Some? ==> Classified(failure.value, fault, Resolvable(old(branches), name, {})))
      && (failure.Some? && IsAttached(branches, name) ==>
            Leaked() <= old(Leaked()) && Reports(failure.value) == 0)
    }

    method ResolveAndPublish(name: Name, attempts: nat) returns (failure: Option<Error>)
      requires Valid() && fault.None? && attempts > 0
      modifies this`branches, this`tenants, this`live, this`created, this`ancestors, this`gone, this`nextId,
          this`endpoints, this`fault
      ensures PublishedAs(failure, name)
    {
      hide Outlived, Rooted, Unshared;
      var r := ResolveForPublish(name, attempts);
      failure := if r.Err? then Some(r.error) else None;
      if r.Ok? {
        Nameless(branches);
        failure := PublishAttached(name, r.timeline);
      }
    }

    method EnsureBranchPublished(name: Name) returns (failure: Option<Error>)
      requires Valid() && fault.None?
      modifies this`branches, this`tenants, this`live, this`created, this`ancestors, this`gone, this`nextId,
          this`endpoints, this`fault
      ensures PublishedAs(failure, name)
    {
      failure := Step(PersistFailed);
      if failure.None? {
        failure := ResolveAndPublish(name, RESOLVE_ATTEMPTS);
      }
    }

    /** Deletes a timeline that nothing refers to any more, and reports the cause either way. */
    method Cleanup(t: Option<Timeline>, cause: Error) returns (failure: Option<Error>)
      requires Valid() && (t.Some? ==> Unreferenced(t.value) && t.value.id < nextId)
      requires t.Some? ==> formerBelow <= t.value.id
      modifies this`live, this`gone, this`fault
      ensures Valid() && Kept(old(fault), fault) && old(gone) <= gone && Leaked() <= old(Leaked())
      ensures failure.Some? && Reports(failure.value) >= Reports(cause)
      ensures Uncompensated(failure.value) == Uncompensated(cause)
      ensures t.Some? ==> t.value in gone || Reports(failure.value) > Reports(cause)
    {
      if t.None? {
        return Some(cause);
      }
      var cleanup := DeleteTimeline(t.value);
      if cleanup.None? {
        return Some(cause);
      }
      ReportsOne(cause, Some(Wrapped(cleanup.value)));
      failure := AddCompensation(Some(cause), [Some(Wrapped(cleanup.value))]);
    }

    /** The same for a timeline that is the only one that may be lost. */
    method DeleteNew(t: Timeline, cause: Error, ghost leaked: set<Timeline>) returns (failure: Option<Error>)
      requires Valid() && Unreferenced(t) && t.id < nextId && Leaked() <= leaked + {t}
      requires formerBelow <= t.id
      modifies this`live, this`gone, this`fault
      ensures Valid() && Kept(old(fault), fault) && failure.Some? && Excused(failure, leaked, Leaked())
      ensures Uncompensated(failure.value) == Uncompensated(cause)
      ensures t in gone || Reports(failure.value) > Reports(cause)
    {
      failure := Cleanup(Some(t), cause);
      assert t in gone ==> Leaked() <= leaked;
    }

    /** Takes a new branch back after it could not be published: the record first, then its timeline. */
    method TakeBack(name: Name, cause: Error, ghost since: nat, ghost leaked: set<Timeline>)
      returns (failure: Option<Error>)
      requires Valid() && name != MAIN && name in branches && since <= nextId
      requires ReferencesBelow(Pointing(), since) && OthersBelow(endpoints, name, since)
      requires IsAttached(branches, name) ==> branches[name].attachment.value.id >= since
      requires IsActive(branches, name)
      requires if IsAttached(branches, name) then Leaked() <= leaked else Excused(Some(cause), leaked, Leaked())
      requires formerBelow <= since
      modifies this`branches, this`endpoints, this`live, this`gone, this`fault
      ensures Valid() && Kept(old(fault), fault)
      ensures failure.Some? && Reports(failure.value) >= Reports(cause)
      ensures IsActive(branches, name) ==> Leaked() == old(Leaked())
      ensures failure.Some? && Excused(failure, leaked, Leaked())
          && Uncompensated(failure.value) == Uncompensated(cause)
      ensures Reports(failure.value) > Reports(cause) ||
              (branches == old(branches)[name := old(branches)[name].(deleted := true)]
               && endpoints == old(endpoints) - {name} && TimelineOf(old(branches), name) <= gone)
      ensures Beside(old(branches), branches, name) && OthersSame(old(endpoints), endpoints, name)
    {
      hide Outlived, Rooted, Unshared, OnlyAttaches, Beside;
      SameBeside(branches, name, branches[name].(deleted := true));
      var failed := if IsActive(branches, name) then branches[name].attachment else None;
      if failed.Some? {
        SomeAttached(branches, name);
      }
      var rollback := SoftDelete(name);
      if rollback.Some? {
        ReportsOne(cause, Some(Wrapped(rollback.value)));
        return AddCompensation(Some(cause), [Some(Wrapped(rollback.value))]);
      }
      ghost var afterDelete := Leaked();
      failure := Cleanup(failed, cause);
      assert failed.Some? && failed.value in gone ==> Leaked() <= leaked;
    }

    method PublishOrTakeBack(name: Name, ghost since: nat, ghost leaked: set<Timeline>) returns (failure: Option<Error>)
      requires Valid() && name != MAIN && IsActive(branches, name) && since <= nextId && Leaked() <= leaked
          && fault.None?
      requires ReferencesBelow(Pointing(), since) && OthersBelow(endpoints, name, since)
      requires IsAttached(branches, name) ==> branches[name].attachment.value.id >= since
      requires formerBelow <= since
      modifies this`branches, this`tenants, this`live, this`created, this`ancestors, this`gone, this`nextId,
          this`endpoints, this`fault
      ensures Valid() && Excused(failure, leaked, Leaked())
      ensures failure.None? ==> IsAttached(branches, name) && Grown(old(branches), branches, ancestors, old(nextId))
                                && name in endpoints && branches[name].attachment == Some(endpoints[name])
                                && fault.None? && Resolvable(old(branches), name, {})
      ensures failure.Some? ==> TakenBack(failure.value, IsActive(branches, name), leaked, Leaked())
      ensures failure.Some? && !IsActive(branches, name) ==>
                Reports(failure.value) > 0 || TimelineOf(old(branches), name) <= gone
      ensures failure.Some? ==> Classified(failure.value, fault, Resolvable(old(branches), name, {}))
      ensures KeepsLineage(old(ancestors), ancestors, old(nextId))
      ensures Beside(old(branches), branches, name) && OthersSame(old(endpoints), endpoints, name)
    {
      hide Outlived, Rooted, Unshared, Spared, SparedBy;
      failure := EnsureBranchPublished(name);
      GrownBeside(old(branches), branches, name);
      if failure.Some? {
        ghost var grown := branches;
        failure := TakeBack(name, failure.value, since, leaked);
        BesideTwice(old(branches), grown, branches, name);
      }
    }

    /**
     Creating a branch: a failure after the record was written takes the record back before its timeline.  When
     no call fails it succeeds exactly if the name is free, the parent is there and what is to be published can be
     resolved.
     */
    method CreateBranch(name: Name, parent: Name, autoPublish: bool) returns (failure: Option<Error>)
      requires Valid()
      modifies this`branches, this`tenants, this`live, this`created, this`ancestors, this`gone, this`nextId,
          this`endpoints, this`fault
      ensures Valid() && Excused(failure, old(Leaked()), Leaked())
      ensures failure.None? ==> && Grown(Added(old(branches), name, parent), branches, ancestors, old(nextId))
                                && Creatable(old(branches), parent, name, autoPublish) && fault.None?
      ensures failure.None? && autoPublish ==>
                IsAttached(branches, name) && name in endpoints && branches[name].attachment == Some(endpoints[name])
      ensures failure.None? && !autoPublish ==>
                branches == Added(old(branches), name, parent) && endpoints == old(endpoints) - {name}
      ensures failure.Some? ==> IsActive(branches, name) == IsActive(old(branches), name)
                                || TakenBack(failure.value, IsActive(branches, name), old(Leaked()), Leaked())
      ensures failure.Some? ==> || CreationRefused(Uncompensated(failure.value), old(branches), parent, name)
                                || Classified(failure.value, fault,
                                              Resolvable(Added(old(branches), name, parent), name, {}))
      ensures failure.Some? && calm ==> !Creatable(old(branches), parent, name, autoPublish)
      ensures Beside(old(branches), branches, name) && OthersSame(old(endpoints), endpoints, name)
    {
      hide Outlived, Rooted, Unshared, Resolvable, Grown, Beside, TakenBack, Excused, ReferencesBelow, AllBelow,
          OthersBelow, Spared, SparedBy;
      fault := None;
      SameBeside(branches, name, Branch(ParentOrMain(parent), false, None));
      GrownSame(Added(branches, name, parent), ancestors, nextId);
      failure := RecordNew(name, parent);
      NothingLost(old(Leaked()), Leaked());
      if failure.None? && autoPublish {
        failure := PublishOrTakeBack(name, old(nextId), old(Leaked()));
        BesideTwice(old(branches), Added(old(branches), name, parent), branches, name);
      }
    }

    method RecordNew(name: Name, parent: Name) returns (failure: Option<Error>)
      requires Valid() && fault.None?
      modifies this`branches, this`endpoints, this`fault
      ensures Valid() && Leaked() <= old(Leaked())
      ensures ReferencesBelow(Pointing(), nextId) && OthersBelow(endpoints, name, nextId)
      ensures failure.None? ==> && branches == Added(old(branches), name, parent)
                                && endpoints == old(endpoints) - {name}
                                && Creatable(old(branches), parent, name, false) && name != MAIN && fault.None?
      ensures failure.Some? ==> && branches == old(branches) && endpoints == old(endpoints)
                                && (Blames(failure.value, fault)
                                    || CreationRefused(failure.value, branches, parent, name))
    {
      hide Outlived, Rooted, Unshared;
      failure := Step(Unavailable);
      if failure.None? {
        failure := StoreCreate(name, parent, None);
      }
      NothingAbove(name);
    }

    /**
     Restoring a branch to a time: the new timeline is made before the record that refers to it.  When no call
     fails it succeeds exactly if the source can be resolved, the time is in its history and the name is free.
     */
    method RestoreBranch(source: Name, name: Name, autoPublish: bool, tooEarly: bool, kind: Lookup)
      returns (failure: Option<Error>)
      requires Valid()
      modifies this`branches, this`tenants, this`live, this`created, this`ancestors, this`gone, this`nextId,
          this`endpoints, this`fault
      ensures Valid() && Excused(failure, old(Leaked()), Leaked())
      ensures failure.None? ==> && IsAttached(branches, name) && branches[name].parent == source
                                && Restorable(old(branches), source, name, tooEarly, kind) && fault.None?
                                && branches[name].attachment.value.id >= old(nextId)
                                && IsAttached(branches, source) && branches[name].attachment.value in ancestors
                                && ancestors[branches[name].attachment.value] == branches[source].attachment
      ensures failure.None? && autoPublish ==> name in endpoints && branches[name].attachment == Some(endpoints[name])
      ensures failure.None? && !autoPublish ==> endpoints == old(endpoints) - {name}
      ensures failure.Some? ==> || RestoreRefused(Uncompensated(failure.value), old(branches), source, name,
                                                  tooEarly, kind)
                                || Classified(failure.value, fault, Resolvable(old(branches), source, {}))
      ensures failure.Some? && calm ==> !Restorable(old(branches), source, name, tooEarly, kind)
      ensures Beside(old(branches), branches, name) && OthersSame(old(endpoints), endpoints, name)
    {
      hide Rooted, Unshared, OnlyAttaches, Beside, Excused, Outlived, ReferencesBelow, AllBelow, OthersBelow, Spared,
          SparedBy;
      fault := None;
      GrownBeside(branches, branches, name);
      NothingLost(Leaked(), Leaked());
      if !IsActive(branches, source) {
        return Some(Leaf(ParentMissing));
      }
      if tooEarly {
        return Some(Leaf(HistoryUnavailable));
      }
      if IsActive(branches, name) {
        return Some(Leaf(AlreadyExists));
      }
      failure := RestoreFrom(source, name, autoPublish, kind);
    }

    /** What restoring a branch from a source comes to, from the state before to the state after. */
    twostate predicate RestoredAs(new failure: Option<Error>, source: Name, name: Name, autoPublish: bool, kind: Lookup)
      reads this
    {
      && Valid() && Excused(failure, old(Leaked()), Leaked())
      && (failure.None? ==>
            && IsAttached(branches, name) && branches[name].parent == source && name != "" && Placed(kind)
            && Resolvable(old(branches), source, {}) && fault.None? && branches[name].attachment.value.id >= old(nextId)
            && IsAttached(branches, source) && branches[name].attachment.value in ancestors
            && ancestors[branches[name].attachment.value] == branches[source].attachment
            && if autoPublish then name in endpoints && branches[name].attachment == Some(endpoints[name])
               else endpoints == old(endpoints) - {name})
      && (failure.Some? ==>
            || Unplaced(Uncompensated(failure.value), kind)
            || (Uncompensated(failure.value) == Leaf(InvalidName) && name == "")
            || Classified(failure.value, fault, Resolvable(old(branches), source, {})))
      && Beside(old(branches), branches, name) && OthersSame(old(endpoints), endpoints, name)
    }

    method RestoreFrom(source: Name, name: Name, autoPublish: bool, kind: Lookup) returns (failure: Option<Error>)
      requires Valid() && fault.None? && !IsActive(branches, name)
      modifies this`branches, this`tenants, this`live, this`created, this`ancestors, this`gone, this`nextId,
          this`endpoints, this`fault
      ensures RestoredAs(failure, source, name, autoPublish, kind)
    {
      hide Outlived, Rooted, Unshared, OnlyAttaches, Beside, ReferencesBelow, AllBelow, Spared, SparedBy;
      NothingAbove(name);
      var r := ResolveRestore(source, kind, old(Leaked()));
      failure := if r.Err? then Some(r.error) else None;
      GrownBeside(old(branches), branches, name);
      if r.Ok? {
        ghost var resolved := branches;
        failure := RecordRestored(source, name, r.timeline, autoPublish, old(nextId), old(Leaked()));
        BesideTwice(old(branches), resolved, branches, name);
      }
    }

    /** Records a restored branch and publishes it; whatever fails, the timeline goes once nothing refers to it. */
    method RecordRestored(source: Name, name: Name, t: Timeline, autoPublish: bool, ghost since: nat,
        ghost leaked: set<Timeline>)
      returns (failure: Option<Error>)
      requires Valid() && since <= t.id < nextId && t !in gone && Unreferenced(t)
          && IsAttached(branches, MAIN) && IsAttached(branches, source) && fault.None?
      requires ReferencesBelow(Pointing(), since) && AllBelow(endpoints, since)
      requires Leaked() <= leaked + {t} && !IsActive(branches, name)
      requires formerBelow <= since
      modifies this`branches, this`tenants, this`live, this`created, this`ancestors, this`gone, this`nextId,
          this`endpoints, this`fault
      ensures Valid() && Excused(failure, leaked, Leaked())
      ensures failure.None? ==> && IsAttached(branches, name) && IsAttached(branches, source)
                                && branches[name] == Branch(source, false, Some(t))
                                && branches[source].attachment == old(branches)[source].attachment && fault.None?
                                && name != ""
      ensures failure.None? && autoPublish ==> name in endpoints && branches[name].attachment == Some(endpoints[name])
      ensures failure.None? && !autoPublish ==> endpoints == old(endpoints) - {name}
      ensures failure.Some? ==> t in gone || Reports(failure.value) > 0
      ensures Beside(old(branches), branches, name) && OthersSame(old(endpoints), endpoints, name)
      ensures failure.Some? ==> || (name == "" && Uncompensated(failure.value) == Leaf(InvalidName))
                                || Blames(failure.value, fault)
      ensures KeepsLineage(old(ancestors), ancestors, old(nextId))
    {
      hide Outlived, Rooted, Unshared, OnlyAttaches, Beside, Spared, SparedBy, AllBelow, OthersBelow;
      StillBelow(endpoints, name, since);
      failure := CreateRestored(source, name, t, leaked);
      SameBeside(old(branches), name, Branch(source, false, Some(t)));
      if failure.None? && autoPublish {
        ghost var recorded := branches;
        failure := PublishRestored(source, name, t, since, leaked);
        BesideTwice(old(branches), recorded, branches, name);
      }
    }

    method PublishRestored(source: Name, name: Name, t: Timeline, ghost since: nat, ghost leaked: set<Timeline>)
      returns (failure: Option<Error>)
      requires Valid() && since <= t.id < nextId && formerBelow <= since && fault.None? && Leaked() <= leaked
      requires name != MAIN && IsAttached(branches, name) && IsAttached(branches, source)
          && branches[name].attachment == Some(t)
      requires ReferencesBelow(Pointing(), since) && OthersBelow(endpoints, name, since)
      modifies this`branches, this`tenants, this`live, this`created, this`ancestors, this`gone, this`nextId,
          this`endpoints, this`fault
      ensures Valid() && Excused(failure, leaked, Leaked())
      ensures failure.None? ==> && IsAttached(branches, name) && IsAttached(branches, source) && fault.None?
                                && branches[name] == old(branches)[name] && branches[source] == old(branches)[source]
                                && name in endpoints && endpoints[name] == t
      ensures failure.Some? ==> (t in gone || Reports(failure.value) > 0) && Blames(failure.value, fault)
      ensures Beside(old(branches), branches, name) && OthersSame(old(endpoints), endpoints, name)
      ensures KeepsLineage(old(ancestors), ancestors, old(nextId))
    {
      hide Outlived, Rooted, Unshared, OnlyAttaches, Beside, Resolvable, Excused, Spared, SparedBy, ReferencesBelow;
      AttachedIsResolvable(branches, name);
      failure := PublishOrTakeBack(name, since, leaked);
      if failure.None? {
        StaysAttached(old(branches), branches, source);
        StaysAttached(old(branches), branches, name);
      }
    }

    method CreateRestored(source: Name, name: Name, t: Timeline, ghost leaked: set<Timeline>)
      returns (failure: Option<Error>)
      requires Valid() && t.id < nextId && t !in gone && Unreferenced(t) && !IsActive(branches, name)
      requires IsAttached(branches, MAIN) && IsAttached(branches, source) && Leaked() <= leaked + {t} && fault.None?
      requires formerBelow <= t.id
      modifies this`branches, this`live, this`gone, this`endpoints, this`fault
      ensures Valid() && (failure.Some? ==> Excused(failure, leaked, Leaked())
                                            && (t in gone || Reports(failure.value) > 0))
      ensures failure.None? ==> && branches == old(branches)[name := Branch(source, false, Some(t))] && name != MAIN
                                && endpoints == old(endpoints) - {name} && Leaked() <= leaked && fault.None?
                                && name != ""
      ensures failure.Some? ==> branches == old(branches) && endpoints == old(endpoints)
      ensures failure.Some? ==> || (name == "" && Uncompensated(failure.value) == Leaf(InvalidName))
                                || Blames(failure.value, fault)
    {
      failure := Step(Unavailable);
      if failure.None? {
        failure := StoreCreate(name, source, Some(t));
      }
      if failure.Some? {
        failure := DeleteNew(t, failure.value, leaked);
      }
    }

    /** A timeline that branches off the source at the position that the time stands for. */
    method ResolveRestore(source: Name, kind: Lookup, ghost leaked: set<Timeline>) returns (r: Result)
      requires Valid() && leaked == Leaked() && fault.None?
      modifies this`branches, this`tenants, this`live, this`created, this`ancestors, this`gone, this`nextId, this`fault
      ensures Valid() && nextId >= old(nextId) && Grown(old(branches), branches, ancestors, old(nextId))
      ensures r.Ok? ==> && old(nextId) <= r.timeline.id < nextId && r.timeline !in gone && Unreferenced(r.timeline)
                        && IsAttached(branches, MAIN) && Leaked() <= leaked + {r.timeline} && fault.None?
      ensures r.Ok? ==> IsAttached(branches, source) && r.timeline in ancestors
                        && ancestors[r.timeline] == branches[source].attachment
      ensures r.Ok? ==> Placed(kind) && Resolvable(old(branches), source, {})
      ensures r.Err? ==> Excused(Some(r.error), leaked, Leaked())
                         && (Unplaced(r.error, kind)
                             || Unresolved(r.error, fault, Resolvable(old(branches), source, {})))
    {
      r := Resolve(source);
      if r.Err? {
        return;
      }
      SomeAttached(branches, source);
      r := BranchOffAtPosition(source, r.timeline, kind, old(branches), old(nextId), leaked);
    }

    method BranchOffAtPosition(source: Name, parent: Timeline, kind: Lookup, ghost before: Branches, ghost since: nat,
        ghost leaked: set<Timeline>)
      returns (r: Result)
      requires Valid() && since <= nextId && Grown(before, branches, ancestors, since) && Leaked() <= leaked
      requires IsAttached(branches, source) && branches[source].attachment == Some(parent) && fault.None?
      modifies this`live, this`created, this`ancestors, this`nextId, this`fault
      ensures Valid() && nextId >= old(nextId) && Grown(before, branches, ancestors, since)
      ensures r.Ok? ==> && since <= r.timeline.id < nextId && r.timeline !in gone && Unreferenced(r.timeline)
                        && Leaked() <= leaked + {r.timeline} && r.timeline in ancestors && fault.None?
                        && ancestors[r.timeline] == Some(parent) && Placed(kind)
      ensures r.Err? ==> Leaked() <= leaked && Reports(r.error) == 0
                         && (Unplaced(r.error, kind) || Unresolved(r.error, fault, true))
    {
      hide Outlived, Rooted, Unshared;
      var unknown := LookUpPosition(kind);
      if unknown.None? {
        r := BranchOff(source, parent, before, since);
      } else {
        r := Err(unknown.value);
      }
    }

    /** Asks for the position that a time stands for; the pageserver's answer may be of no known kind. */
    method LookUpPosition(kind: Lookup) returns (failure: Option<Error>)
      requires Valid() && fault.None?
      modifies this`fault
      ensures Valid() && (failure.None? ==> fault.None? && Placed(kind))
      ensures failure.Some? ==> Reports(failure.value) == 0
                                && (Unplaced(failure.value, kind) || Unresolved(failure.value, fault, true))
    {
      failure := Step(Unavailable);
      if failure.Some? {
        return;
      }
      match kind
      case Present => return None;
      case Future => return None;
      case Past => return Some(Leaf(HistoryUnavailable));
      case NoData => return Some(Leaf(HistoryUnavailable));
      case Unknown => return Some(Wrapped(Leaf(Unavailable)));
    }

    method BranchOff(source: Name, parent: Timeline, ghost before: Branches, ghost since: nat) returns (r: Result)
      requires Valid() && since <= nextId && Grown(before, branches, ancestors, since) && fault.None?
      requires IsAttached(branches, source) && branches[source].attachment == Some(parent)
      modifies this`live, this`created, this`ancestors, this`nextId, this`fault
      ensures Valid() && nextId >= old(nextId) && Grown(before, branches, ancestors, since)
      ensures r.Ok? ==> since <= r.timeline.id < nextId && r.timeline !in gone && Unreferenced(r.timeline)
      ensures r.Ok? ==> created == old(created) + {r.timeline} && r.timeline in ancestors && fault.None?
                        && ancestors[r.timeline] == Some(parent)
      ensures r.Err? ==> created == old(created) && Reports(r.error) == 0 && Unresolved(r.error, fault, true)
    {
      r := BranchTimeline(parent);
      GrownKept(before, branches, old(ancestors), ancestors, since, old(nextId));
    }

    /** Moves an attached or unattached branch to another timeline. */
    method Reattach(name: Name, t: Timeline) returns (failure: Option<Error>)
      requires Valid() && IsActive(branches, name) && IsAttached(branches, MAIN)
      requires t !in gone && t !in Attached(branches) && t.id < nextId
      modifies this`branches, this`fault
      ensures Valid()
      ensures failure.None? ==> && branches == WithAttachment(old(branches), name, t) && fault == old(fault)
                                && Attached(branches) ==
                                       Attached(old(branches)) - Its(old(branches)[name].attachment) + {t}
                                && Leaked() <= old(Leaked()) + Its(old(branches)[name].attachment) - {t}
      ensures failure.Some? ==> branches == old(branches) && failure.value == Wrapped(Leaf(PersistFailed))
                                && fault == Noted(old(fault), PersistFailed)
    {
      failure := SetAttachment(name, Some(t));
      if failure.None? {
        ReplacedAfter(old(branches), name, t);
        StillRooted(old(branches), name, t);
      }
    }

    /** Tells the manager what the branch is attached to, and its endpoint. */
    method PointBranch(name: Name, t: Timeline) returns (failure: Option<Error>)
      requires Valid() && t !in gone && t.id < nextId
      modifies this`attachments, this`endpoints, this`fault
      ensures Valid() && attachments == old(attachments)[name := t] && Repointed(old(endpoints), endpoints, name, t)
      ensures failure.None? ==> fault == old(fault) && (name in endpoints ==> endpoints[name] == t)
      ensures failure.Some? ==> failure.value == Wrapped(Leaf(Unavailable)) && fault == Noted(old(fault), Unavailable)
    {
      SetBranchAttachment(name, t);
      failure := Refresh(name, t);
    }

    /** Points the manager and the endpoints back at the previous attachment. */
    method RepointEndpoints(name: Name, target: Timeline, wasPrimary: bool) returns (refresh: Option<Error>,
        again: Option<Error>)
      requires Valid() && (wasPrimary ==> selected == name) && target !in gone && target.id < nextId
      modifies this`attachments, this`selected, this`selectedAttachment,
          this`named, this`endpoints, this`fault
      ensures Valid() && Kept(old(fault), fault) && Framed(old(Pointing()), Pointing(), name, wasPrimary)
      ensures refresh.None? && again.None? ==> BackOn(old(Pointing()), Pointing(), target, wasPrimary, name)
    {
      refresh := PointBranch(name, target);
      again := None;
      if wasPrimary {
        again := SwitchToBranch(name);
      }
    }

    /** Undoes a reset: every reference to the new timeline is dropped before it is deleted, or it is not deleted. */
    method RollbackReset(name: Name, target: Option<Timeline>, t: Timeline, wasPrimary: bool, cause: Error,
                         ghost since: nat, ghost leaked: set<Timeline>, ghost lost: Timeline)
      returns (failure: Option<Error>)
      requires Valid() && IsAttached(branches, name) && branches[name].attachment == Some(t) && since <= t.id
      requires target.Some? ==> target.value !in gone && target.value !in Attached(branches) && target.value.id < since
      requires OthersBelow(attachments, name, since) && OthersBelow(endpoints, name, since)
      requires if wasPrimary then selected == name
               else Below(named, since) && (selectedAttachment.Some? ==> selectedAttachment.value.id < since)
      requires IsAttached(branches, MAIN) && Leaked() <= leaked + {lost} && (target.Some? ==> target.value == lost)
      requires formerBelow <= since
      modifies this`branches, this`attachments, this`selected, this`selectedAttachment,
          this`named, this`live, this`gone,
          this`endpoints, this`fault
      ensures Valid() && failure.Some? && Excused(failure, leaked, Leaked())
      ensures Kept(old(fault), fault) && Uncompensated(failure.value) == Uncompensated(cause)
      ensures Reattached(old(branches), branches, name)
      ensures Framed(old(Pointing()), Pointing(), name, wasPrimary)
      ensures Reports(failure.value) > Reports(cause)
              || (&& target.Some? && t in gone && branches == WithAttachment(old(branches), name, target.value)
                  && BackOn(old(Pointing()), Pointing(), target.value, wasPrimary, name))
    {
      hide Outlived, Rooted, Unshared, Spared, SparedBy, BackOn, Framed;
      NothingMoved(branches, Pointing(), name, target, wasPrimary);
      if target.None? {
        var refused := SetAttachment(name, None);
        ReportsOne(cause, Some(Wrapped(Leaf(InvalidName))));
        return AddCompensation(Some(cause), [Some(Wrapped(Leaf(InvalidName)))]);
      }
      SomeAttached(branches, name);
      var back := Reattach(name, target.value);
      if back.None? {
        LeakSwaps(old(Leaked()), Leaked(), leaked, lost, t);
        failure := DropNew(name, target.value, t, wasPrimary, cause, since, leaked);
      } else {
        ReportsOne(cause, Some(Wrapped(back.value)));
        failure := AddCompensation(Some(cause), [Some(Wrapped(back.value))]);
      }
    }

    method DropNew(name: Name, target: Timeline, t: Timeline, wasPrimary: bool, cause: Error,
                   ghost since: nat, ghost leaked: set<Timeline>)
      returns (failure: Option<Error>)
      requires Valid() && t !in Attached(branches) && since <= t.id < nextId
      requires target !in gone && target.id < since
      requires OthersBelow(attachments, name, since) && OthersBelow(endpoints, name, since)
      requires if wasPrimary then selected == name
               else Below(named, since) && (selectedAttachment.Some? ==> selectedAttachment.value.id < since)
      requires Leaked() <= leaked + {t}
      requires formerBelow <= since
      modifies this`attachments, this`selected, this`selectedAttachment,
          this`named, this`live, this`gone, this`endpoints,
          this`fault
      ensures Valid() && failure.Some? && Excused(failure, leaked, Leaked())
      ensures Kept(old(fault), fault) && Uncompensated(failure.value) == Uncompensated(cause)
      ensures Framed(old(Pointing()), Pointing(), name, wasPrimary)
      ensures Reports(failure.value) > Reports(cause)
              || (&& t in gone && BackOn(old(Pointing()), Pointing(), target, wasPrimary, name))
    {
      hide Outlived, Rooted, Unshared, Spared, SparedBy;
      var refresh, again := RepointEndpoints(name, target, wasPrimary);
      if refresh.None? && again.None? {
        NothingLeftOn(old(Pointing()), Pointing(), target, wasPrimary, name, since, t);
        failure := DeleteNew(t, cause, leaked);
      } else {
        ReportsTwo(cause, refresh, again);
        failure := AddCompensation(Some(cause), [refresh, again]);
      }
    }

    /** Records the new timeline of a reset branch and moves the endpoints over to it, or undoes all of it. */
    method AdoptReset(name: Name, target: Option<Timeline>, t: Timeline, wasPrimary: bool, ghost since: nat,
        ghost leaked: set<Timeline>)
      returns (failure: Option<Error>)
      requires Valid() && IsActive(branches, name) && IsAttached(branches, MAIN) && fault.None?
      requires since <= t.id < nextId && t !in gone && Unreferenced(t) && Leaked() <= leaked + {t}
      requires target.Some? ==> branches[name].attachment == target && target.value.id < since
      requires ReferencesBelow(Pointing(), since) && AllBelow(endpoints, since)
      requires (wasPrimary ==> selected == name)
      requires formerBelow <= since
      modifies this`branches, this`attachments, this`selected, this`selectedAttachment,
          this`named, this`live, this`gone,
          this`superseded, this`formerBelow, this`endpoints, this`fault
      ensures Valid() && Excused(failure, leaked, Leaked())
      ensures failure.None? ==> && branches == WithAttachment(old(branches), name, t) && Leaked() <= leaked
                                && fault.None?
                                && attachments == old(attachments)[name := t]
                                && (name in endpoints ==> endpoints[name] == t)
                                && (wasPrimary ==> selected == name && selectedAttachment == Some(t) && named == {t})
      ensures failure.None? ==> Its(old(branches)[name].attachment) <= superseded
      ensures failure.Some? ==> Blames(failure.value, fault)
      ensures Reattached(old(branches), branches, name)
      ensures Framed(old(Pointing()), Pointing(), name, wasPrimary)
      ensures failure.Some? && Reports(failure.value) == 0 ==>
                && branches == old(branches)
                && Undone(old(Pointing()), Pointing(), target, wasPrimary, name)
    {
      hide Outlived, Rooted, Unshared, Undone, Reattached;
      NothingMoved(branches, Pointing(), name, target, wasPrimary);
      ghost var current := branches[name].attachment;
      if current.Some? {
        SomeAttached(branches, name);
      }
      failure := RecordReset(name, t, leaked);
      if failure.Some? {
        return;
      }
      failure := FollowReset(name, target, t, wasPrimary, current, since, leaked);
      if target.Some? {
        AttachedBack(old(branches), name, t);
      }
      ReattachedTwice(old(branches), branches, name, t);
    }

    method AdoptOffParent(name: Name, target: Option<Timeline>, t: Timeline, wasPrimary: bool, ghost since: nat,
        ghost leaked: set<Timeline>)
      returns (failure: Option<Error>)
      requires Valid() && IsActive(branches, name) && IsAttached(branches, MAIN) && fault.None?
      requires since <= t.id < nextId && t !in gone && Unreferenced(t) && Leaked() <= leaked + {t}
      requires target.Some? ==> branches[name].attachment == target && target.value.id < since
      requires ReferencesBelow(Pointing(), since) && AllBelow(endpoints, since)
      requires (wasPrimary ==> selected == name) && ComesOff(branches, ancestors, name, t)
      requires formerBelow <= since
      modifies this`branches, this`attachments, this`selected, this`selectedAttachment,
          this`named, this`live, this`gone,
          this`superseded, this`formerBelow, this`endpoints, this`fault
      ensures Valid() && Excused(failure, leaked, Leaked())
      ensures failure.None? ==> && IsAttached(branches, name) && branches[name].attachment == Some(t) && fault.None?
                                && (name in endpoints ==> endpoints[name] == t) && OffParent(branches, ancestors, name)
                                && (wasPrimary ==> selected == name && selectedAttachment == Some(t) && named == {t})
      ensures failure.None? ==> Its(old(branches)[name].attachment) <= superseded
      ensures failure.Some? ==> Blames(failure.value, fault)
      ensures Reattached(old(branches), branches, name)
      ensures Framed(old(Pointing()), Pointing(), name, wasPrimary)
      ensures failure.Some? && Reports(failure.value) == 0 ==>
                && branches == old(branches)
                && Undone(old(Pointing()), Pointing(), target, wasPrimary, name)
    {
      OffParentAfter(branches, ancestors, name, t);
      failure := AdoptReset(name, target, t, wasPrimary, since, leaked);
    }

    method FollowReset(name: Name, target: Option<Timeline>, t: Timeline, wasPrimary: bool,
        ghost current: Option<Timeline>,
                       ghost since: nat, ghost leaked: set<Timeline>)
      returns (failure: Option<Error>)
      requires Valid() && IsAttached(branches, name) && branches[name].attachment == Some(t)
          && IsAttached(branches, MAIN) && fault.None?
      requires since <= t.id && t !in gone && Leaked() <= leaked + Its(current)
      requires target.Some? ==> current == target && target.value !in gone && target.value !in Attached(branches)
                                && target.value.id < since
      requires ReferencesBelow(Pointing(), since) && AllBelow(endpoints, since)
      requires wasPrimary ==> selected == name
      requires formerBelow <= since
      requires current.Some? ==> current.value !in gone && current.value.id < nextId
      modifies this`branches, this`attachments, this`selected, this`selectedAttachment,
          this`named, this`live, this`gone,
          this`superseded, this`formerBelow, this`endpoints, this`fault
      ensures Valid() && Excused(failure, leaked, Leaked())
      ensures failure.None? ==> branches == old(branches) && Leaked() <= leaked && fault.None?
                                && attachments == old(attachments)[name := t]
                                && (name in endpoints ==> endpoints[name] == t)
                                && (wasPrimary ==> selected == name && selectedAttachment == Some(t) && named == {t})
      ensures failure.None? ==> Its(current) <= superseded
      ensures failure.Some? ==> Blames(failure.value, fault)
      ensures Reattached(old(branches), branches, name)
      ensures Framed(old(Pointing()), Pointing(), name, wasPrimary)
      ensures failure.Some? && Reports(failure.value) == 0 ==>
                && target.Some? && branches == WithAttachment(old(branches), name, target.value)
                && Undone(old(Pointing()), Pointing(), target, wasPrimary, name)
    {
      SomeAttached(branches, name);
      failure := MoveEndpoints(name, t, wasPrimary);
      if failure.Some? {
        failure := UndoMove(name, target, t, wasPrimary, failure.value, old(Pointing()), since, leaked,
                            if current.Some? then current.value else t);
      } else {
        Supersede(current, leaked);
      }
    }

    /** A rollback after the pointers have moved; `before` is what they were. */
    method UndoMove(name: Name, target: Option<Timeline>, t: Timeline, wasPrimary: bool, cause: Error,
                    ghost before: Pointers, ghost since: nat, ghost leaked: set<Timeline>, ghost lost: Timeline)
      returns (failure: Option<Error>)
      requires Valid() && IsAttached(branches, name) && branches[name].attachment == Some(t) && since <= t.id
      requires target.Some? ==> target.value !in gone && target.value !in Attached(branches) && target.value.id < since
      requires ReferencesBelow(before, since) && AllBelow(before.endpoints, since)
      requires Framed(before, Pointing(), name, wasPrimary) && (wasPrimary ==> selected == name)
      requires attachments == before.attachments[name := t] && Repointed(before.endpoints, endpoints, name, t)
      requires IsAttached(branches, MAIN) && Leaked() <= leaked + {lost} && (target.Some? ==> target.value == lost)
      requires formerBelow <= since
      modifies this`branches, this`attachments, this`selected, this`selectedAttachment,
          this`named, this`live, this`gone,
          this`endpoints, this`fault
      ensures Valid() && failure.Some? && Excused(failure, leaked, Leaked())
      ensures Kept(old(fault), fault) && Uncompensated(failure.value) == Uncompensated(cause)
      ensures Reattached(old(branches), branches, name)
      ensures Framed(before, Pointing(), name, wasPrimary)
      ensures Reports(failure.value) == 0 ==>
                && target.Some? && branches == WithAttachment(old(branches), name, target.value)
                && Undone(before, Pointing(), target, wasPrimary, name)
    {
      hide Outlived, Rooted, Unshared, Spared, SparedBy;
      failure := RollbackReset(name, target, t, wasPrimary, cause, since, leaked, lost);
      if Reports(failure.value) == 0 {
        MovedBack(before, old(Pointing()), Pointing(), name, t, target.value, wasPrimary);
      }
    }

    /** A deletion lets go of what the branch was attached to. */
    ghost method Retire(ts: set<Timeline>, leaked: set<Timeline>)
      requires Valid() && ts !! gone && Below(ts, nextId) && Leaked() <= leaked + ts
      modifies this`retired, this`formerBelow
      ensures Valid() && Leaked() <= leaked && retired == old(retired) + ts
    {
      hide Rooted, Unshared, Spared, SparedBy;
      retired, formerBelow := retired + ts, nextId;
      forall x | x in Leaked() ensures x in leaked {
        assert x in old(Leaked()) && x !in ts;
      }
    }

    /** A successful reset lets go of what the branch was attached to. */
    ghost method Supersede(current: Option<Timeline>, leaked: set<Timeline>)
      requires Valid() && Leaked() <= leaked + Its(current)
      requires current.Some? ==> current.value !in gone && current.value.id < nextId
      modifies this`superseded, this`formerBelow
      ensures Valid() && Leaked() <= leaked && superseded == old(superseded) + Its(current)
    {
      superseded, formerBelow := superseded + Its(current), nextId;
      forall x | x in Leaked() ensures x in leaked {
        assert x in old(Leaked()) && x !in Its(current);
      }
    }

    method RecordReset(name: Name, t: Timeline, ghost leaked: set<Timeline>) returns (failure: Option<Error>)
      requires Valid() && IsActive(branches, name) && IsAttached(branches, MAIN) && fault.None?
      requires t.id < nextId && t !in gone && Unreferenced(t) && Leaked() <= leaked + {t}
      requires formerBelow <= t.id
      modifies this`branches, this`live, this`gone, this`fault
      ensures Valid() && (failure.Some? ==> Excused(failure, leaked, Leaked()))
      ensures failure.Some? ==> branches == old(branches) && Blames(failure.value, fault)
      ensures failure.None? ==> && branches == WithAttachment(old(branches), name, t) && gone == old(gone)
                                && fault.None?
                                && Attached(branches) ==
                                       Attached(old(branches)) - Its(old(branches)[name].attachment) + {t}
                                && Leaked() <= leaked + Its(old(branches)[name].attachment)
    {
      failure := Reattach(name, t);
      if failure.Some? {
        failure := DeleteNew(t, failure.value, leaked);
      }
    }

    /** Points the manager and the endpoints at the new timeline, up to the first step that fails. */
    method MoveEndpoints(name: Name, t: Timeline, wasPrimary: bool) returns (failure: Option<Error>)
      requires Valid() && t !in gone && t.id < nextId && fault.None? && (wasPrimary ==> selected == name)
      modifies this`attachments, this`selected, this`selectedAttachment,
          this`named, this`endpoints, this`fault
      ensures Valid() && attachments == old(attachments)[name := t] && Repointed(old(endpoints), endpoints, name, t)
      ensures Framed(old(Pointing()), Pointing(), name, wasPrimary)
      ensures failure.Some? ==> Blames(failure.value, fault) && Reports(failure.value) == 0
      ensures failure.None? ==> && fault.None? && (name in endpoints ==> endpoints[name] == t)
                                && (wasPrimary ==> selectedAttachment == Some(t) && named == {t})
    {
      hide Outlived, Rooted, Unshared;
      failure := PointBranch(name, t);
      if failure.None? && wasPrimary {
        failure := Step(Unavailable);
        if failure.None? {
          failure := SwitchToBranch(name);
        }
      }
    }

    method BranchOffParent(name: Name, ghost leaked: set<Timeline>) returns (r: Result)
      requires Valid() && leaked == Leaked() && fault.None? && IsActive(branches, name)
      modifies this`branches, this`tenants, this`live, this`created, this`ancestors, this`gone, this`nextId, this`fault
      ensures Valid() && nextId >= old(nextId) && Grown(old(branches), branches, ancestors, old(nextId))
      ensures r.Ok? ==> && old(nextId) <= r.timeline.id < nextId && r.timeline !in gone && Unreferenced(r.timeline)
                        && IsAttached(branches, MAIN) && Leaked() <= leaked + {r.timeline} && fault.None?
                        && ComesOff(branches, ancestors, name, r.timeline)
                        && Resolvable(old(branches), old(branches)[name].parent, {})
      ensures r.Err? ==> Excused(Some(r.error), leaked, Leaked())
                         && Unresolved(r.error, fault, Resolvable(old(branches), old(branches)[name].parent, {}))
    {
      hide Outlived, Unshared;
      r := Resolve(branches[name].parent);
      if r.Ok? {
        SomeAttached(branches, branches[name].parent);
        r := BranchOff(branches[name].parent, r.timeline, old(branches), old(nextId));
      }
    }

    /** A timeline that branches off the parent's, for a branch that is to start again. */
    method ResolveReset(name: Name, ghost leaked: set<Timeline>) returns (r: Result)
      requires Valid() && leaked == Leaked() && fault.None?
      modifies this`branches, this`tenants, this`live, this`created, this`ancestors, this`gone, this`nextId, this`fault
      ensures Valid() && nextId >= old(nextId) && Grown(old(branches), branches, ancestors, old(nextId))
      ensures r.Ok? ==> && old(nextId) <= r.timeline.id < nextId && r.timeline !in gone && Unreferenced(r.timeline)
                        && IsActive(branches, name) && IsAttached(branches, MAIN) && Leaked() <= leaked + {r.timeline}
                        && ComesOff(branches, ancestors, name, r.timeline) && fault.None?
                        && (old(branches)[name].attachment.Some? ==>
                              branches[name].attachment == old(branches)[name].attachment)
      ensures r.Err? ==> Excused(Some(r.error), leaked, Leaked())
      ensures r.Ok? ==> Resettable(old(branches), name)
      ensures r.Err? && IsActive(old(branches), name) && name != MAIN ==>
                Unresolved(r.error, fault, Resolvable(old(branches), old(branches)[name].parent, {}))
    {
      if !IsActive(branches, name) {
        return Err(Leaf(NotFound));
      }
      if name == MAIN || branches[name].parent == "" {
        return Err(Leaf(Protected));
      }
      r := BranchOffParent(name, leaked);
    }

    /**
     Resetting a branch: success gives it a fresh timeline off its parent's, and the primary and a published
     endpoint follow; a failure that reports no failed compensation leaves every record attached as it was, and
     the manager, the selection file and the endpoint as they were or pointed at the old timeline again.
     */
    method ResetBranch(name: Name) returns (failure: Option<Error>)
      requires Valid()
      modifies this`branches, this`tenants, this`live, this`created, this`ancestors, this`gone, this`nextId,
          this`fault, this`endpoints, this`attachments, this`selected, this`selectedAttachment,
          this`named, this`superseded, this`formerBelow
      ensures Valid() && Excused(failure, old(Leaked()), Leaked())
      ensures failure.None? ==> && name != MAIN && IsAttached(branches, name) && fault.None?
                                && branches[name].attachment.value.id >= old(nextId)
                                && (old(selected) == name ==> selectedAttachment == branches[name].attachment
                                                              && named == TimelineOf(branches, name))
                                && (name in endpoints ==> branches[name].attachment == Some(endpoints[name]))
                                && OffParent(branches, ancestors, name)
      ensures failure.None? ==> TimelineOf(old(branches), name) <= superseded
      ensures failure.Some? && Reports(failure.value) == 0 ==>
                && OnlyAttaches(old(branches), branches)
                && Undone(old(Pointing()), Pointing(),
                          if IsActive(old(branches), name) then old(branches)[name].attachment else None,
                          old(selected) == name, name)
      ensures Framed(old(Pointing()), Pointing(), name, old(selected) == name) && Beside(old(branches), branches, name)
      ensures SameRecords(old(branches), branches)
      ensures failure.Some? ==> || ResetRefused(Uncompensated(failure.value), old(branches), name)
                                || Classified(failure.value, fault, IsActive(old(branches), name)
                                                && Resolvable(old(branches), old(branches)[name].parent, {}))
      ensures failure.None? ==> Resettable(old(branches), name)
      ensures failure.Some? && calm ==> !Resettable(old(branches), name)
    {
      hide Outlived, Rooted, Unshared, Resolvable, OnlyAttaches, Beside, SameRecords;
      fault := None;
      GrownBeside(branches, branches, name);
      GrownSame(branches, ancestors, nextId);
      SameOnAttaching(branches, branches);
      if name == MAIN || name == "" {
        return Some(Leaf(Protected));
      }
      if !IsActive(branches, name) {
        return Some(Leaf(NotFound));
      }
      var target := branches[name].attachment;
      failure := Step(PersistFailed);
      if failure.None? {
        failure := Step(Unavailable);  // asking whether the primary serves the branch
      }
      if failure.None? {
        failure := ResetToFresh(name, target, selected == name, old(nextId));
      }
    }

    method ResetToFresh(name: Name, target: Option<Timeline>, wasPrimary: bool,
        ghost since: nat) returns (failure: Option<Error>)
      requires Valid() && IsActive(branches, name) && branches[name].attachment == target && since == nextId
          && name != MAIN
      requires fault.None? && (wasPrimary ==> selected == name)
      modifies this`branches, this`tenants, this`live, this`created, this`ancestors, this`gone, this`nextId,
          this`fault, this`endpoints, this`attachments, this`selected, this`selectedAttachment,
          this`named, this`superseded, this`formerBelow
      ensures Valid() && Excused(failure, old(Leaked()), Leaked())
      ensures failure.None? ==> && IsAttached(branches, name) && branches[name].attachment.value.id >= since
                                && fault.None?
                                && (wasPrimary ==> selectedAttachment == branches[name].attachment
                                                   && named == TimelineOf(branches, name))
                                && (name in endpoints ==> branches[name].attachment == Some(endpoints[name]))
                                && OffParent(branches, ancestors, name)
      ensures failure.None? ==> Its(target) <= superseded
      ensures failure.Some? && Reports(failure.value) == 0 ==>
                && OnlyAttaches(old(branches), branches)
                && Undone(old(Pointing()), Pointing(), target, wasPrimary, name)
      ensures Framed(old(Pointing()), Pointing(), name, wasPrimary)
      ensures Beside(old(branches), branches, name) && SameRecords(old(branches), branches)
      ensures failure.None? ==> Resolvable(old(branches), old(branches)[name].parent, {})
      ensures failure.Some? ==>
                Classified(failure.value, fault, Resolvable(old(branches), old(branches)[name].parent, {}))
    {
      hide Outlived, Rooted, Unshared, Beside, SameRecords, Undone, Framed, Resolvable, ReferencesBelow, AllBelow,
          OthersBelow, Spared, SparedBy;
      if target.Some? {
        SomeAttached(branches, name);
      }
      NothingAbove(name);
      NothingMoved(branches, Pointing(), name, target, wasPrimary);
      var r := ResolveReset(name, old(Leaked()));
      failure := if r.Err? then Some(r.error) else None;
      GrownBeside(old(branches), branches, name);
      SameOnAttaching(old(branches), branches);
      if r.Ok? {
        ghost var resolved := branches;
        failure := AdoptOffParent(name, target, r.timeline, wasPrimary, since, old(Leaked()));
        ReattachedBeside(old(branches), resolved, branches, name);
      }
    }

    /** Deleting a branch: its timeline stays, for the record that keeps it. */
    method DeleteBranch(name: Name) returns (failure: Option<Error>)
      requires Valid()
      modifies this`branches, this`endpoints, this`retired, this`formerBelow, this`fault
      ensures Valid() && Excused(failure, old(Leaked()), Leaked())
      ensures failure.None? ==> && name != MAIN && IsActive(old(branches), name) && fault.None?
                                && endpoints == old(endpoints) - {name}
                                && branches == old(branches)[name := old(branches)[name].(deleted := true)]
                                && retired == old(retired) + TimelineOf(old(branches), name)
      ensures failure.Some? ==> && branches == old(branches) && retired == old(retired)
                                && (endpoints == old(endpoints) || endpoints == old(endpoints) - {name})
      ensures failure.Some? ==> || (failure.value == Leaf(NotFound) && !IsActive(branches, name))
                                || (failure.value == Leaf(Protected) && name == MAIN) || Blames(failure.value, fault)
      ensures failure.Some? && calm ==> !IsActive(branches, name) || name == MAIN
    {
      hide Outlived, Rooted, Unshared;
      fault := None;
      if !IsActive(branches, name) {
        return Some(Leaf(NotFound));
      }
      failure := Unpublish(name);
      if failure.None? {
        failure := SoftDelete(name);
      }
      if failure.None? {
        Retire(TimelineOf(old(branches), name), old(Leaked()));
      }
    }

    method Unpublish(name: Name) returns (failure: Option<Error>)
      requires Valid()
      modifies this`endpoints, this`fault
      ensures Valid() && (failure.None? ==> endpoints == old(endpoints) - {name} && fault == old(fault))
      ensures failure.Some? ==> endpoints == old(endpoints) && failure.value == Wrapped(Leaf(Unavailable))
                                && fault == Noted(old(fault), Unavailable) && !calm
    {
      failure := Step(Unavailable);
      if failure.None? {
        endpoints := endpoints - {name};
      }
    }

    /** Publishing a branch resolves it first. */
    method PublishBranch(name: Name) returns (failure: Option<Error>)
      requires Valid()
      modifies this`branches, this`tenants, this`live, this`created, this`ancestors, this`gone, this`nextId,
          this`endpoints, this`fault
      ensures Valid() && Excused(failure, old(Leaked()), Leaked())
      ensures Grown(old(branches), branches, ancestors, old(nextId))
      ensures failure.None? ==> IsAttached(branches, name) && fault.None? && name in endpoints
                                && branches[name].attachment == Some(endpoints[name])
      ensures failure.Some? ==> Classified(failure.value, fault, Resolvable(old(branches), name, {}))
      ensures failure.None? ==> Resolvable(old(branches), name, {})
      ensures failure.Some? && calm ==> !Resolvable(old(branches), name, {})
      ensures OthersSame(old(endpoints), endpoints, name)
    {
      hide Outlived, Rooted, Unshared;
      fault := None;
      if IsActive(branches, name) {
        failure := ResolveAndPublish(name, 1);
      } else {
        failure := Some(Leaf(NotFound));
      }
    }

    /** Switching the primary to a branch. */
    method SwitchPrimary(name: Name) returns (failure: Option<Error>)
      requires Valid()
      modifies this`branches, this`tenants, this`live, this`created, this`ancestors, this`gone, this`nextId,
          this`fault, this`attachments, this`selected, this`selectedAttachment,
          this`named
      ensures Valid() && Excused(failure, old(Leaked()), Leaked())
      ensures failure.None? ==> IsAttached(branches, name) && selected == name && fault.None?
                                && selectedAttachment == branches[name].attachment
                                && named == TimelineOf(branches, name)
      ensures failure.Some? ==> StaysOrTakes(old(Pointing()), Pointing(), name, branches)
      ensures failure.Some? ==> || (failure.value == Leaf(ParentMissing) && !IsActive(old(branches), name))
                                || Classified(failure.value, fault, Resolvable(old(branches), name, {}))
      ensures Grown(old(branches), branches, ancestors, old(nextId))
          && OthersSame(old(attachments), attachments, name)
      ensures failure.None? ==> Resolvable(old(branches), name, {}) && name in attachments
                                && selectedAttachment == Some(attachments[name])
      ensures failure.Some? && calm ==> !Resolvable(old(branches), name, {})
    {
      fault := None;
      GrownSame(branches, ancestors, nextId);
      if !IsActive(branches, name) {
        return Some(Leaf(ParentMissing));
      }
      failure := Step(PersistFailed);
      if failure.None? {
        failure := ResolveAndPoint(name);
      }
    }

    method ResolveAndPoint(name: Name) returns (failure: Option<Error>)
      requires Valid() && fault.None?
      modifies this`branches, this`tenants, this`live, this`created, this`ancestors, this`gone, this`nextId,
          this`fault, this`attachments, this`selected, this`selectedAttachment, this`named
      ensures Valid() && Excused(failure, old(Leaked()), Leaked())
      ensures failure.None? ==> IsAttached(branches, name) && selected == name && fault.None?
                                && selectedAttachment == branches[name].attachment
                                && named == TimelineOf(branches, name)
      ensures failure.Some? ==> && StaysOrTakes(old(Pointing()), Pointing(), name, branches)
                                && Classified(failure.value, fault, Resolvable(old(branches), name, {}))
      ensures Grown(old(branches), branches, ancestors, old(nextId))
          && OthersSame(old(attachments), attachments, name)
      ensures failure.None? ==> Resolvable(old(branches), name, {}) && name in attachments
                                && selectedAttachment == Some(attachments[name])
    {
      hide Outlived, Rooted, Unshared, Spared, SparedBy;
      var r := Resolve(name);
      failure := if r.Err? then Some(r.error) else None;
      if r.Ok? {
        failure := PointPrimary(name, r.timeline);
      }
    }

    method PointPrimary(name: Name, t: Timeline) returns (failure: Option<Error>)
      requires Valid() && IsAttached(branches, name) && branches[name].attachment == Some(t) && fault.None?
      modifies this`fault, this`attachments, this`selected, this`selectedAttachment,
          this`named
      ensures Valid() && Leaked() == old(Leaked()) && attachments == old(attachments)[name := t]
      ensures failure.None? ==> selected == name && selectedAttachment == Some(t) && named == {t} && fault.None?
      ensures failure.Some? ==> Blames(failure.value, fault) && StaysOrMoves(old(Pointing()), Pointing(), name, t)
    {
      SomeAttached(branches, name);
      SetBranchAttachment(name, t);
      failure := Step(Unavailable);
      if failure.None? {
        failure := SwitchToBranch(name);
      }
    }

    /** Starting the primary resolves and attaches the branch that is selected. */
    method StartPrimary() returns (failure: Option<Error>)
      requires Valid()
      modifies this`branches, this`tenants, this`live, this`created, this`ancestors, this`gone, this`nextId,
          this`fault, this`attachments, this`selected, this`selectedAttachment,
          this`named
      ensures Valid() && Excused(failure, old(Leaked()), Leaked())
      ensures selected == old(selected)
      ensures failure.None? ==> IsAttached(branches, selected)
                                && selectedAttachment == branches[selected].attachment && fault.None?
                                && named == TimelineOf(branches, selected)
      ensures failure.Some? ==> StaysOrTakes(old(Pointing()), Pointing(), selected, branches)
      ensures failure.Some? ==> Classified(failure.value, fault, Resolvable(old(branches), selected, {}))
      ensures Grown(old(branches), branches, ancestors, old(nextId))
          && OthersSame(old(attachments), attachments, selected)
      ensures failure.None? ==> Resolvable(old(branches), selected, {}) && selected in attachments
                                && selectedAttachment == Some(attachments[selected])
      ensures failure.Some? && calm ==> !Resolvable(old(branches), selected, {})
    {
      hide Outlived, Rooted, Unshared, Grown;
      GrownSame(branches, ancestors, nextId);
      fault := None;
      failure := Step(Unavailable);  // asking which branch is selected
      if failure.None? {
        if IsActive(branches, selected) {
          failure := SwitchPrimary(selected);
        } else {
          failure := Some(Leaf(NotFound));
        }
      }
    }

    /**
     Any number of operations, of any kind and with any failures: no active branch, not the primary manager, its
     selection file or its compute, and not the endpoint of a published branch ever refers to a timeline that the
     controller has deleted, nor has it ever deleted one that belonged to a branch before the user deleted or reset
     it, or one that it did not create; no two active branches share one, and as long as no failed compensation is
     reported no timeline is lost: each that was created was deleted again, is attached, or went with a deletion or
     a reset that succeeded.
     */
    method RunOperations(count: nat) returns (compensated: bool)
      requires Valid()
      modifies this
      ensures Valid() && gone !! References() && gone !! Former() && Unshared(branches)
      ensures !compensated ==> Leaked() <= old(Leaked())
    {
      compensated := false;
      for i := 0 to count
        invariant Valid() && (!compensated ==> Leaked() <= old(Leaked()))
      {
        var name: Name, other: Name := *, *;
        var failure := RunOperation(name, other);
        compensated := compensated || (failure.Some? && Reports(failure.value) > 0);
      }
    }

    method RunOperation(name: Name, other: Name) returns (failure: Option<Error>)
      requires Valid()
      modifies this
      ensures Valid() && Excused(failure, old(Leaked()), Leaked())
    {
      hide Outlived, Rooted, Unshared, Grown, Beside, SameRecords, OthersSame, Framed, Undone, Classified,
          Resolvable, Spared;
      var kind: nat, publish: bool := *, *;
      fault, calm := None, *;
      if kind == 0 {
        failure := CreateBranch(name, other, publish);
      } else if kind == 1 {
        var tooEarly: bool, position: Lookup := *, *;
        failure := RestoreBranch(other, name, publish, tooEarly, position);
      } else if kind == 2 {
        failure := ResetBranch(name);
      } else if kind == 3 {
        failure := DeleteBranch(name);
      } else if kind == 4 {
        failure := StartPrimary();
      } else if kind == 5 {
        failure := PublishBranch(name);
      } else if kind == 6 {
        failure := Unpublish(name);
      } else {
        failure := SwitchPrimary(name);
      }
    }
  }

  function WithAttachment(branches: Branches, name: Name, t: Timeline): Branches
    requires name in branches
  {
    branches[name := branches[name].(attachment := Some(t))]
  }

  lemma AttachedAfter(branches: Branches, name: Name, t: Timeline)
    requires IsActive(branches, name)
    ensures var after := WithAttachment(branches, name, t);
            && t in Attached(after) && Attached(after) <= Attached(branches) + {t}
            && (branches[name].attachment.None? ==> Attached(after) == Attached(branches) + {t})
  {
    var after := WithAttachment(branches, name, t);
    assert IsAttached(after, name) && after[name].attachment.value == t;
    forall x | x in Attached(after) ensures x in Attached(branches) + {t} {
      var n :| n in after && IsAttached(after, n) && after[n].attachment.value == x;
      assert n != name ==> IsAttached(branches, n);
    }
    if branches[name].attachment.None? {
      forall x | x in Attached(branches) ensures x in Attached(after) {
        var n :| n in branches && IsAttached(branches, n) && branches[n].attachment.value == x;
        assert IsAttached(after, n);
      }
    }
  }

  lemma StillRooted(branches: Branches, name: Name, t: Timeline)
    requires Rooted(branches) && Unshared(branches) && IsActive(branches, name) && t !in Attached(branches)
    requires name != MAIN ==> IsAttached(branches, MAIN)
    ensures Rooted(WithAttachment(branches, name, t)) && Unshared(WithAttachment(branches, name, t))
  {
    var after := WithAttachment(branches, name, t);
    forall n | n in after && IsAttached(after, n) && n != name ensures after[n].attachment.value != t {
      assert branches[n].attachment.value in Attached(branches);
    }
    assert forall n | n in branches && n != name :: IsAttached(after, n) <==> IsAttached(branches, n);
  }

  /** An attached branch that was not attached before branches off its parent's timeline, in its tenant. */
  predicate Descends(branches: Branches, ancestors: map<Timeline, Option<Timeline>>, name: Name, since: nat)
    requires IsAttached(branches, name)
  {
    name == MAIN ||
    var t := branches[name].attachment.value;
    && IsAttached(branches, branches[name].parent)
    && t.tenant == branches[branches[name].parent].attachment.value.tenant && t.id >= since
    && t in ancestors && ancestors[t] == branches[branches[name].parent].attachment
  }

  predicate SameAt(before: Branches, after: Branches, names: set<Name>) {
    forall name | name in names && name in before :: name in after && after[name] == before[name]
  }

  predicate Grown(before: Branches, after: Branches, ancestors: map<Timeline, Option<Timeline>>, since: nat) {
    && OnlyAttaches(before, after)
    && forall name | name in before && IsAttached(after, name)
      && !IsAttached(before, name) :: Descends(after, ancestors, name, since)
  }

  /** A timeline that branches off the one of a branch's parent. */
  predicate ComesOff(branches: Branches, ancestors: map<Timeline, Option<Timeline>>, name: Name, t: Timeline)
    requires name in branches
  {
    IsAttached(branches, branches[name].parent) && t in ancestors
      && ancestors[t] == branches[branches[name].parent].attachment
  }

  lemma OffParentAfter(branches: Branches, ancestors: map<Timeline, Option<Timeline>>, name: Name, t: Timeline)
    requires IsActive(branches, name) && ComesOff(branches, ancestors, name, t)
    ensures OffParent(WithAttachment(branches, name, t), ancestors, name)
  {
  }

  /** An attached branch's timeline branches off that of its parent, if this is another branch. */
  predicate OffParent(branches: Branches, ancestors: map<Timeline, Option<Timeline>>, name: Name)
    requires IsAttached(branches, name)
  {
    var parent := branches[name].parent;
    parent != name ==>
      && IsAttached(branches, parent) && branches[name].attachment.value in ancestors
      && ancestors[branches[name].attachment.value] == branches[parent].attachment
  }

  /** What older timelines branch off stays recorded. */
  predicate KeepsLineage(before: map<Timeline, Option<Timeline>>, after: map<Timeline, Option<Timeline>>, bound: nat) {
    forall x | x in before && x.id < bound :: x in after && after[x] == before[x]
  }

  lemma GrownKept(before: Branches, after: Branches, lineage: map<Timeline, Option<Timeline>>,
                  ancestors: map<Timeline, Option<Timeline>>, since: nat, bound: nat)
    requires Grown(before, after, lineage, since) && Below(Attached(after), bound)
        && KeepsLineage(lineage, ancestors, bound)
    ensures Grown(before, after, ancestors, since)
  {
    forall name | name in before && IsAttached(after, name) && !IsAttached(before, name)
      ensures Descends(after, ancestors, name, since)
    {
      SomeAttached(after, name);
      assert Descends(after, lineage, name, since);
    }
  }

  lemma GrownBeside(before: Branches, after: Branches, name: Name)
    requires OnlyAttaches(before, after)
    ensures Beside(before, after, name) && (IsActive(after, name) <==> IsActive(before, name))
  {
  }

  lemma GrownSame(branches: Branches, ancestors: map<Timeline, Option<Timeline>>, since: nat)
    ensures Grown(branches, branches, ancestors, since)
  {
  }

  lemma StaysAttached(before: Branches, after: Branches, name: Name)
    requires OnlyAttaches(before, after) && IsAttached(before, name)
    ensures IsAttached(after, name) && after[name] == before[name]
  {
  }

  lemma SameBeside(before: Branches, name: Name, record: Branch)
    ensures Beside(before, before, name) && Beside(before, before[name := record], name)
  {
  }

  lemma SameOnAttaching(before: Branches, after: Branches)
    requires OnlyAttaches(before, after)
    ensures SameRecords(before, after)
  {
  }

  lemma NothingMoved(branches: Branches, p: Pointers, name: Name, target: Option<Timeline>, wasPrimary: bool)
    requires name in branches
    ensures Reattached(branches, branches, name) && Undone(p, p, target, wasPrimary, name)
        && Framed(p, p, name, wasPrimary)
  {
  }

  lemma ReattachedTwice(first: Branches, third: Branches, name: Name, t: Timeline)
    requires name in first && Reattached(WithAttachment(first, name, t), third, name)
    ensures Reattached(first, third, name)
  {
  }

  lemma ReattachedBeside(first: Branches, second: Branches, third: Branches, name: Name)
    requires Beside(first, second, name) && SameRecords(first, second) && Reattached(second, third, name)
    ensures Beside(first, third, name) && SameRecords(first, third)
  {
    assert third - {name} == second - {name};
  }

  lemma BesideTwice(first: Branches, second: Branches, third: Branches, name: Name)
    requires Beside(first, second, name) && Beside(second, third, name)
    ensures Beside(first, third, name)
  {
    assert first.Keys - {name} == (first - {name}).Keys == (second - {name}).Keys;
  }

  lemma SameBelow(before: Branches, after: Branches, visiting: set<Name>, name: Name)
    requires SameAt(before, after, visiting + {name}) && name in before
    ensures SameAt(before, after, visiting) && name in after && after[name] == before[name]
  {
  }

  lemma LineageKept(first: map<Timeline, Option<Timeline>>, bound: nat, second: map<Timeline, Option<Timeline>>,
                    bound': nat, third: map<Timeline, Option<Timeline>>)
    requires KeepsLineage(first, second, bound) && KeepsLineage(second, third, bound') && bound <= bound'
    ensures KeepsLineage(first, third, bound)
  {
  }

  lemma GrownAtRoot(before: Branches, after: Branches, ancestors: map<Timeline, Option<Timeline>>, since: nat)
    requires IsActive(before, MAIN) && before[MAIN].attachment.None?
    requires after == before || exists t :: after == WithAttachment(before, MAIN, t)
    ensures Grown(before, after, ancestors, since)
  {
  }

  lemma GrownOnce(before: Branches, middle: Branches, lineage: map<Timeline, Option<Timeline>>, since: nat,
                  name: Name, t: Timeline, ancestors: map<Timeline, Option<Timeline>>)
    requires Grown(before, middle, lineage, since) && IsActive(middle, name) && middle[name].attachment.None?
    requires exists bound :: Below(Attached(middle), bound) && KeepsLineage(lineage, ancestors, bound)
    requires Descends(WithAttachment(middle, name, t), ancestors, name, since)
    ensures Grown(before, WithAttachment(middle, name, t), ancestors, since)
  {
    var bound :| Below(Attached(middle), bound) && KeepsLineage(lineage, ancestors, bound);
    GrownKept(before, middle, lineage, ancestors, since, bound);
    var after := WithAttachment(middle, name, t);
    forall n | n in before && IsAttached(after, n)
      && !IsAttached(before, n) ensures Descends(after, ancestors, n, since) {
      if n != name {
        assert Descends(middle, ancestors, n, since);
      }
    }
  }

  lemma NoneAttached(branches: Branches)
    requires Rooted(branches) && branches[MAIN].attachment.None?
    ensures Attached(branches) == {}
  {
  }

  lemma Nameless(branches: Branches)
    requires Rooted(branches)
    ensures "" !in branches
  {
  }

  lemma StillBelow(m: map<Name, Timeline>, name: Name, since: nat)
    requires AllBelow(m, since)
    ensures OthersBelow(m - {name}, name, since)
  {
  }

  lemma NothingLost(before: set<Timeline>, after: set<Timeline>)
    requires after <= before
    ensures forall failure :: Excused(failure, before, after)
  {
  }

  lemma SomeAttached(branches: Branches, name: Name)
    requires IsAttached(branches, name)
    ensures branches[name].attachment.value in Attached(branches)
  {
  }

  /** A failure loses track of no timeline, unless it reports a failed compensation: then of one at most. */
  ghost predicate Excused(failure: Option<Error>, leakedBefore: set<Timeline>, leakedAfter: set<Timeline>) {
    leakedAfter <= leakedBefore ||
    (failure.Some? && Reports(failure.value) > 0 && exists t :: leakedAfter <= leakedBefore + {t})
  }

  /**
   What a creation that failed may leave: its record stays only if a failed compensation is reported, and if no
   other one is, no timeline is lost besides.
   */
  predicate TakenBack(e: Error, stays: bool, leakedBefore: set<Timeline>, leakedAfter: set<Timeline>) {
    stays ==> Reports(e) > 0 && (Reports(e) == 1 ==> leakedAfter <= leakedBefore)
  }

  function ParentOrMain(parent: Name): Name {
    if parent == "" then MAIN else parent
  }

  lemma RecordAdded(branches: Branches, name: Name, parent: Name, t: Option<Timeline>)
    requires Rooted(branches) && Unshared(branches) && !IsActive(branches, name) && name != ""
        && IsActive(branches, parent)
    requires t.Some? ==> IsAttached(branches, MAIN) && t.value !in Attached(branches)
    ensures var after := branches[name := Branch(parent, false, t)];
            && Rooted(after) && Unshared(after) && name != MAIN
            && Attached(after) == Attached(branches) + (if t.Some? then {t.value} else {})
  {
    var after := branches[name := Branch(parent, false, t)];
    assert parent != "" && name != MAIN;
    var added := if t.Some? then {t.value} else {};
    forall n | n in branches && IsAttached(branches, n) ensures n != name && IsAttached(after, n) {
    }
    forall x | x in Attached(after) ensures x in Attached(branches) + added {
      var n :| n in after && IsAttached(after, n) && after[n].attachment.value == x;
      assert n != name ==> IsAttached(branches, n);
    }
    forall x | x in Attached(branches) + added ensures x in Attached(after) {
      if x in Attached(branches) {
        var n :| n in branches && IsAttached(branches, n) && branches[n].attachment.value == x;
        assert IsAttached(after, n);
      } else {
        assert IsAttached(after, name);
      }
    }
    forall n | n in after && IsAttached(after, n)
      && n != name ensures branches[n].attachment.value in Attached(branches) {
      SomeAttached(branches, n);
    }
  }

  lemma RecordDeleted(branches: Branches, name: Name)
    requires Rooted(branches) && Unshared(branches) && IsActive(branches, name) && name != MAIN
    ensures var after := branches[name := branches[name].(deleted := true)];
            && Rooted(after) && Unshared(after) && Attached(after) <= Attached(branches)
            && (branches[name].attachment.Some? ==>
                  Attached(after) == Attached(branches) - {branches[name].attachment.value})
            && (branches[name].attachment.None? ==> Attached(after) == Attached(branches))
  {
    var after := branches[name := branches[name].(deleted := true)];
    assert forall n | n in branches :: IsAttached(after, n) <==> n != name && IsAttached(branches, n);
    forall x | x in Attached(branches) && Some(x) != branches[name].attachment ensures x in Attached(after) {
      var n :| n in branches && IsAttached(branches, n) && branches[n].attachment.value == x;
      assert IsAttached(after, n);
    }
  }

  lemma SameRecord(branches: Branches, name: Name)
    requires IsAttached(branches, name)
    ensures branches[name := branches[name].(attachment := branches[name].attachment)] == branches
  {
  }

  function Its(t: Option<Timeline>): set<Timeline> {
    if t.Some? then {t.value} else {}
  }

  predicate OthersBelow(attachments: map<Name, Timeline>, name: Name, since: nat) {
    forall n | n in attachments && n != name :: attachments[n].id < since
  }

  lemma ReplacedAfter(branches: Branches, name: Name, t: Timeline)
    requires IsActive(branches, name) && Unshared(branches) && t !in Attached(branches)
    ensures Attached(WithAttachment(branches, name, t)) == Attached(branches) - Its(branches[name].attachment) + {t}
  {
    var after := WithAttachment(branches, name, t);
    AttachedAfter(branches, name, t);
    forall x | x in Attached(branches) && Some(x) != branches[name].attachment ensures x in Attached(after) {
      var n :| n in branches && IsAttached(branches, n) && branches[n].attachment.value == x;
      assert IsAttached(after, n);
    }
    forall x | x in Attached(after) && x != t ensures Some(x) != branches[name].attachment {
      var n :| n in after && IsAttached(after, n) && after[n].attachment.value == x;
      assert n != name && IsAttached(branches, n);
    }
  }

  /** A move that is taken back is undone. */
  lemma MovedBack(before: Pointers, moved: Pointers, back: Pointers, name: Name, t: Timeline, target: Timeline,
                  wasPrimary: bool)
    requires moved.attachments == before.attachments[name := t] && Repointed(before.endpoints, moved.endpoints, name, t)
    requires !wasPrimary ==> moved.attachment == before.attachment && moved.named == before.named
    requires BackOn(moved, back, target, wasPrimary, name)
    requires !wasPrimary ==> back.attachment == moved.attachment && back.named == moved.named
    ensures Undone(before, back, Some(target), wasPrimary, name)
  {
  }

  /** What is back on an old timeline does not point at a new one. */
  lemma NothingLeftOn(before: Pointers, after: Pointers, target: Timeline, wasPrimary: bool, name: Name, since: nat,
                      t: Timeline)
    requires BackOn(before, after, target, wasPrimary, name) && target.id < since <= t.id
    requires OthersBelow(before.attachments, name, since) && OthersBelow(before.endpoints, name, since)
    requires !wasPrimary ==> && (before.attachment.Some? ==> before.attachment.value.id < since)
                             && Below(before.named, since)
                             && after.attachment == before.attachment && after.named == before.named
    ensures Misses(after.attachments, t) && Misses(after.endpoints, t) && t !in after.named
        && Some(t) != after.attachment
  {
  }

  lemma AttachedBack(branches: Branches, name: Name, t: Timeline)
    requires IsAttached(branches, name)
    ensures WithAttachment(WithAttachment(branches, name, t), name, branches[name].attachment.value) == branches
  {
  }

  lemma LeakSwaps(before: set<Timeline>, after: set<Timeline>, leaked: set<Timeline>, back: Timeline, t: Timeline)
    requires before <= leaked + {back} && after <= before + {t} - {back}
    ensures after <= leaked + {t}
  {
  }
}
