/**
 The selection file of a branch's own compute, which operations and clients write without regard to each other.  A
 client reads the record of its branch first and writes what it has read into the file later, so that it may write
 a timeline that an operation has deleted in between.
 */
module StaleSelections {
  import opened Options
  import opened Selections

  type Timeline = nat

  /** What a client has read in the record of its branch. */
  datatype Reading = Reading(name: Name, timeline: Timeline)

  datatype State = State(
    primary: Name,                    // the branch that the primary serves
    records: map<Name, Timeline>,     // what the active branches are attached to in the store
    pointed: map<Name, Timeline>,     // what operations have written into the file of a branch last
    files: map<Name, Timeline>,       // what the files hold, and computes read when they start
    readings: map<nat, Reading>,      // the clients that have read a record and not written yet
    gone: set<Timeline>)              // deleted by operations

  /**
   The operation thread attaches and detaches branches, points the file of a branch at what it is attached to, has
   the primary serve another branch, and deletes a timeline once it has taken back every reference of its own.  A
   client reads, and then writes and starts the compute, or gives up; it never writes while the primary serves its
   branch.
   */
  datatype Event =
    | Attach(name: Name, timeline: Timeline)
    | Detach(name: Name)
    | Point(name: Name)
    | Serve(name: Name)
    | Delete(timeline: Timeline)
    | Read(c: nat, name: Name)
    | Write(c: nat)
    | GiveUp(c: nat)

  function When(enabled: bool, s: State): Option<State> {
    if enabled then Some(s) else None
  }

  predicate MayDelete(s: State, t: Timeline) {
    t !in s.records.Values && t !in s.pointed.Values
  }

  function Next(s: State, e: Event): Option<State> {
    match e
    case Attach(name, t) => When(t !in s.gone, s.(records := s.records[name := t]))
    case Detach(name) => Some(s.(records := s.records - {name}))
    case Point(name) =>
      if name !in s.records then None
      else
        var t := s.records[name];
        Some(s.(pointed := s.pointed[name := t], files := s.files[name := t]))
    case Serve(name) => Some(s.(primary := name))
    case Delete(t) => When(MayDelete(s, t), s.(gone := s.gone + {t}))
    case Read(c, name) =>
      if name !in s.records || c in s.readings then None
      else Some(s.(readings := s.readings[c := Reading(name, s.records[name])]))
    case Write(c) =>
      if c !in s.readings || Fold(s.readings[c].name) == Fold(s.primary) then None
      else
        var reading := s.readings[c];
        Some(s.(files := s.files[reading.name := reading.timeline], readings := s.readings - {c}))
    case GiveUp(c) => Some(s.(readings := s.readings - {c}))
  }

  function Run(s: State, events: seq<Event>): Option<State>
    decreases |events|
  {
    if events == [] then Some(s)
    else match Next(s, events[0])
      case None => None
      case Some(s') => Run(s', events[1..])
  }

  /** No file names a timeline that has been deleted. */
  predicate Safe(s: State) {
    s.files.Values !! s.gone
  }

  /** What the store and the operations refer to is there. */
  predicate Grounded(s: State) {
    s.records.Values !! s.gone && s.pointed.Values !! s.gone
  }

  /** A client is about to write the timeline. */
  predicate Awaited(s: State, t: Timeline) {
    exists c | c in s.readings :: s.readings[c].timeline == t
  }

  /** No client has written the timeline over what an operation wrote, and none is about to. */
  predicate Forgotten(s: State, t: Timeline) {
    t !in s.files.Values && !Awaited(s, t)
  }

  /** Nothing that a client is about to write has been deleted. */
  predicate Timely(s: State) {
    forall c | c in s.readings :: s.readings[c].timeline !in s.gone
  }

  /** A timeline is only ever deleted when the clients have forgotten it. */
  ghost predicate Careful(s: State, events: seq<Event>)
    decreases |events|
  {
    events == [] ||
    (&& (events[0].Delete? ==> Forgotten(s, events[0].timeline))
     && match Next(s, events[0]) case None => true case Some(s') => Careful(s', events[1..]))
  }

  lemma NextGrounded(s: State, e: Event)
    requires Grounded(s) && Next(s, e).Some?
    ensures Grounded(Next(s, e).value)
  {
  }

  lemma NextIsSafe(s: State, e: Event)
    requires Safe(s) && Timely(s) && Grounded(s) && Next(s, e).Some?
    requires e.Delete? ==> Forgotten(s, e.timeline)
    ensures Safe(Next(s, e).value) && Timely(Next(s, e).value)
  {
    var s' := Next(s, e).value;
    match e
    case Point(name) => assert s.records[name] in s.records.Values;
    case Read(c, name) => assert s.records[name] in s.records.Values;
    case _ =>
  }

  /**
   Over every interleaving of operations and clients no file comes to name a deleted timeline, so long as a
   timeline is deleted only when no client has written it or is about to.
   */
  lemma {:induction false} NoFileIsStale(start: State, events: seq<Event>)
    requires Safe(start) && Timely(start) && Grounded(start) && Run(start, events).Some? && Careful(start, events)
    ensures Safe(Run(start, events).value)
    decreases |events|
  {
    if events != [] {
      NextGrounded(start, events[0]);
      NextIsSafe(start, events[0]);
      NoFileIsStale(Next(start, events[0]).value, events[1..]);
    }
  }

  lemma RunStep(s: State, e: Event, rest: seq<Event>, s': State)
    requires Next(s, e) == Some(s')
    ensures Run(s, [e] + rest) == Run(s', rest)
  {
    assert ([e] + rest)[1..] == rest;
  }

  lemma Writes(s: State, p: Name, c: nat)
    ensures Run(s, [Serve(p), Write(c)]) == Next(s.(primary := p), Write(c))
  {
    var served := s.(primary := p);
    assert [Serve(p)] + [Write(c)] == [Serve(p), Write(c)];
    RunStep(s, Serve(p), [Write(c)], served);
    if Next(served, Write(c)).Some? {
      assert [Write(c)] + [] == [Write(c)];
      RunStep(served, Write(c), [], Next(served, Write(c)).value);
    }
  }

  /** That care is needed at every single deletion: without it a client's next step, or none, is enough. */
  lemma DeletionIsSafeExactlyWhenForgotten(s: State, t: Timeline)
    requires Safe(s) && Timely(s) && MayDelete(s, t)
    ensures var after := Next(s, Delete(t)).value;
            (Safe(after) && forall p, c | Run(after, [Serve(p), Write(c)]).Some? ::
                              Safe(Run(after, [Serve(p), Write(c)]).value))
            <==> Forgotten(s, t)
  {
    var after := Next(s, Delete(t)).value;
    if Awaited(s, t) {
      var c :| c in s.readings && s.readings[c].timeline == t;
      var p := s.readings[c].name + "+";
      assert |Fold(p)| != |Fold(s.readings[c].name)|;
      Writes(after, p, c);
      var written := Run(after, [Serve(p), Write(c)]).value;
      assert written.files[s.readings[c].name] in written.files.Values;
    } else {
      forall p, c | Run(after, [Serve(p), Write(c)]).Some?
        ensures Forgotten(s, t) ==> Safe(Run(after, [Serve(p), Write(c)]).value)
      {
        Writes(after, p, c);
      }
    }
  }

  /** A reset that is rolled back, and a client that has read the record in between. */
  function RolledBackReset(name: Name, previous: Timeline, next: Timeline, c: nat): seq<Event> {
    [Attach(name, next), Read(c, name), Attach(name, previous), Point(name), Delete(next), Write(c)]
  }

  /** The program takes no such care: the rollback of a reset leaves the file on the timeline that it has deleted. */
  lemma RollbackLeavesStaleFile(s: State, name: Name, previous: Timeline, next: Timeline, c: nat)
    requires name in s.records && s.records[name] == previous && previous != next
    requires previous !in s.gone && next !in s.gone
    requires Fold(name) != Fold(s.primary) && c !in s.readings
    requires next !in s.records.Values && next !in s.pointed.Values
    ensures var end := Run(s, RolledBackReset(name, previous, next, c));
            && end.Some? && end.value.records == s.records && end.value.pointed == s.pointed[name := previous]
            && name in end.value.files && end.value.files[name] == next && next in end.value.gone
  {
    var s1 := s.(records := s.records[name := next]);
    var s2 := s1.(readings := s.readings[c := Reading(name, next)]);
    var s3 := s2.(records := s.records);
    var s4 := s3.(pointed := s.pointed[name := previous], files := s.files[name := previous]);
    var s5 := s4.(gone := s.gone + {next});
    var s6 := s5.(files := s4.files[name := next], readings := s2.readings - {c});
    assert s1.records[name := previous] == s.records;
    RunStep(s5, Write(c), [], s6);
    RunStep(s4, Delete(next), [Write(c)], s5);
    RunStep(s3, Point(name), [Delete(next), Write(c)], s4);
    RunStep(s2, Attach(name, previous), [Point(name), Delete(next), Write(c)], s3);
    RunStep(s1, Read(c, name), [Attach(name, previous), Point(name), Delete(next), Write(c)], s2);
    RunStep(s, Attach(name, next), [Read(c, name), Attach(name, previous), Point(name), Delete(next), Write(c)], s1);
    assert [Write(c)] + [] == [Write(c)] && [Delete(next)] + [Write(c)] == [Delete(next), Write(c)];
    assert [Point(name)] + [Delete(next), Write(c)] == [Point(name), Delete(next), Write(c)];
    assert [Attach(name, previous)] + [Point(name), Delete(next), Write(c)]
           == [Attach(name, previous), Point(name), Delete(next), Write(c)];
    assert [Read(c, name)] + [Attach(name, previous), Point(name), Delete(next), Write(c)]
           == [Read(c, name), Attach(name, previous), Point(name), Delete(next), Write(c)];
    assert [Attach(name, next)] + [Read(c, name), Attach(name, previous), Point(name), Delete(next), Write(c)]
           == RolledBackReset(name, previous, next, c);
  }
}
