/**
 The manager of the primary endpoint: starting, stopping and switching are transactions against a compute
 that acknowledges, through the applied file, the selection it has read.  The compute goes on between any
 two steps of the manager, and every call to the outside world may fail.
 */
module PrimaryEndpoint {
  import opened Options
  import opened Selections

  /** What is attached to a branch: the timeline in its tenant, or nothing yet. */
  type Attachment = Option<nat>

  /**
   What the compute makes of the selection file: without a file it serves main, without an attachment any
   timeline.
   */
  predicate ReadFrom(x: Selection<Attachment>, file: Option<Selection<Attachment>>) {
    && x.timeline.Some?
    && match file
       case None => x.generation == None && x.branch == "main"
       case Some(f) =>
         && x.generation == f.generation && x.branch == f.branch
         && (f.timeline.Some? ==> x.timeline == f.timeline)
  }

  predicate Older(generation: Option<nat>, next: nat) {
    generation.Some? ==> generation.value < next
  }

  /**
   The outside world: the selection file, the applied file and the compute.  Boots are counted, so that the
   applied file can be told from one that was there before the manager last stopped the compute.
   */
  datatype World = World(file: Option<Selection<Attachment>>, applied: Option<Selection<Attachment>>,
                         compute: Compute<Attachment>, boots: nat, appliedIn: nat, haltedIn: nat)
  {
    /**
     A compute that serves has acknowledged what it serves, in this boot; one that is up has booted since the
     last stop.
     */
    predicate Honest() {
      && (compute.Serving? ==> applied == Some(compute.selection) && appliedIn == boots)
      && appliedIn <= boots && haltedIn <= boots && (!compute.Off? ==> haltedIn < boots)
    }

    /** The compute serves nothing but the selection file as it stands. */
    predicate Current() {
      compute.Loaded? || compute.Serving? ==> ReadFrom(compute.selection, file)
    }

    /** The applied file, if it is there, was written from the selection file as it stands, since the last stop. */
    predicate AppliedCurrent() {
      applied.Some? ==> ReadFrom(applied.value, file) && haltedIn < appliedIn
    }

    predicate AllOlder(next: nat) {
      && (file.Some? ==> Older(file.value.generation, next))
      && (applied.Some? ==> Older(applied.value.generation, next))
      && (compute.Loaded? || compute.Serving? ==> Older(compute.selection.generation, next))
    }

    /** The file names a selection, and nothing that the compute has loaded or acknowledged is another one. */
    predicate Installed(s: Selection<Attachment>) {
      && file == Some(s) && (applied.Some? ==> applied.value == s && haltedIn < appliedIn)
      && (compute.Loaded? || compute.Serving? ==> compute.selection == s)
    }

    /** A compute that has booted since the last stop has acknowledged the selection, as the file has it. */
    predicate Acknowledges(expected: Selection<Attachment>) {
      applied.Some? && Matches(applied.value, expected) && ReadFrom(applied.value, file) && haltedIn < appliedIn
    }
  }

  /** What the compute does next by itself; `any` is the timeline it picks when none is attached. */
  datatype Nudge = Proceed(any: nat) | Reboot | Die

  function Nudged(w: World, n: Nudge): World {
    match n
    case Reboot => if w.compute.Off? then w else w.(compute := Booting, boots := w.boots + 1)
    case Die => w.(compute := Off)
    case Proceed(any) =>
      match w.compute
      case Off => w
      case Booting => w.(compute := Cleared, applied := None)
      case Cleared => w.(compute := Loaded(ReadSelection(w.file, any)))
      case Loaded(x) => w.(compute := Serving(x, false), applied := Some(x), appliedIn := w.boots)
      case Serving(x, ready) => w.(compute := Serving(x, !ready))
  }

  function Drifted(w: World, ns: seq<Nudge>): World
    decreases |ns|
  {
    if ns == [] then w else Drifted(Nudged(w, ns[0]), ns[1..])
  }

  /** What may become of the world while the manager does nothing. */
  ghost predicate Evolves(before: World, after: World) {
    && after.file == before.file && after.haltedIn == before.haltedIn && (before.Honest() ==> after.Honest())
    && (before.compute.Off? ==> after == before)
    && (before.Current() ==> after.Current())
    && (before.Honest() && before.Current() && before.AppliedCurrent() ==> after.AppliedCurrent())
    && forall next :: before.AllOlder(next) ==> after.AllOlder(next)
  }

  lemma {:induction false} DriftEvolves(w: World, ns: seq<Nudge>)
    ensures Evolves(w, Drifted(w, ns))
    decreases |ns|
  {
    if ns != [] {
      DriftEvolves(Nudged(w, ns[0]), ns[1..]);
    }
  }

  lemma EvolvesOn(first: World, second: World, third: World)
    requires Evolves(first, second) && Evolves(second, third)
    ensures Evolves(first, third)
  {
  }

  lemma EvolvesSelf(w: World)
    ensures Evolves(w, w)
  {
  }

  lemma EvolvesInstalled(before: World, after: World, s: Selection<Attachment>)
    requires before.Honest() && before.Installed(s) && s.timeline.Some? && Evolves(before, after)
    ensures after.Installed(s)
  {
    assert before.Current() && before.AppliedCurrent();
  }

  /** The compute comes up within this time, and stays up. */
  ghost predicate Prompt(ns: seq<Nudge>) {
    forall w: World | w.compute.Booting? || (w.compute.Serving? && w.compute.ready) ::
      Drifted(w, ns).compute.Serving? && Drifted(w, ns).compute.ready
  }

  /** A compute that serves the file as it stands has acknowledged it. */
  lemma ServingMatches(w: World, expected: Selection<Attachment>)
    requires w.Honest() && w.Current() && w.compute.Serving? && w.file == Some(expected) && expected.timeline.Some?
    ensures w.applied.Some? && Matches(w.applied.value, expected)
  {
  }

  lemma Risen(w: World, ns: seq<Nudge>)
    requires Prompt(ns) && (w.compute.Booting? || (w.compute.Serving? && w.compute.ready))
    ensures Drifted(w, ns).compute.Serving? && Drifted(w, ns).compute.ready
  {
  }

  const RISE: seq<Nudge> := [Proceed(0), Proceed(0), Proceed(0), Proceed(0)]

  lemma RiseIsPrompt()
    ensures Prompt(RISE)
  {
    forall w: World | w.compute.Booting? || (w.compute.Serving? && w.compute.ready)
      ensures Drifted(w, RISE).compute.Serving? && Drifted(w, RISE).compute.ready
    {
      var w1 := Nudged(w, Proceed(0));
      var w2 := Nudged(w1, Proceed(0));
      var w3 := Nudged(w2, Proceed(0));
      assert Drifted(w, RISE) == Drifted(w1, RISE[1..]) == Drifted(w2, RISE[1..][1..])
          == Drifted(w3, RISE[1..][1..][1..]) == Nudged(w3, Proceed(0));
    }
  }

  /** What the manager answers about the primary. */
  datatype Status = Status(selection: Selection<Attachment>, running: bool, ready: bool)

  /** The moment at which an operation takes effect: the world then, and the calls made until then. */
  datatype Commit = Commit(world: World, calls: nat)

  class Manager {
    var branch: Name
    var attachment: Attachment
    var attachments: map<Name, nat>
    var generation: Option<nat>
    var transitioning: bool
    var routeBlocked: bool
    var nextGeneration: nat  // random generations never collide
    var world: World
    const drift: nat -> seq<Nudge>  // what the compute does by itself before each call to the outside
    const answers: nat -> bool      // which of these calls succeed
    var calls: nat                  // the calls made so far
    var refusedStops: nat           // and of those the stops of the compute that reported failure

    /** A manager takes over what the selection file holds. */
    constructor (world: World, drift: nat -> seq<Nudge>, answers: nat -> bool, nextGeneration: nat)
      requires world.Honest() && world.AllOlder(nextGeneration)
      ensures Valid() && this.world == world && this.drift == drift && this.answers == answers && !routeBlocked
      ensures calls == 0
      ensures world.file.Some? && world.file.value.branch != "" ==> Memory() == world.file.value
      ensures world.file.None? ==> Memory() == Selection(None, "main", None)
    {
      this.world, this.drift, this.answers, this.nextGeneration := world, drift, answers, nextGeneration;
      this.calls, this.refusedStops := 0, 0;
      this.transitioning, this.routeBlocked := false, false;
      if world.file.None? {
        this.branch, this.attachment, this.generation, this.attachments := "main", None, None, map[];
      } else {
        var f := world.file.value;
        var name := if f.branch != "" then f.branch else "main";
        this.branch, this.attachment, this.generation := name, f.timeline, f.generation;
        this.attachments := if f.timeline.Some? then map[name := f.timeline.value] else map[];
      }
    }

    /** The world as the next call to the outside will find it. */
    function Glimpse(): World
      reads this
    {
      Later(0)
    }

    /** The same for a call that comes after others which leave the world alone. */
    function Later(others: nat): World
      reads this
    {
      Drifted(world, drift(calls + others))
    }

    ghost predicate Valid()
      reads this
    {
      world.Honest() && world.AllOlder(nextGeneration) && Older(generation, nextGeneration) && !transitioning
    }

    /** What the manager remembers of the primary. */
    function Memory(): Selection<Attachment>
      reads this
    {
      Selection(generation, branch, attachment)
    }

    /** A start that has failed either has named no selection or leaves the compute down, unless a stop has failed. */
    predicate CleanedUp(before: World, refusedBefore: nat)
      reads this
    {
      refusedStops > refusedBefore || world.file == before.file || world.compute.Off?
    }

    /** The compute comes up by itself before each of the next calls. */
    ghost predicate Prompted(count: nat)
      reads this
    {
      forall i | calls <= i < calls + count :: Prompt(drift(i))
    }

    /** And all of them succeed. */
    ghost predicate Willing(count: nat)
      reads this
    {
      Prompted(count) && forall i | calls <= i < calls + count :: answers(i)
    }

    /** Of these calls exactly one fails, and the compute comes up by itself before each of them. */
    ghost predicate FailsOnly(first: nat, at: nat, count: nat) {
      forall i | first <= i < first + count :: answers(i) == (i != first + at) && Prompt(drift(i))
    }

    /** Bringing the compute up takes three calls, as long as each succeeds. */
    predicate Rises(at: nat) {
      answers(at) && Answered(at + 1)
    }

    function Rising(at: nat): nat {
      if !answers(at) then 1 else if !answers(at + 1) then 2 else 3
    }

    /** The way back from a switch that has not come up: stop the compute, write the file, bring the compute up. */
    predicate Returns(at: nat, active: bool) {
      answers(at) && answers(at + 1) && (active ==> Rises(at + 2))
    }

    /** A switch that stops the compute in this call ends with the compute up on one side or the other. */
    predicate Settles(at: nat, active: bool) {
      answers(at) && if answers(at + 1) then Rises(at + 2) || Returns(at + 2 + Rising(at + 2), active)
                     else active ==> Rises(at + 2)
    }

    /** An operation has taken effect: what the manager remembers was acknowledged then, and nothing has replaced it. */
    ghost predicate Effective(c: Commit)
      reads this
    {
      && attachment.Some? && generation.Some? && c.world.applied == Some(Memory()) && c.world.Acknowledges(Memory())
      && Evolves(c.world, world) && world.Installed(Memory())
    }

    /** The two calls that a report takes both succeed. */
    predicate Answered(at: nat) {
      answers(at) && answers(at + 1)
    }

    /** What starting attaches to a branch. */
    function Attached(name: Name): Attachment
      reads this
    {
      if name in attachments then Some(attachments[name]) else attachment
    }

    // ----- The outside world -----

    /** Lets the compute go on by itself. */
    method Elapse()
      modifies this`world, this`calls
      ensures world == old(Glimpse()) && Evolves(old(world), world) && calls == old(calls) + 1
    {
      DriftEvolves(world, drift(calls));
      world := Drifted(world, drift(calls));
      calls := calls + 1;
    }

    method RuntimeStatus() returns (done: bool, active: bool, ready: bool)
      modifies this`world, this`calls
      ensures world == old(Glimpse()) && Evolves(old(world), world)
      ensures calls == old(calls) + 1 && done == answers(old(calls))
      ensures active == !world.compute.Off? && ready == (world.compute.Serving? && world.compute.ready)
    {
      done := answers(calls);
      Elapse();
      active := !world.compute.Off?;
      ready := world.compute.Serving? && world.compute.ready;
    }

    method ReadApplied() returns (done: bool, applied: Option<Selection<Attachment>>)
      modifies this`world, this`calls
      ensures world == old(Glimpse()) && Evolves(old(world), world)
      ensures calls == old(calls) + 1 && done == answers(old(calls)) && applied == world.applied
    {
      done := answers(calls);
      Elapse();
      applied := world.applied;
    }

    // The compute and the file it reads are touched only while the manager says that they are.

    /** A stop that reports failure may still have stopped the compute. */
    method RuntimeStop() returns (done: bool)
      requires transitioning
      modifies this`world, this`calls, this`refusedStops
      ensures world.file == old(world).file && (old(world).Honest() ==> world.Honest())
      ensures forall next :: old(world).AllOlder(next) ==> world.AllOlder(next)
      ensures refusedStops == old(refusedStops) + if done then 0 else 1
      ensures done ==> world.compute.Off? && world.haltedIn == world.boots
      ensures calls == old(calls) + 1 && done == answers(old(calls))
    {
      done := answers(calls);
      Elapse();
      var effect: bool := *;
      refusedStops := refusedStops + if done then 0 else 1;
      if done || effect {
        world := world.(compute := Off, haltedIn := world.boots);
      }
    }

    /** A start that reports failure may still have started the compute. */
    method RuntimeStart() returns (done: bool)
      requires transitioning && world.Current()
      modifies this`world, this`calls
      ensures world.file == old(world).file && world.Current() && (old(world).Honest() ==> world.Honest())
      ensures forall next :: old(world).AllOlder(next) ==> world.AllOlder(next)
      ensures calls == old(calls) + 1 && done == answers(old(calls))
      ensures done && old(world).compute.Off? ==> world.compute.Booting?
    {
      done := answers(calls);
      Elapse();
      var effect: bool := *;
      if (done || effect) && world.compute.Off? {
        world := world.(compute := Booting, boots := world.boots + 1);
      }
    }

    method WriteSelection(selection: Selection<Attachment>) returns (done: bool)
      requires transitioning && world.Honest()
      modifies this`world, this`calls
      ensures world.Honest() && (old(world).compute.Off? ==> world.compute.Off?)
      ensures world.file == if done then Some(selection) else old(world).file
      ensures forall next :: old(world).AllOlder(next) && Older(selection.generation, next) ==> world.AllOlder(next)
      ensures calls == old(calls) + 1 && done == answers(old(calls))
    {
      done := answers(calls);
      Elapse();
      if done {
        world := world.(file := Some(selection));
      }
    }

    /** The file names what is expected, and nothing is in the way of a compute that starts on it. */
    ghost predicate ComesUp(expected: Selection<Attachment>, count: nat)
      reads this
    {
      Prompted(count) && world.file == Some(expected) && expected.timeline.Some?
    }

    /** One look at whether the compute is ready and the applied file acknowledges the selection. */
    method Poll(expected: Selection<Attachment>) returns (answered: bool, met: bool)
      requires world.Honest() && world.Current()
      modifies this`world, this`calls
      ensures world.file == old(world).file && world.Honest() && world.Current()
      ensures forall next :: old(world).AllOlder(next) ==> world.AllOlder(next)
      ensures met ==> answered && world.Acknowledges(expected)
      ensures old(ComesUp(expected, 2)) && old(world).compute.Booting? ==>
                answered == met == Answered(old(calls)) && calls == old(calls) + if answers(old(calls)) then 2 else 1
    {
      hide Prompt, ReadFrom, Matches;
      ghost var eager := ComesUp(expected, 2) && world.compute.Booting?;
      if eager {
        Risen(world, drift(calls));
      }
      var known, active, ready := RuntimeStatus();
      answered, met := known, false;
      if known && ready {
        if eager {
          Risen(world, drift(calls));
        }
        var readable, applied := ReadApplied();
        if world.file == Some(expected) && expected.timeline.Some? && world.compute.Serving? {
          ServingMatches(world, expected);
        }
        answered, met := readable, readable && applied.Some? && Matches(applied.value, expected);
      }
    }

    /**
     Polls until the compute is ready and the applied file acknowledges the selection.  Readiness comes first:
     from then on the applied file is never one that an earlier start has left.
     */
    method WaitForApplied(expected: Selection<Attachment>) returns (done: bool)
      requires world.Honest() && world.Current()
      modifies this`world, this`calls
      ensures world.file == old(world).file && world.Honest() && world.Current()
      ensures forall next :: old(world).AllOlder(next) ==> world.AllOlder(next)
      ensures done ==> world.Acknowledges(expected)
      ensures old(ComesUp(expected, 2)) && old(world).compute.Booting? ==>
                done == Answered(old(calls)) && calls == old(calls) + if answers(old(calls)) then 2 else 1
    {
      var polls: nat := *;  // the time that is left
      while true
        invariant world.file == old(world).file && world.Honest() && world.Current()
        invariant forall next :: old(world).AllOlder(next) ==> world.AllOlder(next)
        invariant old(ComesUp(expected, 2)) && old(world).compute.Booting? ==>
                    calls == old(calls) && world == old(world)
        decreases polls
      {
        var answered, met := Poll(expected);
        if !answered || met {
          return met;
        }
        if polls == 0 {
          return false;
        }
        polls := polls - 1;
      }
    }

    /** Starts the compute on the selection file as it stands and waits for it to acknowledge a selection. */
    method BringUp(expected: Selection<Attachment>) returns (ok: bool)
      requires transitioning && world.Honest() && world.Current()
      modifies this`world, this`calls
      ensures world.Honest() && world.Current() && world.file == old(world).file
      ensures forall next :: old(world).AllOlder(next) ==> world.AllOlder(next)
      ensures ok ==> world.Acknowledges(expected)
      ensures old(ComesUp(expected, 3)) && old(world).compute.Off? ==>
                ok == Rises(old(calls)) && calls == old(calls) + Rising(old(calls))
    {
      ok := RuntimeStart();
      if ok {
        ok := WaitForApplied(expected);
      }
    }

    // ----- Operations -----

    /**
     What the primary does now; the status of the compute and then the applied file are asked for, and each of
     them may fail.  It is said to be ready only if the applied file acknowledges what the manager remembers.
     */
    method Connection() returns (state: Option<Status>)
      modifies this`world, this`calls
      ensures Evolves(old(world), world)
      ensures state.Some? <==> answers(old(calls)) && (transitioning || routeBlocked || answers(old(calls) + 1))
      ensures state.Some? ==> state.value.selection == Memory()
      ensures state.Some? ==> state.value.running == !old(Glimpse()).compute.Off?
      ensures state.Some? ==>
                (state.value.ready <==>
                  && old(Glimpse()).compute.Serving? && old(Glimpse()).compute.ready && !transitioning && !routeBlocked
                  && world.applied.Some? && Matches(world.applied.value, Memory()))
      ensures !transitioning && !routeBlocked && answers(old(calls)) ==>
                world == Drifted(old(Glimpse()), drift(old(calls) + 1))
    {
      ghost var first := world;
      var known, active, ready := RuntimeStatus();
      if !known {
        return None;
      }
      if transitioning || routeBlocked {
        return Some(Status(Memory(), active, false));
      }
      ghost var second := world;
      var readable, applied := ReadApplied();
      EvolvesOn(first, second, world);
      state := if readable
        then Some(Status(Memory(), active, ready && applied.Some? && Matches(applied.value, Memory()))) else None;
    }

    method SetBranchAttachment(name: Name, timeline: nat) returns (ok: bool)
      requires Valid()
      modifies this`attachments
      ensures Valid() && ok == (name != "")
      ensures attachments == if ok then old(attachments)[name := timeline] else old(attachments)
    {
      ok := name != "";
      if ok {
        attachments := attachments[name := timeline];
      }
    }

    method NewGeneration() returns (g: Option<nat>)
      requires world.Honest() && world.AllOlder(nextGeneration) && Older(generation, nextGeneration)
      modifies this`nextGeneration, this`calls
      ensures nextGeneration >= old(nextGeneration) && (g.Some? ==> old(nextGeneration) <= g.value < nextGeneration)
      ensures world.AllOlder(nextGeneration) && Older(generation, nextGeneration)
      ensures calls == old(calls) + 1 && g.Some? == answers(old(calls))
    {
      var done := answers(calls);
      calls := calls + 1;
      if !done {
        return None;
      }
      g := Some(nextGeneration);
      nextGeneration := nextGeneration + 1;
    }

    /**
     Starting: it takes effect when the compute has acknowledged this very selection, under a generation that no
     file and no compute has had before; otherwise what the manager remembers stays and the routes are closed.
     What it reports is asked for afterwards, so that it may have taken effect and still report an error.
     */
    method Start() returns (state: Option<Status>, ghost commit: Option<Commit>)
      requires Valid()
      modifies this
      ensures Valid() && branch == old(branch)
      ensures commit.Some? <==> Memory() != old(Memory())
      ensures commit.Some? ==> && !routeBlocked && Effective(commit.value) && generation.value >= old(nextGeneration)
                               && attachments == old(attachments)[branch := attachment.value]
                               && (state.Some? <==> Answered(commit.value.calls))
      ensures commit.Some? && branch in old(attachments) ==> attachment == Some(old(attachments)[branch])
      ensures commit.Some? && branch !in old(attachments) ==> attachment == old(attachment)
      ensures state.Some? ==> commit.Some? && state.value.selection == Memory()
      ensures commit.None? ==> routeBlocked && attachments == old(attachments)
                               && CleanedUp(old(world), old(refusedStops))
      ensures old(Willing(7)) && (branch in old(attachments) || old(attachment).Some?) ==> commit.Some?
    {
      transitioning := true;
      var ok := StartInTransition();
      transitioning, routeBlocked := false, !ok;
      state, commit := None, None;
      if ok {
        commit := Some(Commit(world, calls));
        state := Report();
      }
    }

    /** The end of an operation that has taken effect: what it reports may fail, and undoes nothing. */
    method Report() returns (state: Option<Status>)
      requires Valid() && !routeBlocked && Effective(Commit(world, calls))
      modifies this`world, this`calls
      ensures Valid() && Effective(Commit(old(world), old(calls)))
      ensures (state.Some? <==> Answered(old(calls))) && (state.Some? ==> state.value.selection == Memory())
    {
      state := Connection();
      EvolvesInstalled(old(world), world, Memory());
    }

    /** Starting writes the selection first and then stops what runs. */
    method WriteThenStop(selection: Selection<Attachment>, active: bool) returns (ok: bool)
      requires transitioning && world.Honest() && world.AllOlder(nextGeneration)
      requires Older(selection.generation, nextGeneration)
      requires !active ==> world.compute.Off?
      modifies this`world, this`calls, this`refusedStops
      ensures world.Honest() && world.AllOlder(nextGeneration)
      ensures ok ==> world.file == Some(selection) && world.compute.Off?
      ensures old(calls) <= calls <= old(calls) + 2 && (old(Willing(2)) ==> ok)
      ensures !ok && refusedStops == old(refusedStops) ==> world.file == old(world).file
      ensures refusedStops >= old(refusedStops)
    {
      ok := WriteSelection(selection);
      if ok && active {
        ok := RuntimeStop();
      }
    }

    /** Brings the compute up on a selection; one that does not come up is stopped. */
    method StartWith(selection: Selection<Attachment>, active: bool) returns (ok: bool)
      requires transitioning && world.Honest() && world.AllOlder(nextGeneration)
      requires Older(selection.generation, nextGeneration)
      requires !active ==> world.compute.Off?
      modifies this`world, this`calls, this`refusedStops
      ensures world.Honest() && world.AllOlder(nextGeneration)
      ensures ok ==> world.file == Some(selection) && world.Acknowledges(selection) && world.Current()
      ensures old(Willing(5)) && selection.timeline.Some? ==> ok
      ensures !ok ==> CleanedUp(old(world), old(refusedStops))
    {
      ok := WriteThenStop(selection, active);
      if ok {
        ok := BringUp(selection);
        if !ok {
          var stopped := RuntimeStop();
        }
      }
    }

    method StartInTransition() returns (ok: bool)
      requires transitioning && world.Honest() && world.AllOlder(nextGeneration) && Older(generation, nextGeneration)
      modifies this`attachment, this`attachments, this`generation, this`nextGeneration, this`world, this`calls,
          this`refusedStops
      ensures world.Honest() && world.AllOlder(nextGeneration) && Older(generation, nextGeneration)
      ensures ok ==> && Effective(Commit(world, calls)) && generation.value >= old(nextGeneration)
                     && attachment == old(Attached(branch))
                     && attachments == old(attachments)[branch := attachment.value]
      ensures !ok ==> attachment == old(attachment) && attachments == old(attachments) && generation == old(generation)
      ensures old(Willing(7)) && old(Attached(branch)).Some? ==> ok
      ensures !ok ==> CleanedUp(old(world), old(refusedStops))
    {
      ok := false;
      var minted := NewGeneration();
      var attached := Attached(branch);
      if minted.Some? {
        ok := InspectAndStart(Selection(minted, branch, attached));
      }
      if ok {
        attachment, generation := attached, minted;
        attachments := attachments[branch := attached.value];
      }
    }

    /** Starting goes on only when the status of the compute is known. */
    method InspectAndStart(selection: Selection<Attachment>) returns (ok: bool)
      requires transitioning && world.Honest() && world.AllOlder(nextGeneration)
      requires Older(selection.generation, nextGeneration)
      modifies this`world, this`calls, this`refusedStops
      ensures world.Honest() && world.AllOlder(nextGeneration)
      ensures ok ==> && world.applied.Some? && selection.timeline.Some? && world.Acknowledges(selection)
                     && world.Installed(selection)
      ensures old(Willing(6)) && selection.timeline.Some? ==> ok
      ensures !ok ==> CleanedUp(old(world), old(refusedStops))
    {
      var known, active, ready := RuntimeStatus();
      ok := known;
      if known {
        ok := StartWith(selection, active);
      }
    }

    /**
     Stopping opens the routes exactly when the compute was stopped, whatever the selection file names.  It may
     have stopped the compute and still report an error.
     */
    method Stop() returns (state: Option<Status>, ghost stopped: bool)
      requires Valid()
      modifies this
      ensures Valid() && Memory() == old(Memory()) && attachments == old(attachments) && world.file == old(world).file
      ensures stopped == answers(old(calls)) && routeBlocked == !stopped && (stopped ==> world.compute.Off?)
      ensures state.Some? <==> stopped && Answered(old(calls) + 1)
      ensures state.Some? ==> state.value.selection == Memory() && !state.value.running && !state.value.ready
    {
      transitioning := true;
      var ok := RuntimeStop();
      transitioning, routeBlocked := false, !ok;
      state, stopped := None, ok;
      DriftEvolves(world, drift(calls));
      if ok {
        state := Connection();
      }
    }

    /** Brings the compute back up with the selection file as it stands, if it was up before. */
    method Restart(active: bool, previous: Selection<Attachment>) returns (ok: bool)
      requires transitioning && world.Honest() && world.compute.Off?
      modifies this`world, this`calls
      ensures world.Honest() && world.file == old(world).file
      ensures forall next :: old(world).AllOlder(next) ==> world.AllOlder(next)
      ensures ok ==> if active then world.Acknowledges(previous) else world.compute.Off?
      ensures !active || old(ComesUp(previous, 3)) ==> ok == (active ==> Rises(old(calls)))
    {
      if !active {
        return true;
      }
      ok := BringUp(previous);
    }

    /** After a switch has not come up: back to the previous selection, as far as each step succeeds. */
    method Undo(active: bool, previous: Selection<Attachment>) returns (stable: bool)
      requires transitioning && world.Honest() && world.AllOlder(nextGeneration)
      requires Older(previous.generation, nextGeneration)
      modifies this`world, this`calls, this`refusedStops
      ensures world.Honest() && world.AllOlder(nextGeneration)
      ensures stable ==> world.file == Some(previous)
                         && (if active then world.Acknowledges(previous) else world.compute.Off?)
      ensures old(Prompted(5)) && previous.timeline.Some? ==> stable == Returns(old(calls), active)
    {
      var stopped := RuntimeStop();
      var written := WriteSelection(previous);
      if !written || !stopped {
        return false;
      }
      stable := Restart(active, previous);
    }

    /**
     Switching is a transaction.  It takes effect when the target, its attachment and a fresh generation are what
     the compute has acknowledged, and then the routes are open.  Otherwise what the manager remembers is
     unchanged, and either the routes are closed, or the selection file is back (or was never changed), and a
     compute that the manager found up has booted again since it was stopped and has acknowledged the previous
     selection, while one that it found down is down.  What it reports is asked for afterwards: an error says
     nothing of whether the switch has taken effect.
     */
    method SwitchToBranch(target: Name) returns (state: Option<Status>, ghost commit: Option<Commit>)
      requires Valid()
      modifies this
      ensures Valid() && attachments == old(attachments)
      ensures commit.Some? <==> Memory() != old(Memory())
      ensures commit.Some? ==> && !routeBlocked && Effective(commit.value) && generation.value >= old(nextGeneration)
                               && branch == target && target in attachments && attachment == Some(attachments[target])
                               && (state.Some? <==> Answered(commit.value.calls))
      ensures state.Some? ==> commit.Some? && state.value.selection == Memory()
      ensures target == "" ==> commit.None? && routeBlocked == old(routeBlocked) && world == old(world)
      ensures commit.None? && target != "" && !routeBlocked ==>
                && (world.file == old(world).file || world.file == Some(Memory()))
                && if old(Later(1)).compute.Off? then world.compute.Off? else world.Acknowledges(Memory())
      ensures old(Willing(7)) && target != "" && target in attachments ==>
                commit.Some? && commit.value.calls == old(calls) + 7
      ensures forall at: nat | at < 7 && FailsOnly(old(calls), at, 12) && target != "" && target in attachments
                          && old(attachment).Some? && (at == 3 ==> old(world).file == Some(old(Memory()))) ::
                commit.None? && (routeBlocked <==> at < 3)
    {
      state, commit := None, None;
      if target == "" {
        return;
      }
      transitioning := true;
      var ok, stable := SwitchInTransition(target);
      transitioning, routeBlocked := false, !stable;
      if ok {
        commit := Some(Commit(world, calls));
        state := Report();
      }
    }

    method SwitchInTransition(target: Name) returns (ok: bool, stable: bool)
      requires transitioning && world.Honest() && world.AllOlder(nextGeneration) && Older(generation, nextGeneration)
      modifies this`branch, this`attachment, this`generation, this`nextGeneration, this`world, this`calls,
          this`refusedStops
      ensures world.Honest() && world.AllOlder(nextGeneration) && Older(generation, nextGeneration)
      ensures ok ==> && stable && Effective(Commit(world, calls)) && generation.value >= old(nextGeneration)
                     && branch == target && target in attachments && attachment == Some(attachments[target])
      ensures !ok ==> Memory() == old(Memory())
      ensures !ok && stable ==>
                && (world.file == old(world).file || world.file == Some(Memory()))
                && if old(Later(1)).compute.Off? then world.compute.Off? else world.Acknowledges(Memory())
      ensures old(Willing(7)) && target in attachments ==> ok && calls == old(calls) + 7
      ensures forall at: nat | at < 7 && FailsOnly(old(calls), at, 12) && target in attachments && old(attachment).Some?
                          && (at == 3 ==> old(world).file == Some(old(Memory()))) ::
                !ok && (stable <==> at >= 3)
    {
      hide Prompt, Evolves, ReadFrom;
      ok, stable := false, false;
      var minted := NewGeneration();
      if minted.Some? {
        var attached := if target in attachments then Some(attachments[target]) else None;
        ok, stable := InspectAndSwitch(Selection(minted, target, attached), Memory());
        if ok {
          branch, attachment, generation := target, attached, minted;
          EvolvesSelf(world);
        }
      }
    }

    /** Switching goes on only when the status of the compute is known. */
    method InspectAndSwitch(selection: Selection<Attachment>, previous: Selection<Attachment>)
      returns (ok: bool, stable: bool)
      requires transitioning && world.Honest() && world.AllOlder(nextGeneration)
      requires Older(selection.generation, nextGeneration) && Older(previous.generation, nextGeneration)
      modifies this`world, this`calls, this`refusedStops
      ensures world.Honest() && world.AllOlder(nextGeneration)
      ensures ok ==> stable && selection.timeline.Some? && world.applied.Some? && world.Acknowledges(selection)
                     && world.Installed(selection)
      ensures !ok && stable ==>
                && (world.file == old(world).file || world.file == Some(previous))
                && if old(Glimpse()).compute.Off? then world.compute.Off? else world.Acknowledges(previous)
      ensures old(Willing(6)) && selection.timeline.Some? ==> ok && calls == old(calls) + 6
      ensures old(Prompted(11)) && selection.timeline.Some? && previous.timeline.Some?
              && (answers(old(calls) + 2) || old(world).file == Some(previous)) ==>
                && ok == (answers(old(calls)) && Answered(old(calls) + 1) && Rises(old(calls) + 3))
                && stable == (answers(old(calls)) && Settles(old(calls) + 1, !old(Glimpse()).compute.Off?))
    {
      var known, active, ready := RuntimeStatus();
      ok, stable := false, false;
      if known {
        ok, stable := SwitchTo(selection, previous, active);
      }
    }

    /** Stops the compute, names the next selection and brings it up; on the way back the previous one returns. */
    method SwitchTo(selection: Selection<Attachment>, previous: Selection<Attachment>, active: bool)
      returns (ok: bool, stable: bool)
      requires transitioning && world.Honest() && world.AllOlder(nextGeneration)
      requires Older(selection.generation, nextGeneration) && Older(previous.generation, nextGeneration)
      modifies this`world, this`calls, this`refusedStops
      ensures world.Honest() && world.AllOlder(nextGeneration)
      ensures ok ==> stable && world.file == Some(selection) && world.Acknowledges(selection) && world.Current()
      ensures old(Willing(5)) && selection.timeline.Some? ==> ok && calls == old(calls) + 5
      ensures old(Prompted(10)) && selection.timeline.Some? && previous.timeline.Some?
              && (answers(old(calls) + 1) || old(world).file == Some(previous)) ==>
                && ok == (answers(old(calls)) && answers(old(calls) + 1) && Rises(old(calls) + 2))
                && stable == Settles(old(calls), active)
      ensures !ok && stable ==>
                && (world.file == old(world).file || world.file == Some(previous))
                && if active then world.Acknowledges(previous) else world.compute.Off?
    {
      ok, stable := false, false;
      var stopped := RuntimeStop();
      if !stopped {
        return;
      }
      var written := WriteSelection(selection);
      if !written {
        stable := Restart(active, previous);
        return;
      }
      ok := BringUp(selection);
      stable := ok;
      if !ok {
        stable := Undo(active, previous);
      }
    }
  }

  /**
   Such an error comes: from any honest world, if nothing fails but the last question, the switch takes effect and
   reports an error.
   */
  method SwitchThatReportsFailure(world: World, next: nat, target: Name, timeline: nat)
    returns (state: Option<Status>, before: Selection<Attachment>, after: Selection<Attachment>, blocked: bool)
    requires world.Honest() && world.AllOlder(next) && target != ""
    ensures state.None? && !blocked && before != after == Selection(after.generation, target, Some(timeline))
  {
    var m := new Manager(world, i => RISE, i => i != 7, next);
    RiseIsPrompt();
    var attached := m.SetBranchAttachment(target, timeline);
    before := m.Memory();
    ghost var commit;
    state, commit := m.SwitchToBranch(target);
    after, blocked := m.Memory(), m.routeBlocked;
  }

  /** What the compute reads; `any` is the timeline it picks when none is attached. */
  function ReadSelection(file: Option<Selection<Attachment>>, any: nat): (x: Selection<Attachment>)
    ensures ReadFrom(x, file)
  {
    match file
    case None => Selection(None, "main", Some(any))
    case Some(f) => if f.timeline.Some? then f else f.(timeline := Some(any))
  }
}
