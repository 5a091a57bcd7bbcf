/**
 The branch store: records in memory, a table on disk, and loading one from the other.  Every change is
 written as a whole before it is made in memory; the write may fail, and then changes nothing.
 */
module BranchStore {
  import opened Options

  // ----- Names -----

  predicate IsWhite(c: char) {
    || '\t' <= c <= '\r' || c == ' ' || c == '\U{85}' || c == '\U{A0}'
    || c == '\U{1680}' || '\U{2000}' <= c <= '\U{200A}'
    || c == '\U{2028}' || c == '\U{2029}' || c == '\U{202F}' || c == '\U{205F}' || c == '\U{3000}'
  }

  /** A string without the white space at its two ends. */
  function TrimSpace(s: string): string
    decreases |s|
  {
    if s == "" then s
    else if IsWhite(s[0]) then TrimSpace(s[1..])
    else if IsWhite(s[|s| - 1]) then TrimSpace(s[..|s| - 1])
    else s
  }

  predicate NoSpaceAround(s: string) {
    s == "" || (!IsWhite(s[0]) && !IsWhite(s[|s| - 1]))
  }

  /** The string is this text, from one position to another, between white space. */
  ghost predicate PaddedAt(s: string, text: string, i: nat, j: nat) {
    && i <= j <= |s| && s[i..j] == text
    && forall k | 0 <= k < i || j <= k < |s| :: IsWhite(s[k])
  }

  ghost predicate Padded(s: string, text: string) {
    exists i: nat, j: nat :: PaddedAt(s, text, i, j)
  }

  lemma PaddedMore(s: string, text: string, from: nat, to: nat)
    requires from <= to <= |s| && Padded(s[from..to], text)
    requires forall k | 0 <= k < from || to <= k < |s| :: IsWhite(s[k])
    ensures Padded(s, text)
  {
    var inner := s[from..to];
    var i: nat, j: nat :| PaddedAt(inner, text, i, j);
    assert forall k | from <= k < to :: s[k] == inner[k - from];
    assert s[from + i..from + j] == s[from..to][i..j];
    assert PaddedAt(s, text, from + i, from + j);
  }

  /** Trimming leaves nothing to trim, takes away white space alone, and so leaves alone what has none around it. */
  lemma {:induction false} TrimSpaceTrims(s: string)
    ensures NoSpaceAround(TrimSpace(s)) && |TrimSpace(s)| <= |s| && Padded(s, TrimSpace(s))
    ensures TrimSpace(s) == s <==> NoSpaceAround(s)
    decreases |s|
  {
    if s != "" && IsWhite(s[0]) {
      TrimSpaceTrims(s[1..]);
      assert s[1..|s|] == s[1..];
      PaddedMore(s, TrimSpace(s), 1, |s|);
    } else if s != "" && IsWhite(s[|s| - 1]) {
      TrimSpaceTrims(s[..|s| - 1]);
      assert s[0..|s| - 1] == s[..|s| - 1];
      PaddedMore(s, TrimSpace(s), 0, |s| - 1);
    } else {
      assert PaddedAt(s, s, 0, |s|);
    }
  }

  datatype Name = Name(text: string)

  const NO_NAME := Name("")
  const MAIN := Name("main")

  function Trim(name: Name): Name {
    Name(TrimSpace(name.text))
  }

  predicate IsTrimmed(name: Name) {
    NoSpaceAround(name.text)
  }

  lemma TrimTrims(name: Name)
    ensures IsTrimmed(Trim(name))
    ensures Trim(name) == name <==> IsTrimmed(name)
  {
    TrimSpaceTrims(name.text);
  }

  // ----- Records -----

  // Ids and passwords are only copied and compared with nothing: an empty one is none.
  datatype Branch = Branch(name: Name, parent: Name, createdAt: nat, deleted: bool, deletedAt: Option<nat>,
                           tenantId: Option<nat>, timelineId: Option<nat>, password: Option<nat>,
                           endpointPublished: bool, endpointPort: int)

  /** A row of the table: truth values are stored as integers. */
  datatype Row = Row(name: Name, parent: Name, createdAt: nat, deleted: int, deletedAt: Option<nat>,
                     tenantId: Option<nat>, timelineId: Option<nat>, password: Option<nat>,
                     endpointPublished: int, endpointPort: int)

  function Encode(b: Branch): Row {
    Row(b.name, b.parent, b.createdAt, if b.deleted then 1 else 0, b.deletedAt, b.tenantId, b.timelineId, b.password,
        if b.endpointPublished then 1 else 0, b.endpointPort)
  }

  function Decode(r: Row): Branch {
    Branch(r.name, r.parent, r.createdAt, r.deleted == 1, r.deletedAt, r.tenantId, r.timelineId, r.password,
           r.endpointPublished == 1, r.endpointPort)
  }

  type Branches = map<Name, Branch>

  /** A branch other than the root names a parent that is there, active or not. */
  predicate ParentKnown(branches: Branches, name: Name)
    requires name in branches
  {
    name == MAIN || (Trim(branches[name].parent) != NO_NAME && Trim(branches[name].parent) in branches)
  }

  predicate Named(branches: Branches, name: Name)
    requires name in branches
  {
    branches[name].name == name && IsTrimmed(name) && name != NO_NAME
  }

  /** The root is there and active, every record has its own trimmed name, and every parent is known. */
  predicate WellFormed(branches: Branches) {
    && MAIN in branches && !branches[MAIN].deleted
    && (forall name {:trigger Named(branches, name)} | name in branches :: Named(branches, name))
    && (forall name {:trigger ParentKnown(branches, name)} | name in branches :: ParentKnown(branches, name))
  }

  function TableOf(branches: Branches): map<Name, Row> {
    map name | name in branches :: Encode(branches[name])
  }

  /** The branches of a map, each once. */
  predicate IsSnapshotOf(snapshot: seq<Branch>, branches: Branches) {
    && (forall i | 0 <= i < |snapshot| :: snapshot[i].name in branches && branches[snapshot[i].name] == snapshot[i])
    && (forall i, j | 0 <= i < j < |snapshot| :: snapshot[i].name != snapshot[j].name)
    && forall name | name in branches :: Includes(snapshot, name)
  }

  predicate Includes(snapshot: seq<Branch>, name: Name) {
    exists i :: 0 <= i < |snapshot| && snapshot[i].name == name
  }

  /** Texts are ordered letter by letter, a text before its own continuations. */
  predicate TextBefore(a: string, b: string) {
    b != "" && (a == "" || a[0] < b[0] || (a[0] == b[0] && TextBefore(a[1..], b[1..])))
  }

  lemma {:induction false} TextOrderIsTotal(a: string, b: string)
    ensures a == b || TextBefore(a, b) || TextBefore(b, a)
    decreases a
  {
    if a != "" && b != "" && a[0] == b[0] {
      TextOrderIsTotal(a[1..], b[1..]);
      assert a == [a[0]] + a[1..] && b == [b[0]] + b[1..];
    }
  }

  lemma {:induction false} TextOrderIsTransitive(a: string, b: string, c: string)
    requires TextBefore(a, b) && TextBefore(b, c)
    ensures TextBefore(a, c)
    decreases a
  {
    if a != "" && a[0] == b[0] == c[0] {
      TextOrderIsTransitive(a[1..], b[1..], c[1..]);
    }
  }

  predicate Before(a: Name, b: Name) {
    TextBefore(a.text, b.text)
  }

  /** Among finitely many names one comes first. */
  predicate First(names: set<Name>, name: Name) {
    name in names && forall other | other in names && other != name :: Before(name, other)
  }

  lemma {:induction false} SomeFirst(names: set<Name>) returns (name: Name)
    requires names != {}
    ensures First(names, name)
    decreases names
  {
    name :| name in names;
    var rest := names - {name};
    assert names == rest + {name};
    if rest != {} {
      var first := SomeFirst(rest);
      TextOrderIsTotal(name.text, first.text);
      if Before(first, name) {
        name := first;
      } else {
        forall other | other in rest && other != first ensures Before(name, other) {
          TextOrderIsTransitive(name.text, first.text, other.text);
        }
      }
    }
  }

  predicate Sorted(snapshot: seq<Branch>) {
    forall i, j | 0 <= i < j < |snapshot| :: Before(snapshot[i].name, snapshot[j].name)
  }

  predicate Ahead(snapshot: seq<Branch>, names: set<Name>) {
    forall i, name | 0 <= i < |snapshot| && name in names :: Before(snapshot[i].name, name)
  }

  lemma StillAhead(snapshot: seq<Branch>, names: set<Name>, b: Branch)
    requires Sorted(snapshot) && Ahead(snapshot, names) && First(names, b.name)
    ensures Sorted(snapshot + [b]) && Ahead(snapshot + [b], names - {b.name})
  {
    var longer := snapshot + [b];
    forall i, name | 0 <= i < |longer| && name in names - {b.name} ensures Before(longer[i].name, name) {
      assert i < |snapshot| ==> longer[i] == snapshot[i];
    }
    forall i, j | 0 <= i < j < |longer| ensures Before(longer[i].name, longer[j].name) {
      assert longer[i] == snapshot[i] && (j < |snapshot| ==> longer[j] == snapshot[j]);
    }
  }

  method SnapshotFromMap(branches: Branches) returns (snapshot: seq<Branch>)
    requires forall name | name in branches :: branches[name].name == name
    ensures IsSnapshotOf(snapshot, branches) && Sorted(snapshot)
  {
    snapshot := [];
    var names := branches.Keys;
    while names != {}
      invariant names <= branches.Keys && Sorted(snapshot) && Ahead(snapshot, names)
      invariant forall i | 0 <= i < |snapshot| :: snapshot[i].name in branches && snapshot[i].name !in names
      invariant forall i | 0 <= i < |snapshot| :: branches[snapshot[i].name] == snapshot[i]
      invariant forall i, j | 0 <= i < j < |snapshot| :: snapshot[i].name != snapshot[j].name
      invariant forall name | name in branches && name !in names :: Includes(snapshot, name)
      decreases names
    {
      ghost var first := SomeFirst(names);
      var name :| name in names && First(names, name);
      ghost var before := snapshot;
      snapshot := snapshot + [branches[name]];
      StillAhead(before, names, branches[name]);
      names := names - {name};
      StillIncludes(before, branches[name]);
    }
  }

  lemma StillIncludes(snapshot: seq<Branch>, b: Branch)
    ensures Includes(snapshot + [b], b.name)
    ensures forall name | Includes(snapshot, name) :: Includes(snapshot + [b], name)
  {
    assert (snapshot + [b])[|snapshot|] == b;
    forall name | Includes(snapshot, name) ensures Includes(snapshot + [b], name) {
      var i :| 0 <= i < |snapshot| && snapshot[i].name == name;
      assert (snapshot + [b])[i] == snapshot[i];
    }
  }

  // ----- Loading -----

  /** The trimmed names of a snapshot. */
  function Keys(snapshot: seq<Branch>): (keys: seq<Name>)
    ensures |keys| == |snapshot| && forall i | 0 <= i < |snapshot| :: keys[i] == Trim(snapshot[i].name)
  {
    seq(|snapshot|, i requires 0 <= i < |snapshot| => Trim(snapshot[i].name))
  }

  /** The parent that a record stands under: the root when it names none. */
  function ParentOf(b: Branch): Name {
    if Trim(b.parent) == NO_NAME then MAIN else Trim(b.parent)
  }

  /** A record as it is loaded: its name trimmed, and the root as the parent of a branch that names none. */
  function Normalized(b: Branch, key: Name): Branch {
    b.(name := key, parent := if key != MAIN && Trim(b.parent) == NO_NAME then MAIN else b.parent)
  }

  predicate DistinctTo(keys: seq<Name>, n: nat)
    requires n <= |keys|
  {
    forall i, j | 0 <= i < j < n :: keys[i] != keys[j]
  }

  predicate Distinct(keys: seq<Name>) {
    DistinctTo(keys, |keys|)
  }

  predicate ParentsKnown(snapshot: seq<Branch>, keys: seq<Name>)
    requires |keys| == |snapshot|
  {
    forall i | 0 <= i < |keys| && keys[i] != MAIN :: ParentOf(snapshot[i]) in keys
  }

  predicate RootActive(snapshot: seq<Branch>, keys: seq<Name>)
    requires |keys| == |snapshot|
  {
    MAIN in keys && forall i | 0 <= i < |keys| && keys[i] == MAIN :: !snapshot[i].deleted
  }

  /** What a snapshot must be for a store to be loaded from it. */
  predicate AcceptableAs(snapshot: seq<Branch>, keys: seq<Name>)
    requires |keys| == |snapshot|
  {
    && (forall i | 0 <= i < |keys| :: keys[i] != NO_NAME) && Distinct(keys)
    && RootActive(snapshot, keys) && ParentsKnown(snapshot, keys)
  }

  predicate Acceptable(snapshot: seq<Branch>) {
    AcceptableAs(snapshot, Keys(snapshot))
  }

  /** The branches are the records of the snapshot, normalised, and no others. */
  predicate HoldsAs(branches: Branches, snapshot: seq<Branch>, keys: seq<Name>)
    requires |keys| == |snapshot|
  {
    && (forall i | 0 <= i < |keys| :: keys[i] in branches && branches[keys[i]] == Normalized(snapshot[i], keys[i]))
    && forall name | name in branches :: name in keys
  }

  predicate Holds(branches: Branches, snapshot: seq<Branch>) {
    HoldsAs(branches, snapshot, Keys(snapshot))
  }

  /** The records by their keys, before their parents are looked at. */
  predicate Collected(snapshot: seq<Branch>, keys: seq<Name>, collected: Branches)
    requires |keys| == |snapshot|
  {
    && (forall i | 0 <= i < |keys| :: keys[i] in collected && collected[keys[i]] == snapshot[i].(name := keys[i]))
    && forall name | name in collected :: name in keys
  }

  /**
   The records by their trimmed names; an empty or repeated name is refused.  Whatever `trim` does, it does
   to every name.
   */
  method CollectByName(snapshot: seq<Branch>, trim: Name -> Name, ghost keys: seq<Name>) returns (r: Option<Branches>)
    requires |keys| == |snapshot| && forall i | 0 <= i < |snapshot| :: keys[i] == trim(snapshot[i].name)
    ensures r.Some? <==> (forall i | 0 <= i < |keys| :: keys[i] != NO_NAME) && Distinct(keys)
    ensures r.Some? ==> Collected(snapshot, keys, r.value)
  {
    var branches: Branches := map[];
    ghost var from: map<Name, nat> := map[];  // where each record comes from
    var k := 0;
    while k < |snapshot|
      invariant k <= |snapshot| == |keys| && branches.Keys == from.Keys
      invariant forall i | 0 <= i < k :: keys[i] != NO_NAME && keys[i] in from && from[keys[i]] == i
      invariant forall i | 0 <= i < k :: branches[keys[i]] == snapshot[i].(name := keys[i])
      invariant forall name | name in from :: from[name] < k && keys[from[name]] == name
    {
      var name := trim(snapshot[k].name);
      if name == NO_NAME || name in branches {
        return None;
      }
      from := from[name := k];
      branches := branches[name := snapshot[k].(name := name)];
      k := k + 1;
    }
    return Some(branches);
  }

  /** Gives a branch that names no parent the root, and refuses a parent that is not there. */
  method NormalizeParents(collected: Branches) returns (r: Option<Branches>)
    requires MAIN in collected && forall name | name in collected :: collected[name].name == name
    ensures r.Some? <==> forall name | name in collected && name != MAIN :: ParentOf(collected[name]) in collected
    ensures r.Some? ==> r.value == map name | name in collected :: Normalized(collected[name], name)
  {
    var branches := collected;
    var names := collected.Keys;
    while names != {}
      invariant names <= collected.Keys && branches.Keys == collected.Keys
      invariant forall name | name in collected ::
                  branches[name] == if name in names then collected[name] else Normalized(collected[name], name)
      invariant forall name | name in collected && name !in names && name != MAIN ::
                  ParentOf(collected[name]) in collected
      decreases names
    {
      var name :| name in names;
      names := names - {name};
      if name != MAIN {
        var parent := Trim(branches[name].parent);
        if parent == NO_NAME {
          parent := MAIN;
          branches := branches[name := branches[name].(parent := parent)];
        }
        if parent !in branches {
          return None;
        }
      }
    }
    return Some(branches);
  }

  /** Loading succeeds exactly on an acceptable snapshot, and gives its records, normalised. */
  method BranchMapFromSnapshot(snapshot: seq<Branch>) returns (r: Option<Branches>)
    ensures r.Some? <==> Acceptable(snapshot)
    ensures r.Some? ==> Holds(r.value, snapshot)
  {
    if |snapshot| == 0 {
      return None;
    }
    ghost var keys := Keys(snapshot);
    r := CollectByName(snapshot, Trim, keys);
    if r.None? {
      return None;
    }
    var collected := r.value;
    CollectedNames(snapshot, keys, collected);
    CollectedRoot(snapshot, keys, collected);
    CollectedParents(snapshot, keys, collected);
    CollectedHolds(snapshot, keys, collected);
    if MAIN !in collected || collected[MAIN].deleted {
      return None;
    }
    r := NormalizeParents(collected);
  }

  /** Every collected record comes from one record of the snapshot. */
  lemma CollectedFrom(snapshot: seq<Branch>, keys: seq<Name>, collected: Branches, name: Name) returns (i: nat)
    requires |keys| == |snapshot| && Collected(snapshot, keys, collected) && name in collected
    ensures i < |keys| && keys[i] == name && collected[name] == snapshot[i].(name := name)
    ensures ParentOf(collected[name]) == ParentOf(snapshot[i])
  {
    i :| 0 <= i < |keys| && keys[i] == name;
  }

  lemma CollectedNames(snapshot: seq<Branch>, keys: seq<Name>, collected: Branches)
    requires |keys| == |snapshot| && Collected(snapshot, keys, collected)
    ensures forall name | name in collected :: collected[name].name == name
  {
    forall name | name in collected ensures collected[name].name == name {
      var i := CollectedFrom(snapshot, keys, collected, name);
    }
  }

  /** The parents of the collected records are known exactly when those of the snapshot are. */
  lemma CollectedParents(snapshot: seq<Branch>, keys: seq<Name>, collected: Branches)
    requires |keys| == |snapshot| && Collected(snapshot, keys, collected)
    ensures ParentsKnown(snapshot, keys) <==>
              forall name | name in collected && name != MAIN :: ParentOf(collected[name]) in collected
  {
    if ParentsKnown(snapshot, keys) {
      forall name | name in collected && name != MAIN ensures ParentOf(collected[name]) in collected {
        var i := CollectedFrom(snapshot, keys, collected, name);
        assert ParentOf(snapshot[i]) in keys;
      }
    } else {
      var i :| 0 <= i < |keys| && keys[i] != MAIN && ParentOf(snapshot[i]) !in keys;
      assert keys[i] in collected && ParentOf(collected[keys[i]]) == ParentOf(snapshot[i]);
    }
  }

  lemma CollectedRoot(snapshot: seq<Branch>, keys: seq<Name>, collected: Branches)
    requires |keys| == |snapshot| && Collected(snapshot, keys, collected)
    ensures RootActive(snapshot, keys) <==> MAIN in collected && !collected[MAIN].deleted
  {
    if MAIN in collected {
      var i := CollectedFrom(snapshot, keys, collected, MAIN);
    }
  }

  lemma CollectedHolds(snapshot: seq<Branch>, keys: seq<Name>, collected: Branches)
    requires |keys| == |snapshot| && Collected(snapshot, keys, collected)
    ensures HoldsAs(map name | name in collected :: Normalized(collected[name], name), snapshot, keys)
  {
  }

  lemma WellFormedRecord(branches: Branches, name: Name)
    requires WellFormed(branches) && name in branches
    ensures Trim(name) == name && Normalized(branches[name], name) == branches[name]
    ensures name != MAIN ==> ParentOf(branches[name]) in branches
  {
    assert Named(branches, name) && ParentKnown(branches, name);
    TrimTrims(name);
  }

  /** A loaded record comes from one record of the snapshot, and its parent is loaded too. */
  lemma LoadedRecord(snapshot: seq<Branch>, keys: seq<Name>, loaded: Branches, i: nat)
    requires |keys| == |snapshot| && AcceptableAs(snapshot, keys) && HoldsAs(loaded, snapshot, keys)
    requires i < |keys| && keys[i] == Trim(snapshot[i].name)
    ensures Named(loaded, keys[i]) && ParentKnown(loaded, keys[i])
  {
    TrimTrims(snapshot[i].name);
    TrimTrims(MAIN);
    if keys[i] != MAIN {
      assert ParentOf(snapshot[i]) in keys;
      var j :| 0 <= j < |keys| && keys[j] == ParentOf(snapshot[i]);
      assert keys[j] in loaded;
    }
  }

  /** Whatever acceptable snapshot a store is loaded from, its branches are well formed. */
  lemma LoadedIsWellFormed(snapshot: seq<Branch>, loaded: Branches)
    requires Acceptable(snapshot) && Holds(loaded, snapshot)
    ensures WellFormed(loaded)
  {
    var keys := Keys(snapshot);
    forall name | name in loaded ensures Named(loaded, name) && ParentKnown(loaded, name) {
      var i :| 0 <= i < |keys| && keys[i] == name;
      LoadedRecord(snapshot, keys, loaded, i);
    }
    var root :| 0 <= root < |keys| && keys[root] == MAIN;
    assert loaded[keys[root]] == Normalized(snapshot[root], MAIN);
  }

  lemma SnapshotKeys(snapshot: seq<Branch>, branches: Branches, keys: seq<Name>)
    requires WellFormed(branches) && IsSnapshotOf(snapshot, branches)
    requires |keys| == |snapshot| && forall i | 0 <= i < |snapshot| :: keys[i] == Trim(snapshot[i].name)
    ensures forall i | 0 <= i < |snapshot| ::
              && keys[i] == snapshot[i].name && keys[i] != NO_NAME && Normalized(snapshot[i], keys[i]) == snapshot[i]
              && (keys[i] != MAIN ==> ParentOf(snapshot[i]) in branches) && (keys[i] == MAIN ==> !snapshot[i].deleted)
  {
    forall i | 0 <= i < |snapshot|
      ensures keys[i] == snapshot[i].name && keys[i] != NO_NAME && Normalized(snapshot[i], keys[i]) == snapshot[i]
      ensures (keys[i] != MAIN ==> ParentOf(snapshot[i]) in branches) && (keys[i] == MAIN ==> !snapshot[i].deleted)
    {
      WellFormedRecord(branches, snapshot[i].name);
      assert Named(branches, snapshot[i].name);
    }
  }

  lemma SnapshotNames(snapshot: seq<Branch>, branches: Branches, keys: seq<Name>)
    requires IsSnapshotOf(snapshot, branches) && |keys| == |snapshot|
        && forall i | 0 <= i < |keys| :: keys[i] == snapshot[i].name
    ensures Distinct(keys) && forall name :: name in keys <==> name in branches
  {
    forall name | name in branches ensures name in keys {
      assert Includes(snapshot, name);
      var i :| 0 <= i < |snapshot| && snapshot[i].name == name;
      assert keys[i] == name;
    }
  }

  lemma SameLoads(snapshot: seq<Branch>, branches: Branches, keys: seq<Name>, loaded: Branches)
    requires |keys| == |snapshot| && HoldsAs(loaded, snapshot, keys) && IsSnapshotOf(snapshot, branches)
    requires forall i | 0 <= i < |keys| :: keys[i] == snapshot[i].name
                                           && Normalized(snapshot[i], keys[i]) == snapshot[i]
    requires forall name :: name in keys <==> name in branches
    ensures loaded == branches
  {
    forall name | name in branches ensures name in loaded && loaded[name] == branches[name] {
      var i :| 0 <= i < |keys| && keys[i] == name;
    }
  }

  /** A snapshot of well-formed branches is acceptable, and what it loads is those branches again. */
  lemma SnapshotLoads(snapshot: seq<Branch>, branches: Branches)
    requires WellFormed(branches) && IsSnapshotOf(snapshot, branches)
    ensures Acceptable(snapshot) && forall loaded | Holds(loaded, snapshot) :: loaded == branches
  {
    var keys := Keys(snapshot);
    SnapshotKeys(snapshot, branches, keys);
    SnapshotNames(snapshot, branches, keys);
    forall loaded | Holds(loaded, snapshot) ensures loaded == branches {
      SameLoads(snapshot, branches, keys, loaded);
    }
  }

  // ----- The table -----

  function RowsOf(snapshot: seq<Branch>, n: nat, rows: map<Name, Row>): map<Name, Row>
    requires n <= |snapshot|
  {
    if n == 0 then rows else RowsOf(snapshot, n - 1, rows)[snapshot[n - 1].name := Encode(snapshot[n - 1])]
  }

  lemma DecodeUndoesEncode(b: Branch)
    ensures Decode(Encode(b)) == b
  {
  }

  /** After every record of a snapshot was written over the rows, those of the snapshot hold its records. */
  lemma {:induction false} RowsOfSnapshot(snapshot: seq<Branch>, n: nat, rows: map<Name, Row>, branches: Branches)
    requires IsSnapshotOf(snapshot, branches) && n <= |snapshot|
    ensures forall i | 0 <= i < n :: snapshot[i].name in RowsOf(snapshot, n, rows)
                                     && RowsOf(snapshot, n, rows)[snapshot[i].name] == Encode(snapshot[i])
  {
    if n > 0 {
      RowsOfSnapshot(snapshot, n - 1, rows, branches);
    }
  }

  /** Writing a snapshot of the branches and then removing every other row leaves exactly their rows. */
  lemma UpsertThenPruneIsExact(snapshot: seq<Branch>, rows: map<Name, Row>, branches: Branches)
    requires IsSnapshotOf(snapshot, branches) && forall name | name in branches :: branches[name].name == name
    ensures var written := RowsOf(snapshot, |snapshot|, rows);
            (map name | name in written && name in branches :: written[name]) == TableOf(branches)
  {
    RowsOfSnapshot(snapshot, |snapshot|, rows, branches);
    var written := RowsOf(snapshot, |snapshot|, rows);
    forall name | name in branches ensures name in written && written[name] == Encode(branches[name]) {
      assert Includes(snapshot, name);
      var i :| 0 <= i < |snapshot| && snapshot[i].name == name;
    }
  }

  /** A branch as it is created: active, and published nowhere. */
  function NewBranch(name: Name, parent: Name, now: nat, tenantId: Option<nat>, timelineId: Option<nat>,
                     password: Option<nat>): Branch
  {
    Branch(name, parent, now, false, None, tenantId, timelineId, password, false, 0)
  }

  function WithEndpoint(b: Branch, published: bool, port: int): Branch {
    b.(endpointPublished := published, endpointPort := if published then port else 0)
  }

  datatype Error = NotFound | InvalidName | ParentMissing | AlreadyExists | Protected | PersistFailed

  class Store {
    var branches: Branches
    var table: map<Name, Row>
    var calm: bool             // no write fails

    /** What is on disk is what is in memory, and both are well formed. */
    ghost predicate Valid()
      reads this
    {
      WellFormed(branches) && table == TableOf(branches)
    }

    /** A store that finds nothing on disk: the root alone, if it can be written. */
    constructor (now: nat)
      ensures Valid() && branches == map[MAIN := NewBranch(MAIN, NO_NAME, now, None, None, None)]
    {
      var root := NewBranch(MAIN, NO_NAME, now, None, None, None);
      branches := map[MAIN := root];
      table := TableOf(map[MAIN := root]);
      calm := false;
    }

    /** One transaction: every record is written, then every row without a record is removed, then it commits. */
    method PersistBranches(snapshot: seq<Branch>, ghost next: Branches) returns (done: bool)
      requires IsSnapshotOf(snapshot, next) && snapshot != [] && forall name | name in next :: next[name].name == name
      modifies this`table
      ensures table == (if done then TableOf(next) else old(table)) && (calm ==> done)
    {
      var rows := table;
      var keepNames: set<Name> := {};
      var i := 0;
      while i < |snapshot|
        invariant i <= |snapshot| && rows == RowsOf(snapshot, i, table)
        invariant forall name :: name in keepNames <==> exists k :: 0 <= k < i && snapshot[k].name == name
      {
        keepNames := keepNames + {snapshot[i].name};
        var written: bool := *;
        if !written && !calm {
          return false;
        }
        rows := rows[snapshot[i].name := Encode(snapshot[i])];
        i := i + 1;
      }
      if keepNames != {} {
        rows := map name | name in rows && name in keepNames :: rows[name];
      }
      UpsertThenPruneIsExact(snapshot, table, next);
      KeptNames(snapshot, next, keepNames);
      var committed: bool := *;
      done := calm || committed;
      if done {
        table := rows;
      }
    }

    /** Writes the branches as they are to be, and only then makes them so in memory. */
    method PersistAndSwap(next: Branches) returns (done: bool)
      requires Valid() && WellFormed(next)
      modifies this`branches, this`table
      ensures Valid() && branches == (if done then next else old(branches)) && (calm ==> done)
    {
      OwnNames(next);
      var snapshot := SnapshotFromMap(next);
      assert Includes(snapshot, MAIN);
      done := PersistBranches(snapshot, next);
      if done {
        branches := next;
      }
    }

    predicate Active(name: Name)
      reads this
    {
      name in branches && !branches[name].deleted
    }

    method Create(rawName: Name, rawParent: Name, tenantId: Option<nat>, timelineId: Option<nat>,
        password: Option<nat>, now: nat)
      returns (failure: Option<Error>)
      requires Valid()
      modifies this`branches, this`table
      ensures Valid() && (failure.Some? ==> branches == old(branches))
      ensures calm ==> failure != Some(PersistFailed)
      ensures var name, parent := Trim(rawName), if Trim(rawParent) == NO_NAME then MAIN else Trim(rawParent);
              && (failure == Some(InvalidName) <==> name == NO_NAME)
              && (failure == Some(ParentMissing) <==> name != NO_NAME && !old(Active(parent)))
              && (failure == Some(AlreadyExists) <==> name != NO_NAME && old(Active(parent)) && old(Active(name)))
              && (failure.Some? ==> failure.value in {InvalidName, ParentMissing, AlreadyExists, PersistFailed})
              && (failure.None? ==>
                    && name in branches && branches == old(branches)[name := branches[name]]
                    && branches[name].name == name && branches[name].parent == parent
                    && branches[name].createdAt == now && !branches[name].deleted && branches[name].deletedAt.None?
                    && branches[name].tenantId == tenantId && branches[name].timelineId == timelineId
                    && branches[name].password == password
                    && !branches[name].endpointPublished && branches[name].endpointPort == 0)
    {
      var name := Trim(rawName);
      if name == NO_NAME {
        return Some(InvalidName);
      }
      var parent := Trim(rawParent);
      if parent == NO_NAME {
        parent := MAIN;
      }
      if !Active(parent) {
        return Some(ParentMissing);
      }
      if Active(name) {
        return Some(AlreadyExists);
      }
      var created := NewBranch(name, parent, now, tenantId, timelineId, password);
      TrimTrims(rawName);
      CreatedWellFormed(branches, created);
      var done := PersistAndSwap(branches[name := created]);
      return if done then None else Some(PersistFailed);
    }

    /** Writes a changed record of an active branch; its name, its parent and its being there do not change. */
    method Update(name: Name, changed: Branch) returns (failure: Option<Error>)
      requires Valid() && Active(name)
      requires changed.name == name && changed.parent == branches[name].parent && (name == MAIN ==> !changed.deleted)
      modifies this`branches, this`table
      ensures Valid() && (failure.Some? ==> failure.value == PersistFailed && !calm && branches == old(branches))
      ensures failure.None? ==> branches == old(branches)[name := changed]
    {
      ChangedWellFormed(branches, changed);
      var done := PersistAndSwap(branches[name := changed]);
      return if done then None else Some(PersistFailed);
    }

    method SetAttachment(rawName: Name, tenantId: Option<nat>, timelineId: Option<nat>) returns (failure: Option<Error>)
      requires Valid()
      modifies this`branches, this`table
      ensures Valid() && (failure.Some? ==> branches == old(branches))
      ensures failure.Some? ==> failure.value in {InvalidName, NotFound} || (failure.value == PersistFailed && !calm)
      ensures var name, whole := Trim(rawName), tenantId.Some? && timelineId.Some?;
              && (failure == Some(InvalidName) <==> name != NO_NAME && !whole)
              && (failure == Some(NotFound) <==> name == NO_NAME || (whole && !old(Active(name))))
      ensures var name := Trim(rawName);
              failure.None? ==>
                && old(Active(name)) && tenantId.Some? && timelineId.Some?
                && branches ==
                      old(branches)[name := old(branches)[name].(tenantId := tenantId, timelineId := timelineId)]
    {
      var name := Trim(rawName);
      if name == NO_NAME {
        return Some(NotFound);
      }
      if tenantId.None? || timelineId.None? {
        return Some(InvalidName);
      }
      if !Active(name) {
        return Some(NotFound);
      }
      OwnNames(branches);
      failure := Update(name, branches[name].(tenantId := tenantId, timelineId := timelineId));
    }

    method SetEndpoint(rawName: Name, published: bool, port: int) returns (failure: Option<Error>)
      requires Valid()
      modifies this`branches, this`table
      ensures Valid() && (failure.Some? ==> branches == old(branches))
      ensures failure.Some? ==> failure.value in {InvalidName, NotFound} || (failure.value == PersistFailed && !calm)
      ensures var name, usable := Trim(rawName), published ==> 1 <= port <= 65535;
              && (failure == Some(InvalidName) <==> name != NO_NAME && !usable)
              && (failure == Some(NotFound) <==> name == NO_NAME || (usable && !old(Active(name))))
      ensures var name := Trim(rawName);
              failure.None? ==>
                && old(Active(name)) && (published ==> 1 <= port <= 65535)
                && branches == old(branches)[name := old(branches)[name].(
                                   endpointPublished := published, endpointPort := if published then port else 0)]
    {
      var name := Trim(rawName);
      if name == NO_NAME {
        return Some(NotFound);
      }
      if published && (port < 1 || port > 65535) {
        return Some(InvalidName);
      }
      if !Active(name) {
        return Some(NotFound);
      }
      OwnNames(branches);
      failure := Update(name, WithEndpoint(branches[name], published, port));
    }

    method SoftDelete(rawName: Name, now: nat) returns (failure: Option<Error>)
      requires Valid()
      modifies this`branches, this`table
      ensures Valid() && (failure.Some? ==> branches == old(branches))
      ensures failure.Some? ==> failure.value in {Protected, NotFound} || (failure.value == PersistFailed && !calm)
      ensures var name := Trim(rawName);
              && (failure == Some(Protected) <==> name == MAIN)
              && (failure == Some(NotFound) <==> name !in old(branches))
      ensures var name := Trim(rawName);
              failure.None? ==>
                && name in old(branches) && name != MAIN && !Active(name)
                && branches == if old(Active(name))
                               then old(branches)[name := old(branches)[name].(deleted := true, deletedAt := Some(now))]
                               else old(branches)
    {
      var name := Trim(rawName);
      if name == NO_NAME {
        assert NO_NAME in branches ==> Named(branches, NO_NAME);
        return Some(NotFound);
      }
      if name == MAIN {
        return Some(Protected);
      }
      if name !in branches {
        return Some(NotFound);
      }
      if branches[name].deleted {
        return None;
      }
      OwnNames(branches);
      failure := Update(name, branches[name].(deleted := true, deletedAt := Some(now)));
    }

    /** Reads the rows, in some order, and loads the branches from them. */
    method LoadBranchMap() returns (loaded: Option<Branches>)
      requires Valid()
      ensures loaded == Some(branches)
    {
      OwnNames(branches);
      var snapshot: seq<Branch> := [];
      var names := table.Keys;
      while names != {}
        invariant names <= table.Keys
        invariant IsSnapshotOf(snapshot, map name | name in branches && name !in names :: branches[name])
        decreases names
      {
        var name :| name in names;
        DecodeUndoesEncode(branches[name]);
        ReadRow(snapshot, branches, names, name);
        snapshot := snapshot + [Decode(table[name])];
        names := names - {name};
      }
      assert (map name | name in branches && name !in names :: branches[name]) == branches;
      assert Includes(snapshot, MAIN);
      loaded := BranchMapFromSnapshot(snapshot);
      SnapshotLoads(snapshot, branches);
    }
  }

  lemma OwnNames(branches: Branches)
    requires WellFormed(branches)
    ensures forall name | name in branches :: branches[name].name == name
  {
    assert forall name | name in branches :: Named(branches, name);
  }

  lemma KeptNames(snapshot: seq<Branch>, branches: Branches, keepNames: set<Name>)
    requires IsSnapshotOf(snapshot, branches) && snapshot != []
    requires forall name :: name in keepNames <==> exists k :: 0 <= k < |snapshot| && snapshot[k].name == name
    ensures keepNames == branches.Keys && keepNames != {}
  {
    forall name | name in branches ensures name in keepNames {
      assert Includes(snapshot, name);
    }
    assert snapshot[0].name in keepNames;
  }

  lemma CreatedWellFormed(branches: Branches, created: Branch)
    requires WellFormed(branches) && created.name != NO_NAME && IsTrimmed(created.name) && created.name != MAIN
        && !created.deleted
    requires created.parent in branches
    ensures WellFormed(branches[created.name := created])
  {
    var after := branches[created.name := created];
    assert Named(branches, created.parent);
    TrimTrims(created.parent);
    forall name | name in after ensures Named(after, name) && ParentKnown(after, name) {
      if name != created.name {
        assert Named(branches, name) && ParentKnown(branches, name);
      }
    }
  }

  lemma ChangedWellFormed(branches: Branches, changed: Branch)
    requires WellFormed(branches) && changed.name in branches && changed.parent == branches[changed.name].parent
    requires changed.name == MAIN ==> !changed.deleted
    ensures WellFormed(branches[changed.name := changed])
  {
    var after := branches[changed.name := changed];
    forall name | name in after ensures Named(after, name) && ParentKnown(after, name) {
      assert Named(branches, name) && ParentKnown(branches, name);
    }
  }

  lemma ReadRow(snapshot: seq<Branch>, branches: Branches, names: set<Name>, name: Name)
    requires forall n | n in branches :: branches[n].name == n
    requires name in names && names <= branches.Keys
    requires IsSnapshotOf(snapshot, map n | n in branches && n !in names :: branches[n])
    ensures IsSnapshotOf(snapshot + [branches[name]], map n | n in branches && n !in names - {name} :: branches[n])
  {
    var longer := snapshot + [branches[name]];
    assert longer[|snapshot|].name == name;
    forall n | Includes(snapshot, n) ensures Includes(longer, n) {
      var i :| 0 <= i < |snapshot| && snapshot[i].name == n;
      assert longer[i].name == n;
    }
  }
}
