/** Live vote counts: the difference between two snapshots as an ordered list of deltas,
    and the count of publications in flight per game. */
module LiveProjection {
  import opened Wrappers

  type Game = nat

  datatype Key = Key(phase: string, slot: string)

  datatype Row = Row(key: Key, count: int)

  datatype Delta = Changed(row: Row) | Removed(key: Key)

  /* --------------------------------- the update ------------------------------- */

  datatype Flags = Flags(
    thread: bool,
    hostConsole: bool,
    hostPrompts: bool,
    playerPrivate: bool,
    playerCommandState: bool)
  {
    predicate Clean() {
      !thread && !hostConsole && !hostPrompts && !playerPrivate && !playerCommandState
    }
  }

  datatype ChangeSet = ChangeSet(game: Game, previous: Option<seq<Row>>, threadAfterSeq: Option<int>, dirty: Flags)

  datatype Update = Update(game: Game, deltas: seq<Delta>, threadAfterSeq: Option<int>, dirty: Flags)

  function KeySet(rows: seq<Row>): set<Key> {
    set r | r in rows :: r.key
  }

  /** Later rows win, as when collecting into a hash map. */
  function CountMap(rows: seq<Row>): map<Key, int> {
    if rows == [] then map[] else CountMap(rows[..|rows| - 1])[rows[|rows| - 1].key := rows[|rows| - 1].count]
  }

  function ChangedRows(rows: seq<Row>, previous: map<Key, int>): seq<Delta> {
    if rows == [] then []
    else
      var r := rows[0];
      (if r.key in previous && previous[r.key] == r.count then [] else [Changed(r)]) + ChangedRows(rows[1..], previous)
  }

  function RemovedRows(rows: seq<Row>, current: set<Key>): seq<Delta> {
    if rows == [] then []
    else (if rows[0].key in current then [] else [Removed(rows[0].key)]) + RemovedRows(rows[1..], current)
  }

  function Diff(previous: seq<Row>, current: seq<Row>): seq<Delta> {
    ChangedRows(current, CountMap(previous)) + RemovedRows(previous, KeySet(current))
  }

  function AssembleUpdate(change: ChangeSet, current: seq<Row>): Option<Update> {
    var deltas := if change.previous.Some? then Diff(change.previous.value, current) else [];
    if deltas == [] && change.threadAfterSeq.None? && change.dirty.Clean() then None
    else Some(Update(change.game, deltas, change.threadAfterSeq, change.dirty))
  }

  /* ------------------------------- applying deltas ---------------------------- */

  function ApplyDelta(base: map<Key, int>, d: Delta): map<Key, int> {
    match d
    case Changed(r) => base[r.key := r.count]
    case Removed(k) => base - {k}
  }

  function ApplyAll(base: map<Key, int>, ds: seq<Delta>): map<Key, int>
    decreases |ds|
  {
    if ds == [] then base else ApplyAll(ApplyDelta(base, ds[0]), ds[1..])
  }

  ghost predicate Distinct(rows: seq<Row>) {
    forall i, j | 0 <= i < j < |rows| :: rows[i].key != rows[j].key
  }

  ghost predicate AgreeAt(a: map<Key, int>, b: map<Key, int>, k: Key) {
    if k in a then k in b && a[k] == b[k] else k !in b
  }

  function KeyOf(d: Delta): Key {
    if d.Changed? then d.row.key else d.key
  }

  ghost predicate Mentions(ds: seq<Delta>, k: Key) {
    exists i :: 0 <= i < |ds| && KeyOf(ds[i]) == k
  }

  /** Every delta says what the target says at its key. */
  ghost predicate Truthful(ds: seq<Delta>, target: map<Key, int>) {
    forall d | d in ds ::
      if d.Changed? then d.row.key in target && target[d.row.key] == d.row.count else d.key !in target
  }

  /** Truthful deltas fix exactly the keys they mention and leave the others alone. */
  lemma {:induction false} ApplyTruthful(base: map<Key, int>, ds: seq<Delta>, target: map<Key, int>, k: Key)
    requires Truthful(ds, target)
    ensures if Mentions(ds, k) then AgreeAt(ApplyAll(base, ds), target, k) else AgreeAt(ApplyAll(base, ds), base, k)
    decreases |ds|
  {
    if ds != [] {
      var next := ApplyDelta(base, ds[0]);
      ApplyTruthful(next, ds[1..], target, k);
      assert ds[0] in ds;
      if KeyOf(ds[0]) == k {
        assert AgreeAt(next, target, k);
        assert Mentions(ds, k);
      } else if Mentions(ds[1..], k) {
        var i :| 0 <= i < |ds[1..]| && KeyOf(ds[1..][i]) == k;
        assert KeyOf(ds[i + 1]) == k;
      } else {
        assert !Mentions(ds, k) by {
          if i :| 0 <= i < |ds| && KeyOf(ds[i]) == k {
            assert i > 0 && KeyOf(ds[1..][i - 1]) == k;
          }
        }
      }
    }
  }

  /* -------------------------------- the theorem ------------------------------- */

  lemma {:induction false} CountMapAt(rows: seq<Row>, i: nat)
    requires Distinct(rows) && i < |rows|
    ensures rows[i].key in CountMap(rows) && CountMap(rows)[rows[i].key] == rows[i].count
    decreases |rows|
  {
    if i < |rows| - 1 {
      CountMapAt(rows[..|rows| - 1], i);
    }
  }

  lemma {:induction false} CountMapKeys(rows: seq<Row>)
    ensures CountMap(rows).Keys == KeySet(rows)
    decreases |rows|
  {
    if rows != [] {
      var init := rows[..|rows| - 1];
      CountMapKeys(init);
      assert forall r :: r in rows <==> r in init || r == rows[|rows| - 1];
      assert KeySet(rows) == KeySet(init) + {rows[|rows| - 1].key};
    }
  }

  /** The changed rows are, in order, exactly the rows the previous counts do not show. */
  lemma {:induction false} ChangedRowsExact(rows: seq<Row>, previous: map<Key, int>, d: Delta)
    ensures d in ChangedRows(rows, previous)
            <==> d.Changed? && d.row in rows && !(d.row.key in previous && previous[d.row.key] == d.row.count)
    decreases |rows|
  {
    if rows != [] {
      ChangedRowsExact(rows[1..], previous, d);
      assert forall r :: r in rows <==> r == rows[0] || r in rows[1..];
    }
  }

  lemma {:induction false} RemovedRowsExact(rows: seq<Row>, current: set<Key>, d: Delta)
    ensures d in RemovedRows(rows, current) <==> d.Removed? && d.key in KeySet(rows) && d.key !in current
    decreases |rows|
  {
    if rows != [] {
      RemovedRowsExact(rows[1..], current, d);
      assert forall r :: r in rows <==> r == rows[0] || r in rows[1..];
      assert KeySet(rows) == {rows[0].key} + KeySet(rows[1..]);
    }
  }

  lemma DeltasExact(previous: seq<Row>, current: seq<Row>, d: Delta)
    requires Distinct(previous) && Distinct(current)
    ensures d in Diff(previous, current) <==>
              var was := CountMap(previous);
              var now := CountMap(current);
              if d.Changed? then d.row.key in now && now[d.row.key] == d.row.count && !AgreeAt(was, now, d.row.key)
              else d.key in was && d.key !in now
  {
    ChangedRowsExact(current, CountMap(previous), d);
    RemovedRowsExact(previous, KeySet(current), d);
    CountMapKeys(previous);
    CountMapKeys(current);
    if d.Changed? && d.row.key in KeySet(current) {
      var r :| r in current && r.key == d.row.key;
      var i :| 0 <= i < |current| && current[i] == r;
      CountMapAt(current, i);
    }
  }

  /** The deltas mention exactly the keys at which the two snapshots differ. */
  lemma MentionsExact(previous: seq<Row>, current: seq<Row>, k: Key)
    requires Distinct(previous) && Distinct(current)
    ensures Mentions(Diff(previous, current), k) <==> !AgreeAt(CountMap(previous), CountMap(current), k)
  {
    var ds := Diff(previous, current);
    var now := CountMap(current);
    if !AgreeAt(CountMap(previous), now, k) {
      var d := if k in now then Changed(Row(k, now[k])) else Removed(k);
      DeltasExact(previous, current, d);
      var i :| 0 <= i < |ds| && ds[i] == d;
      assert KeyOf(ds[i]) == k;
    }
    if i :| 0 <= i < |ds| && KeyOf(ds[i]) == k {
      DeltasExact(previous, current, ds[i]);
    }
  }

  lemma DiffIsTruthful(previous: seq<Row>, current: seq<Row>)
    requires Distinct(previous) && Distinct(current)
    ensures Truthful(Diff(previous, current), CountMap(current))
  {
    forall d | d in Diff(previous, current)
      ensures if d.Changed? then d.row.key in CountMap(current) && CountMap(current)[d.row.key] == d.row.count
              else d.key !in CountMap(current)
    {
      DeltasExact(previous, current, d);
    }
  }

  /** A subscriber whose base is any snapshot ends on the current counts exactly when the
      base agrees with them wherever the previous counts did. */
  lemma DiffReachesCurrent(base: map<Key, int>, previous: seq<Row>, current: seq<Row>)
    requires Distinct(previous) && Distinct(current)
    ensures ApplyAll(base, Diff(previous, current)) == CountMap(current)
            <==> forall k | AgreeAt(CountMap(previous), CountMap(current), k) :: AgreeAt(base, CountMap(current), k)
  {
    var ds := Diff(previous, current);
    var now := CountMap(current);
    var after := ApplyAll(base, ds);
    DiffIsTruthful(previous, current);
    forall k: Key
      ensures AgreeAt(after, now, k) <==> (AgreeAt(CountMap(previous), now, k) ==> AgreeAt(base, now, k))
    {
      MentionsExact(previous, current, k);
      ApplyTruthful(base, ds, now, k);
    }
    if forall k | AgreeAt(CountMap(previous), now, k) :: AgreeAt(base, now, k) {
      assert forall k: Key :: AgreeAt(after, now, k);
      SameMap(after, now);
    } else {
      var k :| AgreeAt(CountMap(previous), now, k) && !AgreeAt(base, now, k);
      assert !AgreeAt(after, now, k);
    }
  }

  lemma SameMap(a: map<Key, int>, b: map<Key, int>)
    requires forall k: Key :: AgreeAt(a, b, k)
    ensures a == b
  {
    forall k: Key
      ensures k in a <==> k in b
    {
      assert AgreeAt(a, b, k);
    }
    assert a.Keys == b.Keys;
    forall k | k in a
      ensures a[k] == b[k]
    {
      assert AgreeAt(a, b, k);
    }
  }

  /** One subscriber following a chain of snapshots from its first one is always current. */
  ghost function Follow(base: map<Key, int>, snapshots: seq<seq<Row>>): map<Key, int>
    decreases |snapshots|
  {
    if |snapshots| < 2 then base
    else Follow(ApplyAll(base, Diff(snapshots[0], snapshots[1])), snapshots[1..])
  }

  lemma {:induction false} ChainedUpdatesCompose(snapshots: seq<seq<Row>>)
    requires snapshots != [] && forall i | 0 <= i < |snapshots| :: Distinct(snapshots[i])
    ensures Follow(CountMap(snapshots[0]), snapshots) == CountMap(snapshots[|snapshots| - 1])
    decreases |snapshots|
  {
    if |snapshots| >= 2 {
      DiffReachesCurrent(CountMap(snapshots[0]), snapshots[0], snapshots[1]);
      ChainedUpdatesCompose(snapshots[1..]);
    }
  }

  /* how many deltas */

  function DifferingKeys(a: map<Key, int>, b: map<Key, int>): set<Key> {
    set k | k in a.Keys + b.Keys && !(k in a && k in b && a[k] == b[k])
  }

  ghost function KeysOf(ds: seq<Delta>): set<Key> {
    set i | 0 <= i < |ds| :: KeyOf(ds[i])
  }

  ghost predicate DistinctKeys(ds: seq<Delta>) {
    forall i, j | 0 <= i < j < |ds| :: KeyOf(ds[i]) != KeyOf(ds[j])
  }

  lemma {:induction false} DistinctKeysCount(ds: seq<Delta>)
    requires DistinctKeys(ds)
    ensures |KeysOf(ds)| == |ds|
    decreases |ds|
  {
    if ds != [] {
      var init := ds[..|ds| - 1];
      DistinctKeysCount(init);
      assert KeysOf(ds) == KeysOf(init) + {KeyOf(ds[|ds| - 1])};
    }
  }

  lemma {:induction false} ChangedRowsDistinct(rows: seq<Row>, previous: map<Key, int>)
    requires Distinct(rows)
    ensures DistinctKeys(ChangedRows(rows, previous))
    ensures forall d | d in ChangedRows(rows, previous) :: KeyOf(d) in KeySet(rows)
    decreases |rows|
  {
    if rows != [] {
      ChangedRowsDistinct(rows[1..], previous);
      assert forall d | d in ChangedRows(rows[1..], previous) :: KeyOf(d) != rows[0].key;
    }
  }

  lemma {:induction false} RemovedRowsDistinct(rows: seq<Row>, current: set<Key>)
    requires Distinct(rows)
    ensures DistinctKeys(RemovedRows(rows, current))
    ensures forall d | d in RemovedRows(rows, current) :: KeyOf(d) in KeySet(rows) && KeyOf(d) !in current
    decreases |rows|
  {
    if rows != [] {
      RemovedRowsDistinct(rows[1..], current);
      assert forall d | d in RemovedRows(rows[1..], current) :: KeyOf(d) != rows[0].key;
    }
  }

  /** An update carries one delta per differing key, no more and no fewer. */
  lemma DeltaCountExact(previous: seq<Row>, current: seq<Row>)
    requires Distinct(previous) && Distinct(current)
    ensures |Diff(previous, current)| == |DifferingKeys(CountMap(previous), CountMap(current))|
  {
    var ds := Diff(previous, current);
    ChangedRowsDistinct(current, CountMap(previous));
    RemovedRowsDistinct(previous, KeySet(current));
    var changed := ChangedRows(current, CountMap(previous));
    assert forall i | 0 <= i < |changed| :: ds[i] == changed[i] && ds[i] in changed;
    assert forall i | |changed| <= i < |ds| :: ds[i] in RemovedRows(previous, KeySet(current));
    assert DistinctKeys(ds);
    DistinctKeysCount(ds);
    forall k: Key
      ensures k in KeysOf(ds) <==> k in DifferingKeys(CountMap(previous), CountMap(current))
    {
      MentionsExact(previous, current, k);
    }
    assert KeysOf(ds) == DifferingKeys(CountMap(previous), CountMap(current));
  }

  lemma {:induction false} ChangedAt(rows: seq<Row>, previous: map<Key, int>, i: nat) returns (p: nat)
    requires i < |ChangedRows(rows, previous)|
    ensures p < |rows| && ChangedRows(rows, previous)[i] == Changed(rows[p])
    decreases |rows|
  {
    var kept := |ChangedRows(rows, previous)| - |ChangedRows(rows[1..], previous)|;
    if i < kept {
      p := 0;
    } else {
      p := ChangedAt(rows[1..], previous, i - kept);
      p := p + 1;
    }
  }

  lemma {:induction false} ChangedInOrder(rows: seq<Row>, previous: map<Key, int>, i: nat, j: nat)
    returns (p: nat, q: nat)
    requires i < j < |ChangedRows(rows, previous)|
    ensures p < q < |rows|
    ensures ChangedRows(rows, previous)[i] == Changed(rows[p]) && ChangedRows(rows, previous)[j] == Changed(rows[q])
    decreases |rows|
  {
    var kept := |ChangedRows(rows, previous)| - |ChangedRows(rows[1..], previous)|;
    if i < kept {
      p := 0;
      q := ChangedAt(rows[1..], previous, j - kept);
    } else {
      p, q := ChangedInOrder(rows[1..], previous, i - kept, j - kept);
      p := p + 1;
    }
    q := q + 1;
  }

  lemma {:induction false} RemovedAt(rows: seq<Row>, current: set<Key>, i: nat) returns (p: nat)
    requires i < |RemovedRows(rows, current)|
    ensures p < |rows| && RemovedRows(rows, current)[i] == Removed(rows[p].key)
    decreases |rows|
  {
    var kept := |RemovedRows(rows, current)| - |RemovedRows(rows[1..], current)|;
    if i < kept {
      p := 0;
    } else {
      p := RemovedAt(rows[1..], current, i - kept);
      p := p + 1;
    }
  }

  lemma {:induction false} RemovedInOrder(rows: seq<Row>, current: set<Key>, i: nat, j: nat) returns (p: nat, q: nat)
    requires i < j < |RemovedRows(rows, current)|
    ensures p < q < |rows|
    ensures RemovedRows(rows, current)[i] == Removed(rows[p].key)
            && RemovedRows(rows, current)[j] == Removed(rows[q].key)
    decreases |rows|
  {
    var kept := |RemovedRows(rows, current)| - |RemovedRows(rows[1..], current)|;
    if i < kept {
      p := 0;
      q := RemovedAt(rows[1..], current, j - kept);
    } else {
      p, q := RemovedInOrder(rows[1..], current, i - kept, j - kept);
      p := p + 1;
    }
    q := q + 1;
  }

  /** Of two deltas the earlier is a change where they differ in kind; two changes come in
      the order of the current rows and two removals in the order of the previous ones. */
  lemma DeltasKeepRowOrder(previous: seq<Row>, current: seq<Row>, i: nat, j: nat) returns (p: nat, q: nat)
    requires i < j < |Diff(previous, current)|
    ensures
      var (d, e) := (Diff(previous, current)[i], Diff(previous, current)[j]);
      && (d.Removed? ==> e.Removed?)
      && (e.Changed? ==> p < q < |current| && d == Changed(current[p]) && e == Changed(current[q]))
      && (d.Removed? ==> p < q < |previous| && d == Removed(previous[p].key) && e == Removed(previous[q].key))
  {
    var changed := |ChangedRows(current, CountMap(previous))|;
    p, q := 0, 0;
    if j < changed {
      p, q := ChangedInOrder(current, CountMap(previous), i, j);
    } else {
      q := RemovedAt(previous, KeySet(current), j - changed);
      if i < changed {
        p := ChangedAt(current, CountMap(previous), i);
      } else {
        p, q := RemovedInOrder(previous, KeySet(current), i - changed, j - changed);
      }
    }
  }

  /** Nothing is published exactly when the counts are unchanged (or were not asked for)
      and nothing else is dirty. */
  lemma PublishesUnlessClean(change: ChangeSet, current: seq<Row>)
    requires Distinct(current) && (change.previous.Some? ==> Distinct(change.previous.value))
    ensures AssembleUpdate(change, current).None? <==>
              && (change.previous.Some? ==> CountMap(change.previous.value) == CountMap(current))
              && change.threadAfterSeq.None? && change.dirty.Clean()
  {
    if change.previous.Some? {
      var was := CountMap(change.previous.value);
      var now := CountMap(current);
      DeltaCountExact(change.previous.value, current);
      if was == now {
        assert DifferingKeys(was, now) == {};
      } else if DifferingKeys(was, now) == {} {
        forall k: Key
          ensures AgreeAt(was, now, k)
        {
          assert k !in DifferingKeys(was, now);
        }
        SameMap(was, now);
      }
    }
  }

  /** What is published is what was asked for: the game, the differences if a previous snapshot
      was given, and the thread position and dirty marks as they are. */
  lemma PublishesAsAsked(change: ChangeSet, current: seq<Row>)
    requires Distinct(current) && (change.previous.Some? ==> Distinct(change.previous.value))
    ensures
      AssembleUpdate(change, current).Some? ==>
        var update := AssembleUpdate(change, current).value;
        && update.game == change.game && update.threadAfterSeq == change.threadAfterSeq && update.dirty == change.dirty
        && (change.previous.None? ==> update.deltas == [])
        && (change.previous.Some? ==>
              ApplyAll(CountMap(change.previous.value), update.deltas) == CountMap(current))
  {
    if change.previous.Some? {
      DiffReachesCurrent(CountMap(change.previous.value), change.previous.value, current);
    }
  }

  /* ------------------------------ in-flight guards ---------------------------- */

  /** The shared per-game count of publications in flight. `live` are the guards that
      have been handed out and not yet dropped. */
  class Publisher {
    var inflight: map<Game, nat>
    ghost var live: multiset<Game>

    ghost predicate Valid()
      reads this
    {
      && (forall g | g in inflight :: inflight[g] > 0 && inflight[g] == live[g])
      && (forall g | g in live :: g in inflight)
    }

    constructor ()
      ensures Valid() && live == multiset{}
    {
      inflight, live := map[], multiset{};
    }

    method BeginInflight(game: Game)
      requires Valid()
      modifies this
      ensures Valid() && live == old(live) + multiset{game}
    {
      var count := if game in inflight then inflight[game] else 0;
      inflight := inflight[game := count + 1];
      live := live + multiset{game};
    }

    /** Dropping a guard; a game without an entry is ignored. */
    method EndInflight(game: Game)
      requires Valid()
      modifies this
      ensures Valid() && live == old(live) - multiset{game}
    {
      live := live - multiset{game};
      if game !in inflight {
        return;
      }
      var count := if inflight[game] == 0 then 0 else inflight[game] - 1;
      inflight := inflight[game := count];
      if count == 0 {
        inflight := inflight - {game};
      }
    }

    method HasInflight(game: Game) returns (some: bool)
      requires Valid()
      ensures some <==> game in live
    {
      return game in inflight && inflight[game] > 0;
    }
  }
}
