/** How a table follows a series of snapshots by row edits: rows that are still wanted stay in their
    order, new ones are appended in the order of the snapshot, the others are removed one by one. */
module TableDiff {
  import opened Common

  /** What a model announces to its views. */
  datatype Edit<K> = Inserted(row: nat, key: K) | Removed(row: nat) | Changed(row: nat)

  function Apply<K>(rows: seq<K>, e: Edit<K>): seq<K> {
    match e
    case Inserted(row, key) => if row <= |rows| then rows[..row] + [key] + rows[row..] else rows
    case Removed(row) => if row < |rows| then rows[..row] + rows[row + 1..] else rows
    case Changed(_) => rows
  }

  /** The rows of a view that follows the edits. */
  function Replay<K>(rows: seq<K>, edits: seq<Edit<K>>): seq<K> {
    if edits == [] then rows else Apply(Replay(rows, edits[..|edits| - 1]), edits[|edits| - 1])
  }

  lemma ReplaySnoc<K>(rows: seq<K>, edits: seq<Edit<K>>, e: Edit<K>)
    ensures Replay(rows, edits + [e]) == Apply(Replay(rows, edits), e)
  {
  }

  lemma Follow<K>(rows: seq<K>, edits: seq<Edit<K>>, e: Edit<K>, now: seq<K>, next: seq<K>)
    requires now == Replay(rows, edits) && next == Apply(now, e)
    ensures next == Replay(rows, edits + [e])
  {
  }

  lemma ReplayOne<K>(rows: seq<K>, e: Edit<K>)
    ensures Replay(rows, [e]) == Apply(rows, e)
  {
    assert [e][..0] == [];
  }

  /** A view that followed one update can follow the next. */
  lemma {:induction false} ReplayJoins<K>(rows: seq<K>, edits: seq<Edit<K>>, more: seq<Edit<K>>)
    ensures Replay(rows, edits + more) == Replay(Replay(rows, edits), more)
    decreases |more|
  {
    if more == [] {
      assert edits + more == edits;
    } else {
      ReplayJoins(rows, edits, more[..|more| - 1]);
      ReplaySnoc(rows, edits + more[..|more| - 1], more[|more| - 1]);
      assert edits + more == edits + more[..|more| - 1] + [more[|more| - 1]];
    }
  }

  /** The first position of a key, or the length. */
  function IndexOf<K(==)>(rows: seq<K>, key: K): (row: nat)
    ensures row <= |rows| && (row < |rows| <==> key in rows)
    ensures row < |rows| ==> rows[row] == key
  {
    if rows == [] || rows[0] == key then 0 else 1 + IndexOf(rows[1..], key)
  }

  lemma IndexIsUnique<K>(rows: seq<K>, i: nat)
    requires Distinct(rows) && i < |rows|
    ensures IndexOf(rows, rows[i]) == i
  {
  }

  /** The rows that are still in the snapshot, in their order. */
  function Surviving<K(==)>(rows: seq<K>, snapshot: seq<K>): seq<K> {
    if rows == [] then []
    else Surviving(rows[..|rows| - 1], snapshot) + if rows[|rows| - 1] in snapshot then [rows[|rows| - 1]] else []
  }

  /** The keys of the snapshot that are not rows yet, in its order. */
  function Added<K(==)>(rows: seq<K>, snapshot: seq<K>): seq<K> {
    if snapshot == [] then []
    else Added(rows, snapshot[..|snapshot| - 1]) + if snapshot[|snapshot| - 1] in rows then [] else [snapshot[|snapshot| - 1]]
  }

  function Diff<K(==)>(rows: seq<K>, snapshot: seq<K>): seq<K> {
    Surviving(rows, snapshot) + Added(rows, snapshot)
  }

  lemma AddedNext<K>(rows: seq<K>, snapshot: seq<K>, i: nat)
    requires i < |snapshot|
    ensures Added(rows, snapshot[..i + 1]) == Added(rows, snapshot[..i]) + if snapshot[i] in rows then [] else [snapshot[i]]
  {
    assert snapshot[..i + 1][..i] == snapshot[..i];
  }

  lemma SurvivingNext<K>(rows: seq<K>, snapshot: seq<K>, j: nat)
    requires j < |rows|
    ensures Surviving(rows[..j + 1], snapshot) == Surviving(rows[..j], snapshot) + if rows[j] in snapshot then [rows[j]] else []
  {
    assert rows[..j + 1][..j] == rows[..j];
  }

  /** The same keys, in whatever order. */
  predicate Within<K(==)>(a: seq<K>, b: seq<K>) {
    forall i :: 0 <= i < |a| ==> a[i] in b
  }

  lemma WithinTrans<K>(a: seq<K>, b: seq<K>, c: seq<K>)
    requires Within(a, b) && Within(b, c)
    ensures Within(a, c)
  {
  }

  lemma {:induction false} AddedKeys<K>(rows: seq<K>, snapshot: seq<K>)
    ensures forall i :: 0 <= i < |Added(rows, snapshot)| ==> Added(rows, snapshot)[i] in snapshot && Added(rows, snapshot)[i] !in rows
    ensures forall i :: 0 <= i < |snapshot| && snapshot[i] !in rows ==> snapshot[i] in Added(rows, snapshot)
    ensures Distinct(snapshot) ==> Distinct(Added(rows, snapshot))
  {
    if snapshot != [] {
      AddedKeys(rows, snapshot[..|snapshot| - 1]);
      assert snapshot == snapshot[..|snapshot| - 1] + [snapshot[|snapshot| - 1]];
    }
  }

  lemma {:induction false} SurvivingKeys<K>(rows: seq<K>, snapshot: seq<K>)
    ensures forall i :: 0 <= i < |Surviving(rows, snapshot)| ==> Surviving(rows, snapshot)[i] in snapshot && Surviving(rows, snapshot)[i] in rows
    ensures forall i :: 0 <= i < |rows| && rows[i] in snapshot ==> rows[i] in Surviving(rows, snapshot)
    ensures Distinct(rows) ==> Distinct(Surviving(rows, snapshot))
  {
    if rows != [] {
      SurvivingKeys(rows[..|rows| - 1], snapshot);
      assert rows == rows[..|rows| - 1] + [rows[|rows| - 1]];
    }
  }

  /** After an update the table holds the keys of the snapshot, each once. */
  lemma DiffKeys<K>(rows: seq<K>, snapshot: seq<K>)
    requires Distinct(rows) && Distinct(snapshot)
    ensures Distinct(Diff(rows, snapshot))
    ensures Within(Diff(rows, snapshot), snapshot) && Within(snapshot, Diff(rows, snapshot))
  {
    AddedKeys(rows, snapshot);
    SurvivingKeys(rows, snapshot);
    DistinctAppend(Surviving(rows, snapshot), Added(rows, snapshot));
  }

  predicate Before<K(==)>(rows: seq<K>, a: K, b: K) {
    a in rows && b in rows && IndexOf(rows, a) < IndexOf(rows, b)
  }

  lemma IndexAppended<K>(rows: seq<K>, more: seq<K>, key: K)
    ensures key in rows ==> IndexOf(rows + more, key) == IndexOf(rows, key)
    ensures key !in rows ==> IndexOf(rows + more, key) == |rows| + IndexOf(more, key)
  {
    if rows == [] {
      assert rows + more == more;
    } else {
      assert (rows + more)[1..] == rows[1..] + more;
      IndexAppended(rows[1..], more, key);
    }
  }

  lemma {:induction false} SurvivorsKeepOrder<K>(rows: seq<K>, snapshot: seq<K>, a: K, b: K)
    requires Before(rows, a, b) && a in snapshot && b in snapshot
    ensures Before(Surviving(rows, snapshot), a, b)
  {
    var front, last := rows[..|rows| - 1], rows[|rows| - 1];
    assert rows == front + [last];
    IndexAppended(front, [last], a);
    IndexAppended(front, [last], b);
    SurvivingKeys(front, snapshot);
    var more := if last in snapshot then [last] else [];
    IndexAppended(Surviving(front, snapshot), more, a);
    IndexAppended(Surviving(front, snapshot), more, b);
    if b in front {
      SurvivorsKeepOrder(front, snapshot, a, b);
    }
  }

  /** Rows never swap places: what stood above another row still does while both are listed. */
  lemma RowsKeepOrder<K>(rows: seq<K>, snapshot: seq<K>, a: K, b: K)
    requires Before(rows, a, b) && a in snapshot && b in snapshot
    ensures Before(Diff(rows, snapshot), a, b)
  {
    SurvivorsKeepOrder(rows, snapshot, a, b);
    IndexAppended(Surviving(rows, snapshot), Added(rows, snapshot), a);
    IndexAppended(Surviving(rows, snapshot), Added(rows, snapshot), b);
  }

  lemma {:induction false} NothingChanges<K>(rows: seq<K>, snapshot: seq<K>)
    ensures Within(rows, snapshot) ==> Surviving(rows, snapshot) == rows
    ensures Within(snapshot, rows) ==> Added(rows, snapshot) == []
    decreases |rows| + |snapshot|
  {
    if rows != [] {
      NothingChanges(rows[..|rows| - 1], snapshot);
      assert rows == rows[..|rows| - 1] + [rows[|rows| - 1]];
    }
    if snapshot != [] {
      NothingChanges(rows, snapshot[..|snapshot| - 1]);
      assert snapshot == snapshot[..|snapshot| - 1] + [snapshot[|snapshot| - 1]];
    }
  }

  /** A second update with the same keys, in any order, moves no row. */
  lemma DiffTwice<K>(rows: seq<K>, snapshot: seq<K>, again: seq<K>)
    requires Distinct(rows) && Distinct(snapshot) && Within(again, snapshot) && Within(snapshot, again)
    ensures Diff(Diff(rows, snapshot), again) == Diff(rows, snapshot)
  {
    DiffKeys(rows, snapshot);
    WithinTrans(Diff(rows, snapshot), snapshot, again);
    WithinTrans(again, snapshot, Diff(rows, snapshot));
    NothingChanges(Diff(rows, snapshot), again);
    assert Diff(rows, snapshot) + [] == Diff(rows, snapshot);
  }

  // ---------------------------------------------------------------- one row edit of an update

  /** The rows when the first i keys of the snapshot were looked at. */
  function Grown<K(==)>(rows: seq<K>, snapshot: seq<K>, i: nat): seq<K>
    requires i <= |snapshot|
  {
    rows + Added(rows, snapshot[..i])
  }

  /** The next key of the snapshot is a row already, or it is appended. */
  lemma GrowRow<K>(rows: seq<K>, snapshot: seq<K>, i: nat)
    requires Distinct(rows) && Distinct(snapshot) && i < |snapshot|
    ensures var now := Grown(rows, snapshot, i);
            Grown(rows, snapshot, i + 1) == if snapshot[i] in now then now else now + [snapshot[i]]
  {
    AddedKeys(rows, snapshot[..i]);
    AddedNext(rows, snapshot, i);
    assert snapshot[i] !in snapshot[..i];
    assert rows + (Added(rows, snapshot[..i]) + []) == rows + Added(rows, snapshot[..i]);
    assert rows + (Added(rows, snapshot[..i]) + [snapshot[i]]) == rows + Added(rows, snapshot[..i]) + [snapshot[i]];
  }

  /** The rows when the first j old ones were checked. */
  function Checked<K(==)>(rows: seq<K>, snapshot: seq<K>, j: nat): seq<K>
    requires j <= |rows|
  {
    Surviving(rows[..j], snapshot) + rows[j..] + Added(rows, snapshot)
  }

  lemma CheckedDistinct<K>(rows: seq<K>, snapshot: seq<K>, j: nat)
    requires Distinct(rows) && Distinct(snapshot) && j <= |rows|
    ensures Distinct(Checked(rows, snapshot, j))
  {
    var s, r, a := Surviving(rows[..j], snapshot), rows[j..], Added(rows, snapshot);
    SurvivingKeys(rows[..j], snapshot);
    AddedKeys(rows, snapshot);
    forall i | 0 <= i < |s| ensures s[i] in rows && s[i] !in r {
      assert s[i] in rows[..j];
    }
    DistinctAppend(s, r);
    forall i | 0 <= i < |s + r| ensures (s + r)[i] !in a {
      assert (s + r)[i] in rows;
    }
    DistinctAppend(s + r, a);
  }

  lemma DistinctAppend<K>(s: seq<K>, t: seq<K>)
    requires Distinct(s) && Distinct(t) && forall i :: 0 <= i < |s| ==> s[i] !in t
    ensures Distinct(s + t)
  {
  }

  lemma Without<K>(s: seq<K>, key: K, r: seq<K>, a: seq<K>)
    ensures Apply(s + ([key] + r) + a, Removed(|s|)) == s + r + a && (s + ([key] + r) + a)[|s|] == key
  {
  }

  lemma RemoveRow<K>(rows: seq<K>, snapshot: seq<K>, j: nat)
    requires Distinct(rows) && Distinct(snapshot) && j < |rows|
    ensures var now := Checked(rows, snapshot, j);
            var next := Checked(rows, snapshot, j + 1);
            if rows[j] in snapshot then next == now
            else IndexOf(now, rows[j]) < |now| && next == Apply(now, Removed(IndexOf(now, rows[j])))
  {
    var now := Checked(rows, snapshot, j);
    var s, r, a := Surviving(rows[..j], snapshot), rows[j + 1..], Added(rows, snapshot);
    assert rows[j..] == [rows[j]] + r;
    SurvivingNext(rows, snapshot, j);
    if rows[j] in snapshot {
      assert s + ([rows[j]] + r) == (s + [rows[j]]) + r;
    } else {
      CheckedDistinct(rows, snapshot, j);
      Without(s, rows[j], r, a);
      IndexIsUnique(now, |s|);
      assert s + [] == s;
    }
  }

  lemma AllGrown<K>(rows: seq<K>, snapshot: seq<K>)
    ensures Grown(rows, snapshot, |snapshot|) == Checked(rows, snapshot, 0)
  {
    assert snapshot[..|snapshot|] == snapshot && rows[..0] == [] && rows[0..] == rows;
  }

  lemma AllChecked<K>(rows: seq<K>, snapshot: seq<K>)
    ensures Checked(rows, snapshot, |rows|) == Diff(rows, snapshot)
  {
    assert rows[..|rows|] == rows && rows[|rows|..] == [];
    assert Surviving(rows, snapshot) + [] == Surviving(rows, snapshot);
  }

  // ---------------------------------------------------------------- the data beside the rows

  /** The rows whose keys are among the first n of the snapshot show what was looked up for them. */
  ghost predicate Aligned<K, D>(keys: seq<K>, data: seq<D>, snapshot: seq<K>, infos: seq<D>, n: nat) {
    && |data| == |keys| && |infos| == |snapshot|
    && forall row {:trigger keys[row]} :: 0 <= row < |keys| && IndexOf(snapshot, keys[row]) < n && n <= |snapshot| ==>
         data[row] == infos[IndexOf(snapshot, keys[row])]
  }

  lemma AlignedShown<K, D>(keys: seq<K>, data: seq<D>, snapshot: seq<K>, infos: seq<D>, n: nat)
    requires Aligned(keys, data, snapshot, infos, n) && Distinct(keys) && Distinct(snapshot) && n < |snapshot|
    ensures if snapshot[n] in keys then Aligned(keys, data[IndexOf(keys, snapshot[n]) := infos[n]], snapshot, infos, n + 1)
            else Aligned(keys + [snapshot[n]], data + [infos[n]], snapshot, infos, n + 1)
  {
  }

  lemma AlignedRemoved<K, D>(keys: seq<K>, data: seq<D>, snapshot: seq<K>, infos: seq<D>, n: nat, row: nat)
    requires Aligned(keys, data, snapshot, infos, n) && row < |keys|
    ensures Aligned(keys[..row] + keys[row + 1..], data[..row] + data[row + 1..], snapshot, infos, n)
  {
  }

  // ---------------------------------------------------------------- the rows announced as changed

  /** Every old row whose key is among the first n of the snapshot is announced as changed, and no other row is. */
  ghost predicate Announced<K>(rows: seq<K>, snapshot: seq<K>, n: nat, edits: seq<Edit<K>>) {
    && (forall row: nat {:trigger Changed(row) in edits} :: row < |rows| && IndexOf(snapshot, rows[row]) < n && n <= |snapshot| ==> Changed(row) in edits)
    && (forall e :: e in edits && e.Changed? ==> e.row < |rows| && rows[e.row] in snapshot)
  }

  lemma AnnouncedNext<K>(rows: seq<K>, snapshot: seq<K>, n: nat, edits: seq<Edit<K>>, edit: Edit<K>)
    requires Distinct(rows) && Distinct(snapshot) && n < |snapshot| && Announced(rows, snapshot, n, edits)
    requires var now, key := Grown(rows, snapshot, n), snapshot[n];
             edit == if key in now then Changed(IndexOf(now, key)) else Inserted(|now|, key)
    ensures Announced(rows, snapshot, n + 1, edits + [edit])
  {
    var key, more := snapshot[n], Added(rows, snapshot[..n]);
    IndexAppended(rows, more, key);
    AddedKeys(rows, snapshot[..n]);
    assert key !in snapshot[..n];
    forall row: nat | row < |rows| && IndexOf(snapshot, rows[row]) < n + 1 ensures Changed(row) in edits + [edit] {
      if IndexOf(snapshot, rows[row]) < n {
        assert Changed(row) in edits;
      } else {
        assert rows[row] == key && edit == Changed(IndexOf(rows, key));
        IndexIsUnique(rows, row);
      }
    }
  }

  lemma AnnouncedJoins<K>(rows: seq<K>, snapshot: seq<K>, n: nat, edits: seq<Edit<K>>, more: seq<Edit<K>>)
    requires Announced(rows, snapshot, n, edits) && forall e :: e in more ==> !e.Changed?
    ensures Announced(rows, snapshot, n, edits + more)
  {
    forall row: nat | row < |rows| && IndexOf(snapshot, rows[row]) < n && n <= |snapshot| ensures Changed(row) in edits + more {
      assert Changed(row) in edits;
    }
  }
}
