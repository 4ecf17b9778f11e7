/**
 An append-only table of versioned records. Entities, relationships and exposures of the
 knowledge graph all have this shape: a logical key, a version, a validity interval and the
 instant the row was observed. A content identifier is injective, so the row stands for its id.
 */
module Bitemporal {
  import opened Prelude

  datatype Row<+K, +P> = Row(
    key: K,
    version: int,
    validFrom: Time,
    validUntil: Option<Time>,
    observedAt: Time,
    data: P
  )

  /** The WHERE clause of every as-of query: observed by the cutoff and valid at it. */
  predicate Visible<K, P>(row: Row<K, P>, cutoff: Time) {
    row.observedAt <= cutoff && InInterval(row.validFrom, row.validUntil, cutoff)
  }

  function ObservedBy<K, P>(cutoff: Time): Row<K, P> -> bool {
    (row: Row<K, P>) => row.observedAt <= cutoff
  }

  /** The number of rows stored for a key. */
  function CountKey<K(==), P>(rows: seq<Row<K, P>>, key: K): nat {
    if rows == [] then 0
    else CountKey(rows[..|rows| - 1], key) + if rows[|rows| - 1].key == key then 1 else 0
  }

  /** One more than the highest stored version of the key, or 1 for a new key. */
  function NextVersion<K(==), P>(rows: seq<Row<K, P>>, key: K): int {
    if rows == [] then 1
    else
      var rest := NextVersion(rows[..|rows| - 1], key);
      var last := rows[|rows| - 1];
      if last.key != key then rest
      else if CountKey(rows[..|rows| - 1], key) == 0 || rest <= last.version then last.version + 1
      else rest
  }

  /** The versions of every key are 1, 2, 3, ... in the order in which they were stored. */
  ghost predicate Sequential<K, P>(rows: seq<Row<K, P>>) {
    forall i :: 0 <= i < |rows| ==> rows[i].version == 1 + CountKey(rows[..i], rows[i].key)
  }

  /** WHERE key = ... AND visible ORDER BY version DESC LIMIT 1. */
  function LatestVisible<K(==), P>(rows: seq<Row<K, P>>, key: K, cutoff: Time): (r: Option<Row<K, P>>)
    ensures r.Some? ==> r.value in rows && r.value.key == key && Visible(r.value, cutoff)
    ensures forall i :: 0 <= i < |rows| && rows[i].key == key && Visible(rows[i], cutoff)
                        ==> r.Some? && rows[i].version <= r.value.version
  {
    if rows == [] then None
    else
      var rest := LatestVisible(rows[..|rows| - 1], key, cutoff);
      var last := rows[|rows| - 1];
      assert forall i :: 0 <= i < |rows| - 1 ==> rows[i] == rows[..|rows| - 1][i];
      if last.key == key && Visible(last, cutoff) && (rest.None? || rest.value.version <= last.version)
      then Some(last) else rest
  }

  /** Observed by the cutoff, valid from then or before, and not expired by then. */
  ghost predicate Current<K, P>(row: Row<K, P>, cutoff: Time) {
    row.observedAt <= cutoff && row.validFrom <= cutoff && (row.validUntil.None? || cutoff < row.validUntil.value)
  }

  /** No current row of the same key has a higher version. */
  ghost predicate InForce<K(!new), P(!new)>(rows: seq<Row<K, P>>, row: Row<K, P>, cutoff: Time) {
    && row in rows && Current(row, cutoff)
    && forall other :: other in rows && other.key == row.key && Current(other, cutoff) ==> other.version <= row.version
  }

  /** The query finds a row in force, and nothing only if no row of the key is current. */
  lemma LatestVisibleIsInForce<K(!new), P(!new)>(rows: seq<Row<K, P>>, key: K, cutoff: Time)
    ensures match LatestVisible(rows, key, cutoff)
            case Some(row) => row.key == key && InForce(rows, row, cutoff)
            case None => forall row :: row in rows && row.key == key ==> !Current(row, cutoff)
  {
    forall row: Row<K, P> ensures Visible(row, cutoff) <==> Current(row, cutoff) {
    }
    hide Visible, Current;
  }

  /** In a sequential table there is one row in force at most. */
  lemma InForceIsLatestVisible<K(!new), P(!new)>(rows: seq<Row<K, P>>, row: Row<K, P>, cutoff: Time)
    requires Sequential(rows)
    ensures InForce(rows, row, cutoff) <==> LatestVisible(rows, row.key, cutoff) == Some(row)
  {
    LatestVisibleIsInForce(rows, row.key, cutoff);
    if InForce(rows, row, cutoff) {
      LatestVisibleUnique(rows, row, cutoff);
    }
  }

  lemma {:induction false} CountKeyMonotone<K, P>(rows: seq<Row<K, P>>, m: nat, n: nat, key: K)
    requires m <= n <= |rows|
    ensures CountKey(rows[..m], key) <= CountKey(rows[..n], key)
    ensures m < n && rows[m].key == key ==> CountKey(rows[..m], key) < CountKey(rows[..n], key)
  {
    if m < n {
      assert rows[..n][..n - 1] == rows[..n - 1];
      CountKeyMonotone(rows, m, n - 1, key);
    }
  }

  /** In a sequential table a later row of the same key has a strictly higher version. */
  lemma VersionsIncrease<K, P>(rows: seq<Row<K, P>>, i: nat, j: nat)
    requires Sequential(rows)
    requires i < j < |rows| && rows[i].key == rows[j].key
    ensures rows[i].version < rows[j].version
  {
    CountKeyMonotone(rows, i, j, rows[i].key);
  }

  predicate HasVersion<K(==), P>(rows: seq<Row<K, P>>, key: K, version: int) {
    exists i :: 0 <= i < |rows| && rows[i].key == key && rows[i].version == version
  }

  /** The stored versions of a key are exactly 1..n, so the next one is n + 1. */
  lemma {:induction false} VersionsExactlyOneToN<K, P>(rows: seq<Row<K, P>>, key: K)
    requires Sequential(rows)
    ensures forall n :: HasVersion(rows, key, n) <==> 1 <= n <= CountKey(rows, key)
    ensures NextVersion(rows, key) == CountKey(rows, key) + 1
  {
    if rows != [] {
      var init := rows[..|rows| - 1];
      SequentialPrefix(rows, |rows| - 1);
      VersionsExactlyOneToN(init, key);
      forall n ensures HasVersion(rows, key, n) <==> 1 <= n <= CountKey(rows, key) {
        HasVersionAppend(init, rows[|rows| - 1], key, n);
        assert init + [rows[|rows| - 1]] == rows;
      }
    }
  }

  lemma HasVersionAppend<K, P>(rows: seq<Row<K, P>>, row: Row<K, P>, key: K, n: int)
    ensures HasVersion(rows + [row], key, n) <==> HasVersion(rows, key, n) || (row.key == key && row.version == n)
  {
    var all := rows + [row];
    if HasVersion(rows, key, n) {
      var i :| 0 <= i < |rows| && rows[i].key == key && rows[i].version == n;
      assert all[i] == rows[i];
    }
    if row.key == key && row.version == n {
      assert all[|rows|] == row;
    }
  }

  lemma SequentialPrefix<K, P>(rows: seq<Row<K, P>>, n: nat)
    requires Sequential(rows) && n <= |rows|
    ensures Sequential(rows[..n])
  {
    forall i | 0 <= i < n ensures rows[..n][i].version == 1 + CountKey(rows[..n][..i], rows[..n][i].key) {
      assert rows[..n][..i] == rows[..i];
    }
  }

  /** Appending a row that passed the version check keeps the table sequential. */
  lemma SequentialAppend<K, P>(rows: seq<Row<K, P>>, row: Row<K, P>)
    requires Sequential(rows) && row.version == NextVersion(rows, row.key)
    ensures Sequential(rows + [row])
  {
    VersionsExactlyOneToN(rows, row.key);
    var all := rows + [row];
    forall i | 0 <= i < |all| ensures all[i].version == 1 + CountKey(all[..i], all[i].key) {
      assert all[..i] == rows[..i];
      if i == |rows| {
        assert rows[..i] == rows;
      }
    }
  }

  /** The stored versions of its key are exactly those below the row's own. */
  ghost predicate NextOf<K, P>(rows: seq<Row<K, P>>, row: Row<K, P>) {
    forall n :: HasVersion(rows, row.key, n) <==> 1 <= n < row.version
  }

  lemma NextOfIsNextVersion<K, P>(rows: seq<Row<K, P>>, row: Row<K, P>)
    requires Sequential(rows) && row.version >= 1
    ensures NextOf(rows, row) <==> row.version == NextVersion(rows, row.key)
  {
    VersionsExactlyOneToN(rows, row.key);
    hide HasVersion, NextVersion, CountKey;
    var n := CountKey(rows, row.key);
    if NextOf(rows, row) {
      assert n >= 1 ==> HasVersion(rows, row.key, n);
      assert row.version > 1 ==> HasVersion(rows, row.key, row.version - 1);
      assert n < row.version - 1 ==> !HasVersion(rows, row.key, row.version - 1);
      assert n > row.version - 1 ==> !HasVersion(rows, row.key, n);
    }
  }

  /** A visible row of highest version is the one the query returns. */
  lemma LatestVisibleUnique<K, P>(rows: seq<Row<K, P>>, row: Row<K, P>, cutoff: Time)
    requires Sequential(rows)
    requires row in rows && Visible(row, cutoff)
    requires forall other :: other in rows && other.key == row.key && Visible(other, cutoff)
                             ==> other.version <= row.version
    ensures LatestVisible(rows, row.key, cutoff) == Some(row)
  {
    var i :| 0 <= i < |rows| && rows[i] == row;
    var got := LatestVisible(rows, row.key, cutoff).value;
    var j :| 0 <= j < |rows| && rows[j] == got;
    if i < j {
      VersionsIncrease(rows, i, j);
    } else if j < i {
      VersionsIncrease(rows, j, i);
    }
  }

  /** An as-of answer is a function of the rows observed by the cutoff alone. */
  lemma {:induction false} LatestVisibleKnown<K(!new), P(!new)>(rows: seq<Row<K, P>>, key: K, cutoff: Time)
    ensures LatestVisible(Filter(rows, ObservedBy(cutoff)), key, cutoff) == LatestVisible(rows, key, cutoff)
  {
    if rows != [] {
      var init := rows[..|rows| - 1];
      LatestVisibleKnown(init, key, cutoff);
      var known := Filter(rows, ObservedBy(cutoff));
      if rows[|rows| - 1].observedAt <= cutoff {
        assert known[..|known| - 1] == Filter(init, ObservedBy(cutoff));
      }
    }
  }
}
