/**
 * The transaction log shared by every account kind: a transaction value,
 * the running sum of a log, and the stable sort by timestamp that is applied
 * to a log before it is listed.
 */
module Ledger {

  /** One log entry. `amount` is signed: positive is an inflow to the account,
      negative an outflow. The timestamp is the clock reading when the entry
      was made, taken as an abstract natural number. */
  datatype Transaction = Transaction(timestamp: nat, description: string, amount: real)

  /** The net of all signed amounts in a log. */
  function Sum(log: seq<Transaction>): real
  {
    if log == [] then 0.0 else Sum(log[..|log| - 1]) + log[|log| - 1].amount
  }

  lemma SumAppend(log: seq<Transaction>, t: Transaction)
    ensures Sum(log + [t]) == Sum(log) + t.amount
  {
  }

  // ---------------------------------------------------------------------------
  // Stable sort by timestamp
  // ---------------------------------------------------------------------------

  predicate SortedByTime(log: seq<Transaction>)
  {
    forall i, j :: 0 <= i < j < |log| ==> log[i].timestamp <= log[j].timestamp
  }

  /** The entries of `log` with timestamp `k`, in log order. A sort is stable
      exactly when it keeps this subsequence for every `k`. */
  function At(log: seq<Transaction>, k: nat): seq<Transaction>
  {
    if log == [] then []
    else At(log[..|log| - 1], k) + (if log[|log| - 1].timestamp == k then [log[|log| - 1]] else [])
  }

  /** Places `t` after every entry of the sorted `log` whose timestamp is not
      larger than its own. */
  function Insert(log: seq<Transaction>, t: Transaction): seq<Transaction>
  {
    if log == [] || log[|log| - 1].timestamp <= t.timestamp then log + [t]
    else Insert(log[..|log| - 1], t) + [log[|log| - 1]]
  }

  /** Stable insertion sort by timestamp. */
  function SortByTime(log: seq<Transaction>): seq<Transaction>
  {
    if log == [] then [] else Insert(SortByTime(log[..|log| - 1]), log[|log| - 1])
  }

  /** Insertion adds exactly the one entry. */
  lemma {:induction false} InsertPermutes(log: seq<Transaction>, t: Transaction)
    ensures multiset(Insert(log, t)) == multiset(log) + multiset{t}
  {
    if log == [] || log[|log| - 1].timestamp <= t.timestamp {
    } else {
      var init, last := log[..|log| - 1], log[|log| - 1];
      assert log == init + [last];
      InsertPermutes(init, t);
    }
  }

  /** Insertion keeps a sorted log sorted. */
  lemma {:induction false} InsertSorted(log: seq<Transaction>, t: Transaction)
    requires SortedByTime(log)
    ensures SortedByTime(Insert(log, t))
  {
    if log == [] || log[|log| - 1].timestamp <= t.timestamp {
    } else {
      var init, last := log[..|log| - 1], log[|log| - 1];
      InsertSorted(init, t);
      InsertPermutes(init, t);
      var r := Insert(init, t);
      forall i | 0 <= i < |r| ensures r[i].timestamp <= last.timestamp {
        assert r[i] in multiset(init) + multiset{t};
        if r[i] != t {
          var j :| 0 <= j < |init| && init[j] == r[i];
          assert log[j] == r[i];
        }
      }
    }
  }

  lemma {:induction false} InsertStable(log: seq<Transaction>, t: Transaction, k: nat)
    requires SortedByTime(log)
    ensures At(Insert(log, t), k) == At(log, k) + (if t.timestamp == k then [t] else [])
  {
    if log == [] || log[|log| - 1].timestamp <= t.timestamp {
      assert (log + [t])[..|log|] == log;
    } else {
      var init, last := log[..|log| - 1], log[|log| - 1];
      InsertStable(init, t, k);
      var r := Insert(init, t);
      assert (r + [last])[..|r|] == r;
    }
  }

  /** The sort yields a log ordered by timestamp holding exactly the same
      entries. */
  lemma {:induction false} SortByTimeSorted(log: seq<Transaction>)
    ensures SortedByTime(SortByTime(log))
    ensures multiset(SortByTime(log)) == multiset(log)
  {
    if log != [] {
      var init, last := log[..|log| - 1], log[|log| - 1];
      assert log == init + [last];
      SortByTimeSorted(init);
      InsertSorted(SortByTime(init), last);
      InsertPermutes(SortByTime(init), last);
    }
  }

  /** The sort is stable: entries sharing a timestamp keep their log order. */
  lemma {:induction false} SortByTimeStable(log: seq<Transaction>, k: nat)
    ensures At(SortByTime(log), k) == At(log, k)
  {
    if log != [] {
      var init, last := log[..|log| - 1], log[|log| - 1];
      SortByTimeStable(init, k);
      SortByTimeSorted(init);
      InsertStable(SortByTime(init), last, k);
    }
  }

  /** Insertion adds exactly the inserted entry's amount to the sum. */
  lemma {:induction false} SumInsert(log: seq<Transaction>, t: Transaction)
    ensures Sum(Insert(log, t)) == Sum(log) + t.amount
  {
    if log == [] || log[|log| - 1].timestamp <= t.timestamp {
      SumAppend(log, t);
    } else {
      var init, last := log[..|log| - 1], log[|log| - 1];
      assert log == init + [last];
      SumInsert(init, t);
      SumAppend(Insert(init, t), last);
      SumAppend(init, last);
    }
  }

  /** Sorting a log leaves its sum as it was, so every balance a log
      accounts for is still accounted for after the log is listed. */
  lemma {:induction false} SumSort(log: seq<Transaction>)
    ensures Sum(SortByTime(log)) == Sum(log)
  {
    if log != [] {
      var init, last := log[..|log| - 1], log[|log| - 1];
      SumSort(init);
      SumInsert(SortByTime(init), last);
      assert log == init + [last];
      SumAppend(init, last);
    }
  }

  /** A log that is already in timestamp order is left as it is. */
  lemma {:induction false} SortByTimeOfSorted(log: seq<Transaction>)
    requires SortedByTime(log)
    ensures SortByTime(log) == log
  {
    if log != [] {
      var init, last := log[..|log| - 1], log[|log| - 1];
      assert log == init + [last];
      assert SortedByTime(init);
      SortByTimeOfSorted(init);
    }
  }
}
