/**
 * Ordering one user's messages by timestamp, ascending and stable, as the
 * built-in `sorted(..., key=timestamp)` does. `SortByTimestamp` is a reference
 * insertion sort; the lemmas state the three facts that determine a stable sort.
 */
module Sorting {
  import opened Messages

  ghost predicate SortedByTimestamp(s: seq<Msg>) {
    forall i, j :: 0 <= i < j < |s| ==> s[i].timestamp <= s[j].timestamp
  }

  /** The messages of `s` stamped `t`, in their order in `s`. */
  function StampedAt(s: seq<Msg>, t: int): seq<Msg> {
    if s == [] then [] else (if s[0].timestamp == t then [s[0]] else []) + StampedAt(s[1..], t)
  }

  /** `m` placed in front of the first message of `s` stamped no earlier than it. */
  function Insert(m: Msg, s: seq<Msg>): seq<Msg> {
    if s == [] then [m]
    else if m.timestamp <= s[0].timestamp then [m] + s
    else [s[0]] + Insert(m, s[1..])
  }

  function SortByTimestamp(s: seq<Msg>): seq<Msg> {
    if s == [] then [] else Insert(s[0], SortByTimestamp(s[1..]))
  }

  lemma {:induction false} InsertPermutes(m: Msg, s: seq<Msg>)
    ensures multiset(Insert(m, s)) == multiset(s) + multiset{m}
    ensures |Insert(m, s)| == |s| + 1
  {
    if s != [] && m.timestamp > s[0].timestamp {
      InsertPermutes(m, s[1..]);
      assert s == [s[0]] + s[1..];
    }
  }

  lemma {:induction false} InsertKeepsSorted(m: Msg, s: seq<Msg>)
    requires SortedByTimestamp(s)
    ensures SortedByTimestamp(Insert(m, s))
  {
    if s != [] && m.timestamp > s[0].timestamp {
      InsertKeepsSorted(m, s[1..]);
      InsertPermutes(m, s[1..]);
      var r := Insert(m, s[1..]);
      forall k | 0 <= k < |r| ensures s[0].timestamp <= r[k].timestamp {
        assert r[k] in multiset(r);
        assert r[k] == m || r[k] in multiset(s[1..]);
        if r[k] != m {
          var q :| 0 <= q < |s[1..]| && s[1..][q] == r[k];
          assert s[q + 1] == r[k];
        }
      }
    }
  }

  lemma {:induction false} InsertStampedAt(m: Msg, s: seq<Msg>, t: int)
    ensures StampedAt(Insert(m, s), t) == (if m.timestamp == t then [m] else []) + StampedAt(s, t)
  {
    var mine: seq<Msg> := if m.timestamp == t then [m] else [];
    if s == [] {
      assert StampedAt([m], t) == mine + StampedAt([], t);
    } else if m.timestamp <= s[0].timestamp {
      assert ([m] + s)[1..] == s;
      assert StampedAt([m] + s, t) == mine + StampedAt(s, t);
    } else {
      var head: seq<Msg> := if s[0].timestamp == t then [s[0]] else [];
      var rest := Insert(m, s[1..]);
      InsertStampedAt(m, s[1..], t);
      assert ([s[0]] + rest)[1..] == rest;
      assert StampedAt([s[0]] + rest, t) == head + StampedAt(rest, t);
      assert StampedAt(s, t) == head + StampedAt(s[1..], t);
      assert head == [] || mine == [];
      assert head + (mine + StampedAt(s[1..], t)) == mine + (head + StampedAt(s[1..], t));
    }
  }

  lemma {:induction false} SortPermutes(s: seq<Msg>)
    ensures multiset(SortByTimestamp(s)) == multiset(s)
    ensures |SortByTimestamp(s)| == |s|
  {
    if s != [] {
      SortPermutes(s[1..]);
      InsertPermutes(s[0], SortByTimestamp(s[1..]));
      assert s == [s[0]] + s[1..];
    }
  }

  lemma {:induction false} SortIsSorted(s: seq<Msg>)
    ensures SortedByTimestamp(SortByTimestamp(s))
  {
    if s != [] {
      SortIsSorted(s[1..]);
      InsertKeepsSorted(s[0], SortByTimestamp(s[1..]));
    }
  }

  lemma {:induction false} SortKeepsTies(s: seq<Msg>, t: int)
    ensures StampedAt(SortByTimestamp(s), t) == StampedAt(s, t)
  {
    if s != [] {
      SortKeepsTies(s[1..], t);
      InsertStampedAt(s[0], SortByTimestamp(s[1..]), t);
    }
  }

  /**
   * The sort orders by timestamp, is a permutation of its input, and keeps the
   * input order among messages with equal timestamps.
   */
  lemma SortByTimestampIsStableSort(s: seq<Msg>)
    ensures SortedByTimestamp(SortByTimestamp(s))
    ensures multiset(SortByTimestamp(s)) == multiset(s)
    ensures |SortByTimestamp(s)| == |s|
    ensures forall t :: StampedAt(SortByTimestamp(s), t) == StampedAt(s, t)
  {
    SortPermutes(s);
    SortIsSorted(s);
    forall t ensures StampedAt(SortByTimestamp(s), t) == StampedAt(s, t) {
      SortKeepsTies(s, t);
    }
  }
}
