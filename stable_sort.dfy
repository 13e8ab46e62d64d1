/** Ordering of heart-rate measurements by timestamp: Kotlin's `sortedBy`, which is
    a stable sort, modelled as an insertion sort over immutable sequences. */
module MeasurementOrder {
  import opened HealthModels

  predicate SortedByTime(s: seq<HeartRateMeasurement>)
  {
    forall i, j :: 0 <= i < j < |s| ==> s[i].timestamp <= s[j].timestamp
  }

  /** The measurements of s taken at instant t, in their order in s. A sort is
      stable exactly when it keeps every such subsequence. */
  function AtTime(s: seq<HeartRateMeasurement>, t: int): seq<HeartRateMeasurement>
  {
    if s == [] then []
    else (if s[0].timestamp == t then [s[0]] else []) + AtTime(s[1..], t)
  }

  /** Inserts m in front of the first element that is not earlier than m. */
  function Insert(m: HeartRateMeasurement, s: seq<HeartRateMeasurement>): (r: seq<HeartRateMeasurement>)
    ensures multiset(r) == multiset(s) + multiset{m}
  {
    if s == [] then [m]
    else if m.timestamp <= s[0].timestamp then [m] + s
    else
      assert s == [s[0]] + s[1..];
      [s[0]] + Insert(m, s[1..])
  }

  lemma {:induction false} InsertSorted(m: HeartRateMeasurement, s: seq<HeartRateMeasurement>)
    requires SortedByTime(s)
    ensures SortedByTime(Insert(m, s))
  {
    if s != [] && m.timestamp > s[0].timestamp {
      var rest := Insert(m, s[1..]);
      InsertSorted(m, s[1..]);
      forall x | x in rest
        ensures s[0].timestamp <= x.timestamp
      {
        assert x in multiset(rest);
        if x != m {
          assert x in multiset(s[1..]);
          var k :| 0 <= k < |s[1..]| && s[1..][k] == x;
          assert s[k + 1] == x;
        }
      }
      forall i, j | 0 <= i < j < |Insert(m, s)|
        ensures Insert(m, s)[i].timestamp <= Insert(m, s)[j].timestamp
      {
        if i == 0 {
          assert Insert(m, s)[j] == rest[j - 1];
          assert rest[j - 1] in rest;
        }
      }
    }
  }

  /** Insertion keeps every instant's subsequence, with m put in front of its own. */
  lemma {:induction false} InsertAtTime(m: HeartRateMeasurement, s: seq<HeartRateMeasurement>, t: int)
    ensures AtTime(Insert(m, s), t) == (if m.timestamp == t then [m] else []) + AtTime(s, t)
  {
    if s == [] {
      AtTimeCons(m, s);
    } else if m.timestamp <= s[0].timestamp {
      AtTimeCons(m, s);
    } else {
      InsertAtTime(m, s[1..], t);
      AtTimeCons(s[0], Insert(m, s[1..]));
      AtTimeCons(s[0], s[1..]);
      assert s == [s[0]] + s[1..];
    }
  }

  /** `sortedBy { it.timestamp }`: sorts by insertion, each element going in front of
      the later elements with the same timestamp, so that ties keep their order. */
  function SortByTimestamp(s: seq<HeartRateMeasurement>): (r: seq<HeartRateMeasurement>)
    ensures SortedByTime(r)
    ensures multiset(r) == multiset(s)
    ensures forall t :: AtTime(r, t) == AtTime(s, t)
  {
    if s == [] then []
    else
      var rest := SortByTimestamp(s[1..]);
      InsertSorted(s[0], rest);
      assert s == [s[0]] + s[1..];
      AtTimeCons(s[0], s[1..]);
      assert forall t :: AtTime(Insert(s[0], rest), t) == AtTime(s, t) by {
        forall t
          ensures AtTime(Insert(s[0], rest), t) == AtTime(s, t)
        {
          InsertAtTime(s[0], rest, t);
        }
      }
      Insert(s[0], rest)
  }

  lemma AtTimeCons(m: HeartRateMeasurement, s: seq<HeartRateMeasurement>)
    ensures forall t :: AtTime([m] + s, t) == (if m.timestamp == t then [m] else []) + AtTime(s, t)
  {
    assert ([m] + s)[1..] == s;
  }

  /** An element is at instant t in s exactly when it is in s with timestamp t. */
  lemma {:induction false} AtTimeMembers(s: seq<HeartRateMeasurement>, t: int)
    ensures forall m :: m in AtTime(s, t) <==> m in s && m.timestamp == t
  {
    if s != [] {
      AtTimeMembers(s[1..], t);
      assert s == [s[0]] + s[1..];
    }
  }

  /** In a sorted sequence the earliest instant's subsequence starts with the first element. */
  lemma AtTimeFirst(s: seq<HeartRateMeasurement>)
    requires s != []
    ensures AtTime(s, s[0].timestamp) != [] && AtTime(s, s[0].timestamp)[0] == s[0]
  {
  }

  /** The first element of a sorted sequence is one of the earliest. */
  lemma SortedFirstEarliest(s: seq<HeartRateMeasurement>, m: HeartRateMeasurement)
    requires SortedByTime(s) && m in s
    ensures s[0].timestamp <= m.timestamp
  {
  }

  /** A sorted sequence is determined by its subsequences at each instant: there is
      exactly one stable sorted arrangement of a list. */
  lemma {:induction false} SortedUnique(a: seq<HeartRateMeasurement>, b: seq<HeartRateMeasurement>)
    requires SortedByTime(a) && SortedByTime(b)
    requires forall t :: AtTime(a, t) == AtTime(b, t)
    ensures a == b
  {
    if a == [] {
      if b != [] {
        AtTimeFirst(b);
        assert false;
      }
    } else if b == [] {
      AtTimeFirst(a);
      assert false;
    } else {
      AtTimeMembers(a, b[0].timestamp);
      AtTimeMembers(b, a[0].timestamp);
      AtTimeFirst(a);
      AtTimeFirst(b);
      assert a[0] in AtTime(b, a[0].timestamp);
      SortedFirstEarliest(b, a[0]);
      assert b[0] in AtTime(a, b[0].timestamp);
      SortedFirstEarliest(a, b[0]);
      assert a[0] == b[0];
      assert a == [a[0]] + a[1..];
      assert b == [b[0]] + b[1..];
      AtTimeCons(a[0], a[1..]);
      AtTimeCons(b[0], b[1..]);
      forall t
        ensures AtTime(a[1..], t) == AtTime(b[1..], t)
      {
        var head := if a[0].timestamp == t then [a[0]] else [];
        assert AtTime(a, t) == head + AtTime(a[1..], t);
        assert AtTime(b, t) == head + AtTime(b[1..], t);
        assert (head + AtTime(a[1..], t))[|head|..] == AtTime(a[1..], t);
        assert (head + AtTime(b[1..], t))[|head|..] == AtTime(b[1..], t);
      }
      SortedUnique(a[1..], b[1..]);
    }
  }

  /** The sort's output depends only on the order of the measurements within each
      instant: reordering measurements taken at different instants changes nothing. */
  lemma SortDependsOnlyOnTies(a: seq<HeartRateMeasurement>, b: seq<HeartRateMeasurement>)
    requires forall t :: AtTime(a, t) == AtTime(b, t)
    ensures SortByTimestamp(a) == SortByTimestamp(b)
  {
    SortedUnique(SortByTimestamp(a), SortByTimestamp(b));
  }

  /** Sorting a sorted sequence returns it unchanged. */
  lemma SortSortedIdentity(s: seq<HeartRateMeasurement>)
    requires SortedByTime(s)
    ensures SortByTimestamp(s) == s
  {
    SortedUnique(SortByTimestamp(s), s);
  }

  predicate DistinctTimes(s: seq<HeartRateMeasurement>)
  {
    forall i, j :: 0 <= i < j < |s| ==> s[i].timestamp != s[j].timestamp
  }

  lemma AtTimeEmpty(s: seq<HeartRateMeasurement>, t: int)
    requires forall i :: 0 <= i < |s| ==> s[i].timestamp != t
    ensures AtTime(s, t) == []
  {
    AtTimeMembers(s, t);
    if AtTime(s, t) != [] {
      assert AtTime(s, t)[0] in AtTime(s, t);
    }
  }

  lemma {:induction false} AtTimeDistinct(s: seq<HeartRateMeasurement>, t: int)
    requires DistinctTimes(s)
    ensures |AtTime(s, t)| <= 1
  {
    if s != [] {
      assert DistinctTimes(s[1..]);
      AtTimeDistinct(s[1..], t);
      if s[0].timestamp == t {
        AtTimeMembers(s[1..], t);
        AtTimeEmpty(s[1..], t);
      }
    }
  }

  lemma AtMostOneEqual(x: seq<HeartRateMeasurement>, y: seq<HeartRateMeasurement>)
    requires |x| <= 1 && |y| <= 1
    requires forall m :: m in x <==> m in y
    ensures x == y
  {
    if x != [] {
      assert x[0] in y;
    }
    if y != [] {
      assert y[0] in x;
    }
  }

  /** With pairwise distinct timestamps the order of the input does not matter at
      all: every arrangement of the same measurements sorts to the same list. */
  lemma SortPermutationInvariant(a: seq<HeartRateMeasurement>, b: seq<HeartRateMeasurement>)
    requires DistinctTimes(a) && DistinctTimes(b)
    requires multiset(a) == multiset(b)
    ensures SortByTimestamp(a) == SortByTimestamp(b)
  {
    forall t
      ensures AtTime(a, t) == AtTime(b, t)
    {
      AtTimeDistinct(a, t);
      AtTimeDistinct(b, t);
      AtTimeMembers(a, t);
      AtTimeMembers(b, t);
      forall m
        ensures m in a <==> m in b
      {
        assert m in a <==> m in multiset(a);
        assert m in b <==> m in multiset(b);
      }
      AtMostOneEqual(AtTime(a, t), AtTime(b, t));
    }
    SortDependsOnlyOnTies(a, b);
  }
}
