/** The order every query returns: `list.sort(key=lambda x: x.timestamp,
    reverse=True)`, a stable sort on the timestamp string, newest first.
    Python compares strings lexicographically by code point. */
module Sorting {
  import opened Models

  /** Python's `a <= b` on strings. */
  predicate StrLeq(a: string, b: string)
  {
    if a == [] then true
    else if b == [] then false
    else if a[0] != b[0] then a[0] < b[0]
    else StrLeq(a[1..], b[1..])
  }

  lemma {:induction false} StrLeqReflexive(a: string)
    ensures StrLeq(a, a)
  {
    if a != [] {
      StrLeqReflexive(a[1..]);
    }
  }

  lemma {:induction false} StrLeqTotal(a: string, b: string)
    ensures StrLeq(a, b) || StrLeq(b, a)
  {
    if a != [] && b != [] && a[0] == b[0] {
      StrLeqTotal(a[1..], b[1..]);
    }
  }

  lemma {:induction false} StrLeqTransitive(a: string, b: string, c: string)
    requires StrLeq(a, b) && StrLeq(b, c)
    ensures StrLeq(a, c)
  {
    if a != [] && b != [] && c != [] && a[0] == b[0] == c[0] {
      StrLeqTransitive(a[1..], b[1..], c[1..]);
    }
  }

  lemma {:induction false} StrLeqAntisymmetric(a: string, b: string)
    requires StrLeq(a, b) && StrLeq(b, a)
    ensures a == b
  {
    if a != [] && b != [] {
      StrLeqAntisymmetric(a[1..], b[1..]);
    }
  }

  /** Newest first: no entry has a smaller timestamp than one after it. */
  predicate SortedDesc(s: seq<Entry>)
  {
    forall i, j :: 0 <= i < j < |s| ==> StrLeq(s[j].timestamp, s[i].timestamp)
  }

  /** Places `e` before the first entry whose timestamp is not greater than
      its own, so that it precedes the entries with an equal key. */
  function InsertDesc(e: Entry, s: seq<Entry>): (r: seq<Entry>)
    ensures multiset(r) == multiset(s) + multiset{e}
  {
    if s == [] then [e]
    else if StrLeq(s[0].timestamp, e.timestamp) then [e] + s
    else
      assert s == [s[0]] + s[1..];
      [s[0]] + InsertDesc(e, s[1..])
  }

  /** The stable descending sort, by insertion from the back. */
  function SortDesc(s: seq<Entry>): (r: seq<Entry>)
    ensures multiset(r) == multiset(s)
  {
    if s == [] then []
    else
      assert s == [s[0]] + s[1..];
      InsertDesc(s[0], SortDesc(s[1..]))
  }

  lemma {:induction false} InsertDescSorted(e: Entry, s: seq<Entry>)
    requires SortedDesc(s)
    ensures SortedDesc(InsertDesc(e, s))
  {
    if s == [] {
    } else if StrLeq(s[0].timestamp, e.timestamp) {
      var r := [e] + s;
      forall i, j | 0 <= i < j < |r| ensures StrLeq(r[j].timestamp, r[i].timestamp) {
        if i == 0 {
          if j > 1 {
            StrLeqTransitive(r[j].timestamp, s[0].timestamp, e.timestamp);
          }
        }
      }
    } else {
      StrLeqTotal(s[0].timestamp, e.timestamp);
      var rest := InsertDesc(e, s[1..]);
      InsertDescSorted(e, s[1..]);
      var r := [s[0]] + rest;
      forall i, j | 0 <= i < j < |r| ensures StrLeq(r[j].timestamp, r[i].timestamp) {
        if i == 0 {
          var x := rest[j - 1];
          assert x in multiset(rest);
          assert x == e || x in multiset(s[1..]);
          if x != e {
            var k :| 0 <= k < |s[1..]| && s[1..][k] == x;
            assert s[k + 1] == x;
          }
        }
      }
    }
  }

  /** The sort returns its input, newest first. */
  lemma {:induction false} SortDescSorted(s: seq<Entry>)
    ensures SortedDesc(SortDesc(s))
  {
    if s != [] {
      SortDescSorted(s[1..]);
      InsertDescSorted(s[0], SortDesc(s[1..]));
    }
  }

  /** The entries of `s` whose timestamp is `k`, in their order in `s`. */
  function WithTimestamp(s: seq<Entry>, k: string): seq<Entry>
  {
    if s == [] then []
    else (if s[0].timestamp == k then [s[0]] else []) + WithTimestamp(s[1..], k)
  }

  /** An entry is selected exactly when it is in `s` with timestamp `k`. */
  lemma {:induction false} WithTimestampMembers(s: seq<Entry>, k: string, x: Entry)
    ensures x in WithTimestamp(s, k) <==> x in s && x.timestamp == k
  {
    if s != [] {
      WithTimestampMembers(s[1..], k, x);
      assert s == [s[0]] + s[1..];
    }
  }

  /** Selecting from a list with one more entry in front. */
  lemma WithTimestampCons(x: Entry, t: seq<Entry>, k: string)
    ensures WithTimestamp([x] + t, k) == (if x.timestamp == k then [x] else []) + WithTimestamp(t, k)
  {
    assert ([x] + t)[1..] == t;
  }

  /** Inserting an entry of another timestamp behind the first entry does
      not change what is selected for `k`. */
  lemma InsertBehindOther(e: Entry, s: seq<Entry>, k: string)
    requires s != [] && !StrLeq(s[0].timestamp, e.timestamp) && e.timestamp != k
    requires WithTimestamp(InsertDesc(e, s[1..]), k) == WithTimestamp(s[1..], k)
    ensures WithTimestamp(InsertDesc(e, s), k) == WithTimestamp(s, k)
  {
    var rest := InsertDesc(e, s[1..]);
    assert InsertDesc(e, s) == [s[0]] + rest;
    WithTimestampCons(s[0], rest, k);
  }

  /** Inserting an entry with timestamp `k` behind a first entry of another
      timestamp puts it first among the selected ones. */
  lemma InsertBehindSame(e: Entry, s: seq<Entry>, k: string)
    requires s != [] && !StrLeq(s[0].timestamp, e.timestamp) && e.timestamp == k && s[0].timestamp != k
    requires WithTimestamp(InsertDesc(e, s[1..]), k) == [e] + WithTimestamp(s[1..], k)
    ensures WithTimestamp(InsertDesc(e, s), k) == [e] + WithTimestamp(s, k)
  {
    var rest := InsertDesc(e, s[1..]);
    assert InsertDesc(e, s) == [s[0]] + rest;
    WithTimestampCons(s[0], rest, k);
  }

  lemma {:induction false} InsertDescStable(e: Entry, s: seq<Entry>, k: string)
    ensures WithTimestamp(InsertDesc(e, s), k) == (if e.timestamp == k then [e] else []) + WithTimestamp(s, k)
  {
    if s == [] {
    } else if StrLeq(s[0].timestamp, e.timestamp) {
      WithTimestampCons(e, s, k);
    } else {
      InsertDescStable(e, s[1..], k);
      if e.timestamp == k {
        StrLeqReflexive(e.timestamp);
        InsertBehindSame(e, s, k);
      } else {
        assert [] + WithTimestamp(s[1..], k) == WithTimestamp(s[1..], k);
        InsertBehindOther(e, s, k);
      }
    }
  }

  /** The sort is stable: entries with equal timestamps keep the order they
      had in its input. */
  lemma {:induction false} SortDescStable(s: seq<Entry>, k: string)
    ensures WithTimestamp(SortDesc(s), k) == WithTimestamp(s, k)
  {
    if s != [] {
      SortDescStable(s[1..], k);
      InsertDescStable(s[0], SortDesc(s[1..]), k);
    }
  }

  /** Sorting, keeping order among equal timestamps and keeping every entry
      determine the result: any sequence with these three properties is the
      sort's result. */
  lemma {:induction false} SortDescUnique(s: seq<Entry>, r: seq<Entry>)
    requires multiset(r) == multiset(s) && SortedDesc(r)
    requires forall k :: WithTimestamp(r, k) == WithTimestamp(s, k)
    ensures r == SortDesc(s)
  {
    SortDescSorted(s);
    forall k ensures WithTimestamp(SortDesc(s), k) == WithTimestamp(s, k) {
      SortDescStable(s, k);
    }
    SortedSameKeysEqual(r, SortDesc(s));
  }

  /** Two newest-first sequences with the same entries per timestamp start
      with the same entry. */
  lemma SortedSameKeysHead(a: seq<Entry>, b: seq<Entry>)
    requires a != [] && b != []
    requires SortedDesc(a) && SortedDesc(b)
    requires forall k :: WithTimestamp(a, k) == WithTimestamp(b, k)
    ensures a[0] == b[0]
  {
    WithTimestampMembers(a, a[0].timestamp, a[0]);
    WithTimestampMembers(b, a[0].timestamp, a[0]);
    WithTimestampMembers(b, b[0].timestamp, b[0]);
    WithTimestampMembers(a, b[0].timestamp, b[0]);
    var i :| 0 <= i < |b| && b[i] == a[0];
    var j :| 0 <= j < |a| && a[j] == b[0];
    StrLeqReflexive(a[0].timestamp);
    StrLeqReflexive(b[0].timestamp);
    assert StrLeq(a[0].timestamp, b[0].timestamp) by {
      if i > 0 { assert StrLeq(b[i].timestamp, b[0].timestamp); }
    }
    assert StrLeq(b[0].timestamp, a[0].timestamp) by {
      if j > 0 { assert StrLeq(a[j].timestamp, a[0].timestamp); }
    }
    StrLeqAntisymmetric(a[0].timestamp, b[0].timestamp);
    var k0 := a[0].timestamp;
    assert WithTimestamp(a, k0)[0] == a[0];
    assert WithTimestamp(b, k0)[0] == b[0];
  }

  /** Two newest-first sequences with the same entries per timestamp, in the
      same order, are equal. */
  lemma {:induction false} SortedSameKeysEqual(a: seq<Entry>, b: seq<Entry>)
    requires SortedDesc(a) && SortedDesc(b)
    requires forall k :: WithTimestamp(a, k) == WithTimestamp(b, k)
    ensures a == b
    decreases |a| + |b|
  {
    assert a == [] <==> b == [] by {
      if a != [] {
        WithTimestampMembers(a, a[0].timestamp, a[0]);
        WithTimestampMembers(b, a[0].timestamp, a[0]);
      }
      if b != [] {
        WithTimestampMembers(b, b[0].timestamp, b[0]);
        WithTimestampMembers(a, b[0].timestamp, b[0]);
      }
    }
    if a != [] {
      SortedSameKeysHead(a, b);
      forall k ensures WithTimestamp(a[1..], k) == WithTimestamp(b[1..], k) {
        assert WithTimestamp(a, k) == (if a[0].timestamp == k then [a[0]] else []) + WithTimestamp(a[1..], k);
        assert WithTimestamp(b, k) == (if b[0].timestamp == k then [b[0]] else []) + WithTimestamp(b[1..], k);
        assert WithTimestamp(a, k) == WithTimestamp(b, k);
        if a[0].timestamp == k {
          assert WithTimestamp(a[1..], k) == WithTimestamp(a, k)[1..];
          assert WithTimestamp(b[1..], k) == WithTimestamp(b, k)[1..];
        } else {
          assert WithTimestamp(a[1..], k) == WithTimestamp(a, k);
          assert WithTimestamp(b[1..], k) == WithTimestamp(b, k);
        }
      }
      SortedSameKeysEqual(a[1..], b[1..]);
      assert a == [a[0]] + a[1..];
      assert b == [b[0]] + b[1..];
    }
  }
}
