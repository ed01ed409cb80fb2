/**
 * Keep-latest deduplication and sorting by key, as the refresh and
 * consolidation routines apply them to every loaded record table:
 * `groupby("id")["created"].rank("first", ascending=False) == 1`, then
 * `sort_values(by="id")`.
 */
module Dedup {
  import opened Text
  import opened Records

  // ---------------------------------------------------------------------
  // Keep-latest
  // ---------------------------------------------------------------------

  /**
   * Row j outranks row i for the same key: it was fetched later, or at the
   * same time and comes first in the table (rank method "first").
   */
  predicate Outranks<B(==)>(rows: seq<Versioned<B>>, j: int, i: int)
    requires 0 <= i < |rows| && 0 <= j < |rows|
  {
    rows[j].id == rows[i].id &&
    (rows[j].created > rows[i].created || (rows[j].created == rows[i].created && j < i))
  }

  /** Row i has rank 1 within its key group: no row outranks it. */
  predicate IsLatestAt<B(==)>(rows: seq<Versioned<B>>, i: int)
    requires 0 <= i < |rows|
  {
    forall j :: 0 <= j < |rows| ==> !Outranks(rows, j, i)
  }

  /** The rank-1 rows among rows[k..], in table order (the boolean-mask `loc`). */
  function KeepLatestFrom<B(==)>(rows: seq<Versioned<B>>, k: nat): seq<Versioned<B>>
    requires k <= |rows|
    decreases |rows| - k
  {
    if k == |rows| then []
    else (if IsLatestAt(rows, k) then [rows[k]] else []) + KeepLatestFrom(rows, k + 1)
  }

  /** One row per key: the most recently fetched version, the first one in table order on a tie. */
  function KeepLatest<B(==)>(rows: seq<Versioned<B>>): seq<Versioned<B>>
  {
    KeepLatestFrom(rows, 0)
  }

  /** The set of keys of a table. */
  function Ids<B(==)>(rows: seq<Versioned<B>>): set<string>
  {
    set r | r in rows :: r.id
  }

  /** No key occurs twice (the `assert len(id.unique()) == len(table)` of the source). */
  predicate UniqueIds<B(==)>(rows: seq<Versioned<B>>)
  {
    forall i, j :: 0 <= i < j < |rows| ==> rows[i].id != rows[j].id
  }

  /**
   * The index of the rank-1 row with key `id` among rows[..n], or -1 when
   * no row of rows[..n] has that key.
   */
  function LatestIndexIn<B(==)>(rows: seq<Versioned<B>>, id: string, n: nat): (b: int)
    requires n <= |rows|
    ensures b == -1 <==> forall j :: 0 <= j < n ==> rows[j].id != id
    ensures b != -1 ==> 0 <= b < n && rows[b].id == id
    ensures b != -1 ==> forall j :: 0 <= j < n ==> !Outranks(rows, j, b)
    decreases n
  {
    if n == 0 then -1
    else
      var b := LatestIndexIn(rows, id, n - 1);
      if rows[n - 1].id != id then b
      else if b == -1 || rows[n - 1].created > rows[b].created then
        assert b != -1 ==> forall j :: 0 <= j < n - 1 && rows[j].id == id ==> rows[j].created <= rows[b].created by {
          if b != -1 {
            forall j | 0 <= j < n - 1 && rows[j].id == id ensures rows[j].created <= rows[b].created {
              assert !Outranks(rows, j, b);
            }
          }
        }
        n - 1
      else b
  }

  /** Every key that occurs has a rank-1 row. */
  lemma LatestExists<B>(rows: seq<Versioned<B>>, i: int)
    requires 0 <= i < |rows|
    ensures exists k :: 0 <= k < |rows| && IsLatestAt(rows, k) && rows[k].id == rows[i].id
  {
    var b := LatestIndexIn(rows, rows[i].id, |rows|);
    assert IsLatestAt(rows, b);
  }

  /** Exactly the rank-1 rows of rows[k..] are kept. */
  lemma {:induction false} KeepLatestFromMembers<B>(rows: seq<Versioned<B>>, k: nat, r: Versioned<B>)
    requires k <= |rows|
    ensures r in KeepLatestFrom(rows, k) <==> exists i :: k <= i < |rows| && IsLatestAt(rows, i) && rows[i] == r
    decreases |rows| - k
  {
    if k < |rows| {
      KeepLatestFromMembers(rows, k + 1, r);
      if r in KeepLatestFrom(rows, k) && !(IsLatestAt(rows, k) && rows[k] == r) {
        assert r in KeepLatestFrom(rows, k + 1);
      }
    }
  }

  lemma {:induction false} KeepLatestFromUnique<B>(rows: seq<Versioned<B>>, k: nat)
    requires k <= |rows|
    ensures UniqueIds(KeepLatestFrom(rows, k))
    decreases |rows| - k
  {
    if k < |rows| {
      KeepLatestFromUnique(rows, k + 1);
      var tail := KeepLatestFrom(rows, k + 1);
      if IsLatestAt(rows, k) {
        forall j | 0 <= j < |tail| ensures tail[j].id != rows[k].id {
          KeepLatestFromMembers(rows, k + 1, tail[j]);
          var i :| k + 1 <= i < |rows| && IsLatestAt(rows, i) && rows[i] == tail[j];
          assert !Outranks(rows, i, k) && !Outranks(rows, k, i);
        }
        var out := [rows[k]] + tail;
        assert forall i :: 0 < i < |out| ==> out[i] == tail[i - 1];
      }
    }
  }

  /**
   * After keep-latest every key of the input occurs exactly once: no key is
   * repeated, and the keys are exactly the input's keys.
   */
  lemma KeepLatestOnePerId<B>(rows: seq<Versioned<B>>)
    ensures UniqueIds(KeepLatest(rows))
    ensures Ids(KeepLatest(rows)) == Ids(rows)
  {
    KeepLatestFromUnique(rows, 0);
    forall x | x in Ids(rows) ensures x in Ids(KeepLatest(rows)) {
      var i :| 0 <= i < |rows| && rows[i].id == x;
      LatestExists(rows, i);
      var k :| 0 <= k < |rows| && IsLatestAt(rows, k) && rows[k].id == x;
      KeepLatestFromMembers(rows, 0, rows[k]);
    }
    forall x | x in Ids(KeepLatest(rows)) ensures x in Ids(rows) {
      var r :| r in KeepLatest(rows) && r.id == x;
      KeepLatestFromMembers(rows, 0, r);
    }
  }

  /**
   * Every kept row is an input row carrying the greatest `created` of its key,
   * and no earlier row of the same key carries that value (ties go to the
   * first row in table order).
   */
  lemma KeepLatestPicksLatest<B>(rows: seq<Versioned<B>>, r: Versioned<B>)
    requires r in KeepLatest(rows)
    ensures exists i :: 0 <= i < |rows| && rows[i] == r &&
                        (forall j :: 0 <= j < |rows| && rows[j].id == r.id ==> rows[j].created <= r.created) &&
                        (forall j :: 0 <= j < i && rows[j].id == r.id ==> rows[j].created < r.created)
  {
    KeepLatestFromMembers(rows, 0, r);
    var i :| 0 <= i < |rows| && IsLatestAt(rows, i) && rows[i] == r;
    forall j | 0 <= j < |rows| && rows[j].id == r.id ensures rows[j].created <= r.created {
      assert !Outranks(rows, j, i);
    }
    forall j | 0 <= j < i && rows[j].id == r.id ensures rows[j].created < r.created {
      assert !Outranks(rows, j, i);
    }
  }

  /** A table whose keys are unique is kept whole. */
  lemma {:induction false} KeepLatestFromUniqueInput<B>(rows: seq<Versioned<B>>, k: nat)
    requires k <= |rows| && UniqueIds(rows)
    ensures KeepLatestFrom(rows, k) == rows[k..]
    decreases |rows| - k
  {
    if k < |rows| {
      KeepLatestFromUniqueInput(rows, k + 1);
      assert IsLatestAt(rows, k);
      assert rows[k..] == [rows[k]] + rows[k + 1..];
    }
  }

  /** Keep-latest is idempotent. */
  lemma KeepLatestIdempotent<B>(rows: seq<Versioned<B>>)
    ensures KeepLatest(KeepLatest(rows)) == KeepLatest(rows)
  {
    KeepLatestOnePerId(rows);
    KeepLatestFromUniqueInput(KeepLatest(rows), 0);
  }

  /** Some row of `rows` has the key of `e` and was fetched no earlier. */
  predicate Dominated<B(==)>(rows: seq<Versioned<B>>, e: Versioned<B>)
  {
    exists p :: 0 <= p < |rows| && rows[p].id == e.id && rows[p].created >= e.created
  }

  lemma LatestInPrefix<B>(rows: seq<Versioned<B>>, extra: seq<Versioned<B>>, i: int)
    requires forall e :: e in extra ==> Dominated(rows, e)
    requires 0 <= i < |rows|
    ensures IsLatestAt(rows + extra, i) <==> IsLatestAt(rows, i)
  {
    var all := rows + extra;
    assert forall j :: 0 <= j < |rows| ==> all[j] == rows[j];
    forall j | 0 <= j < |rows| ensures Outranks(all, j, i) == Outranks(rows, j, i) {
      assert all[j] == rows[j] && all[i] == rows[i];
    }
    if IsLatestAt(rows, i) {
      forall j | 0 <= j < |all| ensures !Outranks(all, j, i) {
        if j >= |rows| && Outranks(all, j, i) {
          assert all[j] in extra by { assert all[j] == extra[j - |rows|]; }
          var p :| 0 <= p < |rows| && rows[p].id == all[j].id && rows[p].created >= all[j].created;
          assert Outranks(rows, p, i);
        }
      }
    } else {
      var j :| 0 <= j < |rows| && Outranks(rows, j, i);
      assert Outranks(all, j, i);
    }
  }

  lemma NotLatestInSuffix<B>(rows: seq<Versioned<B>>, extra: seq<Versioned<B>>, i: int)
    requires forall e :: e in extra ==> Dominated(rows, e)
    requires |rows| <= i < |rows| + |extra|
    ensures !IsLatestAt(rows + extra, i)
  {
    var all := rows + extra;
    assert all[i] in extra by { assert all[i] == extra[i - |rows|]; }
    var p :| 0 <= p < |rows| && rows[p].id == all[i].id && rows[p].created >= all[i].created;
    assert all[p] == rows[p];
    assert Outranks(all, p, i);
  }

  lemma {:induction false} KeepLatestFromNoneLeft<B>(rows: seq<Versioned<B>>, k: nat)
    requires k <= |rows|
    requires forall i :: k <= i < |rows| ==> !IsLatestAt(rows, i)
    ensures KeepLatestFrom(rows, k) == []
    decreases |rows| - k
  {
    if k < |rows| {
      KeepLatestFromNoneLeft(rows, k + 1);
    }
  }

  lemma {:induction false} KeepLatestFromAppend<B>(rows: seq<Versioned<B>>, extra: seq<Versioned<B>>, k: nat)
    requires forall e :: e in extra ==> Dominated(rows, e)
    requires k <= |rows|
    ensures KeepLatestFrom(rows + extra, k) == KeepLatestFrom(rows, k)
    decreases |rows| - k
  {
    var all := rows + extra;
    if k == |rows| {
      forall i | k <= i < |all| ensures !IsLatestAt(all, i) {
        NotLatestInSuffix(rows, extra, i);
      }
      KeepLatestFromNoneLeft(all, k);
    } else {
      LatestInPrefix(rows, extra, k);
      assert all[k] == rows[k];
      KeepLatestFromAppend(rows, extra, k + 1);
    }
  }

  /**
   * Appending rows each of which is matched or outranked, on its key, by a
   * row already there (copies of them, say) leaves keep-latest unchanged.
   */
  lemma KeepLatestIgnoresDominatedSuffix<B>(rows: seq<Versioned<B>>, extra: seq<Versioned<B>>)
    requires forall e :: e in extra ==> Dominated(rows, e)
    ensures KeepLatest(rows + extra) == KeepLatest(rows)
  {
    KeepLatestFromAppend(rows, extra, 0);
  }

  // ---------------------------------------------------------------------
  // Sorting by key
  // ---------------------------------------------------------------------

  predicate SortedById<B(==)>(rows: seq<Versioned<B>>)
  {
    forall i, j :: 0 <= i < j < |rows| ==> StrLessEq(rows[i].id, rows[j].id)
  }

  predicate StrictlySortedById<B(==)>(rows: seq<Versioned<B>>)
  {
    forall i, j :: 0 <= i < j < |rows| ==> StrLess(rows[i].id, rows[j].id)
  }

  /** Insert `x` into a table sorted by key, before the rows whose key is not smaller. */
  function InsertById<B(==)>(x: Versioned<B>, s: seq<Versioned<B>>): (r: seq<Versioned<B>>)
    requires SortedById(s)
    ensures SortedById(r)
    ensures multiset(r) == multiset(s) + multiset{x}
    decreases |s|
  {
    if s == [] then [x]
    else if StrLessEq(x.id, s[0].id) then
      ConsBelowHead(x, s);
      [x] + s
    else
      TailSorted(s);
      var t := InsertById(x, s[1..]);
      StrLessEqTotal(x.id, s[0].id);
      HeadBelowInserted(x, s, t);
      ConsMultiset(x, s, t);
      [s[0]] + t
  }

  /** A sorted row set below a key: the sequence is sorted. */
  lemma ConsSorted<B>(h: Versioned<B>, t: seq<Versioned<B>>)
    requires SortedById(t)
    requires forall e :: e in t ==> StrLessEq(h.id, e.id)
    ensures SortedById([h] + t)
  {
    var r := [h] + t;
    forall i, j | 0 <= i < j < |r| ensures StrLessEq(r[i].id, r[j].id) {
      assert r[j] == t[j - 1];
      if i > 0 {
        assert r[i] == t[i - 1];
      } else {
        assert t[j - 1] in t;
      }
    }
  }

  lemma ConsBelowHead<B>(x: Versioned<B>, s: seq<Versioned<B>>)
    requires SortedById(s) && s != [] && StrLessEq(x.id, s[0].id)
    ensures SortedById([x] + s)
  {
    forall e | e in s ensures StrLessEq(x.id, e.id) {
      var j :| 0 <= j < |s| && s[j] == e;
      if j > 0 {
        StrLessEqTransitive(x.id, s[0].id, s[j].id);
      }
    }
    ConsSorted(x, s);
  }

  lemma HeadBelowInserted<B>(x: Versioned<B>, s: seq<Versioned<B>>, t: seq<Versioned<B>>)
    requires SortedById(s) && s != [] && StrLessEq(s[0].id, x.id)
    requires SortedById(t) && multiset(t) == multiset(s[1..]) + multiset{x}
    ensures SortedById([s[0]] + t)
  {
    forall e | e in t ensures StrLessEq(s[0].id, e.id) {
      assert e in multiset(t);
      if e != x {
        assert e in multiset(s[1..]);
        var j :| 0 <= j < |s[1..]| && s[1..][j] == e;
        assert s[j + 1] == e;
      }
    }
    ConsSorted(s[0], t);
  }

  lemma ConsMultiset<B>(x: Versioned<B>, s: seq<Versioned<B>>, t: seq<Versioned<B>>)
    requires s != [] && multiset(t) == multiset(s[1..]) + multiset{x}
    ensures multiset([s[0]] + t) == multiset(s) + multiset{x}
  {
    assert s == [s[0]] + s[1..];
  }

  /** `sort_values(by="id")` on the whole table (a stable insertion sort). */
  function SortById<B(==)>(s: seq<Versioned<B>>): (r: seq<Versioned<B>>)
    ensures SortedById(r)
    ensures multiset(r) == multiset(s)
    decreases |s|
  {
    if s == [] then []
    else
      assert s == [s[0]] + s[1..];
      InsertById(s[0], SortById(s[1..]))
  }

  lemma {:induction false} InsertByIdStrict<B>(x: Versioned<B>, s: seq<Versioned<B>>)
    requires StrictlySortedById(s)
    requires forall e :: e in s ==> e.id != x.id
    ensures StrictlySortedById(InsertById(x, s))
    decreases |s|
  {
    if s == [] {
    } else if StrLessEq(x.id, s[0].id) {
      InsertAtFrontStrict(x, s);
    } else {
      assert s == [s[0]] + s[1..];
      assert StrictlySortedById(s[1..]) by {
        forall p, q | 0 <= p < q < |s[1..]| ensures StrLess(s[1..][p].id, s[1..][q].id) {
          assert s[1..][p] == s[p + 1] && s[1..][q] == s[q + 1];
        }
      }
      InsertByIdStrict(x, s[1..]);
      StrLessTotal(x.id, s[0].id);
      BelowAllInsert(x, s);
      ConsStrict(s[0], InsertById(x, s[1..]));
    }
  }

  lemma InsertAtFrontStrict<B>(x: Versioned<B>, s: seq<Versioned<B>>)
    requires StrictlySortedById(s) && s != []
    requires forall e :: e in s ==> e.id != x.id
    requires StrLessEq(x.id, s[0].id)
    ensures StrictlySortedById([x] + s)
  {
    assert s[0] in s;
    forall j | 0 <= j < |s| ensures StrLess(x.id, s[j].id) {
      if j > 0 { StrLessTransitive(x.id, s[0].id, s[j].id); }
    }
    ConsStrict(x, s);
  }

  /** The head of `s` stays below everything, `x` included, after `x` goes into the tail. */
  lemma BelowAllInsert<B>(x: Versioned<B>, s: seq<Versioned<B>>)
    requires SortedById(s) && s != []
    requires StrictlySortedById(s) && StrLess(s[0].id, x.id)
    ensures forall e :: e in InsertById(x, s[1..]) ==> StrLess(s[0].id, e.id)
  {
    var t := InsertById(x, s[1..]);
    forall e | e in t ensures StrLess(s[0].id, e.id) {
      assert e in multiset(t);
      if e != x {
        assert e in multiset(s[1..]);
        var j :| 0 <= j < |s[1..]| && s[1..][j] == e;
        assert s[j + 1] == e;
      }
    }
  }

  lemma ConsStrict<B>(h: Versioned<B>, t: seq<Versioned<B>>)
    requires StrictlySortedById(t)
    requires forall e :: e in t ==> StrLess(h.id, e.id)
    ensures StrictlySortedById([h] + t)
  {
    var r := [h] + t;
    forall i, j | 0 <= i < j < |r| ensures StrLess(r[i].id, r[j].id) {
      assert r[j] == t[j - 1] && r[j] in t;
      if i > 0 { assert r[i] == t[i - 1]; }
    }
  }

  /** Sorting a table with unique keys orders it strictly by key. */
  lemma {:induction false} SortByIdStrict<B>(s: seq<Versioned<B>>)
    requires UniqueIds(s)
    ensures StrictlySortedById(SortById(s))
    ensures UniqueIds(SortById(s))
    decreases |s|
  {
    if s != [] {
      assert UniqueIds(s[1..]) by {
        forall i, j | 0 <= i < j < |s[1..]| ensures s[1..][i].id != s[1..][j].id {
          assert s[1..][i] == s[i + 1] && s[1..][j] == s[j + 1];
        }
      }
      SortByIdStrict(s[1..]);
      var t := SortById(s[1..]);
      forall e | e in t ensures e.id != s[0].id {
        assert e in multiset(t);
        assert e in multiset(s[1..]);
        var j :| 0 <= j < |s[1..]| && s[1..][j] == e;
        assert s[j + 1] == e;
      }
      InsertByIdStrict(s[0], t);
    }
    var r := SortById(s);
    forall i, j | 0 <= i < j < |r| ensures r[i].id != r[j].id {
      StrLessIrreflexive(r[i].id);
    }
  }

  lemma TailSorted<B>(a: seq<Versioned<B>>)
    requires SortedById(a) && a != []
    ensures SortedById(a[1..])
  {
    forall p, q | 0 <= p < q < |a[1..]| ensures StrLessEq(a[1..][p].id, a[1..][q].id) {
      assert a[1..][p] == a[p + 1] && a[1..][q] == a[q + 1];
    }
  }

  lemma TailUnique<B>(a: seq<Versioned<B>>)
    requires UniqueIds(a) && a != []
    ensures UniqueIds(a[1..])
  {
    forall p, q | 0 <= p < q < |a[1..]| ensures a[1..][p].id != a[1..][q].id {
      assert a[1..][p] == a[p + 1] && a[1..][q] == a[q + 1];
    }
  }

  /** Two sorted permutations of a table with unique keys start with the same row. */
  lemma SameHead<B>(a: seq<Versioned<B>>, b: seq<Versioned<B>>)
    requires SortedById(a) && SortedById(b) && UniqueIds(a)
    requires multiset(a) == multiset(b) && a != []
    ensures b != [] && a[0] == b[0]
  {
    assert |b| == |multiset(b)| == |multiset(a)| == |a|;
    assert a[0] in multiset(b);
    var j :| 0 <= j < |b| && b[j] == a[0];
    assert b[0] in multiset(a);
    var i :| 0 <= i < |a| && a[i] == b[0];
    assert StrLessEq(b[0].id, a[0].id);
    assert StrLessEq(a[0].id, b[0].id);
    StrLessEqAntisymmetric(a[0].id, b[0].id);
  }

  /**
   * A table with unique keys has only one ordering sorted by key, so any
   * sorting algorithm (stable or not) yields the same table.
   */
  lemma {:induction false} SortedUniqueIsDetermined<B>(a: seq<Versioned<B>>, b: seq<Versioned<B>>)
    requires SortedById(a) && SortedById(b) && UniqueIds(a)
    requires multiset(a) == multiset(b)
    ensures a == b
    decreases |a|
  {
    if a == [] {
      assert |multiset(b)| == 0;
    } else {
      SameHead(a, b);
      assert a == [a[0]] + a[1..] && b == [b[0]] + b[1..];
      assert multiset(a[1..]) == multiset(a) - multiset{a[0]};
      assert multiset(b[1..]) == multiset(b) - multiset{b[0]};
      TailSorted(a);
      TailSorted(b);
      TailUnique(a);
      SortedUniqueIsDetermined(a[1..], b[1..]);
    }
  }
}
