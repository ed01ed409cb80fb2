/**
 * The pure half of `get_price`: grouping the caller's profile by
 * (region, voltage level), the completeness verdict on the cached rows of
 * one group, the window each verdict asks to fetch, and the left join that
 * projects cached prices onto the profile rows.
 */
module Completeness {
  import opened Wrappers
  import opened Records
  import opened Chunking
  import opened Fetcher

  /** What `get_price` raises. */
  datatype PriceError =
    | FetchFailed(cause: FetchError)   // a gap-filling request raised
    | UnboundFocus                     // every attempt of the first group ended in `continue`
    | JoinLengthMismatch               // a profile row matched several cached rows

  /** One row of the caller's profile: `from_utc`, `to_utc`, `region`, `voltage_level`. */
  datatype ProfileRow = ProfileRow(from: int, to: int, region: string, voltageLevel: string)

  /** A (region, voltage level) combination of the profile. */
  datatype GroupKey = GroupKey(region: string, voltageLevel: string)

  function KeyOf(r: ProfileRow): GroupKey { GroupKey(r.region, r.voltageLevel) }

  // ---------------------------------------------------------------------
  // Grouping
  // ---------------------------------------------------------------------

  /** The distinct combinations, in order of first appearance (`drop_duplicates`). */
  function DistinctKeys(rows: seq<ProfileRow>): (keys: seq<GroupKey>)
    ensures forall i, j :: 0 <= i < j < |keys| ==> keys[i] != keys[j]
    ensures forall k :: k in keys <==> exists r :: r in rows && KeyOf(r) == k
  {
    if rows == [] then []
    else
      var prefix := rows[..|rows| - 1];
      assert rows == prefix + [rows[|rows| - 1]];
      var d := DistinctKeys(prefix);
      if KeyOf(rows[|rows| - 1]) in d then d else d + [KeyOf(rows[|rows| - 1])]
  }

  /** Whether some row has combination `k`. */
  predicate Occurs(rows: seq<ProfileRow>, k: GroupKey)
  {
    exists i :: 0 <= i < |rows| && KeyOf(rows[i]) == k
  }

  /** The position of the first row with combination `k`. */
  function FirstIndex(rows: seq<ProfileRow>, k: GroupKey): (i: int)
    requires Occurs(rows, k)
    ensures 0 <= i < |rows| && KeyOf(rows[i]) == k
    ensures forall j :: 0 <= j < i ==> KeyOf(rows[j]) != k
    decreases |rows|
  {
    if KeyOf(rows[0]) == k then 0
    else
      assert Occurs(rows[1..], k) by {
        var i :| 0 <= i < |rows| && KeyOf(rows[i]) == k;
        assert KeyOf(rows[1..][i - 1]) == k;
      }
      1 + FirstIndex(rows[1..], k)
  }

  lemma FirstIndexInPrefix(rows: seq<ProfileRow>, k: GroupKey, n: int)
    requires 0 <= n <= |rows| && Occurs(rows[..n], k)
    ensures Occurs(rows, k) && FirstIndex(rows, k) == FirstIndex(rows[..n], k)
  {
    var p := FirstIndex(rows[..n], k);
    assert KeyOf(rows[p]) == k;
  }

  /** Combinations are listed in the order in which they first appear in the profile. */
  lemma {:induction false} DistinctKeysInFirstAppearanceOrder(rows: seq<ProfileRow>, i: int, j: int)
    requires 0 <= i < j < |DistinctKeys(rows)|
    ensures Occurs(rows, DistinctKeys(rows)[i]) && Occurs(rows, DistinctKeys(rows)[j])
    ensures FirstIndex(rows, DistinctKeys(rows)[i]) < FirstIndex(rows, DistinctKeys(rows)[j])
    decreases |rows|
  {
    var keys := DistinctKeys(rows);
    var n := |rows| - 1;
    var prefix := rows[..n];
    assert rows == prefix + [rows[n]];
    var d := DistinctKeys(prefix);
    forall m | 0 <= m < |keys| ensures Occurs(rows, keys[m]) {
      assert keys[m] in keys;
      var r :| r in rows && KeyOf(r) == keys[m];
      var p :| 0 <= p < |rows| && rows[p] == r;
    }
    assert Occurs(prefix, keys[i]) by {
      assert keys[i] in d;
      var r :| r in prefix && KeyOf(r) == keys[i];
      var p :| 0 <= p < |prefix| && prefix[p] == r;
    }
    FirstIndexInPrefix(rows, keys[i], n);
    if j < |d| {
      DistinctKeysInFirstAppearanceOrder(prefix, i, j);
      FirstIndexInPrefix(rows, keys[j], n);
    } else {
      // keys[j] is the last row's combination, seen nowhere before it
      assert keys[j] == KeyOf(rows[n]) && keys[j] !in d;
      forall p | 0 <= p < n ensures KeyOf(rows[p]) != keys[j] {
        assert prefix[p] in prefix;
      }
    }
  }

  /** The rows of one combination, in profile order (the `ixs` mask). */
  function GroupRows(rows: seq<ProfileRow>, k: GroupKey): (g: seq<ProfileRow>)
    ensures forall r :: r in g <==> r in rows && KeyOf(r) == k
  {
    if rows == [] then []
    else (if KeyOf(rows[0]) == k then [rows[0]] else []) + GroupRows(rows[1..], k)
  }

  function MinFrom(g: seq<ProfileRow>): (m: int)
    requires g != []
    ensures forall r :: r in g ==> m <= r.from
    ensures exists r :: r in g && r.from == m
  {
    if |g| == 1 then g[0].from else Min(g[0].from, MinFrom(g[1..]))
  }

  function MaxTo(g: seq<ProfileRow>): (m: int)
    requires g != []
    ensures forall r :: r in g ==> r.to <= m
    ensures exists r :: r in g && r.to == m
  {
    if |g| == 1 then g[0].to else if g[0].to >= MaxTo(g[1..]) then g[0].to else MaxTo(g[1..])
  }

  /** The window a group asks for: its earliest start to its latest end. */
  function GroupWindow(rows: seq<ProfileRow>, k: GroupKey): (w: Window)
    requires k in DistinctKeys(rows)
    ensures forall r :: r in rows && KeyOf(r) == k ==> w.start <= r.from && r.to <= w.end
    ensures exists r :: r in rows && KeyOf(r) == k && r.from == w.start
    ensures exists r :: r in rows && KeyOf(r) == k && r.to == w.end
  {
    var r :| r in rows && KeyOf(r) == k;
    assert r in GroupRows(rows, k);
    Window(MinFrom(GroupRows(rows, k)), MaxTo(GroupRows(rows, k)))
  }

  // ---------------------------------------------------------------------
  // The completeness verdict
  // ---------------------------------------------------------------------

  /** A cached row of the group: its region and its (caller's) voltage match. */
  predicate Serves(x: PriceRecord, region: string, voltage: string)
  {
    x.body.region == region && x.body.voltage == voltage
  }

  /** A cached row lying within the window. */
  predicate Inside(x: PriceRecord, lo: int, hi: int)
  {
    x.body.from >= lo && x.body.to <= hi
  }

  /** The cached rows of the group (`cache_ixs`), in cache order. */
  function Serving(cache: seq<PriceRecord>, region: string, voltage: string): (m: seq<PriceRecord>)
    ensures forall x :: x in m <==> x in cache && Serves(x, region, voltage)
  {
    if cache == [] then []
    else (if Serves(cache[0], region, voltage) then [cache[0]] else []) + Serving(cache[1..], region, voltage)
  }

  /** The cached rows of the group within the window (`focused_cached_data`), in cache order. */
  function Focused(cache: seq<PriceRecord>, region: string, voltage: string, lo: int, hi: int): (f: seq<PriceRecord>)
    ensures forall x :: x in f <==> x in cache && Serves(x, region, voltage) && Inside(x, lo, hi)
    ensures forall x :: multiset(f)[x] == if Serves(x, region, voltage) && Inside(x, lo, hi) then multiset(cache)[x] else 0
    ensures |f| <= |cache|
  {
    if cache == [] then []
    else
      assert multiset(cache) == multiset{cache[0]} + multiset(cache[1..]) by { assert cache == [cache[0]] + cache[1..]; }
      (if Serves(cache[0], region, voltage) && Inside(cache[0], lo, hi) then [cache[0]] else [])
      + Focused(cache[1..], region, voltage, lo, hi)
  }

  function FirstAvailable(m: seq<PriceRecord>): (a: int)
    requires m != []
    ensures forall x :: x in m ==> a <= x.body.from
    ensures exists x :: x in m && x.body.from == a
  {
    if |m| == 1 then m[0].body.from else Min(m[0].body.from, FirstAvailable(m[1..]))
  }

  function LastAvailable(m: seq<PriceRecord>): (a: int)
    requires m != []
    ensures forall x :: x in m ==> x.body.to <= a
    ensures exists x :: x in m && x.body.to == a
  {
    if |m| == 1 then m[0].body.to
    else if m[0].body.to >= LastAvailable(m[1..]) then m[0].body.to else LastAvailable(m[1..])
  }

  /** Python's `int(a / b)`: the quotient truncated toward zero. */
  function TruncDiv(a: int, b: int): (q: int)
    requires b > 0
    ensures a >= 0 ==> q * b <= a < (q + 1) * b
    ensures a < 0 ==> (q - 1) * b < a <= q * b
  {
    if a >= 0 then a / b else -((-a) / b)
  }

  /** The number of half-hour slots the count check expects in a window. */
  function ExpectedSlots(lo: int, hi: int): int { TruncDiv(hi - lo, SlotSeconds) }

  /** The outcome of one completeness test, in the order the tests are made. */
  datatype Verdict =
    | NoData                              // no cached row of the group
    | MissingLeading(first: int)          // the window starts before the first cached start
    | MissingTrailing(last: int)          // the window ends after the last cached end
    | InteriorGap(focused: seq<PriceRecord>)   // the slot count inside the window is off
    | Complete(focused: seq<PriceRecord>)

  /** One pass of the attempt loop's tests over the current cache. */
  function Check(cache: seq<PriceRecord>, region: string, voltage: string, lo: int, hi: int): Verdict
  {
    var m := Serving(cache, region, voltage);
    if |m| == 0 then NoData
    else if lo < FirstAvailable(m) then MissingLeading(FirstAvailable(m))
    else if hi > LastAvailable(m) then MissingTrailing(LastAvailable(m))
    else
      var f := Focused(cache, region, voltage, lo, hi);
      if |f| != ExpectedSlots(lo, hi) then InteriorGap(f) else Complete(f)
  }

  /**
   * What each verdict says about the group's cached rows: none at all; a
   * first cached start after the window's start; coverage of the start but
   * a last cached end before the window's end; or coverage of both ends,
   * with the rows inside the window counted against the expected slots.
   */
  lemma CheckMeans(cache: seq<PriceRecord>, region: string, voltage: string, lo: int, hi: int)
    ensures var v := Check(cache, region, voltage, lo, hi);
      && (v.NoData? <==> forall x :: x in cache ==> !Serves(x, region, voltage))
      && (v.MissingLeading? ==>
        lo < v.first &&
        (forall x :: x in cache && Serves(x, region, voltage) ==> v.first <= x.body.from) &&
        (exists x :: x in cache && Serves(x, region, voltage) && x.body.from == v.first))
      && (v.MissingTrailing? ==>
        hi > v.last &&
        (exists x :: x in cache && Serves(x, region, voltage) && x.body.from <= lo) &&
        (forall x :: x in cache && Serves(x, region, voltage) ==> x.body.to <= v.last) &&
        (exists x :: x in cache && Serves(x, region, voltage) && x.body.to == v.last))
      && ((v.InteriorGap? || v.Complete?) ==>
        (exists x :: x in cache && Serves(x, region, voltage) && x.body.from <= lo) &&
        (exists x :: x in cache && Serves(x, region, voltage) && x.body.to >= hi) &&
        (forall x :: x in v.focused <==> x in cache && Serves(x, region, voltage) && Inside(x, lo, hi)))
      && (v.InteriorGap? ==> |v.focused| != ExpectedSlots(lo, hi))
      && (v.Complete? ==> |v.focused| == ExpectedSlots(lo, hi))
  {
    var m := Serving(cache, region, voltage);
    if |m| > 0 && lo >= FirstAvailable(m) && hi > LastAvailable(m) {
      forall x | x in cache && Serves(x, region, voltage) ensures x.body.to <= LastAvailable(m) {
        assert x in m;
      }
    }
  }

  /** The window a verdict asks to fetch before the next attempt; none when complete. */
  function FillWindow(v: Verdict, lo: int, hi: int): (w: Option<Window>)
    ensures w.None? <==> v.Complete?
    ensures (v.NoData? || v.InteriorGap?) ==> w == Some(Window(lo, hi))
    ensures v.MissingLeading? ==> w == Some(Window(lo, v.first))
    ensures v.MissingTrailing? ==> w == Some(Window(v.last, hi))
  {
    match v
    case NoData => Some(Window(lo, hi))
    case MissingLeading(first) => Some(Window(lo, first))
    case MissingTrailing(last) => Some(Window(last, hi))
    case InteriorGap(_) => Some(Window(lo, hi))
    case Complete(_) => None
  }

  /** The boundary fills are never empty: the leading one starts at the window's start, the trailing one ends at its end. */
  lemma BoundaryFillsAreNonEmpty(cache: seq<PriceRecord>, region: string, voltage: string, lo: int, hi: int)
    ensures var v := Check(cache, region, voltage, lo, hi);
      (v.MissingLeading? || v.MissingTrailing?) ==>
        var w := FillWindow(v, lo, hi).value;
        w.start < w.end && (v.MissingLeading? ==> w.start == lo) && (v.MissingTrailing? ==> w.end == hi)
  {
  }

  // ---------------------------------------------------------------------
  // What a complete verdict does and does not promise
  // ---------------------------------------------------------------------

  /** The starts of the half-hour slots of a window beginning at `lo`. */
  function SlotStarts(lo: int, n: nat): (s: set<int>)
    ensures |s| == n
    ensures forall t :: t in s <==> exists k :: 0 <= k < n && t == lo + k * SlotSeconds
  {
    if n == 0 then {}
    else
      var s := SlotStarts(lo, n - 1);
      assert lo + (n - 1) * SlotSeconds !in s;
      s + {lo + (n - 1) * SlotSeconds}
  }

  /** The distinct starts of a sequence of rows. */
  function StartsOf(f: seq<PriceRecord>): (s: set<int>)
    ensures forall t :: t in s <==> exists i :: 0 <= i < |f| && f[i].body.from == t
    decreases |f|
  {
    if f == [] then {}
    else
      var s := StartsOf(f[1..]);
      assert forall i :: 1 <= i < |f| ==> f[i] == f[1..][i - 1];
      {f[0].body.from} + s
  }

  lemma {:induction false} StartsOfDistinct(f: seq<PriceRecord>)
    requires forall i, j :: 0 <= i < j < |f| ==> f[i].body.from != f[j].body.from
    ensures |StartsOf(f)| == |f|
    decreases |f|
  {
    if f != [] {
      var tail := f[1..];
      forall i, j | 0 <= i < j < |tail| ensures tail[i].body.from != tail[j].body.from {
        assert tail[i] == f[i + 1] && tail[j] == f[j + 1];
      }
      StartsOfDistinct(tail);
      forall j | 0 <= j < |tail| ensures tail[j].body.from != f[0].body.from {
        assert tail[j] == f[j + 1];
      }
      assert f[0].body.from !in StartsOf(tail);
      assert StartsOf(f) == {f[0].body.from} + StartsOf(tail);
    }
  }

  lemma SubsetOfSameSize(a: set<int>, b: set<int>)
    requires a <= b && |a| == |b|
    ensures a == b
  {
    assert a + b == b && a * b == a;
    assert |b - a| + |a - b| + |a * b| == |a + b|;
    assert a - b == {};
  }

  /** A start on the grid from `lo` whose slot ends by `hi` is one of the window's slot starts. */
  lemma OnGridIsSlot(t: int, lo: int, hi: int)
    requires lo <= t && t + SlotSeconds <= hi && (t - lo) % SlotSeconds == 0
    ensures ExpectedSlots(lo, hi) >= 1 && t in SlotStarts(lo, ExpectedSlots(lo, hi))
  {
    var k := (t - lo) / 1800;
    assert t - lo == k * 1800;
    assert k >= 0;
    var n := (hi - lo) / 1800;
    assert ExpectedSlots(lo, hi) == n;
    assert (k + 1) * 1800 <= hi - lo;
    assert k + 1 <= n;
  }

  /**
   * Rows inside [lo, hi) that sit on the half-hour grid from `lo`, last one
   * slot and start at distinct times: when there are as many of them as the
   * window has slots, every slot start is one of theirs.
   */
  lemma GridRowsCoverSlots(f: seq<PriceRecord>, lo: int, hi: int)
    requires forall i :: 0 <= i < |f| ==>
      lo <= f[i].body.from && f[i].body.to <= hi &&
      (f[i].body.from - lo) % SlotSeconds == 0 && f[i].body.to == f[i].body.from + SlotSeconds
    requires forall i, j :: 0 <= i < j < |f| ==> f[i].body.from != f[j].body.from
    requires |f| == ExpectedSlots(lo, hi)
    ensures forall k :: 0 <= k < |f| ==> lo + k * SlotSeconds in StartsOf(f)
  {
    if |f| > 0 {
      var slots := SlotStarts(lo, |f|);
      GridStartsAreSlots(f, lo, hi, |f|);
      StartsOfDistinct(f);
      SubsetOfSameSize(StartsOf(f), slots);
    }
  }

  /** Every start of rows on the window's grid is one of the window's slot starts. */
  lemma GridStartsAreSlots(f: seq<PriceRecord>, lo: int, hi: int, n: nat)
    requires forall i :: 0 <= i < |f| ==>
      lo <= f[i].body.from && f[i].body.to <= hi &&
      (f[i].body.from - lo) % SlotSeconds == 0 && f[i].body.to == f[i].body.from + SlotSeconds
    requires n == ExpectedSlots(lo, hi)
    ensures StartsOf(f) <= SlotStarts(lo, n)
  {
    forall t | t in StartsOf(f) ensures t in SlotStarts(lo, n) {
      GridStartIsSlot(f, lo, hi, n, t);
    }
  }

  lemma GridStartIsSlot(f: seq<PriceRecord>, lo: int, hi: int, n: nat, t: int)
    requires forall i :: 0 <= i < |f| ==>
      lo <= f[i].body.from && f[i].body.to <= hi &&
      (f[i].body.from - lo) % SlotSeconds == 0 && f[i].body.to == f[i].body.from + SlotSeconds
    requires n == ExpectedSlots(lo, hi)
    requires t in StartsOf(f)
    ensures t in SlotStarts(lo, n)
  {
    var i :| 0 <= i < |f| && f[i].body.from == t;
    RowStartIsSlot(f[i], lo, hi, n);
  }

  lemma RowStartIsSlot(x: PriceRecord, lo: int, hi: int, n: nat)
    requires lo <= x.body.from && x.body.to <= hi
    requires (x.body.from - lo) % SlotSeconds == 0 && x.body.to == x.body.from + SlotSeconds
    requires n == ExpectedSlots(lo, hi)
    ensures x.body.from in SlotStarts(lo, n)
  {
    OnGridIsSlot(x.body.from, lo, hi);
  }

  /**
   * A complete verdict over rows that sit on the window's half-hour grid,
   * last one slot and start at distinct times means every slot of the window
   * has a cached row of the group: the count check then really is a coverage check.
   */
  lemma CompleteOnGridCoversEverySlot(cache: seq<PriceRecord>, region: string, voltage: string, lo: int, hi: int)
    requires Check(cache, region, voltage, lo, hi).Complete?
    requires forall x :: x in cache ==> (x.body.from - lo) % SlotSeconds == 0 && x.body.to == x.body.from + SlotSeconds
    requires var f := Check(cache, region, voltage, lo, hi).focused;
      forall i, j :: 0 <= i < j < |f| ==> f[i].body.from != f[j].body.from
    ensures forall k :: 0 <= k < ExpectedSlots(lo, hi) ==>
      exists x :: x in cache && Serves(x, region, voltage) && x.body.from == lo + k * SlotSeconds && x.body.to <= hi
  {
    var f := Check(cache, region, voltage, lo, hi).focused;
    assert forall i :: 0 <= i < |f| ==> f[i] in f;
    GridRowsCoverSlots(f, lo, hi);
    forall k | 0 <= k < ExpectedSlots(lo, hi)
      ensures exists x :: x in cache && Serves(x, region, voltage) && x.body.from == lo + k * SlotSeconds && x.body.to <= hi
    {
      var i :| 0 <= i < |f| && f[i].body.from == lo + k * SlotSeconds;
      assert f[i] in f;
    }
  }

  /** A London low-voltage row of one slot starting at `t`. */
  function SampleRow(id: string, t: int): PriceRecord
  {
    Versioned(id, 1, PriceBody("London", "LV", t, t + SlotSeconds, "Low Voltage: <1kV", "12", Missing))
  }

  /** Rows starting at 0, 900 and 3600: nothing starts at 1800. */
  function HoleSample(): seq<PriceRecord>
  {
    [SampleRow("a", 0), SampleRow("b", 900), SampleRow("c", 3600)]
  }

  lemma HoleSampleServed()
    ensures Serving(HoleSample(), "London", "Low Voltage: <1kV") == HoleSample()
    ensures FirstAvailable(HoleSample()) == 0 && LastAvailable(HoleSample()) == 3600 + SlotSeconds
  {
    HoleSampleServing();
    var cache := HoleSample();
    var c1, c2 := cache[1..], cache[2..];
    assert c2[0] == SampleRow("c", 3600) && c2[1..] == [];
    assert c1[0] == SampleRow("b", 900) && c1[1..] == c2;
    assert FirstAvailable(c1) == 900;
    assert LastAvailable(c1) == 3600 + SlotSeconds;
  }

  lemma HoleSampleServing()
    ensures Serving(HoleSample(), "London", "Low Voltage: <1kV") == HoleSample()
  {
    var cache := HoleSample();
    var region, voltage := "London", "Low Voltage: <1kV";
    var c1, c2 := cache[1..], cache[2..];
    assert c2[0] == SampleRow("c", 3600) && c2[1..] == [];
    assert c1[0] == SampleRow("b", 900) && c1[1..] == c2;
    assert Serving(c2, region, voltage) == c2;
    assert Serving(c1, region, voltage) == c1;
    assert Serving(cache, region, voltage) == [cache[0]] + c1;
  }

  lemma HoleSampleFocused()
    ensures |Focused(HoleSample(), "London", "Low Voltage: <1kV", 0, 3600)| == 2
  {
    var cache := HoleSample();
    var region, voltage := "London", "Low Voltage: <1kV";
    var c1, c2 := cache[1..], cache[2..];
    assert c2[0] == SampleRow("c", 3600) && c2[1..] == [];
    assert c1[0] == SampleRow("b", 900) && c1[1..] == c2;
    assert Focused(c2, region, voltage, 0, 3600) == [];
    assert Focused(c1, region, voltage, 0, 3600) == [c1[0]];
  }

  /**
   * Without the grid condition the count check can pass over a hole: rows
   * starting at 0, 900 and 3600 make the window [0, 3600) complete although
   * no row starts at 1800.
   */
  lemma CountCheckMissesOffGridHole()
    ensures Check(HoleSample(), "London", "Low Voltage: <1kV", 0, 3600).Complete?
    ensures forall x :: x in HoleSample() ==> x.body.from != 1800
  {
    HoleSampleServed();
    HoleSampleFocused();
    var m := Serving(HoleSample(), "London", "Low Voltage: <1kV");
    assert |m| == 3 && FirstAvailable(m) == 0 && LastAvailable(m) == 3600 + SlotSeconds;
    assert ExpectedSlots(0, 3600) == 2;
    HoleSampleHasHole();
  }

  lemma HoleSampleHasHole()
    ensures forall x :: x in HoleSample() ==> x.body.from != 1800
  {
    var cache := HoleSample();
    assert cache[0].body.from == 0 && cache[1].body.from == 900 && cache[2].body.from == 3600;
    forall x | x in cache ensures x.body.from != 1800 {
      var i :| 0 <= i < 3 && cache[i] == x;
    }
  }

  // ---------------------------------------------------------------------
  // The left join
  // ---------------------------------------------------------------------

  /** How many rows of the focus start at `t`. */
  function CountAt(focus: seq<PriceRecord>, t: int): nat
  {
    if focus == [] then 0 else (if focus[0].body.from == t then 1 else 0) + CountAt(focus[1..], t)
  }

  lemma {:induction false} CountAtZero(focus: seq<PriceRecord>, t: int)
    ensures CountAt(focus, t) == 0 <==> forall x :: x in focus ==> x.body.from != t
    decreases |focus|
  {
    if focus != [] {
      CountAtZero(focus[1..], t);
      assert focus == [focus[0]] + focus[1..];
    }
  }

  /** The position of the first row starting at `t`. */
  function IndexAt(focus: seq<PriceRecord>, t: int): (i: int)
    requires CountAt(focus, t) > 0
    ensures 0 <= i < |focus| && focus[i].body.from == t
    decreases |focus|
  {
    if focus[0].body.from == t then 0 else 1 + IndexAt(focus[1..], t)
  }

  /**
   * The price the left merge gives a profile row starting at `t`: Missing
   * when no cached row starts then, that row's price when exactly one does,
   * and a length mismatch when several do.
   */
  function LookupPrice(focus: seq<PriceRecord>, t: int): (r: Result<Metric, PriceError>)
    ensures r.Err? <==> CountAt(focus, t) > 1
    ensures r.Err? ==> r.error == JoinLengthMismatch
    ensures (forall x :: x in focus ==> x.body.from != t) ==> r == Ok(Missing)
    ensures r.Ok? && (exists x :: x in focus && x.body.from == t) ==>
      exists x :: x in focus && x.body.from == t && r.value == x.body.penniesPerKwh
  {
    CountAtZero(focus, t);
    var c := CountAt(focus, t);
    if c == 0 then Ok(Missing)
    else if c == 1 then Ok(focus[IndexAt(focus, t)].body.penniesPerKwh)
    else Err(JoinLengthMismatch)
  }

  /**
   * The projection of one group: an entry per profile row, none for rows of
   * other groups, the looked-up price for the group's own rows, or the
   * first lookup error.
   */
  function Join(profile: seq<ProfileRow>, k: GroupKey, focus: seq<PriceRecord>): (r: Result<seq<Option<Metric>>, PriceError>)
    ensures r.Err? ==> r.error == JoinLengthMismatch
    ensures r.Ok? ==> |r.value| == |profile|
    decreases |profile|
  {
    if profile == [] then Ok([])
    else
      var rest := Join(profile[1..], k, focus);
      if KeyOf(profile[0]) != k then
        if rest.Err? then rest else Ok([None] + rest.value)
      else
        match LookupPrice(focus, profile[0].from)
        case Err(e) => Err(e)
        case Ok(p) => if rest.Err? then rest else Ok([Some(p)] + rest.value)
  }

  /**
   * The join succeeds exactly when no row of the group meets several cached
   * rows; then rows of other groups get no entry and the group's rows get
   * the price their lookup gives.
   */
  lemma {:induction false} JoinMeans(profile: seq<ProfileRow>, k: GroupKey, focus: seq<PriceRecord>)
    ensures var r := Join(profile, k, focus);
      && (r.Ok? <==> forall i :: 0 <= i < |profile| && KeyOf(profile[i]) == k ==> CountAt(focus, profile[i].from) <= 1)
      && (r.Ok? ==> forall i :: 0 <= i < |profile| ==>
            (r.value[i].None? <==> KeyOf(profile[i]) != k) &&
            (KeyOf(profile[i]) == k ==> Ok(r.value[i].value) == LookupPrice(focus, profile[i].from)))
    decreases |profile|
  {
    if profile != [] {
      JoinMeans(profile[1..], k, focus);
      assert forall i :: 1 <= i < |profile| ==> profile[i] == profile[1..][i - 1];
    }
  }

  /**
   * The join never fails on a focus whose keys are unique and were derived
   * from one region and voltage level: then no two of its rows start together.
   */
  lemma JoinSucceedsOnKeyedFocus(profile: seq<ProfileRow>, k: GroupKey, focus: seq<PriceRecord>, region: string, level: string)
    requires forall i, j :: 0 <= i < j < |focus| ==> focus[i].id != focus[j].id
    requires forall x :: x in focus ==>
      x.body.region == region && x.body.voltageLevel == level && x.id == CompositeId(region, level, x.body.from)
    ensures Join(profile, k, focus).Ok?
  {
    forall i, j | 0 <= i < j < |focus| ensures focus[i].body.from != focus[j].body.from {
      assert focus[i] in focus && focus[j] in focus;
    }
    forall t: int ensures CountAt(focus, t) <= 1 {
      DistinctStartsCountOnce(focus, t);
    }
    JoinMeans(profile, k, focus);
  }

  lemma {:induction false} DistinctStartsCountOnce(focus: seq<PriceRecord>, t: int)
    requires forall i, j :: 0 <= i < j < |focus| ==> focus[i].body.from != focus[j].body.from
    ensures CountAt(focus, t) <= 1
    decreases |focus|
  {
    if focus != [] {
      var tail := focus[1..];
      forall i, j | 0 <= i < j < |tail| ensures tail[i].body.from != tail[j].body.from {
        assert tail[i] == focus[i + 1] && tail[j] == focus[j + 1];
      }
      DistinctStartsCountOnce(tail, t);
      if focus[0].body.from == t {
        CountAtZero(tail, t);
        forall x | x in tail ensures x.body.from != t {
          var j :| 0 <= j < |tail| && tail[j] == x;
          assert focus[j + 1] == x;
        }
      }
    }
  }
}
