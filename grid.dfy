/**
 * The connection object: two record stores (price and CO2 batch files), the
 * in-memory caches built from them, the nanosecond clock that names fetches,
 * and the operations that read, fill and consolidate them.
 */
module Grid {
  import opened Wrappers
  import opened Records
  import opened Dedup
  import opened Chunking
  import opened Fetcher
  import opened Completeness

  /** Reading a store that holds no file yet: the table has no columns, so selecting one raises. */
  datatype StoreError = NoColumns

  /** Keep-latest when asked for. */
  function Latest<B(==)>(rows: seq<Versioned<B>>, keepLatest: bool): seq<Versioned<B>>
  {
    if keepLatest then KeepLatest(rows) else rows
  }

  /** A store read into one table, (deduplicated and) sorted by key. */
  function Table<B(==)>(files: seq<Batch<B>>, keepLatest: bool): seq<Versioned<B>>
  {
    SortById(Latest(LoadAll(files), keepLatest))
  }

  /** What `refresh_price_cache` leaves in the price cache; an empty store gives an empty cache. */
  function PriceView(files: seq<Batch<PriceBody>>, keepLatest: bool): seq<PriceRecord>
  {
    if |LoadAll(files)| == 0 then [] else Table(files, keepLatest)
  }

  /** What `refresh_co2_cache` leaves in the CO2 cache, or the error it raises on a store with no file. */
  function Co2View(files: seq<Batch<IntensityBody>>, keepLatest: bool): Result<seq<IntensityRecord>, StoreError>
  {
    if files == [] then Err(NoColumns) else Ok(Table(files, keepLatest))
  }

  /**
   * A refreshed keep-latest table is strictly sorted by key, holds each key
   * of the store exactly once, is a permutation of the keep-latest rows, and
   * each of its rows is a stored row with the greatest `created` of its key,
   * the first such row on a tie: the uniqueness assertions of the refresh
   * and of the consolidation always hold.
   */
  lemma RefreshedTableIsLatest<B>(files: seq<Batch<B>>)
    ensures var all := LoadAll(files); var t := Table(files, true);
      && StrictlySortedById(t)
      && UniqueIds(t)
      && Ids(t) == Ids(all)
      && multiset(t) == multiset(KeepLatest(all))
      && forall r :: r in t ==> exists i :: (0 <= i < |all| && all[i] == r &&
           (forall j :: 0 <= j < |all| && all[j].id == r.id ==> all[j].created <= r.created) &&
           (forall j :: 0 <= j < i && all[j].id == r.id ==> all[j].created < r.created))
  {
    var all := LoadAll(files);
    KeepLatestOnePerId(all);
    SortByIdStrict(KeepLatest(all));
    var t := Table(files, true);
    assert Ids(t) == Ids(KeepLatest(all)) by {
      forall x ensures x in Ids(t) <==> x in Ids(KeepLatest(all)) {
        if x in Ids(t) {
          var r :| r in t && r.id == x;
          assert r in multiset(t);
        }
        if x in Ids(KeepLatest(all)) {
          var r :| r in KeepLatest(all) && r.id == x;
          assert r in multiset(KeepLatest(all));
        }
      }
    }
    forall r | r in t ensures exists i :: (0 <= i < |all| && all[i] == r &&
      (forall j :: 0 <= j < |all| && all[j].id == r.id ==> all[j].created <= r.created) &&
      (forall j :: 0 <= j < i && all[j].id == r.id ==> all[j].created < r.created))
    {
      assert r in multiset(t);
      KeepLatestPicksLatest(all, r);
    }
  }

  /** Without dedup the refreshed table is the whole store, sorted by key. */
  lemma RefreshedTableKeepsAll<B>(files: seq<Batch<B>>)
    ensures SortedById(Table(files, false)) && multiset(Table(files, false)) == multiset(LoadAll(files))
  {
  }

  /** An empty price store refreshes to an empty cache; a CO2 store with no file raises instead. */
  lemma EmptyStores(priceFiles: seq<Batch<PriceBody>>, co2Files: seq<Batch<IntensityBody>>, keepLatest: bool)
    ensures LoadAll(priceFiles) == [] ==> PriceView(priceFiles, keepLatest) == []
    ensures co2Files == [] <==> Co2View(co2Files, keepLatest).Err?
  {
  }

  /** Every row of a table is a stored row. */
  lemma TableRowsAreStored<B>(files: seq<Batch<B>>, keepLatest: bool)
    ensures forall r :: r in Table(files, keepLatest) ==> r in LoadAll(files)
  {
    var all := LoadAll(files);
    forall r | r in Table(files, keepLatest) ensures r in all {
      assert r in multiset(Table(files, keepLatest));
      if keepLatest {
        KeepLatestFromMembers(all, 0, r);
      }
    }
  }

  /**
   * The first consolidation of a store leaves its refreshed keep-latest
   * table unchanged: the consolidated file only repeats rows that stay in the
   * store, so they never outrank the originals.
   */
  lemma FirstConsolidationKeepsTable<B>(files: seq<Batch<B>>, keepLatest: bool)
    requires !HasFile(files, ConsolidatedFile)
    ensures Table(Put(files, Batch(ConsolidatedFile, Table(files, keepLatest))), true) == Table(files, true)
  {
    var all := LoadAll(files);
    var c := Table(files, keepLatest);
    var files' := Put(files, Batch(ConsolidatedFile, c));
    assert files' == files + [Batch(ConsolidatedFile, c)];
    assert files'[..|files'| - 1] == files;
    assert LoadAll(files') == all + c;
    TableRowsAreStored(files, keepLatest);
    forall e | e in c ensures Dominated(all, e) {
      var p :| 0 <= p < |all| && all[p] == e;
    }
    KeepLatestIgnoresDominatedSuffix(all, c);
  }

  /** The price half of the connection's state, as the attempt loop sees it. */
  datatype PriceState = PriceState(clock: int, files: seq<Batch<PriceBody>>, cache: seq<PriceRecord>, calls: seq<Window>)

  /** The state after a fill request, and the error it raised if it did. */
  datatype Filled = Filled(state: PriceState, failure: Option<FetchError>)

  /** A price request for `w` made in state `s`, the batch stored when the cache is in use, and the refresh that follows. */
  function FillStep(api: PriceApi, useCache: bool, s: PriceState, region: string, voltage: string, w: Window): Filled
  {
    var run := PriceFetch(api, region, voltage, w, s.clock);
    var s1 := s.(clock := s.clock + run.ticks, calls := s.calls + run.calls);
    if run.result.Err? then Filled(s1, Some(run.result.error))
    else
      var files := if useCache then Put(s.files, Batch(FetchFile(s.clock), run.result.value)) else s.files;
      Filled(s1.(files := files, cache := PriceView(files, true)), None)
  }

  /** The outcome of a group's attempt loop: the final state, the focused rows then bound, the error raised, and the verdicts seen. */
  datatype Attempts = Attempts(state: PriceState, focus: Option<seq<PriceRecord>>, failure: Option<PriceError>, verdicts: seq<Verdict>)

  /**
   * The attempt loop with `left` attempts to go, over a cache test and a
   * fill request: test the cache, bind the focus when the count was tested,
   * stop when complete, otherwise fetch the verdict's window and try again.
   */
  function AttemptLoop(test: seq<PriceRecord> -> Verdict, fill: (PriceState, Window) -> Filled, lo: int, hi: int,
                       s: PriceState, focus: Option<seq<PriceRecord>>, left: nat, trace: seq<Verdict>): Attempts
    decreases left
  {
    if left == 0 then Attempts(s, focus, None, trace)
    else
      var v := test(s.cache);
      var focus' := if v.InteriorGap? || v.Complete? then Some(v.focused) else focus;
      if v.Complete? then Attempts(s, focus', None, trace + [v])
      else
        var f := fill(s, FillWindow(v, lo, hi).value);
        if f.failure.Some? then Attempts(f.state, focus', Some(FetchFailed(f.failure.value)), trace + [v])
        else AttemptLoop(test, fill, lo, hi, f.state, focus', left - 1, trace + [v])
  }

  /** The completeness test of one group. */
  function GroupTest(region: string, voltage: string, lo: int, hi: int): seq<PriceRecord> -> Verdict
  {
    (cache: seq<PriceRecord>) => Check(cache, region, voltage, lo, hi)
  }

  /** The fill request of one group. */
  function GroupFill(api: PriceApi, useCache: bool, region: string, voltage: string): (PriceState, Window) -> Filled
  {
    (s: PriceState, w: Window) => FillStep(api, useCache, s, region, voltage, w)
  }

  /** The four-attempt loop of `get_price` for one group. */
  function GroupRun(api: PriceApi, useCache: bool, s: PriceState, region: string, voltage: string, lo: int, hi: int,
                    focus: Option<seq<PriceRecord>>): Attempts
  {
    AttemptLoop(GroupTest(region, voltage, lo, hi), GroupFill(api, useCache, region, voltage), lo, hi, s, focus, 4, [])
  }

  /**
   * The loop makes at most `left` attempts; every attempt but the last
   * found the cache incomplete; it ends early only on a complete verdict or
   * a failed request; and a complete verdict is the final cache's verdict,
   * its rows being the focus.
   */
  lemma {:induction false} AttemptLoopShape(test: seq<PriceRecord> -> Verdict, fill: (PriceState, Window) -> Filled, lo: int, hi: int,
                                            s: PriceState, focus: Option<seq<PriceRecord>>, left: nat, trace: seq<Verdict>)
    ensures var g := AttemptLoop(test, fill, lo, hi, s, focus, left, trace);
      && |trace| <= |g.verdicts| <= |trace| + left
      && g.verdicts[..|trace|] == trace
      && (forall i :: |trace| <= i < |g.verdicts| - 1 ==> !g.verdicts[i].Complete?)
      && (|g.verdicts| < |trace| + left ==> |g.verdicts| > |trace| && (g.verdicts[|g.verdicts| - 1].Complete? || g.failure.Some?))
      && (|g.verdicts| > |trace| && g.verdicts[|g.verdicts| - 1].Complete? ==>
            var v := g.verdicts[|g.verdicts| - 1];
            g.failure.None? && g.focus == Some(v.focused) && test(g.state.cache) == v)
    decreases left
  {
    if left > 0 {
      var v := test(s.cache);
      var focus' := if v.InteriorGap? || v.Complete? then Some(v.focused) else focus;
      if !v.Complete? {
        var f := fill(s, FillWindow(v, lo, hi).value);
        if f.failure.None? {
          AttemptLoopShape(test, fill, lo, hi, f.state, focus', left - 1, trace + [v]);
          var g := AttemptLoop(test, fill, lo, hi, f.state, focus', left - 1, trace + [v]);
          assert g.verdicts[..|trace|] == (g.verdicts[..|trace| + 1])[..|trace|];
        }
      }
    }
  }

  /**
   * The focus after the loop is the one bound before it unless some attempt
   * tested the count, in which case it is the rows that test focused on.
   */
  lemma {:induction false} AttemptLoopFocus(test: seq<PriceRecord> -> Verdict, fill: (PriceState, Window) -> Filled, lo: int, hi: int,
                                            s: PriceState, focus: Option<seq<PriceRecord>>, left: nat, trace: seq<Verdict>)
    ensures var g := AttemptLoop(test, fill, lo, hi, s, focus, left, trace);
      g.focus == focus ||
      exists c :: (test(c).InteriorGap? || test(c).Complete?) && g.focus == Some(test(c).focused)
    ensures var g := AttemptLoop(test, fill, lo, hi, s, focus, left, trace);
      (forall i :: |trace| <= i < |g.verdicts| ==> !(g.verdicts[i].InteriorGap? || g.verdicts[i].Complete?)) ==> g.focus == focus
    decreases left
  {
    if left > 0 {
      var v := test(s.cache);
      var focus' := if v.InteriorGap? || v.Complete? then Some(v.focused) else focus;
      assert (trace + [v])[|trace|] == v;
      if v.InteriorGap? || v.Complete? {
        assert (test(s.cache).InteriorGap? || test(s.cache).Complete?) && focus' == Some(test(s.cache).focused);
      }
      if !v.Complete? {
        var f := fill(s, FillWindow(v, lo, hi).value);
        if f.failure.None? {
          AttemptLoopFocus(test, fill, lo, hi, f.state, focus', left - 1, trace + [v]);
          AttemptLoopShape(test, fill, lo, hi, f.state, focus', left - 1, trace + [v]);
          var g := AttemptLoop(test, fill, lo, hi, f.state, focus', left - 1, trace + [v]);
          assert g.verdicts[|trace|] == v;
          if forall i :: |trace| <= i < |g.verdicts| ==> !(g.verdicts[i].InteriorGap? || g.verdicts[i].Complete?) {
            assert !(g.verdicts[|trace|].InteriorGap? || g.verdicts[|trace|].Complete?);
            assert focus' == focus;
          }
        }
      }
    }
  }

  /**
   * When every successful fill keeps the store and leaves the same cache,
   * every attempt reaches the same verdict.
   */
  lemma {:induction false} AttemptLoopStuck(test: seq<PriceRecord> -> Verdict, fill: (PriceState, Window) -> Filled, lo: int, hi: int,
                                            s: PriceState, focus: Option<seq<PriceRecord>>, left: nat, trace: seq<Verdict>)
    requires forall st: PriceState, w: Window :: st.files == s.files ==>
      fill(st, w).state.files == s.files && (fill(st, w).failure.None? ==> fill(st, w).state.cache == s.cache)
    ensures var g := AttemptLoop(test, fill, lo, hi, s, focus, left, trace);
      && g.state.files == s.files
      && forall i :: |trace| <= i < |g.verdicts| ==> g.verdicts[i] == test(s.cache)
    decreases left
  {
    if left > 0 {
      var v := test(s.cache);
      var focus' := if v.InteriorGap? || v.Complete? then Some(v.focused) else focus;
      if !v.Complete? {
        var f := fill(s, FillWindow(v, lo, hi).value);
        if f.failure.None? {
          assert f.state.files == s.files && f.state.cache == s.cache;
          AttemptLoopStuck(test, fill, lo, hi, f.state, focus', left - 1, trace + [v]);
          AttemptLoopShape(test, fill, lo, hi, f.state, focus', left - 1, trace + [v]);
        }
      }
    }
  }

  /**
   * A group makes at most four attempts, every one but the last finding
   * the cache incomplete, and stops early only when complete (the final
   * cache's verdict, whose rows become the focus) or when a request fails.
   */
  lemma GroupRunBounded(api: PriceApi, useCache: bool, s: PriceState, region: string, voltage: string, lo: int, hi: int,
                        focus: Option<seq<PriceRecord>>)
    ensures var g := GroupRun(api, useCache, s, region, voltage, lo, hi, focus);
      && 1 <= |g.verdicts| <= 4
      && (forall i :: 0 <= i < |g.verdicts| - 1 ==> !g.verdicts[i].Complete?)
      && (|g.verdicts| < 4 ==> g.verdicts[|g.verdicts| - 1].Complete? || g.failure.Some?)
      && (g.verdicts[|g.verdicts| - 1].Complete? ==>
            g.failure.None? && g.focus == Some(g.verdicts[|g.verdicts| - 1].focused) &&
            Check(g.state.cache, region, voltage, lo, hi) == g.verdicts[|g.verdicts| - 1])
  {
    var test := GroupTest(region, voltage, lo, hi);
    var fill := GroupFill(api, useCache, region, voltage);
    AttemptLoopShape(test, fill, lo, hi, s, focus, 4, []);
    var g := AttemptLoop(test, fill, lo, hi, s, focus, 4, []);
    var n := |g.verdicts|;
    assert 1 <= n;
    var last := g.verdicts[n - 1];
    if last.Complete? {
      assert test(g.state.cache) == last;
      assert test(g.state.cache) == Check(g.state.cache, region, voltage, lo, hi);
    }
  }

  /**
   * The focus after a group's loop is the one bound before it (stale, or
   * unbound if there was none) exactly when no attempt tested the count;
   * otherwise it holds rows of this group inside this group's window.
   */
  lemma GroupFocusFreshOrStale(api: PriceApi, useCache: bool, s: PriceState, region: string, voltage: string, lo: int, hi: int,
                               focus: Option<seq<PriceRecord>>)
    ensures var g := GroupRun(api, useCache, s, region, voltage, lo, hi, focus);
      g.focus == focus ||
      (g.focus.Some? && forall x :: x in g.focus.value ==> Serves(x, region, voltage) && Inside(x, lo, hi))
    ensures var g := GroupRun(api, useCache, s, region, voltage, lo, hi, focus);
      (forall i :: 0 <= i < |g.verdicts| ==> !(g.verdicts[i].InteriorGap? || g.verdicts[i].Complete?)) ==> g.focus == focus
  {
    var test := GroupTest(region, voltage, lo, hi);
    var fill := GroupFill(api, useCache, region, voltage);
    AttemptLoopFocus(test, fill, lo, hi, s, focus, 4, []);
    var g := AttemptLoop(test, fill, lo, hi, s, focus, 4, []);
    if g.focus != focus {
      var c :| (test(c).InteriorGap? || test(c).Complete?) && g.focus == Some(test(c).focused);
      assert test(c) == Check(c, region, voltage, lo, hi);
      CheckMeans(c, region, voltage, lo, hi);
    }
  }

  /**
   * With the cache switched off nothing fetched is stored, so every attempt
   * sees the same refreshed store and reaches the same verdict: a group that
   * is incomplete stays incomplete through all four attempts.
   */
  lemma NoCacheMeansNoProgress(api: PriceApi, s: PriceState, region: string, voltage: string, lo: int, hi: int,
                               focus: Option<seq<PriceRecord>>)
    requires s.cache == PriceView(s.files, true)
    ensures var g := GroupRun(api, false, s, region, voltage, lo, hi, focus);
      && g.state.files == s.files
      && forall i :: 0 <= i < |g.verdicts| ==> g.verdicts[i] == Check(PriceView(s.files, true), region, voltage, lo, hi)
  {
    var test := GroupTest(region, voltage, lo, hi);
    var fill := GroupFill(api, false, region, voltage);
    forall st: PriceState, w: Window | st.files == s.files
      ensures fill(st, w).state.files == s.files && (fill(st, w).failure.None? ==> fill(st, w).state.cache == s.cache)
    {
      assert fill(st, w) == FillStep(api, false, st, region, voltage, w);
    }
    AttemptLoopStuck(test, fill, lo, hi, s, focus, 4, []);
  }

  /** The caller's price column with one group's joined entries written over it. */
  function Overlay(column: seq<Metric>, joined: seq<Option<Metric>>): (r: seq<Metric>)
    requires |joined| == |column|
    ensures |r| == |column|
    ensures forall i :: 0 <= i < |column| ==> r[i] == if joined[i].Some? then joined[i].value else column[i]
  {
    seq(|column|, i requires 0 <= i < |column| => if joined[i].Some? then joined[i].value else column[i])
  }

  /** The outcome of `get_price`: the final state, the price column, what was raised, and the focus each group used. */
  datatype Pricing = Pricing(state: PriceState, column: seq<Metric>, outcome: Outcome<PriceError>, foci: map<GroupKey, seq<PriceRecord>>)

  /**
   * The group loop over `keys`, each group resolved by `group` from the
   * state and focus the previous one left, writing into `column`.
   */
  function PricingLoop(group: (PriceState, GroupKey, Option<seq<PriceRecord>>) -> Attempts, s: PriceState,
                       profile: seq<ProfileRow>, keys: seq<GroupKey>, focus: Option<seq<PriceRecord>>,
                       column: seq<Metric>, foci: map<GroupKey, seq<PriceRecord>>): (p: Pricing)
    requires |column| == |profile|
    ensures |p.column| == |column|
    decreases |keys|
  {
    if keys == [] then Pricing(s, column, Pass, foci)
    else
      var k := keys[0];
      var g := group(s, k, focus);
      if g.failure.Some? then Pricing(g.state, column, Fail(g.failure.value), foci)
      else if g.focus.None? then Pricing(g.state, column, Fail(UnboundFocus), foci)
      else
        match Join(profile, k, g.focus.value)
        case Err(e) => Pricing(g.state, column, Fail(e), foci)
        case Ok(joined) =>
          PricingLoop(group, g.state, profile, keys[1..], g.focus, Overlay(column, joined), foci[k := g.focus.value])
  }

  /** One group of `get_price`: its window, then its attempt loop. */
  function PriceGroup(api: PriceApi, useCache: bool, profile: seq<ProfileRow>): (PriceState, GroupKey, Option<seq<PriceRecord>>) -> Attempts
  {
    (s: PriceState, k: GroupKey, focus: Option<seq<PriceRecord>>) =>
      if k in DistinctKeys(profile) then
        var w := GroupWindow(profile, k);
        GroupRun(api, useCache, s, k.region, k.voltageLevel, w.start, w.end, focus)
      else Attempts(s, focus, None, [])
  }

  /** `get_price` on a profile, from state `s`, over the caller's column. */
  function PricingRun(api: PriceApi, useCache: bool, s: PriceState, profile: seq<ProfileRow>, column: seq<Metric>): Pricing
    requires |column| == |profile|
  {
    PricingLoop(PriceGroup(api, useCache, profile), s, profile, DistinctKeys(profile), None, column, map[])
  }

  /**
   * When the loop succeeds every row whose group was processed holds the
   * price the left join gives it against the focus its group used, and every
   * other row keeps its value.
   */
  lemma {:induction false} PricingLoopWritesJoin(group: (PriceState, GroupKey, Option<seq<PriceRecord>>) -> Attempts, s: PriceState,
                                                 profile: seq<ProfileRow>, keys: seq<GroupKey>, focus: Option<seq<PriceRecord>>,
                                                 column: seq<Metric>, foci: map<GroupKey, seq<PriceRecord>>)
    requires |column| == |profile|
    requires forall i, j :: 0 <= i < j < |keys| ==> keys[i] != keys[j]
    requires forall k :: k in keys ==> k !in foci
    requires forall i :: 0 <= i < |profile| && KeyOf(profile[i]) in foci ==>
      Ok(column[i]) == LookupPrice(foci[KeyOf(profile[i])], profile[i].from)
    ensures var p := PricingLoop(group, s, profile, keys, focus, column, foci);
      p.outcome.Pass? ==>
        && p.foci.Keys == foci.Keys + (set k | k in keys)
        && (forall i :: 0 <= i < |profile| && KeyOf(profile[i]) in p.foci ==>
              Ok(p.column[i]) == LookupPrice(p.foci[KeyOf(profile[i])], profile[i].from))
        && (forall i :: 0 <= i < |profile| && KeyOf(profile[i]) !in p.foci ==> p.column[i] == column[i])
    decreases |keys|
  {
    if keys != [] {
      var k := keys[0];
      var g := group(s, k, focus);
      if g.failure.None? && g.focus.Some? {
        var j := Join(profile, k, g.focus.value);
        if j.Ok? {
          var column' := Overlay(column, j.value);
          var foci' := foci[k := g.focus.value];
          var rest := keys[1..];
          RestKeysFresh(keys, foci, g.focus.value);
          OverlayRecordsJoin(profile, k, g.focus.value, column, foci, j.value);
          PricingLoopWritesJoin(group, g.state, profile, rest, g.focus, column', foci');
          assert keys == [k] + rest;
          assert (set kk | kk in keys) == {k} + (set kk | kk in rest);
        }
      }
    }
  }

  /** After the first group, the remaining groups are still distinct and still unpriced. */
  lemma RestKeysFresh(keys: seq<GroupKey>, foci: map<GroupKey, seq<PriceRecord>>, focus: seq<PriceRecord>)
    requires keys != []
    requires forall i, j :: 0 <= i < j < |keys| ==> keys[i] != keys[j]
    requires forall k :: k in keys ==> k !in foci
    ensures forall i, j :: 0 <= i < j < |keys[1..]| ==> keys[1..][i] != keys[1..][j]
    ensures forall k :: k in keys[1..] ==> k !in foci[keys[0] := focus]
  {
    var rest := keys[1..];
    forall i, i' | 0 <= i < i' < |rest| ensures rest[i] != rest[i'] {
      assert rest[i] == keys[i + 1] && rest[i'] == keys[i' + 1];
    }
    forall kk | kk in rest ensures kk !in foci[keys[0] := focus] {
      var i :| 0 <= i < |rest| && rest[i] == kk;
      assert kk == keys[i + 1];
    }
  }

  /** Writing a group's join keeps every priced row's left-join price, now including the group's own rows. */
  lemma OverlayRecordsJoin(profile: seq<ProfileRow>, k: GroupKey, focus: seq<PriceRecord>, column: seq<Metric>,
                           foci: map<GroupKey, seq<PriceRecord>>, joined: seq<Option<Metric>>)
    requires |column| == |profile| && k !in foci
    requires Join(profile, k, focus) == Ok(joined)
    requires forall i :: 0 <= i < |profile| && KeyOf(profile[i]) in foci ==>
      Ok(column[i]) == LookupPrice(foci[KeyOf(profile[i])], profile[i].from)
    ensures var column', foci' := Overlay(column, joined), foci[k := focus];
      && (forall i :: 0 <= i < |profile| && KeyOf(profile[i]) in foci' ==>
            Ok(column'[i]) == LookupPrice(foci'[KeyOf(profile[i])], profile[i].from))
      && (forall i :: 0 <= i < |profile| && KeyOf(profile[i]) !in foci' ==> column'[i] == column[i])
  {
    JoinMeans(profile, k, focus);
  }

  /**
   * When `get_price` succeeds every profile row is priced by the left join
   * of its own group against the focus that group used.
   */
  lemma PricingPricesEveryRow(api: PriceApi, useCache: bool, s: PriceState, profile: seq<ProfileRow>, column: seq<Metric>)
    requires |column| == |profile|
    ensures var p := PricingRun(api, useCache, s, profile, column);
      p.outcome.Pass? ==> forall i :: 0 <= i < |profile| ==>
        KeyOf(profile[i]) in p.foci && Ok(p.column[i]) == LookupPrice(p.foci[KeyOf(profile[i])], profile[i].from)
  {
    var keys := DistinctKeys(profile);
    PricingLoopWritesJoin(PriceGroup(api, useCache, profile), s, profile, keys, None, column, map[]);
    forall i | 0 <= i < |profile| ensures KeyOf(profile[i]) in keys {
      assert profile[i] in profile;
    }
  }

  /** Every fetch file of the store is named by a clock reading below `t`. */
  ghost predicate IdsBelow<B>(files: seq<Batch<B>>, t: int)
  {
    forall i :: 0 <= i < |files| && files[i].name.FetchFile? ==> files[i].name.fetchId < t
  }

  /**
   * A batch named by a clock reading newer than every stored fetch id is a
   * new file, appended after the others, and the store stays below any
   * later reading.
   */
  lemma PutFresh<B>(files: seq<Batch<B>>, t: int, rows: seq<Versioned<B>>, later: int)
    requires IdsBelow(files, t)
    requires t < later
    ensures Put(files, Batch(FetchFile(t), rows)) == files + [Batch(FetchFile(t), rows)]
    ensures IdsBelow(Put(files, Batch(FetchFile(t), rows)), later)
  {
    assert forall i :: 0 <= i < |files| ==> files[i].name != FetchFile(t);
    var r := files + [Batch(FetchFile(t), rows)];
    assert forall i :: 0 <= i < |files| ==> r[i] == files[i];
  }

  class GridConnection {
    /** The upstream price and intensity APIs. */
    const priceApi: PriceApi
    const intensityApi: IntensityApi

    var useCache: bool
    /** The next reading of `time.time_ns()`. */
    var clock: int
    var priceFiles: seq<Batch<PriceBody>>
    var co2Files: seq<Batch<IntensityBody>>
    var priceCache: seq<PriceRecord>
    var co2Cache: seq<IntensityRecord>
    /** The windows for which the upstream APIs were called, in order. */
    ghost var priceCalls: seq<Window>
    ghost var co2Calls: seq<Window>

    ghost function Snapshot(): PriceState
      reads this
    {
      PriceState(clock, priceFiles, priceCache, priceCalls)
    }


    constructor (priceApi: PriceApi, intensityApi: IntensityApi, clock: int,
                 priceFiles: seq<Batch<PriceBody>>, co2Files: seq<Batch<IntensityBody>>)
      ensures this.priceApi == priceApi && this.intensityApi == intensityApi
      ensures this.clock == clock && this.priceFiles == priceFiles && this.co2Files == co2Files
      ensures useCache && priceCache == [] && co2Cache == [] && priceCalls == [] && co2Calls == []
    {
      this.priceApi := priceApi;
      this.intensityApi := intensityApi;
      this.clock := clock;
      this.priceFiles := priceFiles;
      this.co2Files := co2Files;
      useCache := true;
      priceCache := [];
      co2Cache := [];
      priceCalls := [];
      co2Calls := [];
    }

    /** `__init__`: connect to both stores and load both caches; fails when the CO2 store has no file. */
    static method Connect(priceApi: PriceApi, intensityApi: IntensityApi, clock: int,
                          priceFiles: seq<Batch<PriceBody>>, co2Files: seq<Batch<IntensityBody>>)
      returns (r: Result<GridConnection, StoreError>)
      ensures r.Err? <==> co2Files == []
      ensures r.Ok? ==> var g := r.value;
        && fresh(g) && g.useCache && g.clock == clock
        && g.priceFiles == priceFiles && g.co2Files == co2Files
        && Ok(g.co2Cache) == Co2View(co2Files, true)
        && g.priceCache == PriceView(priceFiles, true)
    {
      var g := new GridConnection(priceApi, intensityApi, clock, priceFiles, co2Files);
      var loaded := g.RefreshCo2Cache(true);
      if loaded.Fail? {
        assert co2Files == [];
        return Err(loaded.error);
      }
      assert co2Files != [] && Ok(g.co2Cache) == Co2View(co2Files, true);
      assert g.priceFiles == priceFiles && g.co2Files == co2Files && g.clock == clock && g.useCache;
      ghost var co2 := g.co2Cache;
      g.RefreshPriceCache(true);
      assert g.priceCache == PriceView(priceFiles, true) && g.co2Cache == co2;
      return Ok(g);
    }

    /** `time.time_ns()`. */
    method ReadClock() returns (t: int)
      modifies this`clock
      ensures t == old(clock) && clock == old(clock) + 1
    {
      t := clock;
      clock := clock + 1;
    }

    /** `refresh_price_cache`. */
    method RefreshPriceCache(keepLatest: bool)
      modifies this`priceCache
      ensures priceCache == PriceView(priceFiles, keepLatest)
    {
      var all := LoadAll(priceFiles);
      if |all| == 0 {
        priceCache := [];
        return;
      }
      var rows := all;
      if keepLatest {
        rows := KeepLatest(rows);
      }
      priceCache := SortById(rows);
    }

    /** `refresh_co2_cache`: the read comes first, so a failed refresh leaves the (empty) raw read in the cache. */
    method RefreshCo2Cache(keepLatest: bool) returns (r: Outcome<StoreError>)
      modifies this`co2Cache
      ensures Co2View(co2Files, keepLatest).Ok? ==> r.Pass? && co2Cache == Co2View(co2Files, keepLatest).value
      ensures Co2View(co2Files, keepLatest).Err? ==> r == Fail(NoColumns) && co2Cache == []
    {
      co2Cache := LoadAll(co2Files);
      if co2Files == [] {
        return Fail(NoColumns);
      }
      var rows := co2Cache;
      if keepLatest {
        rows := KeepLatest(rows);
      }
      co2Cache := SortById(rows);
      return Pass;
    }

    /**
     * `consolidate_cache`: write each store's whole table as its consolidated
     * file; nothing is written when either store has no file.
     */
    method ConsolidateCache(keepLatest: bool) returns (r: Outcome<StoreError>)
      modifies this`priceFiles, this`co2Files
      ensures r.Fail? <==> old(co2Files) == [] || old(priceFiles) == []
      ensures r.Fail? ==> co2Files == old(co2Files) && priceFiles == old(priceFiles)
      ensures r.Pass? ==>
        && co2Files == Put(old(co2Files), Batch(ConsolidatedFile, Table(old(co2Files), keepLatest)))
        && priceFiles == Put(old(priceFiles), Batch(ConsolidatedFile, Table(old(priceFiles), keepLatest)))
    {
      if co2Files == [] || priceFiles == [] {
        return Fail(NoColumns);
      }
      var co2 := Table(co2Files, keepLatest);
      var price := Table(priceFiles, keepLatest);
      co2Files := Put(co2Files, Batch(ConsolidatedFile, co2));
      priceFiles := Put(priceFiles, Batch(ConsolidatedFile, price));
      return Pass;
    }

    /**
     * The chunk loop of `price_api_request`: one nested call per 30-day
     * chunk of `w`, each skipping the store, their rows concatenated; the
     * first nested error propagates.
     */
    method PriceChunks(region: string, voltage: string, w: Window) returns (r: Result<seq<PriceRecord>, FetchError>)
      modifies this`clock, this`priceFiles, this`priceCalls
      ensures var run := ChunkedRun(PriceBaseFn(priceApi, region, voltage), Chunks(w.start, w.end, PriceChunk), old(clock));
        && r == run.result
        && clock == old(clock) + run.ticks
        && priceCalls == old(priceCalls) + run.calls
      ensures priceFiles == old(priceFiles)
      decreases 1, 1
    {
      ghost var base := PriceBaseFn(priceApi, region, voltage);
      ghost var full := ChunkedRun(base, Chunks(w.start, w.end, PriceChunk), clock);
      ghost var done: FetchRun<PriceBody> := Nothing();
      ThenNothing(full);
      var acc: seq<PriceRecord> := [];
      var cur := w.start;
      while cur < w.end
        invariant w.start <= cur
        invariant done.result == Ok(acc)
        invariant clock == old(clock) + done.ticks
        invariant priceCalls == old(priceCalls) + done.calls
        invariant priceFiles == old(priceFiles)
        invariant Then(done, ChunkedRun(base, Chunks(cur, w.end, PriceChunk), clock)) == full
        decreases w.end - cur
      {
        var part, next;
        ghost var step;
        part, next, step := PriceChunkCall(w.end, region, voltage, cur, done);
        AppendAssoc(old(priceCalls), done.calls, step.calls);
        if part.Err? {
          assert full == Then(done, step);
          return Err(part.error);
        }
        acc := acc + part.value;
        done := Then(done, step);
        cur := next;
      }
      ThenNothing(done);
      return Ok(acc);
    }

    /** One turn of the price chunk loop: the nested call, skipping the store, for the chunk that starts at `cur`. */
    method PriceChunkCall(hi: int, region: string, voltage: string, cur: int, ghost done: FetchRun<PriceBody>)
      returns (part: Result<seq<PriceRecord>, FetchError>, next: int, ghost step: FetchRun<PriceBody>)
      requires cur < hi
      modifies this`clock, this`priceFiles, this`priceCalls
      ensures next == Min(cur + PriceChunk, hi)
      ensures step.result == part && clock == old(clock) + step.ticks && priceCalls == old(priceCalls) + step.calls
      ensures priceFiles == old(priceFiles)
      ensures var base := PriceBaseFn(priceApi, region, voltage);
        var rest := ChunkedRun(base, Chunks(next, hi, PriceChunk), clock);
        && Then(done, ChunkedRun(base, Chunks(cur, hi, PriceChunk), old(clock))) == Then(Then(done, step), rest)
        && (part.Err? ==> Then(Then(done, step), rest) == Then(done, step))
      decreases 1, 0
    {
      next := Min(cur + PriceChunk, hi);
      step := PriceFetch(priceApi, region, voltage, Window(cur, next), clock);
      PriceChunkTurn(priceApi, region, voltage, done, cur, hi, clock);
      part := PriceApiRequest(region, voltage, Window(cur, next), true);
    }

    /**
     * `price_api_request`: one upstream call for a window of at most 31 days,
     * otherwise the chunk loop; only a call that is not told to skip the
     * store writes a batch, named by its own clock reading.
     */
    method PriceApiRequest(region: string, voltage: string, w: Window, skipStore: bool)
      returns (r: Result<seq<PriceRecord>, FetchError>)
      modifies this`clock, this`priceFiles, this`priceCalls
      ensures var run := PriceFetch(priceApi, region, voltage, w, old(clock));
        && r == run.result
        && clock == old(clock) + run.ticks
        && priceCalls == old(priceCalls) + run.calls
      ensures priceFiles == if useCache && !skipStore && r.Ok?
        then Put(old(priceFiles), Batch(FetchFile(old(clock)), r.value)) else old(priceFiles)
      decreases if w.Span() > PriceMaxSpan then 2 else 0, 0
    {
      var t := ReadClock();
      if w.Span() > PriceMaxSpan {
        r := PriceChunks(region, voltage, w);
      } else {
        PriceFetchShort(priceApi, region, voltage, w, t);
        var run := PriceBase(priceApi, region, voltage, w, t);
        priceCalls := priceCalls + run.calls;
        r := run.result;
      }
      if useCache && !skipStore && r.Ok? {
        priceFiles := Put(priceFiles, Batch(FetchFile(t), r.value));
      }
    }

    /**
     * The chunk loop of `intensity_api_request`: one nested call per 13-day
     * chunk of `w`, each skipping the store, their rows concatenated; the
     * first nested error propagates.
     */
    method IntensityChunks(w: Window, region: string, postcode: string) returns (r: Result<seq<IntensityRecord>, FetchError>)
      modifies this`clock, this`co2Files, this`co2Calls
      ensures var run := ChunkedRun(IntensityBaseFn(intensityApi, region, postcode), Chunks(w.start, w.end, IntensityChunk), old(clock));
        && r == run.result
        && clock == old(clock) + run.ticks
        && co2Calls == old(co2Calls) + run.calls
      ensures co2Files == old(co2Files)
      decreases 1, 1
    {
      ghost var base := IntensityBaseFn(intensityApi, region, postcode);
      ghost var full := ChunkedRun(base, Chunks(w.start, w.end, IntensityChunk), clock);
      ghost var done: FetchRun<IntensityBody> := Nothing();
      ThenNothing(full);
      var acc: seq<IntensityRecord> := [];
      var cur := w.start;
      while cur < w.end
        invariant w.start <= cur
        invariant done.result == Ok(acc)
        invariant clock == old(clock) + done.ticks
        invariant co2Calls == old(co2Calls) + done.calls
        invariant co2Files == old(co2Files)
        invariant Then(done, ChunkedRun(base, Chunks(cur, w.end, IntensityChunk), clock)) == full
        decreases w.end - cur
      {
        var part, next;
        ghost var step;
        part, next, step := IntensityChunkCall(w.end, region, postcode, cur, done);
        AppendAssoc(old(co2Calls), done.calls, step.calls);
        if part.Err? {
          assert full == Then(done, step);
          return Err(part.error);
        }
        acc := acc + part.value;
        done := Then(done, step);
        cur := next;
      }
      ThenNothing(done);
      return Ok(acc);
    }

    /** One turn of the intensity chunk loop: the nested call, skipping the store, for the chunk that starts at `cur`. */
    method IntensityChunkCall(hi: int, region: string, postcode: string, cur: int, ghost done: FetchRun<IntensityBody>)
      returns (part: Result<seq<IntensityRecord>, FetchError>, next: int, ghost step: FetchRun<IntensityBody>)
      requires cur < hi
      modifies this`clock, this`co2Files, this`co2Calls
      ensures next == Min(cur + IntensityChunk, hi)
      ensures step.result == part && clock == old(clock) + step.ticks && co2Calls == old(co2Calls) + step.calls
      ensures co2Files == old(co2Files)
      ensures var base := IntensityBaseFn(intensityApi, region, postcode);
        var rest := ChunkedRun(base, Chunks(next, hi, IntensityChunk), clock);
        && Then(done, ChunkedRun(base, Chunks(cur, hi, IntensityChunk), old(clock))) == Then(Then(done, step), rest)
        && (part.Err? ==> Then(Then(done, step), rest) == Then(done, step))
      decreases 1, 0
    {
      next := Min(cur + IntensityChunk, hi);
      step := IntensityFetch(intensityApi, region, postcode, Window(cur, next), clock);
      IntensityChunkTurn(intensityApi, region, postcode, done, cur, hi, clock);
      part := IntensityApiRequest(Window(cur, next), region, postcode, true);
    }

    /**
     * `intensity_api_request`: one upstream call for a window of at most 14
     * days, otherwise the chunk loop; only a call that is not told to skip
     * the store writes a batch.
     */
    method IntensityApiRequest(w: Window, region: string, postcode: string, skipStore: bool)
      returns (r: Result<seq<IntensityRecord>, FetchError>)
      modifies this`clock, this`co2Files, this`co2Calls
      ensures var run := IntensityFetch(intensityApi, region, postcode, w, old(clock));
        && r == run.result
        && clock == old(clock) + run.ticks
        && co2Calls == old(co2Calls) + run.calls
      ensures co2Files == if useCache && !skipStore && r.Ok?
        then Put(old(co2Files), Batch(FetchFile(old(clock)), r.value)) else old(co2Files)
      decreases if w.Span() > IntensityMaxSpan then 2 else 0, 0
    {
      var t := ReadClock();
      if w.Span() > IntensityMaxSpan {
        r := IntensityChunks(w, region, postcode);
      } else {
        IntensityFetchShort(intensityApi, region, postcode, w, t);
        var run := IntensityBase(intensityApi, region, postcode, w, t);
        co2Calls := co2Calls + run.calls;
        r := run.result;
      }
      if useCache && !skipStore && r.Ok? {
        co2Files := Put(co2Files, Batch(FetchFile(t), r.value));
      }
    }

    /** One fill of the attempt loop: the price request for `window`, stored, then a refresh keeping the latest rows. */
    method FillGroup(region: string, voltage: string, window: Window) returns (failure: Option<FetchError>)
      modifies this`clock, this`priceFiles, this`priceCache, this`priceCalls
      ensures FillStep(priceApi, useCache, old(Snapshot()), region, voltage, window) == Filled(Snapshot(), failure)
    {
      var fetched := PriceApiRequest(region, voltage, window, false);
      if fetched.Err? {
        return Some(fetched.error);
      }
      RefreshPriceCache(true);
      return None;
    }

    /** The attempt loop of `get_price` for one group, with the focus bound before it. */
    method ResolveGroup(region: string, voltage: string, lo: int, hi: int, focus0: Option<seq<PriceRecord>>)
      returns (focus: Option<seq<PriceRecord>>, failure: Option<PriceError>)
      modifies this`clock, this`priceFiles, this`priceCache, this`priceCalls
      ensures var g := GroupRun(priceApi, useCache, old(Snapshot()), region, voltage, lo, hi, focus0);
        Snapshot() == g.state && focus == g.focus && failure == g.failure
    {
      ghost var goal := GroupRun(priceApi, useCache, Snapshot(), region, voltage, lo, hi, focus0);
      focus := focus0;
      failure := None;
      ghost var trace: seq<Verdict> := [];
      ghost var left: nat := 4;
      var attempt := 0;
      var stop := false;
      while attempt < 4 && !stop
        invariant 0 <= attempt <= 4 && left == 4 - attempt
        invariant stop ==> goal == Attempts(Snapshot(), focus, failure, trace)
        invariant !stop ==> failure == None
        invariant !stop ==> AttemptLoop(GroupTest(region, voltage, lo, hi), GroupFill(priceApi, useCache, region, voltage), lo, hi, Snapshot(), focus, left, trace) == goal
        decreases 4 - attempt, if stop then 0 else 1
      {
        focus, stop, failure, trace, left := Attempt(region, voltage, lo, hi, focus, left, trace);
        if !stop {
          attempt := attempt + 1;
        }
      }
    }

    /** One attempt of the loop in `get_price`: check the cache, and fill the gap it reports. */
    method Attempt(region: string, voltage: string, lo: int, hi: int, focus0: Option<seq<PriceRecord>>,
                   ghost left: nat, ghost trace0: seq<Verdict>)
      returns (focus: Option<seq<PriceRecord>>, stop: bool, failure: Option<PriceError>, ghost trace: seq<Verdict>, ghost left': nat)
      requires left > 0
      modifies this`clock, this`priceFiles, this`priceCache, this`priceCalls
      ensures left' == if stop then left else left - 1
      ensures var before := AttemptLoop(GroupTest(region, voltage, lo, hi), GroupFill(priceApi, useCache, region, voltage), lo, hi, old(Snapshot()), focus0, left, trace0);
        if stop then before == Attempts(Snapshot(), focus, failure, trace)
        else failure == None && before == AttemptLoop(GroupTest(region, voltage, lo, hi), GroupFill(priceApi, useCache, region, voltage), lo, hi, Snapshot(), focus, left', trace)
    {
      left' := left;
      var v := Check(priceCache, region, voltage, lo, hi);
      focus := if v.InteriorGap? || v.Complete? then Some(v.focused) else focus0;
      trace := trace0 + [v];
      if v.Complete? {
        return focus, true, None, trace, left;
      }
      var window := FillWindow(v, lo, hi).value;
      var fetchFailure := FillGroup(region, voltage, window);
      if fetchFailure.Some? {
        return focus, true, Some(FetchFailed(fetchFailure.value)), trace, left;
      }
      stop, failure, left' := false, None, left - 1;
    }

    /**
     * `get_price`: for each distinct (region, voltage level) of the profile,
     * in first-appearance order, fill the cache for the group's window and
     * write the joined prices of its rows into `prices` in place.
     */
    method GetPrice(profile: seq<ProfileRow>, prices: array<Metric>) returns (r: Outcome<PriceError>)
      requires prices.Length == |profile|
      modifies this`clock, this`priceFiles, this`priceCache, this`priceCalls, prices
      ensures var p := PricingRun(priceApi, useCache, old(Snapshot()), profile, old(prices[..]));
        Snapshot() == p.state && prices[..] == p.column && r == p.outcome
    {
      var keys := DistinctKeys(profile);
      ghost var goal := PricingLoop(PriceGroup(priceApi, useCache, profile), Snapshot(), profile, keys, None, prices[..], map[]);
      var focus: Option<seq<PriceRecord>> := None;
      ghost var foci: map<GroupKey, seq<PriceRecord>> := map[];
      ghost var rest := keys;
      var n := 0;
      var stop := false;
      r := Pass;
      while n < |keys| && !stop
        invariant 0 <= n <= |keys|
        invariant !stop ==> rest == keys[n..]
        invariant stop ==> goal == Pricing(Snapshot(), prices[..], r, foci)
        invariant !stop ==> r == Pass
        invariant !stop ==> PricingLoop(PriceGroup(priceApi, useCache, profile), Snapshot(), profile, rest, focus, prices[..], foci) == goal
        decreases |keys| - n, if stop then 0 else 1
      {
        focus, stop, r, foci, rest := PriceKey(profile, prices, keys[n], focus, rest, foci);
        if !stop {
          n := n + 1;
        }
      }
    }

    /** `profile_df.loc[mask, "price"] = joined[price]` for the group's rows, in place. */
    static method WriteJoin(prices: array<Metric>, joined: seq<Option<Metric>>)
      requires |joined| == prices.Length
      modifies prices
      ensures prices[..] == Overlay(old(prices[..]), joined)
    {
      forall i | 0 <= i < prices.Length && joined[i].Some? {
        prices[i] := joined[i].value;
      }
    }

    /**
     * One group of `get_price`: resolve the group's cache, then write the
     * left join of its rows into `prices`, or stop with what was raised.
     */
    method PriceKey(profile: seq<ProfileRow>, prices: array<Metric>, k: GroupKey, focus0: Option<seq<PriceRecord>>,
                    ghost rest: seq<GroupKey>, ghost foci0: map<GroupKey, seq<PriceRecord>>)
      returns (focus: Option<seq<PriceRecord>>, stop: bool, r: Outcome<PriceError>,
               ghost foci: map<GroupKey, seq<PriceRecord>>, ghost rest': seq<GroupKey>)
      requires prices.Length == |profile| && rest != [] && rest[0] == k && k in DistinctKeys(profile)
      modifies this`clock, this`priceFiles, this`priceCache, this`priceCalls, prices
      ensures rest' == rest[1..]
      ensures !stop ==> r == Pass
      ensures var before := PricingLoop(PriceGroup(priceApi, useCache, profile), old(Snapshot()), profile, rest, focus0, old(prices[..]), foci0);
        if stop then before == Pricing(Snapshot(), prices[..], r, foci)
        else before == PricingLoop(PriceGroup(priceApi, useCache, profile), Snapshot(), profile, rest', focus, prices[..], foci)
    {
      ghost var group := PriceGroup(priceApi, useCache, profile);
      rest', foci := rest[1..], foci0;
      var w := GroupWindow(profile, k);
      ghost var before := Snapshot();
      var failure;
      focus, failure := ResolveGroup(k.region, k.voltageLevel, w.start, w.end, focus0);
      assert group(before, k, focus0) == Attempts(Snapshot(), focus, failure, group(before, k, focus0).verdicts);
      if failure.Some? {
        return focus, true, Fail(failure.value), foci, rest';
      }
      if focus.None? {
        return focus, true, Fail(UnboundFocus), foci, rest';
      }
      var joined := Join(profile, k, focus.value);
      if joined.Err? {
        return focus, true, Fail(joined.error), foci, rest';
      }
      WriteJoin(prices, joined.value);
      foci := foci[k := focus.value];
      stop, r := false, Pass;
    }
  }
}
