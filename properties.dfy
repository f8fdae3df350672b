/** Properties of the synchronizer's control loop, stated over the
    specification functions that the `Synchronizer` methods are proved to
    follow. */
module ControllerProps {
  import opened Policy
  import opened Chains
  import opened Controller

  // ---- One chain ---------------------------------------------------------

  /** A chain with an empty server string gets no tip query, no fetch, no
      height write and no cooldown. */
  lemma ServerlessChainSkipped(heights: map<int, int>, v: Descriptor, tips: TipOracle, fetch: FetchOracle)
    requires v.server == ""
    ensures Visit(heights, v, tips, fetch) == Effect(heights, [])
  {
  }

  /** A lagging chain: its own height is fetched, its stored height becomes
      exactly one more, and no other id changes. */
  lemma LaggingChainAdvances(heights: map<int, int>, v: Descriptor, tips: TipOracle, fetch: FetchOracle)
    requires v.server != "" && v.height < tips(v).tip - SafetyMargin
    ensures Visit(heights, v, tips, fetch).heights == heights[v.id := v.height + 1]
    ensures Visit(heights, v, tips, fetch).events
            == [TipQueried(v.id), Fetched(v.id, v.height, fetch(v, v.height)), HeightWritten(v.id, v.height + 1)]
  {
  }

  /** A chain on the boundary: nothing fetched or written, exactly one
      cooldown of the configured length. */
  lemma BoundaryChainCoolsDown(heights: map<int, int>, v: Descriptor, tips: TipOracle, fetch: FetchOracle)
    requires v.server != "" && v.height == tips(v).tip - SafetyMargin
    ensures Visit(heights, v, tips, fetch) == Effect(heights, [TipQueried(v.id), CooledDown(v.id, CooldownSeconds)])
  {
  }

  /** A chain ahead of the boundary: only the tip query happens. */
  lemma AheadChainIdle(heights: map<int, int>, v: Descriptor, tips: TipOracle, fetch: FetchOracle)
    requires v.server != "" && v.height > tips(v).tip - SafetyMargin
    ensures Visit(heights, v, tips, fetch) == Effect(heights, [TipQueried(v.id)])
  {
  }

  /** Visiting one chain keeps every stored id, can add only that chain's id,
      and leaves every other id's height alone. */
  lemma VisitFrame(heights: map<int, int>, v: Descriptor, tips: TipOracle, fetch: FetchOracle)
    ensures heights.Keys <= Visit(heights, v, tips, fetch).heights.Keys <= heights.Keys + {v.id}
    ensures forall id :: id in heights && id != v.id ==> Visit(heights, v, tips, fetch).heights[id] == heights[id]
  {
  }

  /** A pass keeps every stored id, adds only ids it visits, and leaves the
      height of every id it does not visit alone. */
  lemma {:induction false} PassFrame(heights: map<int, int>, chains: seq<Descriptor>, tips: TipOracle, fetch: FetchOracle)
    ensures heights.Keys <= PassEffect(heights, chains, tips, fetch).heights.Keys <= heights.Keys + Ids(chains)
    ensures forall id :: id in heights && id !in Ids(chains) ==>
              PassEffect(heights, chains, tips, fetch).heights[id] == heights[id]
    decreases |chains|
  {
    if chains != [] {
      var n := |chains| - 1;
      var done := PassEffect(heights, chains[..n], tips, fetch);
      PassFrame(heights, chains[..n], tips, fetch);
      VisitFrame(done.heights, chains[n], tips, fetch);
      assert chains[n] in chains;
      assert Ids(chains[..n]) <= Ids(chains) by {
        forall v | v in chains[..n] ensures v in chains { }
      }
    }
  }

  // ---- Calls are warranted -----------------------------------------------

  /** The descriptor `v` explains event `e`: the event is one the loop makes
      for `v`, under the branch `v`'s comparison selects. */
  ghost predicate Warranted(e: Event, v: Descriptor, tips: TipOracle)
  {
    e.id == v.id && v.server != "" &&
    match e
    case TipQueried(_) => true
    case Fetched(_, h, _) => h == v.height && Decide(v.height, tips(v).tip) == Lagging
    case HeightWritten(_, h) => h == v.height + 1 && Decide(v.height, tips(v).tip) == Lagging
    case CooledDown(_, s) => s == CooldownSeconds && Decide(v.height, tips(v).tip) == AtBoundary
  }

  /** Every call made during a pass is explained by a descriptor of that pass:
      a fetch only when the chain lags by more than the margin and only at
      its own height, a write only of that height plus one, a cooldown only
      on the boundary, a tip query only for a chain with a server. */
  lemma {:induction false} PassEventsWarranted(heights: map<int, int>, chains: seq<Descriptor>, tips: TipOracle, fetch: FetchOracle)
    ensures forall e :: e in PassEffect(heights, chains, tips, fetch).events ==>
              exists v :: v in chains && Warranted(e, v, tips)
    decreases |chains|
  {
    if chains != [] {
      var n := |chains| - 1;
      var done := PassEffect(heights, chains[..n], tips, fetch);
      var last := Visit(done.heights, chains[n], tips, fetch);
      PassEventsWarranted(heights, chains[..n], tips, fetch);
      forall e | e in PassEffect(heights, chains, tips, fetch).events
        ensures exists v :: v in chains && Warranted(e, v, tips)
      {
        if e in last.events {
          assert Warranted(e, chains[n], tips);
        } else {
          var v :| v in chains[..n] && Warranted(e, v, tips);
          assert v in chains;
        }
      }
    }
  }

  /** Every table entry a pass changes or adds was written for a descriptor
      of that pass that has a server and lags by more than the margin, and
      holds that descriptor's height plus one, which is still no closer to
      that descriptor's tip than the margin. */
  lemma {:induction false} PassChangesWarranted(heights: map<int, int>, chains: seq<Descriptor>, tips: TipOracle, fetch: FetchOracle)
    ensures var after := PassEffect(heights, chains, tips, fetch).heights;
            forall id :: id in after && (id !in heights || after[id] != heights[id]) ==>
              exists v :: v in chains && v.id == id && v.server != "" &&
                          Decide(v.height, tips(v).tip) == Lagging && after[id] == v.height + 1 &&
                          after[id] <= tips(v).tip - SafetyMargin
    decreases |chains|
  {
    if chains != [] {
      var n := |chains| - 1;
      var done := PassEffect(heights, chains[..n], tips, fetch);
      var after := Visit(done.heights, chains[n], tips, fetch).heights;
      PassChangesWarranted(heights, chains[..n], tips, fetch);
      forall id | id in after && (id !in heights || after[id] != heights[id])
        ensures exists v :: v in chains && v.id == id && v.server != "" &&
                            Decide(v.height, tips(v).tip) == Lagging && after[id] == v.height + 1 &&
                            after[id] <= tips(v).tip - SafetyMargin
      {
        if id in done.heights && after[id] == done.heights[id] {
          var v :| v in chains[..n] && v.id == id && v.server != "" &&
                   Decide(v.height, tips(v).tip) == Lagging && done.heights[id] == v.height + 1 &&
                   done.heights[id] <= tips(v).tip - SafetyMargin;
          assert v in chains;
        } else {
          assert chains[n] in chains;
          AdvanceNeverOvershoots(chains[n].height, tips(chains[n]).tip);
        }
      }
    }
  }

  /** Catch-up: on a registry snapshot of the table, every descriptor with a
      server that lags by more than the margin ends the pass with its stored
      height advanced to exactly its height plus one. */
  lemma {:induction false} PassAdvancesLagging(heights: map<int, int>, chains: seq<Descriptor>, tips: TipOracle, fetch: FetchOracle)
    requires Consistent(chains, heights)
    ensures var after := PassEffect(heights, chains, tips, fetch).heights;
            forall v :: v in chains && v.server != "" && Decide(v.height, tips(v).tip) == Lagging ==>
              v.id in after && after[v.id] == v.height + 1
    decreases |chains|
  {
    if chains != [] {
      var n := |chains| - 1;
      assert Consistent(chains[..n], heights) by {
        forall w | w in chains[..n] ensures w in chains { }
      }
      PassAdvancesLagging(heights, chains[..n], tips, fetch);
      assert chains[n] in chains;
    }
  }

  /** The pass reaches every chain: each descriptor with a server string gets
      its tip query, whatever the earlier chains' queries or fetches returned. */
  lemma {:induction false} PassQueriesEveryServedChain(heights: map<int, int>, chains: seq<Descriptor>, tips: TipOracle, fetch: FetchOracle)
    ensures forall i :: 0 <= i < |chains| && chains[i].server != "" ==>
              TipQueried(chains[i].id) in PassEffect(heights, chains, tips, fetch).events
    decreases |chains|
  {
    if chains != [] {
      var n := |chains| - 1;
      var done := PassEffect(heights, chains[..n], tips, fetch);
      var last := Visit(done.heights, chains[n], tips, fetch);
      PassQueriesEveryServedChain(heights, chains[..n], tips, fetch);
      forall i | 0 <= i < |chains| && chains[i].server != ""
        ensures TipQueried(chains[i].id) in PassEffect(heights, chains, tips, fetch).events
      {
        if i == n {
          assert last.events[0] == TipQueried(chains[n].id);
        } else {
          assert chains[..n][i] == chains[i];
        }
      }
    }
  }

  // ---- What the code ignores ---------------------------------------------

  /** The error returned with the tip is never acted on: two clients that
      report the same tips produce the same pass, error or not. */
  lemma {:induction false} TipErrorIgnored(heights: map<int, int>, chains: seq<Descriptor>, tips: TipOracle, tips': TipOracle, fetch: FetchOracle)
    requires forall v :: tips(v).tip == tips'(v).tip
    ensures PassEffect(heights, chains, tips, fetch) == PassEffect(heights, chains, tips', fetch)
    decreases |chains|
  {
    if chains != [] {
      var n := |chains| - 1;
      TipErrorIgnored(heights, chains[..n], tips, tips', fetch);
      var done := PassEffect(heights, chains[..n], tips, fetch);
      assert Visit(done.heights, chains[n], tips, fetch) == Visit(done.heights, chains[n], tips', fetch);
    }
  }

  /** The outcome of a fetch is never acted on: the height table after a pass
      does not depend on whether the fetches succeeded. */
  lemma {:induction false} FetchOutcomeIgnored(heights: map<int, int>, chains: seq<Descriptor>, tips: TipOracle, fetch: FetchOracle, fetch': FetchOracle)
    ensures PassEffect(heights, chains, tips, fetch).heights == PassEffect(heights, chains, tips, fetch').heights
    decreases |chains|
  {
    if chains != [] {
      var n := |chains| - 1;
      FetchOutcomeIgnored(heights, chains[..n], tips, fetch, fetch');
      var done := PassEffect(heights, chains[..n], tips, fetch);
      assert Visit(done.heights, chains[n], tips, fetch).heights == Visit(done.heights, chains[n], tips, fetch').heights;
    }
  }

  // ---- Height bounds -----------------------------------------------------

  /** Each stored height of `now` is the one of `start`, or one more. */
  ghost predicate WithinOneStep(start: map<int, int>, now: map<int, int>)
  {
    now.Keys == start.Keys &&
    forall id :: id in start ==> now[id] == start[id] || now[id] == start[id] + 1
  }

  /** Over one pass on a registry snapshot of the table, no id appears or
      disappears and each stored height stays or grows by exactly one, even
      when the snapshot lists an id twice. */
  lemma {:induction false} PassAdvancesAtMostOne(heights: map<int, int>, chains: seq<Descriptor>, tips: TipOracle, fetch: FetchOracle)
    requires Consistent(chains, heights)
    ensures WithinOneStep(heights, PassEffect(heights, chains, tips, fetch).heights)
    decreases |chains|
  {
    if chains != [] {
      var n := |chains| - 1;
      assert Consistent(chains[..n], heights) by {
        forall w | w in chains[..n] ensures w in chains { }
      }
      PassAdvancesAtMostOne(heights, chains[..n], tips, fetch);
      assert chains[n] in chains;
    }
  }

  /** A row inserted by another writer joins the next pass: if its record is
      enabled, that pass has a descriptor for it carrying its inserted height. */
  lemma InsertedRowJoinsPass(heights: map<int, int>, records: seq<ChainRecord>, inserted: map<int, int>, r: ChainRecord)
    requires r in records && r.status == EnabledStatus && r.id in inserted && r.id !in heights
    ensures Descriptor(r.id, r.key, r.client, r.server, inserted[r.id]) in Snapshot(records, Admitted(heights, inserted))
  {
    SnapshotFaithful(records, Admitted(heights, inserted));
  }

  /** Over any sequence of passes, no row disappears, and the stored height
      of every row present at the start never decreases and grows by at most
      one per pass. */
  lemma {:induction false} RunMonotone(heights: map<int, int>, envs: seq<PassEnv>)
    ensures heights.Keys <= RunEffect(heights, envs).heights.Keys
    ensures forall id :: id in heights ==>
              heights[id] <= RunEffect(heights, envs).heights[id] <= heights[id] + |envs|
    decreases |envs|
  {
    if envs != [] {
      var n := |envs| - 1;
      RunMonotone(heights, envs[..n]);
      var done := RunEffect(heights, envs[..n]);
      if !done.fatal && envs[n].registry.Loaded? {
        var table := Admitted(done.heights, envs[n].registry.inserted);
        var chains := Snapshot(envs[n].registry.records, table);
        SnapshotFaithful(envs[n].registry.records, table);
        PassAdvancesAtMostOne(table, chains, envs[n].tips, envs[n].fetch);
      }
    }
  }

  // ---- Runs --------------------------------------------------------------

  /** The process stops early exactly when some pass's registry read fails. */
  lemma {:induction false} RunFatalIffLoadFailed(heights: map<int, int>, envs: seq<PassEnv>)
    ensures RunEffect(heights, envs).fatal <==> exists k :: 0 <= k < |envs| && envs[k].registry.LoadFailed?
    decreases |envs|
  {
    if envs != [] {
      var n := |envs| - 1;
      RunFatalIffLoadFailed(heights, envs[..n]);
      if exists k :: 0 <= k < n && envs[..n][k].registry.LoadFailed? {
        var k :| 0 <= k < n && envs[..n][k].registry.LoadFailed?;
        assert envs[k] == envs[..n][k];
      }
      if exists k :: 0 <= k < |envs| && envs[k].registry.LoadFailed? {
        var k :| 0 <= k < |envs| && envs[k].registry.LoadFailed?;
        if k < n {
          assert envs[..n][k] == envs[k];
        }
      }
    }
  }

  /** Work `next` done after the work `first`, as one run. */
  function Resumed(first: RunResult, next: RunResult): RunResult
  {
    RunResult(next.heights, first.events + next.events, next.fatal)
  }

  lemma StepAfterResumed(first: RunResult, next: RunResult, env: PassEnv)
    ensures Step(Resumed(first, next), env) == Resumed(first, Step(next, env))
  {
    if !next.fatal && env.registry.Loaded? {
      var p := PassOf(next.heights, env);
      assert (first.events + next.events) + p.events == first.events + (next.events + p.events);
    }
  }

  /** The height table is the only state carried from pass to pass, so a
      process restarted on the stored table after some passes continues
      exactly as the first process would have. */
  lemma {:induction false} RunResumes(heights: map<int, int>, envs: seq<PassEnv>, later: seq<PassEnv>)
    requires !RunEffect(heights, envs).fatal
    ensures RunEffect(heights, envs + later)
            == Resumed(RunEffect(heights, envs), RunEffect(RunEffect(heights, envs).heights, later))
    decreases |later|
  {
    var first := RunEffect(heights, envs);
    if later == [] {
      assert envs + later == envs;
    } else {
      var n := |later| - 1;
      assert (envs + later)[..|envs + later| - 1] == envs + later[..n];
      RunResumes(heights, envs, later[..n]);
      StepAfterResumed(first, RunEffect(first.heights, later[..n]), later[n]);
    }
  }

  // ---- Worked scenarios --------------------------------------------------

  /** Height 100, tip 104: block 100 is fetched and the height becomes 101. */
  lemma ScenarioLagging(fetch: FetchOracle)
    ensures var v := Descriptor(1, "btc", "bitcoin", "node", 100);
            var r := Visit(map[1 := 100], v, _ => TipReply(104, false), fetch);
            r.heights == map[1 := 101] && Fetched(1, 100, fetch(v, 100)) in r.events
  {
  }

  /** Height 101, tip 104: no fetch, one 5-second cooldown, height stays. */
  lemma ScenarioBoundary(fetch: FetchOracle)
    ensures Visit(map[1 := 101], Descriptor(1, "btc", "bitcoin", "node", 101), _ => TipReply(104, false), fetch)
            == Effect(map[1 := 101], [TipQueried(1), CooledDown(1, 5)])
  {
  }

  /** A failed tip query whose client reports block 0 leaves the height alone
      and the pass goes on to the next chain. */
  lemma ScenarioTipFailure(fetch: FetchOracle)
    ensures var chains := [Descriptor(1, "btc", "bitcoin", "node", 100), Descriptor(2, "eth", "ethereum", "node", 7)];
            var tips := (v: Descriptor) => if v.id == 1 then TipReply(0, true) else TipReply(20, false);
            var r := PassEffect(map[1 := 100, 2 := 7], chains, tips, fetch);
            r.heights == map[1 := 100, 2 := 8] && TipQueried(2) in r.events
  {
  }
}
