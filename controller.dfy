/** The synchronizer's control loop: per chain, skip / query the tip /
    fetch-and-advance, cool down or do nothing; per pass, every descriptor in
    registry order; per run, a sequence of passes. The chain client is given
    as two oracles, and every call the loop makes is recorded as an event. */
module Controller {
  import opened Policy
  import opened Chains

  /** What the tip query returns: the reported block number and whether an
      error came back with it. */
  datatype TipReply = TipReply(tip: int, failed: bool)

  /** What a block fetch returns. */
  datatype FetchOutcome = FetchOk | FetchFailed

  /** The chain client of one pass, built per descriptor. */
  type TipOracle = Descriptor -> TipReply
  type FetchOracle = (Descriptor, int) -> FetchOutcome

  /** The calls the loop makes, in the order it makes them. */
  datatype Event =
    | TipQueried(id: int)
    | Fetched(id: int, height: int, outcome: FetchOutcome)
    | HeightWritten(id: int, height: int)
    | CooledDown(id: int, seconds: nat)

  /** The height table after some work, and the calls that work made. */
  datatype Effect = Effect(heights: map<int, int>, events: seq<Event>)

  /** Effect of a run: like `Effect`, plus whether the process stopped on a
      fatal registry error. */
  datatype RunResult = RunResult(heights: map<int, int>, events: seq<Event>, fatal: bool)

  /** One pass's inputs: the registry's answer and the chain client. A
      successful read also brings the chain rows other writers inserted since
      the previous pass, with their initial heights. */
  datatype RegistryReply = Loaded(records: seq<ChainRecord>, inserted: map<int, int>) | LoadFailed
  datatype PassEnv = PassEnv(registry: RegistryReply, tips: TipOracle, fetch: FetchOracle)

  /** The work done for one descriptor. The error flag of the tip reply and
      the outcome of the fetch are never consulted. */
  function Visit(heights: map<int, int>, v: Descriptor, tips: TipOracle, fetch: FetchOracle): Effect
  {
    if v.server == "" then Effect(heights, [])
    else
      var reply := tips(v);
      match Decide(v.height, reply.tip)
      case Lagging =>
        Effect(heights[v.id := v.height + 1],
               [TipQueried(v.id), Fetched(v.id, v.height, fetch(v, v.height)), HeightWritten(v.id, v.height + 1)])
      case AtBoundary =>
        Effect(heights, [TipQueried(v.id), CooledDown(v.id, CooldownSeconds)])
      case Ahead =>
        Effect(heights, [TipQueried(v.id)])
  }

  /** One pass over a descriptor list, in order. */
  function PassEffect(heights: map<int, int>, chains: seq<Descriptor>, tips: TipOracle, fetch: FetchOracle): Effect
    decreases |chains|
  {
    if chains == [] then Effect(heights, [])
    else
      var done := PassEffect(heights, chains[..|chains| - 1], tips, fetch);
      var last := Visit(done.heights, chains[|chains| - 1], tips, fetch);
      Effect(last.heights, done.events + last.events)
  }

  /** The height table once newly inserted rows have joined it: rows already
      present keep their stored height, new ids start at their inserted one. */
  function Admitted(heights: map<int, int>, inserted: map<int, int>): (table: map<int, int>)
    ensures table.Keys == heights.Keys + inserted.Keys
    ensures forall id :: id in heights ==> table[id] == heights[id]
    ensures forall id :: id in inserted && id !in heights ==> table[id] == inserted[id]
  {
    inserted + heights
  }

  /** One pass of a run: the registry snapshot of the current table, new rows
      included, then the pass over it. */
  function PassOf(heights: map<int, int>, env: PassEnv): Effect
    requires env.registry.Loaded?
  {
    var table := Admitted(heights, env.registry.inserted);
    PassEffect(table, Snapshot(env.registry.records, table), env.tips, env.fetch)
  }

  /** One iteration of the outer loop after the work `r`: nothing once the
      process has stopped, a stop when the registry read fails, and otherwise
      a pass on a fresh snapshot of the current table. */
  function Step(r: RunResult, env: PassEnv): RunResult
  {
    if r.fatal then r
    else if env.registry.LoadFailed? then RunResult(r.heights, r.events, true)
    else
      var p := PassOf(r.heights, env);
      RunResult(p.heights, r.events + p.events, false)
  }

  /** A sequence of passes, one `Step` each, from the stored table. */
  function RunEffect(heights: map<int, int>, envs: seq<PassEnv>): RunResult
    decreases |envs|
  {
    if envs == [] then RunResult(heights, [], false)
    else Step(RunEffect(heights, envs[..|envs| - 1]), envs[|envs| - 1])
  }

  /** Once the registry read of some pass has failed, the run's outcome is
      fixed: later passes make no call and write nothing. */
  lemma {:induction false} RunStaysFatal(heights: map<int, int>, envs: seq<PassEnv>, k: nat)
    requires k <= |envs| && RunEffect(heights, envs[..k]).fatal
    ensures RunEffect(heights, envs) == RunEffect(heights, envs[..k])
    decreases |envs|
  {
    if k < |envs| {
      var n := |envs| - 1;
      assert envs[..n][..k] == envs[..k];
      RunStaysFatal(heights, envs[..n], k);
    } else {
      assert envs[..k] == envs;
    }
  }

  /** The synchronizer process: the height table it writes through and the
      record of the calls it has made. */
  class Synchronizer {
    var heights: map<int, int>
    var log: seq<Event>

    constructor (stored: map<int, int>)
      ensures heights == stored && log == []
    {
      heights := stored;
      log := [];
    }

    /** The body of the per-chain loop. */
    method ProcessChain(v: Descriptor, tips: TipOracle, fetch: FetchOracle)
      modifies this
      ensures heights == Visit(old(heights), v, tips, fetch).heights
      ensures log == old(log) + Visit(old(heights), v, tips, fetch).events
    {
      if v.server == "" {
        return;
      }
      var reply := tips(v);
      log := log + [TipQueried(v.id)];
      // reply.failed is only reported; the comparison runs on reply.tip
      var branch := Decide(v.height, reply.tip);
      if branch == Lagging {
        var outcome := fetch(v, v.height);
        log := log + [Fetched(v.id, v.height, outcome)];
        // the outcome is not inspected before the height is written
        heights := heights[v.id := v.height + 1];
        log := log + [HeightWritten(v.id, v.height + 1)];
      } else if branch == AtBoundary {
        log := log + [CooledDown(v.id, CooldownSeconds)];
      }
    }

    /** One pass: every descriptor, in order. */
    method Pass(chains: seq<Descriptor>, tips: TipOracle, fetch: FetchOracle)
      modifies this
      ensures heights == PassEffect(old(heights), chains, tips, fetch).heights
      ensures log == old(log) + PassEffect(old(heights), chains, tips, fetch).events
    {
      var i := 0;
      while i < |chains|
        invariant 0 <= i <= |chains|
        invariant heights == PassEffect(old(heights), chains[..i], tips, fetch).heights
        invariant log == old(log) + PassEffect(old(heights), chains[..i], tips, fetch).events
      {
        assert chains[..i + 1][..i] == chains[..i];
        ProcessChain(chains[i], tips, fetch);
        i := i + 1;
      }
      assert chains[..i] == chains;
    }

    /** One iteration of the outer loop whose registry read succeeded: the
        rows inserted by other writers join the table, then the snapshot of
        the table and the pass over it. */
    method RunPass(env: PassEnv)
      requires env.registry.Loaded?
      modifies this
      ensures heights == PassOf(old(heights), env).heights
      ensures log == old(log) + PassOf(old(heights), env).events
    {
      heights := Admitted(heights, env.registry.inserted);
      var chains := Snapshot(env.registry.records, heights);
      Pass(chains, env.tips, env.fetch);
    }

    /** The outer loop over a finite sequence of passes; returns whether a
        registry failure made the process stop. */
    method Run(envs: seq<PassEnv>) returns (fatal: bool)
      modifies this
      ensures heights == RunEffect(old(heights), envs).heights
      ensures log == old(log) + RunEffect(old(heights), envs).events
      ensures fatal == RunEffect(old(heights), envs).fatal
    {
      var k := 0;
      while k < |envs|
        invariant 0 <= k <= |envs|
        invariant !RunEffect(old(heights), envs[..k]).fatal
        invariant heights == RunEffect(old(heights), envs[..k]).heights
        invariant log == old(log) + RunEffect(old(heights), envs[..k]).events
      {
        assert envs[..k + 1][..k] == envs[..k];
        if envs[k].registry.LoadFailed? {
          RunStaysFatal(old(heights), envs, k + 1);
          return true;
        }
        RunPass(envs[k]);
        k := k + 1;
      }
      assert envs[..k] == envs;
      return false;
    }
  }
}
