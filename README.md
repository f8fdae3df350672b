# Block-height catch-up loop of blockchain-scanner

This project models the synchronizer process of blockchain-scanner
(`cmd/blockchain.go`). The process keeps one cursor per chain: the last
block height stored in the height table. On every pass it reads the
enabled chains from the registry. Then it takes each chain in turn:

- it skips a chain whose resolved server string is empty;
- otherwise it asks the chain's node for the latest block number (the tip);
- it fetches block `height` and writes `height + 1` when `height < tip - 3`;
- it sleeps 5 seconds when `height == tip - 3`;
- it does nothing when the height is past that boundary.

Modules:

- `Policy`: the safety margin (3), the cooldown length (5 s) and the
  three-way comparison `Decide`.
- `Chains`: registry records, per-pass descriptors and the registry read
  `Snapshot`. `Snapshot` returns the enabled records that have a stored
  height, in table order, each with its current stored height.
- `Controller`: the chain client as two oracles (tip query, block fetch);
  the recorded calls (`Event`); and the specification functions `Visit`
  (one chain), `PassEffect` (one pass, left to right), `Step` (one
  iteration of the outer loop) and `RunEffect` (a sequence of passes).
  The class `Synchronizer` holds the height table as a `map<int, int>`
  and a log of the calls made. `Pass` and `Run` are the
  two loops, over the descriptors and over the passes. `ProcessChain` is
  the body of the inner loop and `RunPass` one iteration of the outer loop.
  Each method is proved to follow its specification function.
- `ControllerProps`: lemmas about those functions.

In two places the code does less than its evident intent. The model
follows the code (lines 56-65 of `cmd/blockchain.go`):

- A failed tip query does not skip the chain. The error is printed at line
  58, and the comparison then runs on whatever block number the client
  returned. `TipErrorIgnored` states this.
- The result of `Fetch` (line 62) is never inspected. "Done fetching" is
  printed at line 63 and `height + 1` is written at line 65 whatever the
  fetch did. `FetchOutcomeIgnored` states this. So if `Fetch` returns after
  a failure, its block is skipped for good.

## Model

| member | source | states |
|---|---|---|
| Policy.Decide | cmd/blockchain.go:61-68 | The branch is Lagging exactly when height < tip - 3, AtBoundary exactly when height == tip - 3, and Ahead exactly when height > tip - 3. So the three branches are exclusive and cover every pair of integers. |
| Policy.AdvanceNeverOvershoots | cmd/blockchain.go:61-65 | After one advance from a lagging height, the new height is at most tip - 3, and at the same tip the next decision is not Ahead. |
| Chains.SnapshotFaithful | cmd/blockchain.go:39 | Every descriptor comes from an enabled record and carries that id's stored height. Every enabled record that has a stored height yields a descriptor. The list is no longer than the records. |
| ControllerProps.VisitFrame | cmd/blockchain.go:47-68 | Visiting one chain keeps every stored id. It can add only that chain's id, and it changes no other id's height. |
| ControllerProps.PassFrame | cmd/blockchain.go:43-70 | A pass keeps every stored id and adds only ids of the pass. An id not in the pass keeps its height. |
| Controller.Synchronizer.constructor | cmd/blockchain.go:26-33 | The process starts on the stored height table with no calls made. |
| Controller.Synchronizer.ProcessChain | cmd/blockchain.go:44-69 | The new table and the log extension are those of `Visit` for this descriptor. |
| Controller.Synchronizer.Pass | cmd/blockchain.go:43-70 | The loop over the descriptors leaves the table and the log as `PassEffect` says. |
| Controller.Admitted | cmd/blockchain.go:39 | The table read by a pass holds every stored row with its stored height, plus each row inserted since the previous pass with its inserted height. |
| ControllerProps.InsertedRowJoinsPass | cmd/blockchain.go:39 | An enabled row inserted between passes gets a descriptor in the next pass, carrying its inserted height. |
| Controller.Synchronizer.RunPass | cmd/blockchain.go:39-70 | One pass after a successful registry read: newly inserted rows join the table, then the snapshot of the table and the pass over it. The table and the log end as `PassOf` says. |
| Controller.Synchronizer.Run | cmd/blockchain.go:35-72 | The loop over passes rereads the registry from the current table before each pass and stops at the first failed read. The table, the log and the fatal flag end as `RunEffect` says. |
| Controller.RunStaysFatal | cmd/blockchain.go:39-42 | Once a pass's registry read has failed, the outcome of the run is fixed. No later pass makes a call or writes a height. |
| ControllerProps.ServerlessChainSkipped | cmd/blockchain.go:47-51 | A chain with an empty server gets no tip query, no fetch, no write and no cooldown, and the table is unchanged. |
| ControllerProps.LaggingChainAdvances | cmd/blockchain.go:61-65 | When height < tip - 3, block `height` is fetched and exactly `height + 1` is written for that id. The table is otherwise unchanged. |
| ControllerProps.BoundaryChainCoolsDown | cmd/blockchain.go:66-67 | When height == tip - 3, nothing is fetched or written and exactly one 5-second cooldown happens. |
| ControllerProps.AheadChainIdle | cmd/blockchain.go:61-68 | When height > tip - 3, nothing is fetched, written or slept. Only the tip query happens. |
| ControllerProps.PassEventsWarranted | cmd/blockchain.go:43-68 | Every call made in a pass comes from a descriptor of that pass with a server. A fetch happens only when that chain lags by more than the margin, and only at its own height. A write is only of that height plus one. A cooldown happens only on the boundary. |
| ControllerProps.PassChangesWarranted | cmd/blockchain.go:61-65 | Every table entry a pass changes or adds was written for a descriptor of that pass that has a server and lags by more than the margin. The entry holds that descriptor's height plus one, which is at most that descriptor's tip minus 3. |
| ControllerProps.PassAdvancesLagging | cmd/blockchain.go:43-65 | On a registry snapshot of the table, every descriptor with a server that lags by more than the margin ends the pass with its stored height at exactly its height plus one. |
| ControllerProps.PassQueriesEveryServedChain | cmd/blockchain.go:43-59 | Every descriptor with a server gets its tip query in the pass, whatever earlier chains returned. Neither an error nor a skip ends the pass. |
| ControllerProps.TipErrorIgnored | cmd/blockchain.go:56-61 | Two clients that report the same tip numbers give the same pass, whatever error flags they return. |
| ControllerProps.FetchOutcomeIgnored | cmd/blockchain.go:62-65 | The table after a pass does not depend on whether the fetches succeeded. |
| ControllerProps.PassAdvancesAtMostOne | cmd/blockchain.go:43-70 | On a registry snapshot of the table, a pass keeps the same set of ids. Each height stays the same or grows by exactly one, even if an id is listed twice. |
| ControllerProps.RunMonotone | cmd/blockchain.go:35-72 | Over any sequence of passes no row disappears. The height of every row present at the start never decreases and grows by at most the number of passes. |
| ControllerProps.RunFatalIffLoadFailed | cmd/blockchain.go:39-42 | The process stops early exactly when some pass's registry read fails. |
| ControllerProps.RunResumes | cmd/blockchain.go:35-43 | The height table is the only state carried between passes. A process restarted on the stored table continues with the same heights, calls and stop flag as an uninterrupted one. |
| ControllerProps.ScenarioLagging | cmd/blockchain.go:61-65 | With height 100 and tip 104, block 100 is fetched and the height becomes 101. |
| ControllerProps.ScenarioBoundary | cmd/blockchain.go:66-67 | With height 101 and tip 104, nothing is fetched, there is one 5-second cooldown and the height stays 101. |
| ControllerProps.ScenarioTipFailure | cmd/blockchain.go:56-65 | A failed tip query reporting block 0 leaves that chain's height alone, and the next chain is still queried and advanced. |

## Left out

- Environment loading (`godotenv`) and the database connection (lines 21-33) are process set-up. The model starts from a given height table.
- The registry read `GetAllBlockchainWitHDecrypt` is not part of this model. `Snapshot` stands in for it: it filters records on the status "enabled", takes each chain's height from the table, and takes the server string as already decrypted. Rows other writers insert between passes join the table first, through `Admitted`. A record with no row in the table gets no descriptor.
- Chains.Snapshot: other writers can only insert rows. A height edited or a row deleted by anyone but this process between passes is not modelled, and `RunMonotone` relies on this.
- The registry's fatal error (`log.Fatalf`, lines 40-42) is modelled as `Run` returning `fatal = true` and making no further calls. Process exit itself is not modelled.
- `blockchain.NewBlockchainService`, `LatestBlockNumber` and `Fetch` are chain-specific RPC clients that are not part of this model. They are oracles from the descriptor (and height) to a reply, fixed for each pass.
- `models.UpdateHeight` is not part of this model. Line 65 discards whatever it returns, and the model takes the write to always succeed, as a map update. A failed or erroring write is not modelled. `LaggingChainAdvances`, `PassAdvancesLagging` and `ScenarioLagging` rely on this.
- `runtime.GC` and `runtime.ReadMemStats` (lines 36-38) are memory housekeeping with no effect on the result.
- Printing is left out. `time.Sleep(5 * time.Second)` becomes a recorded `CooledDown(id, 5)` event, not elapsed time.
- Nothing shown ever clears the global `run` flag, so the loop never ends. `Run` takes a finite sequence of passes instead.
- Heights and tips are mathematical integers. The `int`/`int64` conversions and a possible `int64` wrap-around of `lastBlock - 3` are not modelled.
- `config/vaultconfig/vault.go` (Vault unsealing, transit decryption, docker-compose commands, YAML/JSON files) is I/O plumbing around the core and is not modelled.
