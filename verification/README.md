# A verified model of dnsmark

dnsmark is a DNS load generator. It sends queries through AF_XDP rings or through kernel
UDP sockets, matches the replies, ramps the rate up until a latency objective is missed, and
reports throughput, loss and latency. This project models the parts of it whose correctness
rests on a whole-system argument and proves that argument, for every input, every
interleaving or every reachable state:

| module | part of dnsmark |
|---|---|
| `Machine`, `Bytes` | wrap-around, masks, saturating arithmetic, big-endian words |
| `Rings` | the four single-producer/single-consumer rings, with kernel interference |
| `Umem`, `UmemFlow`, `XskSocket` | who owns each of the 16384 UMEM frames, in every run of worker and kernel |
| `IdRanges`, `SlotTable`, `InFlight`, `Sweeps`, `GateRuns`, `EndOfRun` | id ranges, the lock-free in-flight table, the outstanding gate, the final drain |
| `Ramp` | the DSD ramp controller: doubling, bisection, the knee |
| `Stats`, `Accounting`, `Sharded` | the shared counters, loss accounting in every interleaving, per-thread counting and flushing |
| `Pacing`, `ClosedLoop`, `TokenBucket` | the kernel-UDP closed loop, its send schedule, the XDP rate limiter |
| `Checksum`, `Frame`, `Wire`, `Parser`, `Readers` | frames, queries, the reply parser and the eBPF classifier, and independent readers of what is written |
| `LineRate` | merging the snapshots of several NICs, the share of the line rate |

`dafny verify dfyconfig.toml` checks the whole project.

## How things are modelled

- Every atomic or volatile access is one indivisible step; memory ordering is not modelled.
- Clock readings are inputs that never decrease. Socket results, received datagrams and
  everything the kernel does are arbitrary inputs or steps.
- Integers are unbounded except where the code wraps, truncates or saturates; those places
  are written out (ring indices, `as u16`, `len() as u8`, `saturating_sub`).
- `f64` rates, tokens and percentages are reals. `x * 0.80 as u64` is `4 * x / 5` rounded
  down, `b * 3.0` is `3 * b`, `1.0 / qps` seconds is rounded to the nearest nanosecond.
- The HDR histogram is the multiset of recorded values.
- `Stats` states each call to the collector by itself. In `Accounting` every access to a
  shared counter is a step, and so is each store of `reset_window`; the log that
  `ClosedLoop` keeps is a run of it.
- At the level of a ring, the kernel may act after every slot access; the contracts in
  `Rings` say that this equals the whole operation followed by what the kernel did. So at
  the level of the socket the ring operations are steps, with kernel steps between them.
- In `Sharded`, what other threads add to the shared counters arrives between two
  iterations of the thread at hand.

## What the proofs found

- The early return on leaving the doubling phase and the `MAX_BISECT` cap
  (src/engine/ramp.rs:120-122, 130) are never taken. The comment that noise could keep the
  bracket from tightening (src/engine/ramp.rs:2-5) does not hold: it halves exactly at every
  step, whatever the verdicts (`Ramp.BisectStep`, `Ramp.RampEnds`).
- `global_in_flight` is called accurate (src/transport/xdp/receiver.rs:360), but it is not
  always. A reply taken and subtracted between a worker's inserts and its add is swallowed by
  the saturating subtraction, and the counter stays too high for good
  (`GateRuns.SaturationLeaks`). An id that comes round while its query is unanswered has the
  same effect (`GateRuns.ReuseLeaks`). It is accurate in every run if and only if there is
  one worker and the cap is 1 (`GateRuns.AccurateIff`). It never under-counts. At every cap,
  and exactly with more than one worker, the excess can reach the cap (`GateRuns.JamsIff`),
  and then no query is ever sent again (`GateRuns.JammedForGood`).
- Queries in flight at the end of a run are said to be counted as losses
  (src/transport/xdp/receiver.rs:96-97, 452-453), but worker 0 drains the table when it leaves, not
  when everyone has left, and an overwritten query is in no slot at all. So a query can be
  neither answered nor counted (`EndOfRun.ForgottenQuery`, `EndOfRun.OverwrittenQuery`).
  Nothing is forgotten in any run if and only if there is one worker and the cap is 1
  (`EndOfRun.NothingForgottenIff`); a lone worker forgets exactly what it overwrites, always
  fewer queries than the cap (`EndOfRun.SoloForgets`).
- The closed UDP loop has the same kind of excess. It can arise with any gate of two or more
  (`ClosedLoop.IdReused`) and never with a smaller one, and it always stays below the gate
  (`ClosedLoop.RunClosedLoop`).
- The ignored result of `enqueue_batch` loses receive frames exactly as far as the kernel's
  published fill index lags (`Umem.RefillLoss`); if the kernel publishes that it took a frame
  before handing that frame back, nothing is ever lost (`Umem.NoLossIfPrompt`).
- `sent == completed + lost` can fail after a warm-up reset. It holds throughout the window
  that an uninterrupted reset opens if and only if no reply was answerable at the reset: no
  worker had a counted query out or a reply in hand (`Accounting.IdentitySurvivesIff`). A
  reset under load never meets that; what the counters then add up to is
  `Accounting.LossAccounting`.
- `reset_window` is not atomic. A reset between the two counts of a reply leaves an rcode
  without a completion (`Accounting.ResetInsideReply`), and that is the only way an
  uninterrupted reset can break their equality (`Accounting.WarmUp`). A query sent and
  answered between two of its stores is reported lost (`Accounting.TornReset`); by how much
  the figure is off is `Accounting.InterruptedReset`.
- A late reply is described as an effective loss (src/transport/udp.rs:604-605) but is
  counted as a completion. The model follows the code.
- The parser's VLAN branch cannot run behind the eBPF classifier, which passes every tagged
  frame to the kernel stack (`Parser.TaggedNeverRedirected`).
- The merged percentage of the line rate is said to be exact (src/engine/multi_nic.rs:114-115).
  It adds up the links of all NICs and the replies of those that could count them. So a NIC
  whose counters cannot be read adds its link and nothing else: beside a saturated link of
  the same speed the merge reports 50 % (`LineRate.HalfTheTraffic`). From which NICs counted,
  knew their reply size and knew their speed alone, the figure is sure to be the share of the
  NICs that have one if and only if every NIC that counted or is linked has one
  (`LineRate.FlagsDecide`). It is too low exactly if only links are in excess
  (`LineRate.ExactWhen`); with both in excess the errors can cancel (`LineRate.ErrorsCancel`),
  exactly when they are in proportion (`LineRate.MergedExactIff`).
- In kernel mode the ramp finds the boundary of 80 % delivery. For a server that serves up to
  a ceiling, what `advance` returns as sustainable is therefore 19 to 25 % above that ceiling
  as soon as the start rate has passed (`Ramp.CeilingBracketed`).
- The IPv4 and UDP length fields are right if and only if they fit in 16 bits
  (`Frame.LengthsRightIff`).
- Ids of different workers are disjoint exactly up to 65536 workers (`IdRanges.DisjointIff`).
- A label of more than 63 bytes is encoded with a truncated or reserved length byte and
  cannot be read back (`Wire.DecodeEncodeIff`).

## Model

| member | source | states |
|---|---|---|
| `Rings.Ring.EnqueueBatch` | src/transport/xdp/umem.rs:111-123 | For every pair of wrapping u32 indices and any consumption by the kernel meanwhile: exactly the first min(len, free) items are appended to the FIFO queue, no live slot is overwritten, and the kernel gets the old entries in order. |
| `Rings.Ring.ProduceTx` | src/transport/xdp/umem.rs:173-187 | The same for the TX ring, whose producer index is left alone when nothing fits. |
| `Rings.Ring.DequeueAll` | src/transport/xdp/umem.rs:125-139 | Returns every entry present at the producer read, in order; what the kernel produces meanwhile stays queued. |
| `Rings.Ring.ConsumeRx` | src/transport/xdp/umem.rs:189-202 | The same for the RX ring, with the early return. |
| `Rings.Ring.MaskedIndex` | src/transport/xdp/umem.rs:117-118 | The masked wrapping index is the slot of the FIFO position, including wrap at 2^32. |
| `Rings.Ring.FreeSlots` | src/transport/xdp/umem.rs:112-114 | The wrapping subtraction gives the exact number of free slots. |
| `Rings.Ring.Stage` | src/transport/xdp/umem.rs:116-119 | A slot written past the producer is none of the live ones. |
| `XskSocket.Socket.constructor` | src/transport/xdp/umem.rs:322-328 | Frames 0..4095 are queued in the fill ring and frames 4096..16383 are in the TX pool, from any start index. |
| `XskSocket.Socket.ReclaimCompletions` | src/transport/xdp/receiver.rs:265-274 | Empties the completion ring into the pool, in order, and is the ownership step Reclaim. |
| `XskSocket.Socket.PrepareBatch` | src/transport/xdp/receiver.rs:324-345 | Is the ownership step Prepare: the frames popped from the pool are the ones described, in order. |
| `XskSocket.Socket.SubmitBatch` | src/transport/xdp/receiver.rs:346-350 | Is the ownership step Submit: frames the TX ring refuses go back to the pool. |
| `XskSocket.Socket.ReceiveBatch` | src/transport/xdp/receiver.rs:392-413 | Is the ownership step ConsumeRx: the worker holds exactly the frames received. |
| `XskSocket.Socket.RefillBatch` | src/transport/xdp/receiver.rs:414 | Is the ownership step Refill: frames the fill ring refuses are lost. |
| `XskSocket.Socket.KernelActs` | src/transport/xdp/umem.rs:88-97 | Every kernel step of the ownership system, carried out on the wrapping indices and slots of the real rings. |
| `XskSocket.Socket.Iterate` | src/transport/xdp/receiver.rs:262-414 | One loop iteration with any kernel activity before each of its ring operations is a run of the ownership system in which the worker reclaims, builds at most its headroom, submits, receives and refills, in that order. |
| `XskSocket.RunSocket` | src/transport/xdp/receiver.rs:262-414 | From any ring start index, any number of iterations and any kernel activity: rings, pool and kernel together hold a reachable state of the ownership system, so the ownership invariant holds of the real data; the worker's own steps are those of its iterations, in order. |
| `Umem.StepConserves` | src/transport/xdp/receiver.rs:265-414 | No step of worker or kernel changes how many holders any frame has on the receive side or on the transmit side. |
| `UmemFlow.ReclaimMoves` | src/transport/xdp/receiver.rs:265-269 | Reclaiming moves every completed frame to the pool and nothing else. |
| `UmemFlow.PrepareMoves` | src/transport/xdp/receiver.rs:327-344 | Building moves as many frames as are to be sent from the end of the pool to the batch. |
| `UmemFlow.SubmitMoves` | src/transport/xdp/receiver.rs:346-350 | The TX ring gets the first of the batch, as many as fit; the others return to the pool. |
| `UmemFlow.ReceiveMoves` | src/transport/xdp/receiver.rs:392-413 | Every received frame goes to the worker. |
| `UmemFlow.RefillMoves` | src/transport/xdp/receiver.rs:414 | The fill ring gets the first of them, as many as fit; the others are lost. |
| `UmemFlow.TakeFillMoves` | src/transport/xdp/umem.rs:88-97 | The kernel takes one frame from the fill ring at a time. |
| `UmemFlow.DeliverMoves` | src/transport/xdp/umem.rs:189-202 | It hands that frame back through the RX ring, with the address and length it reports. |
| `UmemFlow.TakeTxMoves` | src/transport/xdp/umem.rs:173-187 | It takes one frame from the TX ring at a time. |
| `UmemFlow.CompleteMoves` | src/transport/xdp/umem.rs:125-139 | It reports that frame through the completion ring. |
| `UmemFlow.PublishFillMoves` | src/transport/xdp/umem.rs:111-114 | Publishing its fill index moves no frame and makes room. |
| `UmemFlow.PublishTxMoves` | src/transport/xdp/umem.rs:173-176 | The same for the TX ring. |
| `UmemFlow.ReclaimRestores` | src/transport/xdp/receiver.rs:265-269 | Once the kernel has completed all it took, one reclaim leaves all 12288 transmit frames in the pool, each once. |
| `UmemFlow.NothingStuck` | src/transport/xdp/receiver.rs:262-350 | From every reachable state a continuation brings all 12288 transmit frames back to the pool. |
| `Umem.RunKeeps` | src/transport/xdp/receiver.rs:262-414 | Every run keeps the ownership invariant. |
| `Umem.UniqueOwner` | src/transport/xdp/umem.rs:322-326 | In every reachable state each frame has exactly one owner and occurs there once; frames 0..4095 only ever on the receive side, frames 4096..16383 only on the transmit side, none of which is ever missing. |
| `Umem.WritesStayInFrame` | src/transport/xdp/receiver.rs:329-341 | The FRAME_SIZE bytes written for a popped frame lie in the UMEM area and in that one transmit frame. |
| `Umem.RefillLoss` | src/transport/xdp/receiver.rs:414 | How many receive frames a refill loses, exactly, from how far the published fill index lags. |
| `Umem.OnlyRefillLoses` | src/transport/xdp/receiver.rs:392-414 | No other step loses a frame. |
| `Umem.NoLossIfPrompt` | src/transport/xdp/receiver.rs:392-414 | No run loses a frame if the kernel publishes that it took a frame before it hands that frame back. |
| `Umem.LateKernelLosesAFrame` | src/transport/xdp/receiver.rs:414 | A run of a late kernel that loses frame 0. |
| `IdRanges.IdInRange` | src/transport/xdp/receiver.rs:207-209 | Up to 65536 workers, no cast truncates, the add never wraps, and every id is in its worker's range. |
| `IdRanges.RangesDisjoint` | src/transport/xdp/receiver.rs:207-209 | Two workers never generate the same id. |
| `IdRanges.RepeatsExactlyEverySpan` | src/transport/xdp/receiver.rs:330 | A worker repeats an id exactly every id_span allocations. |
| `IdRanges.DisjointIff` | src/transport/xdp/receiver.rs:207-209 | Disjointness holds if and only if there are at most 65536 workers. |
| `IdRanges.OneTooMany` | src/transport/xdp/receiver.rs:209 | Past 65536 workers, worker 65536 shares the id of worker 0. |
| `SlotTable.Table.Insert` | src/transport/udp.rs:110-112 | Stores the send time, never 0, in its slot; other slots are untouched; occupancy rises unless the slot was occupied. |
| `SlotTable.Table.Take` | src/transport/udp.rs:116-119 | Frees the slot and returns what was in it. |
| `SlotTable.Table.Sweep` | src/transport/udp.rs:123-132 | Frees exactly the expired slots and counts them; strict and inclusive comparison. |
| `SlotTable.Table.DrainAll` | src/transport/xdp/receiver.rs:98-106 | Frees every slot and counts the occupied ones. |
| `InFlight.LedgerKept` | src/transport/xdp/receiver.rs:65-106 | Every atomic step keeps inserts = takes + expiries + drained + overwritten + occupied. |
| `InFlight.EveryEntryAccounted` | src/transport/xdp/receiver.rs:65-106 | That equation in every interleaving of any number of workers, with the sweep split into load and compare-exchange. (Takes are the completions, expiries and drained entries the timeouts reported.) |
| `InFlight.GateKept` | src/transport/xdp/receiver.rs:370-448 | Every step keeps: counter + inserted-not-yet-added = occupied + removed-not-yet-subtracted + leak. |
| `InFlight.CappedKept` | src/transport/xdp/receiver.rs:304-377 | Every step keeps the counter plus all claimed headroom within cap + min(cap, 64) * (n - 1). |
| `InFlight.RunKeeps` | src/transport/xdp/receiver.rs:262-459 | Every interleaving keeps ledger, gate equation and bound together. |
| `InFlight.OutstandingBounded` | src/transport/xdp/receiver.rs:304-377 | In every interleaving the counter never under-counts, and counter plus reserved headroom, hence the queries outstanding, are at most cap + min(cap, 64) * (n - 1). |
| `GateRuns.BoundReached` | src/transport/xdp/receiver.rs:317-321 | For every cap and every number of workers a run reaches that bound. |
| `InFlight.ExpiryOnlyRemovesOld` | src/transport/xdp/receiver.rs:82-95 | A successful expiry only removes a timestamp older than the timeout, even if the slot was taken and refilled between load and compare-exchange. |
| `Sweeps.ExpiresIff` | src/transport/xdp/receiver.rs:82-95 | The compare-exchange frees and counts the slot if and only if the value loaded is still there, is not 0 and is older than the timeout (or as old, for the UDP table) at the start of the sweep. |
| `Sweeps.SweepDecides` | src/transport/xdp/receiver.rs:82-95 | In every interleaving: a slot that only the sweep touches from its start to its end is then free if its entry was too old at the start, and unchanged if not. |
| `Sweeps.SweepAlone` | src/transport/xdp/receiver.rs:434-448 | A sweep that nothing interrupts leaves exactly the entries within the timeout, reports each of the others once and takes as many from the counter. |
| `Sweeps.GateAdmits` | src/transport/xdp/receiver.rs:304-321 | The gate admits the most that neither the rate limit nor the cap forbids. |
| `Sweeps.BatchProduced` | src/transport/xdp/receiver.rs:330-377 | A batch gets the ids after the last one spent and is added to the counter once. |
| `Sweeps.QueryRegistered` | src/transport/xdp/receiver.rs:65-70 | A query is registered with its send time under its own id of the worker's range. |
| `Sweeps.ReplyTaken` | src/transport/xdp/receiver.rs:73-80 | A reply frees its slot and counts if there was an entry; the counter falls by what was counted, not below 0. |
| `InFlight.OverwritesOwnOnly` | src/transport/xdp/receiver.rs:370-373 | An insert can only hit a slot used by the same worker. |
| `GateRuns.SaturationLeaks` | src/transport/xdp/receiver.rs:408-423 | With any number of workers from two on: a run that ends with an empty table and the counter stuck at 1. |
| `GateRuns.ReuseLeaks` | src/transport/xdp/receiver.rs:330 | At any cap from two on: a run in which every other query is answered, worker 0 comes back to the unanswered id, one slot is occupied and the counter says 2. |
| `GateRuns.PilesUp` | src/transport/xdp/receiver.rs:304-423 | From any state with the gate open and its other slots free, worker 0 can send up to the cap under one id, all but the last overwritten, while every query in between is answered. |
| `GateRuns.NeverClipsIff` | src/transport/xdp/receiver.rs:420-423 | No subtraction is clipped in any run if and only if there is one worker. |
| `GateRuns.SoloRun` | src/transport/xdp/receiver.rs:304-448 | In every run of a lone worker nothing is clipped and fewer entries are overwritten than the cap. |
| `GateRuns.AccurateIff` | src/transport/xdp/receiver.rs:360-377 | While a run lasts, the counter equals the occupied slots whenever no worker is between a table access and its counter access, in every run, if and only if there is one worker and the cap is 1. |
| `InFlight.LeakJamsTheGate` | src/transport/xdp/receiver.rs:317-321 | Once the leak reaches the cap and no batch is under way, no continuation ever inserts again. |
| `GateRuns.JamReached` | src/transport/xdp/receiver.rs:304-423 | At every cap and with any number of workers from two on, a run that gets there before the workers are told to stop. |
| `GateRuns.JamsIff` | src/transport/xdp/receiver.rs:304-423 | Such a run exists if and only if there is more than one worker. |
| `GateRuns.JammedForGood` | src/transport/xdp/receiver.rs:317-321 | From there on no continuation of the run inserts another query. |
| `EndOfRun.LastOutLeavesNothing` | src/transport/xdp/receiver.rs:452-459 | If the other workers have left before worker 0 drains, the table is empty once it has left too. |
| `EndOfRun.ForgottenQuery` | src/transport/xdp/receiver.rs:452-459 | With any number of workers from two on: a run in which a query is neither answered nor reported as lost. |
| `EndOfRun.OverwrittenQuery` | src/transport/xdp/receiver.rs:452-459 | One worker, any cap from two on: a run in which one query is neither answered nor reported as lost. |
| `EndOfRun.SoloForgets` | src/transport/xdp/receiver.rs:96-106 | With one worker, what is forgotten at the end of any run is exactly what was overwritten, fewer than the cap. |
| `EndOfRun.NothingForgottenIff` | src/transport/xdp/receiver.rs:96-106 | At the end of a run every registered query was answered, expired or reported as lost, in every run, if and only if there is one worker and the cap is 1. |
| `Ramp.SloOnlyTightens` | src/engine/ramp.rs:88-91 | Over any ramp, from the first p50 on: the floor never rises, stays at or below every p50 seen since, and the SLO never rises. |
| `Ramp.SloFollowsFloor` | src/engine/ramp.rs:51-54 | A lower floor never gives a higher SLO, and the SLO is always at least 1000 us above its floor. |
| `Ramp.FloorAlwaysPasses` | src/engine/ramp.rs:88-104 | A p50 at or below the floor so far meets the SLO it is judged by, which that same p50 may lower. |
| `Ramp.RampController.Judge` | src/engine/ramp.rs:88-104 | With b the lowest positive p50 so far, at least 1: a step is sustained if and only if p50 <= max(3 b, b + 1000) and, in kernel mode, also 80 % of the target was achieved. |
| `Ramp.VerdictIs` | src/engine/ramp.rs:88-104 | The same over every ramp, with b taken from the measurements themselves. |
| `Ramp.BracketWitnessed` | src/engine/ramp.rs:57-60 | On any measurements, in both modes: lo (if not 0) was sustained in a call of the ramp and hi was not, each by the SLO of that call; or all 20 doublings were. |
| `Ramp.RampController.Step` | src/engine/ramp.rs:87-137 | One call of `advance` is one transition of the controller; the bracket is never inverted. |
| `Ramp.ClimbStep` | src/engine/ramp.rs:107-126 | A passed step doubles the target or, the 20th time, ends the ramp; a failed one always starts the bisection and never converges at once. |
| `Ramp.BisectStep` | src/engine/ramp.rs:127-135 | Either verdict keeps one exact half of the bracket; the phase ends at the 5th step, or at the 4th if and only if a doubling has passed and hi - lo <= lo / 20 there; never by the cap. |
| `Ramp.RampEnds` | src/engine/ramp.rs:87-137 | On every measurement sequence a ramp ends within 25 calls, in one of those two ways. |
| `Ramp.TargetInsideBracket` | src/engine/ramp.rs:123-133 | While bisecting, lo < current < hi and current is the exact middle. |
| `Ramp.FinalBracketTight` | src/engine/ramp.rs:62-69 | The final bracket is within 5 % of lo, or 3125 wide if even the start rate failed. |
| `Ramp.XdpFirstStepPasses` | src/engine/ramp.rs:88-104 | In XDP mode the first step passes on any measurement. |
| `Ramp.XdpBracketAboveStart` | src/engine/ramp.rs:106-136 | So an XDP bracket has lo >= 100000 and hi - lo <= lo / 20. |
| `Ramp.BracketStraddlesBoundary` | src/engine/ramp.rs:87-137 | In both modes, for any verdict downward closed in the target, everything up to lo is sustained and nothing from hi on is. |
| `Ramp.FloorSettles` | src/engine/ramp.rs:88-91 | For a nondecreasing p50 curve the floor is the p50 of the start rate, from the first call on. |
| `Ramp.Knee` | src/engine/ramp.rs:51-137 | Knee theorem: for any positive nondecreasing p50 function f the XDP ramp ends with all 20 doublings within T = max(3 f(100000), f(100000) + 1000), or with f(lo) <= T < f(hi) and hi - lo <= lo / 20. |
| `Ramp.KernelKnee` | src/engine/ramp.rs:87-137 | The kernel mode, with p50 pinned within its SLO: for any throughput function g the ramp ends with 80 % of all 20 doublings delivered, or with 80 % delivered at lo and not at hi, in a tight bracket. |
| `Ramp.KernelBoundary` | src/engine/ramp.rs:87-137 | If delivery only ever fails upwards, every target up to lo is delivered and none from hi on is. |
| `Ramp.CeilingBracketed` | src/engine/ramp.rs:92-104 | For a server that serves up to a ceiling, 80 % of lo and 80 % of hi are on either side of it, so that lo is 19 to 25 % above it once a step has passed. |
| `Ramp.RunRamp` | src/engine/mod.rs:374-466 | The engine's loop terminates on any source of measurements and leaves a finished ramp. |
| `Stats.Replied` | src/stats/mod.rs:123-131 | One reply raises completed and one rcode counter, so their equality is kept. |
| `Stats.StatsCollector.RecordRcodes` | src/stats/mod.rs:93-102 | Bulk completions: each counter rises by its count and completed by their sum. |
| `Stats.StatsCollector.RecordResponse` | src/stats/mod.rs:123-134 | One completion under its rcode and one sample of at least 1 us. |
| `Stats.StatsCollector.RecordLatency` | src/stats/mod.rs:140-142 | One sample and no completion. |
| `Stats.StatsCollector.ResetWindow` | src/stats/mod.rs:76-85 | All counters and samples are gone. |
| `Stats.StatsCollector.Snapshot` | src/stats/mod.rs:160-209 | sent = completed + lost holds if and only if completed <= sent, and otherwise the right side is larger. |
| `Accounting.BalancedStep` | src/transport/udp.rs:681-743 | Every single access to a counter by a worker or a reset keeps, over the whole run: sent = completed + timeouts + pending, and completed = rcodes + counted-not-yet-binned. |
| `Accounting.LossAccounting` | src/stats/mod.rs:201-209 | In every interleaving of any number of workers, resets anywhere: sent + carry = completed + timeouts + pending, the same for the rcodes, and what the loss figure is in those terms. |
| `Accounting.NoResetNoDrift` | src/stats/mod.rs:201-209 | Without a reset the identity holds at every point; between batches the losses are the timeouts plus what is outstanding, and the rcodes add up. |
| `Accounting.ResetWhole` | src/stats/mod.rs:76-85 | A reset that nothing interrupts clears every counter and opens a window whose carry is what was pending and whose skew is what was not yet binned. |
| `Accounting.WarmUp` | src/engine/mod.rs:486-497 | Warm-up, reset, window: at the end what was pending at the reset is the difference between the counters, and the rcodes add up to the completions if and only if no worker was between the two counts at the reset. |
| `Accounting.CoveredRun` | src/transport/udp.rs:681-743 | Until the next reset, no interleaving lets sent - completed fall below what is still answerable. |
| `Accounting.IdentityHoldsIff` | src/stats/mod.rs:201-209 | In any reachable state, after any resets: sent = completed + lost holds from there to the next reset in every interleaving if and only if completed plus what is answerable is at most sent. |
| `Accounting.IdentitySurvivesIff` | src/stats/mod.rs:76-85 | After an uninterrupted reset it holds throughout the window if and only if nothing was answerable at any worker at the reset. |
| `Accounting.ExhaustsAll` | src/transport/udp.rs:711-727 | From any state a run in which completed gains on sent by exactly what was answerable. |
| `Accounting.InterruptedReset` | src/stats/mod.rs:78-83 | If workers act between the stores of a reset, the carry is what was pending less what they completed or timed out meanwhile. |
| `Accounting.ResetBreaksIdentity` | src/stats/mod.rs:76-85 | A run that ends with one completion and nothing sent. |
| `Accounting.ResetInsideReply` | src/stats/mod.rs:76-85 | A run that ends with one NOERROR and no completion. |
| `Accounting.TornReset` | src/stats/mod.rs:78-83 | A run that ends with one query lost, although it was answered, nothing timed out and nothing is out. |
| `Accounting.SendRun` | src/transport/udp.rs:681-683 | The two accesses of a send book one query and count it. |
| `Accounting.ReplyRun` | src/transport/udp.rs:711-727 | The accesses of a matched reply free one query, count it once under its rcode and sample it unless late. |
| `Accounting.SweepRun` | src/transport/udp.rs:736-743 | The accesses of a sweep report each freed query once and lower the gate by as many. |
| `Accounting.RecordedLeads` | src/transport/udp.rs:655-746 | A recorded log is a run without resets, so all of the above holds of it. |
| `Pacing.RunBound` | src/transport/udp.rs:685-694 | A run of length t at a fixed rate makes at most t / step + 1 sends. |
| `Pacing.DueExactly` | src/transport/udp.rs:685-694 | Without a stall of more than 2 ms the k-th send is due exactly k steps after the start, however late it goes out. |
| `Pacing.RateReached` | src/transport/udp.rs:685-694 | A worker with nothing left to send at time t has then made at least t / step + 1 sends. |
| `Pacing.RateExact` | src/transport/udp.rs:685-694 | With the bound from above: exactly as many. |
| `Pacing.WindowBound` | src/transport/udp.rs:685-694 | Any window of length l contains at most (l + 2 ms) / step + 2 sends, whatever the stalls and catch-ups. |
| `ClosedLoop.Worker.Reschedule` | src/transport/udp.rs:685-694 | The next send is due one step after the last was, or now if that was more than 2 ms ago; and the schedule invariant is kept. |
| `ClosedLoop.StepIsNearest` | src/transport/udp.rs:632 | The step times the rate is one second, to the nearest nanosecond. |
| `ClosedLoop.KeepPace` | src/transport/udp.rs:665-695 | A pass of the send loop that nothing refuses leaves all the sends made that the rate asks for, unless the gate is full or a send was followed by a stall. |
| `ClosedLoop.Worker.SendOne` | src/transport/udp.rs:667-695 | One pass of the send loop: when it sends, which id, slot, counter and error it touches, and that the balance is kept. |
| `ClosedLoop.Worker.SendFill` | src/transport/udp.rs:665-695 | The send loop keeps balance, gate and schedule; without a rate limit it makes exactly the passes that the socket's answers and the gate allow, each spending one id, and unrefused it fills the gate. |
| `ClosedLoop.Worker.ReceiveOne` | src/transport/udp.rs:705-731 | Frees exactly the slot of a matched id, never saturates, counts every matched reply and samples only those within the timeout. |
| `ClosedLoop.Worker.SweepTimeouts` | src/transport/udp.rs:734-746 | Every swept slot is one timeout and one less outstanding, without saturating. |
| `ClosedLoop.Worker.Retarget` | src/transport/udp.rs:656-663 | A changed rate starts a new schedule; otherwise nothing changes. |
| `ClosedLoop.Worker.Iterate` | src/transport/udp.rs:655-746 | One iteration keeps the worker's invariant and balance, leaves the slots of all received ids free and the last sweep less than 10 ms ago with nothing too old behind it; without a rate limit and before the timeout it is exactly the send loop followed by the replies of the batch. |
| `ClosedLoop.Worker.Receive` | src/transport/udp.rs:697-731 | A batch does to table and counters what its datagrams do one after the other at the time of reception. |
| `ClosedLoop.MatchedCounts` | src/transport/udp.rs:714-727 | A matched reply is one completion in the one counter of its rcode, and one sample in microseconds unless late. |
| `ClosedLoop.Worker.Run` | src/transport/udp.rs:655-760 | So does any number of them; overwritten entries are never given back, and there are always fewer of them than the gate lets through. |
| `ClosedLoop.IdReused` | src/transport/udp.rs:655-746 | For any gate of two or more and any clock that stays within the timeout: iterations in which the socket refuses nothing and every later query is answered, after which the gate counts one query more than the table holds (or all beyond 65536). |
| `ClosedLoop.RunClosedLoop` | src/transport/udp.rs:607-761 | In every reachable state: sent = completed + timeouts + outstanding, occupied <= outstanding <= max_outstanding with equality iff no id was reused while occupied, never so at a gate below two, and always by less than the gate; the worker's accesses to the counters are a run of `Accounting` from its start; every sample is within the timeout, and at a fixed rate every send is on the paced schedule, so there are at most t / step + 1 of them. |
| `TokenBucket.Bucket.Headroom` | src/transport/xdp/receiver.rs:304-316 | Each grant is at most 64, leaves tokens in [0, 1) and is the next step of the refill sequence; rate 0 grants a full batch. |
| `TokenBucket.RefillInNumbers` | src/transport/xdp/receiver.rs:304-316 | A refill grants the whole part of tokens + qps * dt and keeps the rest; one that reaches 64 grants exactly 64 and keeps nothing. |
| `TokenBucket.NeverOverGrants` | src/transport/xdp/receiver.rs:255-316 | Over any refills at any rates, grants never exceed initial tokens plus the sum of qps * dt. |
| `TokenBucket.ExactWhenNotCapped` | src/transport/xdp/receiver.rs:255-316 | If the 64 cap is never hit they are the floor of that sum, exactly. |
| `TokenBucket.AfterConcat` | src/transport/xdp/receiver.rs:306-313 | Grants of consecutive refill sequences add up. |
| `Sharded.UdpSender.Iterate` | src/transport/udp.rs:444-485 | At every point shared plus local count is what was sent, and the local part is under sixteen batches. |
| `Sharded.UdpSender.Run` | src/transport/udp.rs:426-488 | On exit the shared total alone holds everything sent, for every sequence of batches and other threads' additions. |
| `Sharded.UdpReceiver.Iterate` | src/transport/udp.rs:559-588 | At every point shared plus local counts are the replies seen, rcode by rcode; unparsable datagrams count as other. |
| `Sharded.UdpReceiver.Run` | src/transport/udp.rs:538-593 | On exit the shared rcode counters alone hold them, and completed has risen with them. |
| `Sharded.XdpShard.Submitted` | src/transport/xdp/receiver.rs:383-386 | Shared plus local count is what was submitted; fewer than 1024 are unflushed. |
| `Sharded.XdpShard.Drained` | src/transport/xdp/receiver.rs:392-419 | The same for replies by rcode; only frames that parse count; fewer than 4096 are unflushed. |
| `Sharded.XdpShard.Finish` | src/transport/xdp/receiver.rs:460-462 | The exit flush adds exactly what is left. |
| `Sharded.RunShard` | src/transport/xdp/receiver.rs:383-462 | A whole open-loop worker: the shared totals end up with everything it submitted and every reply under its rcode, and completed with their sum. |
| `Sharded.TallyIsDirect` | src/stats/mod.rs:93-131 | Adding a tally in bulk equals counting its replies one by one. |
| `Checksum.Ipv4Checksum` | src/transport/xdp/frame.rs:165-172 | Summing and folding until no carry is left gives the one's-complement checksum. |
| `Checksum.TwoFoldsSuffice` | src/transport/xdp/frame.rs:143-146 | Two folds give the one's-complement value of any sum of up to 65535 words. |
| `Frame.FastChecksum` | src/transport/xdp/frame.rs:99-146 | Precomputed base plus total length, folded twice, is the full checksum of the header. |
| `Frame.EmittedHeaderVerifies` | src/transport/xdp/frame.rs:131-172 | The checksum of every emitted IPv4 header is 0. |
| `Frame.LengthsRightIff` | src/transport/xdp/frame.rs:131-153 | The IPv4 and UDP length fields of the emitted header are the true lengths if and only if these fit in 16 bits. |
| `Readers.FrameReadBack` | src/transport/xdp/frame.rs:62-153 | A field-by-field reader of an emitted frame recovers both MACs, the VLAN id, both IPs, both ports, the lengths and the payload. |
| `Frame.FrameHeader.NewWithVlan` | src/transport/xdp/frame.rs:62-105 | Builds the Ethernet, optional 802.1Q, IPv4 and UDP template and its base sum. |
| `Frame.FrameHeader.WriteHeader` | src/transport/xdp/frame.rs:131-153 | The patched copy is the header that the layout defines; the payload and what follows are untouched. |
| `Frame.FrameHeader.WriteFrame` | src/transport/xdp/frame.rs:117-123 | Writes exactly the frame of the route and payload, and nothing after it. |
| `Frame.FrameHeader.SetSrcPort` | src/transport/xdp/frame.rs:158-161 | Gives exactly the frame with that source port: IPv4 header, checksum and payload unchanged. |
| `Wire.BuildQuery` | src/dns/mod.rs:5-27 | The loop builds the query message as defined field by field. |
| `Wire.BuildWireTemplate` | src/query/wire.rs:47-67 | The template is the same message with id 0. |
| `Wire.WireQueryPool.FromPairs` | src/query/wire.rs:19-26 | One template per entry, in order. |
| `Wire.WireQueryPool.WriteWithIndex` | src/query/wire.rs:35-43 | For every pool, cursor and id the bytes written are exactly the query the simple builder makes for entry cursor mod n; the rest of the buffer is untouched. |
| `Wire.DecodeEncodeIff` | src/dns/mod.rs:14-23 | A QNAME decoder recovers exactly the labels and the rest if and only if every label has at most 63 bytes. |
| `Wire.QueryInjective` | src/dns/mod.rs:5-27 | On legal labels two queries are equal if and only if id, labels and type are. |
| `Wire.TrimmingIsIdle` | src/dns/mod.rs:14-18 | Trimming trailing dots does not change the labels. |
| `Wire.ExtraDotsIgnored` | src/dns/mod.rs:14-18 | Leading, trailing and doubled dots do not change the query. |
| `Wire.QueryFits` | src/query/wire.rs:65 | A query is at most 18 bytes longer than its name, so names up to 253 bytes fit MAX_QUERY. |
| `Readers.QueryReadBack` | src/dns/mod.rs:5-27 | A reader of sections 4.1.1 and 4.1.2 of RFC 1035 finds RD and no other flag, one question and no other records, and, if and only if the labels are legal, exactly the labels, the type, class IN and nothing after. |
| `Readers.NameReadBack` | src/dns/mod.rs:14-18 | A name made of labels has exactly those labels, with or without a dot at the end. |
| `Wire.QueriesAreNotResponses` | src/dns/response.rs:7-19 | No generated query parses as a response, bare or framed. |
| `Wire.PrepareFrame` | src/transport/xdp/receiver.rs:329-343 | Query written in place, header stamped, source port patched: the UMEM frame holds exactly the frame of the simple builder's query, nothing after it is touched, and neither classifier nor parser takes it for a reply. |
| `Parser.BuildThenParse` | src/transport/xdp/receiver.rs:469-500 | Parsing a built frame gives exactly what parsing its payload gives, tagged or not. |
| `Parser.ParsedFields` | src/dns/response.rs:7-19 | A message is accepted if and only if it has 12 bytes and QR set; the id is its first word and the rcode the low four bits of its fourth byte. |
| `Parser.ReplyRoundTrip` | src/dns/response.rs:7-19 | Any reply gives back its id and rcode, bare and in a frame, tagged or not. |
| `Parser.AnyReplyParsed` | src/transport/xdp/receiver.rs:469-500 | So does a reply in any frame with at most one tag, IPv4 options or IPv6. |
| `Readers.ReplyToQuery` | src/dns/response.rs:7-19 | A message that repeats a query's id with QR set parses to that id and its rcode. |
| `Readers.CountedUnder` | src/transport/udp.rs:565-568 | The flood receiver and the XDP worker count a reply under its rcode. |
| `Readers.BookedUnder` | src/transport/udp.rs:705-727 | The closed loop reads the same id and rcode off it. |
| `Parser.FilterAgreesWithParser` | ebpf/dns_xdp_client.c:21-63 | Every redirected frame is parsed at the same payload offset and rejected only if the payload is under 12 bytes or has QR clear. |
| `Parser.CapturedReplies` | ebpf/dns_xdp_client.c:21-63 | Of the frames the parser accepts, the classifier redirects exactly the untagged ones from port 53 without IPv4 options. |
| `Parser.TaggedNeverRedirected` | ebpf/dns_xdp_client.c:21-63 | A tagged frame is never redirected. |
| `Parser.OwnFramesPass` | ebpf/dns_xdp_client.c:21-63 | A frame built here is redirected only if untagged and sent from port 53. |
| `LineRate.PctIsShare` | src/output/mod.rs:26-47 | Whenever a percentage is reported, it is bits on the wire over link bits, at the rate that is used. |
| `LineRate.Measure` | src/engine/mod.rs:562-578 | What the engine reads of the NICs: a known reply size always comes with a counted rate, a known speed with a rate that may be 0. |
| `LineRate.MeasuredIs` | src/engine/mod.rs:562-578 | In numbers: packets over seconds, bytes over packets, and the link speed if one was read. |
| `LineRate.MergedReportsIff` | src/engine/multi_nic.rs:109-129 | For every list: a merge has a percentage if and only if some NIC counted replies of a known size and some link speed is known. |
| `LineRate.MergedShare` | src/engine/multi_nic.rs:109-129 | For every list: it is the bits of all NICs that counted, an unknown size taken to be the average of the known ones, over all known links. |
| `LineRate.MergedBetween` | src/engine/multi_nic.rs:109-129 | Bounds on the NICs' percentages bound the merged one, times the rated part of the links; the upper one also as it is if all that counted are rated, the lower one if all linked ones are. |
| `LineRate.EqualSharesIff` | src/engine/multi_nic.rs:109-129 | If all rated NICs report the same percentage, the merge reports it in proportion to their part of the links, hence as it is if and only if every linked NIC is rated. |
| `LineRate.HalfTheTraffic` | src/engine/multi_nic.rs:109-129 | Two links of which one is at 100 % and the counters of the other cannot be read: the merge reports 50 %. |
| `LineRate.ShareOfNobody` | src/engine/multi_nic.rs:109-129 | Two NICs without a percentage of their own whose merge reports 100 %. |
| `LineRate.ErrorsCancel` | src/engine/multi_nic.rs:109-129 | A list with both kinds of error whose merge is exact nevertheless. |
| `LineRate.WireBoundIff` | src/output/mod.rs:38-45 | With percentages between lo and hi, the merge is wire-bound if lo percent of the rated links is 90 % of all links, and only if hi percent is; exact for equal percentages. |
| `LineRate.MergedWireBound` | src/output/mod.rs:38-45 | If every rated NIC is wire-bound and every linked one is rated, so is the merge. |
| `LineRate.MergedExactIff` | src/engine/multi_nic.rs:114-129 | It is the share of the rated NICs if and only if the bits and links of the others are in the same proportion. |
| `LineRate.ExactWhen` | src/engine/multi_nic.rs:114-129 | If all that counted are rated, exact if and only if all linked ones are, and too low otherwise; if all linked ones are rated, exact if and only if all that counted are, and too high otherwise. |
| `LineRate.FlagsDecide` | src/engine/multi_nic.rs:114-129 | Given only which NICs counted, know their size and are linked: exact for all figures if and only if every one that counted or is linked is rated. |
| `LineRate.MergedLossIff` | src/engine/multi_nic.rs:66-84 | The summed counts satisfy sent = completed + lost if and only if no NIC completed more than it sent. |
| `LineRate.MergedTotals` | src/engine/multi_nic.rs:66-119 | One NIC more adds its counts, its rate and its link; the longest run counts. |
| `LineRate.MergedRate` | src/engine/multi_nic.rs:92 | The merged round-trip rate is all completions over the longest run. |

## Left out

- Syscalls, mmap, sockets, poll, ethtool, ARP, eBPF loading and wake-up flags: replaced by arbitrary results or kernel steps.
- Memory ordering of the relaxed atomics, volatile accesses and fences.
- The legacy UDP worker and the legacy split XDP sender and receiver threads.
- TCP and DoT workers, the wire-latency probe, query corpora: dominated by I/O or loading.
- CPU and NUMA placement, the governor and memory guards, TUI, text, JSON and CSV output, command line: no hard property.
- Histogram internals, percentiles, in-flight mean and maximum, stall detection, send_qps and latency fields of a snapshot: would only add easy members.
- The latency samples of `throughput_udp_rx` and of the sampled XDP open loop, and the batch pacing of `throughput_udp_tx`: the counting and flushing of these threads is modelled, their RTT matching is that of `SlotTable`.
- The closed-loop reply counting of the XDP worker: matching, gate and counter are in `InFlight`; its `record_response` calls are not repeated there.
- `--max-outstanding 0` in `InFlight`: without a gate the counter is never touched, so there is nothing to prove about it.
- Ramp.RunRamp: the mapping of a target to a per-worker rate, the served-rate bookkeeping and an external shutdown are not modelled.
- Frame.FrameHeader.WriteFrame: buffers too small panic in the original and are excluded; so does a build with overflow checks where the u16 addition wraps, which the model does not.
- Frame.FrameHeader.WriteHeader: as for WriteFrame.
- SlotTable.Table.Sweep: one call without other workers in between; with them, load and compare-exchange are separate steps in `InFlight`.
- SlotTable.Table.DrainAll: likewise; the drain is one step per slot in `InFlight` and `EndOfRun`.
- Parser.FilterAgreesWithParser: a redirect is the call of the redirect helper; a queue without a socket, where the helper falls back to passing, is not modelled.
- Checksum.Ipv4Checksum: the u32 accumulator of the original is unbounded here; it holds any header of up to 65537 words.
- ClosedLoop.Worker.Run: the poll on an idle iteration and verbose logging have no effect on the state and are not modelled.
- Stats.StatsCollector.ResetWindow: one call by itself; its stores are separate steps in `Accounting`.
- Stats.StatsCollector.RecordResponse: one call by itself; its accesses are separate steps in `Accounting`. The histogram refuses values above its range of 60 s; the model keeps them.
- XskSocket.Socket.SubmitBatch: stated without kernel activity during the ring operation, since that equals kernel activity after it (see `Rings.Ring.ProduceTx`); likewise PrepareBatch, ReceiveBatch and RefillBatch.
- Accounting.LossAccounting: the two loads of a snapshot are taken together; the final one is made when the workers have left.
