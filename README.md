# Two-rule packet filter testbench, modelled in Dafny

This project models the verification environment of a two-rule receive
filter on a 512-bit AXI4-Stream bus. The environment is a cocotb testbench,
and the model covers its deterministic reference and bookkeeping logic:

- **Golden filter model**: header fields are read big-endian at fixed frame
  offsets. Each of two rules matches on its address OR its port, with 0 as
  a wildcard. Rule 0 wins a tie, and four counters are kept.
- **Beat codecs**: packets are turned into (tdata, tkeep, tlast, tuser)
  beats and back. Two byte conventions are used, and they are never mixed:
  - little-endian data with LSB-first keep: the packet generator, the
    generic AXI4-Stream agent and the protocol-checking monitor;
  - big-endian data with MSB-first keep: the filter plugin's own driver and
    monitor.
- **Reassembly monitors**: per-edge steps append the beats taken under the
  valid/ready handshake and close a packet on tlast. Observers and
  callbacks are then notified, each in isolation.
- **Scoreboards**:
  - the base scoreboard's two FIFO queues, drained pairwise;
  - the regression runner's index-modulo-10 prediction scoreboard.
- **Functional coverage**: threshold and binned points, with unweighted
  mean percentages as exact reals.
- **Counters and registers**:
  - the 128-bit status register of four 32-bit counters;
  - the 384-bit rule configuration register of 192 bits per rule;
  - dotted-quad parsing and the expected-statistics checker.
- **Small state machines**:
  - the component start/stop flag;
  - the filter monitor's bounded recent-results window;
  - the filter driver's rule store;
  - reset-signal selection and the edge-by-edge reset sequences.

There is one module per source file, and two shared modules:

- `Bits`: bytes, powers of two, endian values, bitwise OR on naturals.
- `Callbacks`: isolated dispatch.

`Text` models str()/int()/split, and `Wrappers` holds Option, Result and
Outcome.

How the source maps onto Dafny:

- Classes whose fields the source updates in place are Dafny classes.
  Their loops are methods proved against specification functions.
- Pure helpers are functions with lemmas.
- Python exceptions become `Failure`/`Fail` values.
- Foreign callables (observers, handlers, callbacks, hooks) are numbered.
  Whether one raises is a parameter. A scoreboard's comparison function is
  a total Dafny function that cannot raise.
- Signal values sampled on clock edges are given as finite sequences of
  samples.

Behaviour kept as the code writes it:

- `run_tests.py` counts a packet both rules match under rule 0, under
  rule 1 and under "both". `filter_models.py` counts it under rule 0 only.
  Each file is modelled as written.
- Frames under 14 bytes bypass every counter of the golden model.
- A truncated IP frame (IPv4 EtherType and under 34 bytes, IPv6 and under
  54) has no source address. `should_pass_packet` formats its debug
  message before logging it, and the header's `__str__` then formats that
  absent address as hex, which raises TypeError. So such a frame ends
  `should_pass_packet` with no counter moved, and `verify_packet_processing`
  passes the error on (`FilterModels.TruncatedIpFrameRaises`). Only
  `_rule_matches` called directly on such a header gets an answer, and it
  matches it only on a wildcard field.
- `configure_filter_rule` pads the rule store with empty rules `{}`, and an
  empty rule matches every packet. After only rule 1 is configured,
  `generate_non_matching_packet` can find no candidate and returns its
  fallback, which matches slot 0 (`FilterRxDriver.PaddedSlotMatchesAll`,
  `FilterRxDriver.FallbackMatchesEmptySlot`).
- The base scoreboard calls `self.test_failed`, which no class defines. The
  exception it raises ends the drain after the mismatch handlers have run
  (`Scoreboard.MismatchScenario`).
- The filter monitor's two producers of results, `_on_output_packet` and
  `_handle_packet_drop`, never set `rule_index`. So `rule_hits` changes
  only through results that carry one.
- `check_expected_drops` ignores its timeout argument.
- `verify_statistics` in `test_utils.py` raises at the first bad counter.
  `verify_packet_statistics` in `statistics_checker.py` collects every
  mismatch.
- `configure_rules` skips rule indices of 2 or more. A negative index makes
  the shift raise before the register is written.
- `ipv4_str_to_int` ignores parts after the fourth and raises when there
  are fewer than four.

## Model

| member | source | states |
|---|---|---|
| Lifecycle.Component.constructor | tb/env/base/component.py:22-32 | A new component carries its name and is not started |
| Lifecycle.Component.Start | tb/env/base/component.py:48-57 | Starting a started component only warns and runs no hook; otherwise _start_impl runs once and the component is started exactly when the hook did not raise |
| Lifecycle.Component.Stop | tb/env/base/component.py:59-68 | Stopping a stopped component only warns; otherwise _stop_impl runs once and the component is stopped exactly when the hook did not raise |
| Lifecycle.Component.RaiseTestFailure | tb/env/base/component.py:79-87 | The failure always raises, with message "name: message" |
| Callbacks.DispatchReachesAll | tb/env/base/monitor.py:78-82 | Whatever any observer does, every registered observer is called once, in registration order, with the same transaction |
| Callbacks.RunIsolated | tb/env/base/monitor.py:78-82 | The try/except dispatch loop makes exactly the calls Dispatch lists |
| BaseMonitor.RemoveFirstAt | tb/env/base/monitor.py:67-68 | Removing a registered observer drops exactly its first occurrence and keeps the order of the rest; the multiset loses one copy |
| BaseMonitor.RemoveFirstAbsent | tb/env/base/monitor.py:67 | Removing an observer that is not registered leaves the list unchanged |
| BaseMonitor.SumZero | tb/env/base/monitor.py:129 | The observed count has not moved exactly when no edge so far brought a transaction |
| BaseMonitor.Monitor.constructor | tb/env/base/monitor.py:31-44 | A new monitor is inactive with no observers and no transactions observed |
| BaseMonitor.Monitor.AddObserver | tb/env/base/monitor.py:51-58 | The observer is appended (duplicates allowed); nothing else changes |
| BaseMonitor.Monitor.RemoveObserver | tb/env/base/monitor.py:60-68 | The observer list loses the first occurrence of the observer, if any |
| BaseMonitor.Monitor.NotifyObservers | tb/env/base/monitor.py:70-82 | The observed count grows by one and every observer is called in order, a raising one not stopping the others |
| BaseMonitor.Monitor.Start | tb/env/base/monitor.py:89-94 | On success the component is started, the monitor active and one more monitoring loop launched; a failing start changes neither |
| BaseMonitor.Monitor.Stop | tb/env/base/monitor.py:96-99 | The monitor is inactive afterwards whatever the component stop does |
| BaseMonitor.Monitor.WaitForTransaction | tb/env/base/monitor.py:113-137 | Waits edge by edge while the count is unchanged; succeeds iff a transaction arrives before the deadline edge, otherwise times out exactly on the edge whose count reaches a non-zero timeout |
| AxiStreamCapture.BeatData | tb/tests/filter_rx_pipeline/utils/axi_stream_monitor.py:53-62 | A beat contributes at most 64 bytes: all 64 little-endian bytes of tdata, cut to popcount(tkeep) on tlast; a tdata wider than 64 bytes makes to_bytes raise OverflowError |
| AxiStreamCapture.SizeBytes | tb/tests/filter_rx_pipeline/utils/axi_stream_monitor.py:32-45 | The loop adds popcount(tkeep) for each tlast beat and 64 for every other beat |
| AxiStreamCapture.DataBytes | tb/tests/filter_rx_pipeline/utils/axi_stream_monitor.py:47-64 | The loop concatenates every beat's bytes, or fails with OverflowError on a beat whose tdata does not fit |
| AxiStreamCapture.NoneStaysNone | tb/tests/filter_rx_pipeline/utils/axi_stream_monitor.py:53-55 | Once one beat overflows, data_bytes of the whole packet raises |
| AxiStreamCapture.SizeMatchesData | tb/tests/filter_rx_pipeline/utils/axi_stream_monitor.py:32-64 | size_bytes equals len(data_bytes) when no tlast beat has more than 64 keep bits set |
| AxiStreamCapture.DecodeEncodedBeat | tb/tests/filter_rx_pipeline/utils/packet_generator.py:553-576 | Beat k of the 512-bit encoding decodes to packet bytes 64k up to 64k + 64 or the end |
| AxiStreamCapture.PaddedBeatData | tb/tests/filter_rx_pipeline/utils/axi_stream_monitor.py:53-62 | A zero-padded chunk reads back as the chunk, cut by popcount(tkeep) on the final beat |
| AxiStreamCapture.DataBytesInvertsEncoder | tb/tests/filter_rx_pipeline/utils/axi_stream_monitor.py:32-64 | data_bytes of the beats packet_generator's 512-bit encoder makes from any byte string p is p, and size_bytes is len(p) |
| AxiStreamCapture.DecodePrefix | tb/tests/filter_rx_pipeline/utils/axi_stream_monitor.py:53-62 | Decoding the first k encoded beats gives the packet bytes they carry |
| AxiStreamCapture.DecodePrefixStep | tb/tests/filter_rx_pipeline/utils/axi_stream_monitor.py:53-62 | Decoding one more encoded beat extends the decoded prefix to the next beat boundary |
| AxiStreamCapture.DataAppend | tb/tests/filter_rx_pipeline/utils/axi_stream_monitor.py:53-62 | Decoding one more beat appends exactly that beat's bytes |
| AxiStreamCapture.ViolationsCharacterised | tb/tests/filter_rx_pipeline/utils/axi_stream_monitor.py:185-205 | Only tlast beats are checked: tkeep = 0 records one tkeep=0 violation, a non-zero tkeep not of the form 2^k − 1 one non-contiguous violation, and a contiguous mask none |
| AxiStreamCapture.GrowKeepsFraming | tb/tests/filter_rx_pipeline/utils/axi_stream_monitor.py:154-170 | A tlast beat closes the open packet with its final beat as the only tlast; any other beat keeps it open |
| AxiStreamCapture.AxiStreamMonitor.constructor | tb/tests/filter_rx_pipeline/utils/axi_stream_monitor.py:70-100 | A new monitor has no packets, no open packet, zero counts, no violations, no callbacks and is not monitoring |
| AxiStreamCapture.AxiStreamMonitor.AddPacketCallback | tb/tests/filter_rx_pipeline/utils/axi_stream_monitor.py:102-104 | Appends the callback to the packet callbacks |
| AxiStreamCapture.AxiStreamMonitor.AddBeatCallback | tb/tests/filter_rx_pipeline/utils/axi_stream_monitor.py:106-108 | Appends the callback to the beat callbacks |
| AxiStreamCapture.AxiStreamMonitor.CheckProtocolCompliance | tb/tests/filter_rx_pipeline/utils/axi_stream_monitor.py:185-205 | Appends exactly the beat's violations |
| AxiStreamCapture.AxiStreamMonitor.ProcessBeat | tb/tests/filter_rx_pipeline/utils/axi_stream_monitor.py:146-183 | Counts the beat, records its violations, appends it to the open packet and runs every beat callback, a raising one not stopping the rest; on tlast the packet is stored, counted and given to every packet callback, so total_packets == len(packets) and the beat count is kept, violations or not |
| AxiStreamCapture.AxiStreamMonitor.ClosePacket | tb/tests/filter_rx_pipeline/utils/axi_stream_monitor.py:168-183 | The tlast branch stores the open packet, counts it, runs every packet callback and closes the packet |
| AxiStreamCapture.AxiStreamMonitor.Observe | tb/tests/filter_rx_pipeline/utils/axi_stream_monitor.py:125-144 | One edge changes nothing unless tvalid and tready are both high; then the sampled beat is processed in full: counted, checked, added to the open packet, which tlast closes and stores, with every callback called |
| AxiStreamCapture.AxiStreamMonitor.StartMonitoring | tb/tests/filter_rx_pipeline/utils/axi_stream_monitor.py:110-116 | The monitor is monitoring afterwards |
| AxiStreamCapture.AxiStreamMonitor.StopMonitoring | tb/tests/filter_rx_pipeline/utils/axi_stream_monitor.py:118-121 | The monitor is not monitoring afterwards |
| AxiStreamCapture.AxiStreamMonitor.GetLatestPacket | tb/tests/filter_rx_pipeline/utils/axi_stream_monitor.py:237-239 | The newest completed packet, None exactly when there is none; it is a framed packet ending on its tlast beat |
| AxiStreamCapture.AxiStreamMonitor.ClearStatistics | tb/tests/filter_rx_pipeline/utils/axi_stream_monitor.py:216-222 | Drops the packets, violations, counts and the open packet, keeping the callbacks |
| AxiStreamCapture.VerifyPacketIntegrity | tb/tests/filter_rx_pipeline/utils/axi_stream_monitor.py:241-261 | True exactly when the expected bytes equal data_bytes, so a length difference is false |
| AxiStreamCapture.IntegrityOfEncodedPacket | tb/tests/filter_rx_pipeline/utils/axi_stream_monitor.py:241-261 | A packet captured from the 512-bit encoding of p passes the integrity check against p and against no other byte string |
| AxiAgentDriver.NewTransaction | tb/env/agents/axi_stream/driver.py:17-38 | Without a keep list every data byte gets keep 1; a given keep list and the other fields are stored unchanged |
| AxiAgentDriver.ChunkCount | tb/env/agents/axi_stream/driver.py:95-99 | send_transaction drives ceil(len(data) / bus_bytes) chunks, and none for empty data |
| AxiAgentDriver.ChunkShape | tb/env/agents/axi_stream/driver.py:99-135 | Chunk k puts data byte k·b+i (or 0 padding) in tdata bits 8i..8i+7 and keep entry i (0 on padding) in tkeep bit i; tlast is 1 exactly on the final chunk of a transaction marked last, and unset when the interface has no tlast |
| AxiAgentDriver.ChunkDataByte | tb/env/agents/axi_stream/driver.py:100-116 | Byte i of packed chunk k is data byte k·b+i when it exists and 0 padding otherwise |
| AxiAgentDriver.PadChunk | tb/env/agents/axi_stream/driver.py:105-107 | The padding loop appends exactly bus_bytes − len(chunk) zero bytes and zero keep entries |
| AxiAgentDriver.PackData | tb/env/agents/axi_stream/driver.py:113-116 | The OR-and-shift loop yields the little-endian value of the padded chunk |
| AxiAgentDriver.PackDataStep | tb/env/agents/axi_stream/driver.py:114-115 | OR-ing byte i in at bit 8i extends the value of the first i bytes by one byte, as the bits do not overlap |
| AxiAgentDriver.PackKeep | tb/env/agents/axi_stream/driver.py:120-123 | The keep loop yields the value whose bit i is keep entry i |
| AxiAgentDriver.PackKeepStep | tb/env/agents/axi_stream/driver.py:121-122 | OR-ing keep entry i in at bit i extends the value of the first i entries by one bit |
| AxiAgentDriver.AxiStreamDriver.constructor | tb/env/agents/axi_stream/driver.py:52-82 | A new driver is inactive, has sent nothing, holds tvalid at 0 and has driven nothing; it keeps the configured min_gap_cycles and max_gap_cycles; its component part is new and not started |
| AxiAgentDriver.AxiStreamDriver.Start | tb/env/base/driver.py:66-83 | Fails exactly when the component was not started and _start_impl raises, leaving the driver as it was; otherwise the driver is active, its component started, and reset_interface has driven every output to 0 |
| AxiAgentDriver.AxiStreamDriver.Stop | tb/env/base/driver.py:85-88 | The driver is inactive afterwards whatever the component stop does, which fails exactly when the component was started and _stop_impl raises; the outputs and counts are unchanged |
| AxiAgentDriver.AxiStreamDriver.SendTransaction | tb/env/agents/axi_stream/driver.py:84-149 | An inactive driver returns with no effect; a bus narrower than 8 bits makes the range step 0 and raises before driving; otherwise one beat per chunk in order, then tvalid 0 and one more transaction sent, even for empty data, then the driver's own gap when either gap bound is positive; randint raises for min > max after the beats and the count |
| AxiAgentDriver.RandInt | tb/env/agents/axi_stream/driver.py:148 | randint(lo, hi) lies in lo..hi, the draw choosing which value |
| AxiAgentDriver.PauseEvents | tb/env/agents/axi_stream/driver.py:146-149 | A configured, non-empty gap range gives exactly one own-gap wait of at least min (when positive) and at most max edges, a wait of 0 edges for a negative draw; otherwise no wait |
| AxiAgentDriver.AxiStreamDriver.WaitClockCycles | tb/env/base/driver.py:64-67 | range(cycles) waits exactly cycles edges, and none for a negative count |
| AxiAgentDriver.AxiStreamDriver.DriveChunks | tb/env/agents/axi_stream/driver.py:99-140 | The chunk loop drives exactly the beats of the transaction's chunks, in order |
| AxiAgentDriver.AxiStreamDriver.DriveChunk | tb/env/agents/axi_stream/driver.py:100-140 | One pass of the chunk loop raises tvalid and drives the beat of chunk k |
| AxiAgentDriver.AxiStreamDriver.ChunkSignals | tb/env/agents/axi_stream/driver.py:100-135 | Slicing, padding and packing the chunk at offset k·b give chunk k's tdata, tkeep, tlast, tuser, tdest and tid |
| AxiAgentDriver.AxiStreamDriver.SendBurst | tb/env/agents/axi_stream/driver.py:176-189 | The transactions are sent in list order, each followed by its own gap, with inter_packet_delay edges between consecutive ones; on a bus narrower than 8 bits the first send raises and nothing is driven; with an empty gap range the first send drives its beats, is counted and raises, ending the burst |
| AxiAgentDriver.AxiStreamDriver.SendAll | tb/env/agents/axi_stream/driver.py:185-189 | The burst loop drives the events of every transaction, its own gap and the inter-packet waits, and counts each transaction once when active |
| AxiAgentDriver.AxiStreamDriver.SendInBurst | tb/env/agents/axi_stream/driver.py:186-189 | One pass of the burst loop sends transaction i with its own gap and adds an inter-packet wait only before another transaction |
| AxiAgentDriver.BurstPrefixStep | tb/env/agents/axi_stream/driver.py:185-189 | The events of transaction i, its own gap and its inter-packet wait follow those of the transactions before it |
| AxiAgentDriver.SendTraceWaits | tb/env/agents/axi_stream/driver.py:84-149 | One send_transaction makes no inter-packet wait, and exactly one own-gap wait when the driver is active and the gap is configured with min ≤ max, none otherwise |
| AxiAgentDriver.BurstGaps | tb/env/agents/axi_stream/driver.py:188-189 | A burst of n transactions has n − 1 inter-packet waits when the delay is positive and none otherwise, so none follows the last |
| AxiAgentDriver.BurstOwnGaps | tb/env/agents/axi_stream/driver.py:146-149 | With a configured, non-empty gap range every transaction of a burst, the last included, is followed by its own gap; otherwise none is; with BurstGaps a burst waits 2n − 1 times at most |
| AxiAgentMonitor.UnpackData | tb/env/agents/axi_stream/monitor.py:76-78 | A beat yields bus_bytes bytes, byte i being bits 8i..8i+7 of tdata |
| AxiAgentMonitor.UnpackKeep | tb/env/agents/axi_stream/monitor.py:80-86 | Keep flag i is bit i of tkeep, or 1 on an interface without tkeep |
| AxiAgentMonitor.UnpackInvertsPack | tb/env/agents/axi_stream/monitor.py:76-86 | Unpacking returns exactly the bytes and keep flags the agent driver packed into a full-width beat |
| AxiAgentMonitor.KeptStep | tb/env/agents/axi_stream/monitor.py:117-119 | From position i on, the filter keeps byte i exactly when its flag is set, then filters the rest |
| AxiAgentMonitor.KeptCount | tb/env/agents/axi_stream/monitor.py:116-119 | The filtered data has one byte per set keep flag; a non-contiguous keep is accepted, not rejected |
| AxiAgentMonitor.KeptPrefix | tb/env/agents/axi_stream/monitor.py:116-119 | A keep list of n ones followed by zeros keeps exactly the first n bytes |
| AxiAgentMonitor.Complete | tb/env/agents/axi_stream/monitor.py:123-131 | The emitted transaction has last set and the user, dest and id of the transaction's first beat |
| AxiAgentMonitor.CompleteShape | tb/env/agents/axi_stream/monitor.py:116-125 | The emitted data has one byte per set keep flag, and the emitted keep is that many of the accumulated flags from the front, not the filtered ones |
| AxiAgentMonitor.Capture | tb/env/agents/axi_stream/monitor.py:88-104 | A new transaction takes this beat's sideband (0 for an absent signal); an open one keeps its own; either way the beat's bytes and flags are appended |
| AxiAgentMonitor.Notifications | tb/env/agents/axi_stream/monitor.py:133-135 | An edge that emits nothing notifies nobody; an emitted transaction goes to every observer |
| AxiAgentMonitor.NoLastNoTransaction | tb/env/agents/axi_stream/monitor.py:92-108 | On an interface without tlast no transaction is ever emitted and the last transaction never changes |
| AxiAgentMonitor.AxiStreamMonitor.constructor | tb/env/agents/axi_stream/monitor.py:20-56 | A new monitor has bus_bytes = data_width // 8, no open transaction, no last transaction and no observers |
| AxiAgentMonitor.AxiStreamMonitor.MonitorInterface | tb/env/agents/axi_stream/monitor.py:58-65 | One edge captures a beat only when tvalid and tready are both 1, and notifies the observers of what the edge emitted |
| AxiAgentMonitor.AxiStreamMonitor.CaptureBeat | tb/env/agents/axi_stream/monitor.py:67-108 | A captured beat opens or extends the transaction and completes it when tlast is set |
| AxiAgentMonitor.AxiStreamMonitor.AppendBeat | tb/env/agents/axi_stream/monitor.py:94-104 | Opens the transaction with this beat's sideband if none is open, then appends the beat's bytes and flags |
| AxiAgentMonitor.AxiStreamMonitor.UnpackBeat | tb/env/agents/axi_stream/monitor.py:73-86 | The unpacking loop yields the beat's bytes and keep flags |
| AxiAgentMonitor.AxiStreamMonitor.CompleteTransaction | tb/env/agents/axi_stream/monitor.py:110-142 | With nothing open it does nothing; otherwise it stores the kept transaction as the last one, notifies every observer of it and closes the transaction |
| AxiAgentMonitor.AxiStreamMonitor.KeepValid | tb/env/agents/axi_stream/monitor.py:116-119 | The zip-and-filter loop returns the flagged bytes in order |
| AxiAgentMonitor.AxiStreamMonitor.GetLastTransaction | tb/env/agents/axi_stream/monitor.py:144-149 | Returns the most recent transaction, and RuntimeError before the first |
| AxiAgentMonitor.ChunkIsPadded | tb/env/agents/axi_stream/driver.py:99-107 | Chunk k's padded bytes and flags are the zero-padded transaction's bytes k·b..k·b+b |
| AxiAgentMonitor.CaptureAppends | tb/env/agents/axi_stream/monitor.py:94-104 | Capture appends the beat to the open transaction, or to a new one carrying the beat's sideband |
| AxiAgentMonitor.CaptureOpened | tb/env/agents/axi_stream/monitor.py:94-104 | A beat continuing the padded prefix of k beats, with the transaction's sideband, extends it to the prefix of k + 1 beats |
| AxiAgentMonitor.CaptureChunk | tb/env/agents/axi_stream/monitor.py:67-104 | Capturing the driver's chunk k extends the open transaction by that chunk's bytes and flags |
| AxiAgentMonitor.ChunkCloses | tb/env/agents/axi_stream/monitor.py:58-108 | Every driven chunk passes the handshake, and chunk k closes the transaction exactly when it is the final chunk of a last transaction on an interface with tlast |
| AxiAgentMonitor.MonitorPrefix | tb/env/agents/axi_stream/monitor.py:58-108 | Before the final chunk, the monitor emits nothing and holds the padded prefix of the chunks seen |
| AxiAgentMonitor.MonitorReceivesDrivenTransaction | tb/env/agents/axi_stream/monitor.py:58-142 | A non-empty last transaction with every keep flag 1, sent by the agent driver, is reassembled by a monitor of the same width as exactly one transaction with the same data, keep and sideband |
| AxiAgentMonitor.CompleteAll | tb/env/agents/axi_stream/monitor.py:116-125 | Once every chunk is captured, the kept bytes and flags are the transaction's own, the padding being dropped |
| Coverage.IndexOf | tb/env/base/coverage.py:50 | A key's position in an insertion-ordered dict is its first occurrence, and None means the key is absent |
| Coverage.IndexOfAt | tb/env/base/coverage.py:50 | The first position holding a key is the one IndexOf reports |
| Coverage.Lookup | tb/env/base/coverage.py:139-148 | d.get(k) is None exactly when no entry has key k, and otherwise the value of an entry with key k |
| Coverage.Put | tb/env/base/coverage.py:92 | d[k] = v keeps the length for a present key and appends (k, v) for a new one |
| Coverage.PutLookup | tb/env/base/coverage.py:92 | After d[k] = v, k maps to v, every other key keeps its value, and keys stay distinct |
| Coverage.PutSameKeys | tb/env/base/coverage.py:123 | Assigning to a key keeps every key in its place (dict insertion order) |
| Coverage.PutFinds | tb/env/base/coverage.py:92 | After d[k] = v, looking up k gives v |
| Coverage.PutKeeps | tb/env/base/coverage.py:92 | After d[k] = v, every other key keeps its value |
| Coverage.PutDistinct | tb/env/base/coverage.py:92 | d[k] = v keeps the keys distinct |
| Coverage.PutLookupNew | tb/env/base/coverage.py:121 | Appending a new key keeps keys distinct and adds exactly that key |
| Coverage.PutValid | tb/env/base/coverage.py:92 | Every entry after d[k] = v is (k, v) or an entry of d |
| Coverage.PutPut | tb/env/base/coverage.py:92 | Putting a new key twice is putting the second value |
| Coverage.HitBins | tb/env/base/coverage.py:39 | The number of bins hit is at most the number of bins |
| Coverage.PointPercent | tb/env/base/coverage.py:33-42 | A FEATURE point, and a point without bins, is 100 iff its hits reach the target and 0 iff they do not; any other point is 100 times the share of bins hit; always within 0..100 |
| Coverage.SumBounds | tb/env/base/coverage.py:57 | A sum of n percentages lies within 0..100·n |
| Coverage.Mean | tb/env/base/coverage.py:55-58 | The mean of percentages is within 0..100, 100 for none, and times the count gives the sum |
| Coverage.PointPercents | tb/env/base/coverage.py:57 | One percentage per point, in dict order |
| Coverage.GroupPercent | tb/env/base/coverage.py:52-58 | A group is 100 when empty and otherwise the unweighted mean of its points, within 0..100 |
| Coverage.GroupPercents | tb/env/base/coverage.py:207 | One percentage per group, in dict order |
| Coverage.Hit | tb/env/base/coverage.py:150-156 | No bin (or the empty bin name) adds a hit; a known bin adds one to that bin; an unknown bin changes nothing; name, type and target are kept |
| Coverage.ZeroBins | tb/env/base/coverage.py:120-121 | The bin dict has distinct keys, all at 0, and exactly the listed names |
| Coverage.CoverageCollector.constructor | tb/env/base/coverage.py:67-78 | A new collector is enabled with no groups and no callbacks |
| Coverage.CoverageCollector.CreateGroup | tb/env/base/coverage.py:80-94 | Returns a new empty group stored under its name, replacing one of the same name in place |
| Coverage.CoverageCollector.AddCoveragePoint | tb/env/base/coverage.py:96-124 | Creates a missing group, then stores a fresh point (no hits, every listed bin at 0) in that group, replacing one of the same name |
| Coverage.CoverageCollector.HitCoveragePoint | tb/env/base/coverage.py:126-164 | Nothing while disabled or for an unknown group or point; otherwise the point becomes Hit(point, bin) and its callbacks run in order with the updated point, a raising one not stopping the rest, even for an unknown bin |
| Coverage.CoverageCollector.AddCallback | tb/env/base/coverage.py:166-177 | The callback is appended to the "group.point" list |
| Coverage.CoverageCollector.EnableCoverage | tb/env/base/coverage.py:179-187 | Sets the enabled flag |
| Coverage.CoverageCollector.GetCoveragePercent | tb/env/base/coverage.py:189-208 | A named group's percentage (0 for an unknown name); with no name the unweighted mean over groups (100 for none); always within 0..100 |
| Coverage.PutGroupValid | tb/env/base/coverage.py:123 | Storing a group with distinct point names keeps group and point names distinct |
| Coverage.LookupValid | tb/env/base/coverage.py:143 | A group looked up in a valid collector has distinct point names |
| Coverage.HitBinsGrow | tb/env/base/coverage.py:152 | Raising a bin's count never lowers the number of bins hit |
| Coverage.ShareMonotone | tb/env/base/coverage.py:40 | The share of bins hit is monotone in the number hit |
| Coverage.HitMonotone | tb/env/base/coverage.py:33-42 | A hit never lowers a point's coverage |
| Coverage.FeatureTarget | tb/env/base/coverage.py:36-37 | With target 10 a FEATURE point is at 0 after 9 hits and at 100 after 10 |
| FilterModels.OrZero | plugin/p2p/box_250mhz/filter_rx_pipeline/tb/filter_models.py:19-21 | `value or 0`: the field is 0 exactly for a missing or zero argument, and otherwise the argument |
| FilterModels.ParseHeader | plugin/p2p/box_250mhz/filter_rx_pipeline/tb/filter_models.py:54-136 | Fails exactly on frames shorter than 14 bytes; otherwise the EtherType selects IPv4/IPv6/other, and each source and destination address and port is read big-endian, and the protocol byte taken, when the frame is long enough, absent otherwise and always absent for a non-IP frame; the MAC fields are bytes 0-5 and 6-11 |
| FilterModels.ParseIpv4ReadsBack | plugin/p2p/box_250mhz/filter_rx_pipeline/tb/filter_models.py:78-106 | An IPv4 frame (EtherType 0800, at least 38 bytes) whose address and port bytes encode a and p parses to source address a and port p |
| FilterModels.ParseIpv6ReadsBack | plugin/p2p/box_250mhz/filter_rx_pipeline/tb/filter_models.py:108-136 | An IPv6 frame (EtherType 86DD, at least 58 bytes) whose address and port bytes encode a and p parses to source address a and port p |
| FilterModels.RuleMatchesIsDisjunction | plugin/p2p/box_250mhz/filter_rx_pipeline/tb/filter_models.py:215-228 | Helper: unfolds RuleMatches into the OR of the address test for the frame's version and the 16-bit port test, named separately as AddressMatches and PortMatches |
| FilterModels.WildcardFieldMatchesEveryIpFrame | plugin/p2p/box_250mhz/filter_rx_pipeline/tb/filter_models.py:220-227 | A wildcard port, or the wildcard address of the frame's version, matches every IP frame |
| FilterModels.TruncatedFrameMatchesOnlyWildcard | plugin/p2p/box_250mhz/filter_rx_pipeline/tb/filter_models.py:218-228 | A frame too short for its address and port fields matches a rule iff the rule has a wildcard in the fields it compares |
| FilterModels.NonIpMatchesNothing | plugin/p2p/box_250mhz/filter_rx_pipeline/tb/filter_models.py:230-232 | A non-IP frame matches no rule |
| FilterModels.TallyKeepsConsistent | plugin/p2p/box_250mhz/filter_rx_pipeline/tb/filter_models.py:195-213 | Counting keeps total = rule0 + rule1 + dropped; a classified frame adds one to the total and to exactly one other counter; an unparsed frame, or one whose debug message raises, changes nothing |
| FilterModels.ShortFrameBypassesCounters | plugin/p2p/box_250mhz/filter_rx_pipeline/tb/filter_models.py:182-186 | A frame under 14 bytes gives (False, 0) and is counted nowhere |
| FilterModels.RulePriority | plugin/p2p/box_250mhz/filter_rx_pipeline/tb/filter_models.py:197-213 | For a parsed frame with a source address: rule 0 wins when it matches (reply (True, 1)); (True, 2) iff only rule 1 matches; dropped iff neither matches |
| FilterModels.OtherEtherTypeDropped | plugin/p2p/box_250mhz/filter_rx_pipeline/tb/filter_models.py:230-232 | A frame of 14 bytes or more with another EtherType is dropped with reply (False, 0) |
| FilterModels.AllWildcardForwardsToRule0 | plugin/p2p/box_250mhz/filter_rx_pipeline/tb/filter_models.py:161-162 | With the two initial wildcard rules every IP frame with a source address is a rule-0 hit; a truncated IP frame raises instead |
| FilterModels.TruncatedIpFrameRaises | plugin/p2p/box_250mhz/filter_rx_pipeline/tb/filter_models.py:138-153 | The debug message raises exactly for an IPv4 frame of 14-33 bytes or an IPv6 frame of 14-53 bytes, and then no counter moves |
| FilterModels.Classify | plugin/p2p/box_250mhz/filter_rx_pipeline/tb/filter_models.py:177-213 | Unparsed iff the frame is under 14 bytes; a rule-0 hit only when rule 0 matches; a rule-1 hit only when rule 1 matches and rule 0 does not; dropped only when neither matches |
| FilterModels.RuleMatches | plugin/p2p/box_250mhz/filter_rx_pipeline/tb/filter_models.py:215-232 | Only an IP header can match; the wildcard rule matches exactly the IP headers |
| FilterModels.FirstRaise | plugin/p2p/box_250mhz/filter_rx_pipeline/tb/filter_models.py:264-265 | The first input whose evaluation raises: none iff no input raises, and no earlier input raises |
| FilterModels.PassingMatchesHits | plugin/p2p/box_250mhz/filter_rx_pipeline/tb/filter_models.py:260-267 | Over a run, the frames forwarded equal the growth of the two hit counters, and the counters stay consistent |
| FilterModels.FilterModel.constructor | plugin/p2p/box_250mhz/filter_rx_pipeline/tb/filter_models.py:161-168 | Two wildcard rules and all four counters at 0 |
| FilterModels.FilterModel.SetRule | plugin/p2p/box_250mhz/filter_rx_pipeline/tb/filter_models.py:170-174 | Succeeds iff the id is 0 or 1, replacing that slot only; any other id raises and changes nothing |
| FilterModels.FilterModel.ShouldPassPacket | plugin/p2p/box_250mhz/filter_rx_pipeline/tb/filter_models.py:177-213 | Fails with TypeError exactly for a truncated IP frame, with the counters unchanged; otherwise returns the classification's reply and applies its tally; rules unchanged |
| FilterModels.FilterModel.GetCounters | plugin/p2p/box_250mhz/filter_rx_pipeline/tb/filter_models.py:234-236 | Returns a copy of the counters, which is consistent |
| FilterModels.FilterModel.ResetCounters | plugin/p2p/box_250mhz/filter_rx_pipeline/tb/filter_models.py:238-245 | All counters back to 0, rules untouched |
| FilterModels.FirstDifference | plugin/p2p/box_250mhz/filter_rx_pipeline/tb/filter_models.py:277-283 | None iff the lists are equal; otherwise the first index where they differ |
| FilterModels.FirstDifferenceIs | plugin/p2p/box_250mhz/filter_rx_pipeline/tb/filter_models.py:277-283 | The first differing index is the one FirstDifference reports |
| FilterModels.FilterVerifier.constructor | plugin/p2p/box_250mhz/filter_rx_pipeline/tb/filter_models.py:257-258 | The verifier holds the model it was given |
| FilterModels.FilterVerifier.VerifyPacketProcessing | plugin/p2p/box_250mhz/filter_rx_pipeline/tb/filter_models.py:260-285 | When input i is the first that raises, fails there with only inputs before i counted; otherwise every input is counted, and it passes iff the outputs are exactly the forwarded inputs in order; a failure reports the count mismatch first, else the first differing packet |
| FilterModels.FilterVerifier.RunModel | plugin/p2p/box_250mhz/filter_rx_pipeline/tb/filter_models.py:262-267 | Feeds the inputs in order until one raises, reporting which; the counters hold the tally of the inputs before it (all of them when none raises) and the expected list holds the forwarded ones |
| FilterModels.FilterVerifier.CompareOutputs | plugin/p2p/box_250mhz/filter_rx_pipeline/tb/filter_models.py:269-285 | Passes iff the outputs equal the expected list; otherwise a count mismatch first, else the first differing packet |
| FilterModels.FilterVerifier.VerifyCounters | plugin/p2p/box_250mhz/filter_rx_pipeline/tb/filter_models.py:287-300 | Passes iff every model counter the DUT reports has the same value; otherwise reports the first disagreeing counter in dict order with both values |
| FilterRxDriver.Field | tb/env/agents/filter_rx/driver.py:53-81 | A field name has a packet value exactly when matches_filter checks it (the eight known keys) |
| FilterRxDriver.MatchesFilter | tb/env/agents/filter_rx/driver.py:53-81 | A rule naming no known field matches every packet; a packet fails a rule only on a known field it carries with a different value |
| FilterRxDriver.MatchesFilterIff | tb/env/agents/filter_rx/driver.py:53-81 | A packet matches a rule iff every known field the rule gives equals the packet's |
| FilterRxDriver.UnknownKeyIgnored | tb/env/agents/filter_rx/driver.py:53-81 | A key matches_filter does not check never changes the outcome |
| FilterRxDriver.ToAxiStreamTransaction | tb/env/agents/filter_rx/driver.py:45-51 | The transaction carries the packet's bytes, every byte kept, tlast set, the given tuser, dest and id 0 |
| FilterRxDriver.Stored | tb/env/agents/filter_rx/driver.py:119-122 | The store after setting index i: long enough to hold i, slot i holds the rule, earlier slots unchanged, new slots padded with {} |
| FilterRxDriver.RandomData | tb/env/agents/filter_rx/driver.py:175 | The random payload has size bytes (none for a negative size) |
| FilterRxDriver.PacketForMatches | tb/env/agents/filter_rx/driver.py:171-186 | The packet built from a rule matches that rule, whatever the random draws |
| FilterRxDriver.Fallback | tb/env/agents/filter_rx/driver.py:219-230 | The fallback packet has size 0xFF bytes and every field at its all-ones value |
| FilterRxDriver.FallbackMatchesEmptySlot | tb/env/agents/filter_rx/driver.py:214-230 | When a rule slot is {} the fallback still matches some rule |
| FilterRxDriver.PaddedSlotMatchesAll | tb/env/agents/filter_rx/driver.py:119-122 | Configuring only rule 1 on an empty store leaves slot 0 as {}, so every packet matches some rule |
| FilterRxDriver.FilterRxDriver.constructor | tb/env/agents/filter_rx/driver.py:104-109 | A new driver holds its agent driver, no rules and no packets sent |
| FilterRxDriver.FilterRxDriver.ConfigureFilterRule | tb/env/agents/filter_rx/driver.py:111-128 | A non-negative index stores the rule, padding with {}; a negative index within range replaces the slot counted from the end; one beyond the start raises and changes nothing |
| FilterRxDriver.FilterRxDriver.PadRules | tb/env/agents/filter_rx/driver.py:120-121 | The loop appends {} until index i exists, keeping the existing rules |
| FilterRxDriver.FilterRxDriver.SendFilterPacket | tb/env/agents/filter_rx/driver.py:137-146 | Sends the packet's transaction, with its own gap, through the agent driver and counts it only when the send returns; the agent's two errors are passed on exactly when they arise; an inactive agent driver leaves the bus untouched |
| FilterRxDriver.FilterRxDriver.SendTransaction | tb/env/agents/filter_rx/driver.py:148-155 | A FilterPacket goes through send_filter_packet (counted), an AxiStreamTransaction straight to the agent driver (not counted), anything else raises TypeError with nothing sent; the agent's errors are passed on exactly when they arise |
| FilterRxDriver.FilterRxDriver.GenerateMatchingPacket | tb/env/agents/filter_rx/driver.py:157-186 | An index at or past the number of rules raises; one before the start raises; otherwise the packet matches the indexed rule, counting negative indices from the end |
| FilterRxDriver.FilterRxDriver.GenerateNonMatchingPacket | tb/env/agents/filter_rx/driver.py:188-230 | Returns the first of 100 candidates that matches no configured rule, or the fallback when all 100 match |
| FilterRxDriver.AnyMatches | tb/env/agents/filter_rx/driver.py:214 | any(...) over the rules, in order, is MatchesAny |
| FilterRxDriver.EmptyRuleMatches | tb/env/agents/filter_rx/driver.py:53-81 | The empty rule {} matches every packet, since it names no field to compare |
| FilterRxMonitor.LastN | tb/env/agents/filter_rx/monitor.py:75-79 | The kept window is the newest min(len, n) results, a suffix of the history |
| FilterRxMonitor.TrimWindow | tb/env/agents/filter_rx/monitor.py:75-79 | Appending a result and popping the oldest when over 1000 keeps exactly the newest 1000 of the whole history |
| FilterRxMonitor.Passed | tb/env/agents/filter_rx/monitor.py:145 | The number of passed results is at most the number of results |
| FilterRxMonitor.HitsAppend | tb/env/agents/filter_rx/monitor.py:82-85 | A new result adds one hit to its rule index and none to any other |
| FilterRxMonitor.PassedAppend | tb/env/agents/filter_rx/monitor.py:66-71 | A new result adds one to the passed count exactly when it matched |
| FilterRxMonitor.BumpAgrees | tb/env/agents/filter_rx/monitor.py:82-85 | Updating rule_hits with a result keeps every rule's count equal to the hits recorded for it in the history |
| FilterRxMonitor.DecodeDropReason | tb/env/agents/filter_rx/monitor.py:120-129 | Exactly the codes outside 0-4 decode to a string beginning "unknown_code_" |
| FilterRxMonitor.DecodeDropReasonInjective | tb/env/agents/filter_rx/monitor.py:120-129 | Distinct drop-reason codes decode to distinct strings |
| FilterRxMonitor.NatToStringInjective | tb/env/agents/filter_rx/monitor.py:129 | Distinct naturals have distinct decimal strings |
| FilterRxMonitor.IntToStringInjective | tb/env/agents/filter_rx/monitor.py:129 | Distinct integers have distinct decimal strings (with a minus sign for negatives) |
| FilterRxMonitor.UnknownCodeReadsBack | tb/env/agents/filter_rx/monitor.py:129 | A code above 4 decodes to "unknown_code_" followed by a decimal that reads back to the code |
| FilterRxMonitor.SliceFrom | tb/env/agents/filter_rx/monitor.py:170 | s[start:] is a suffix: of length len − start for a non-negative start, and of the last −start elements (all of them when −start exceeds the length) for a negative one |
| FilterRxMonitor.RecentResults | tb/env/agents/filter_rx/monitor.py:157-170 | None, 0 or a count beyond the length give every result; a positive count gives the newest count results; a negative count drops the first −count (the Python s[-count:] slice) |
| FilterRxMonitor.FilterRxMonitor.constructor | tb/env/agents/filter_rx/monitor.py:32-60 | Zero counts, no rule hits, no results, and the output packet handler registered as an observer of the output monitor |
| FilterRxMonitor.FilterRxMonitor.AddResult | tb/env/agents/filter_rx/monitor.py:73-85 | The window becomes the trimmed append, rule_hits is bumped for the result's rule, and the result becomes the last transaction |
| FilterRxMonitor.FilterRxMonitor.OnOutputPacket | tb/env/agents/filter_rx/monitor.py:62-71 | An output packet is recorded as a matched result with no rule index, and one more packet passed; rule_hits unchanged |
| FilterRxMonitor.FilterRxMonitor.HandlePacketDrop | tb/env/agents/filter_rx/monitor.py:98-118 | One more drop, recorded as an unmatched result whose reason is the decoded code, or "unknown" without a reason signal |
| FilterRxMonitor.FilterRxMonitor.MonitorInterface | tb/env/agents/filter_rx/monitor.py:87-96 | A drop is handled exactly when the monitor has a drop_valid signal reading 1; otherwise nothing changes |
| FilterRxMonitor.FilterRxMonitor.LastTransaction | tb/env/agents/filter_rx/monitor.py:131-136 | Raises exactly when no result is kept; otherwise the newest kept result |
| FilterRxMonitor.FilterRxMonitor.LastTransactionIsNewest | tb/env/agents/filter_rx/monitor.py:131-136 | The last transaction is the newest result ever recorded, and it fails exactly when nothing was recorded |
| FilterRxMonitor.FilterRxMonitor.GetFilterStatistics | tb/env/agents/filter_rx/monitor.py:138-155 | The total is passed plus dropped; rule hits and the window size are reported as kept |
| FilterRxMonitor.FilterRxMonitor.StatisticsCountHistory | tb/env/agents/filter_rx/monitor.py:138-155 | The total equals the number of results recorded since the last reset, the passed count the matched ones, and the window size min(total, 1000) |
| FilterRxMonitor.FilterRxMonitor.GetRecentResults | tb/env/agents/filter_rx/monitor.py:157-170 | Gives the newest results, a suffix of those stored and never more than are stored |
| FilterRxMonitor.FilterRxMonitor.CheckExpectedDrops | tb/env/agents/filter_rx/monitor.py:172-183 | Holds iff at least that many unmatched results were recorded, whatever the timeout |
| FilterRxMonitor.FilterRxMonitor.CheckExpectedPasses | tb/env/agents/filter_rx/monitor.py:185-195 | Holds iff at least that many matched results were recorded |
| FilterRxMonitor.FilterRxMonitor.ChecksCountHistory | tb/env/agents/filter_rx/monitor.py:172-195 | check_expected_passes holds iff at least that many matched results were recorded; check_expected_drops iff at least that many unmatched ones, whatever the timeout |
| FilterRxMonitor.FilterRxMonitor.ResetStatistics | tb/env/agents/filter_rx/monitor.py:197-203 | Counts, rule hits and the window all cleared |
| FilterRxMonitor.FilterRxMonitor.WaitForPackets | tb/env/agents/filter_rx/monitor.py:222-239 | Waits edge by edge until enough packets passed or the timeout is spent; returns true iff the passed count reached the expectation, and never waits past the first edge where it does |
| PacketGenerator.SliceTo | tb/tests/filter_rx_pipeline/utils/packet_generator.py:51 | s[:n] keeps the first n elements (all for n past the end) and for a negative n drops the last −n |
| PacketGenerator.GeneratePayload | tb/tests/filter_rx_pipeline/utils/packet_generator.py:45-60 | Size 0 gives no bytes; a non-empty custom payload is cut to the size; otherwise exactly size bytes (none for a negative size) |
| PacketGenerator.PayloadPatterns | tb/tests/filter_rx_pipeline/utils/packet_generator.py:53-60 | "increment" gives i mod 256 at position i, "fixed" gives 0xAA, any other non-random name gives 0 |
| PacketGenerator.CustomPayloadIsPrefix | tb/tests/filter_rx_pipeline/utils/packet_generator.py:50-51 | A custom payload is a prefix of the given bytes, never longer than the size, and exactly the size when enough bytes are given |
| PacketGenerator.FinishFrame | tb/tests/filter_rx_pipeline/utils/packet_generator.py:97-103 | A truncated frame is never longer than the built one; an untruncated one is never shorter, and at least 64 bytes |
| PacketGenerator.FinishFramePads | tb/tests/filter_rx_pipeline/utils/packet_generator.py:101-103 | An untruncated frame keeps its bytes and is zero-padded to at least 64 bytes |
| PacketGenerator.FinishFrameTruncates | tb/tests/filter_rx_pipeline/utils/packet_generator.py:97-99 | A truncated frame is a prefix of the built frame, no longer than a positive truncate_at |
| PacketGenerator.Generator.constructor | tb/tests/filter_rx_pipeline/utils/packet_generator.py:42-43 | The sequence number starts at 0 |
| PacketGenerator.Generator.GeneratePacket | tb/tests/filter_rx_pipeline/utils/packet_generator.py:62-105 | Uses the payload generate_payload gives, advances the TCP sequence number by the payload length plus one for TCP only, and hands on the truncated or padded frame |
| PacketGenerator.Generator.PacketToAxiStreamBeats | tb/tests/filter_rx_pipeline/utils/packet_generator.py:107-143 | A data width of 0..7 bits raises (zero range step), a negative width gives no beats, otherwise the beats are the little-endian encoding with width/8 bytes per beat |
| PacketGenerator.Generator.EncodeBeats | tb/tests/filter_rx_pipeline/utils/packet_generator.py:121-141 | The beat loop produces exactly the encoding EncodeLe specifies |
| PacketGenerator.NumBeatsIsCeiling | tb/tests/filter_rx_pipeline/utils/packet_generator.py:121 | range(0, n, b) has ceil(n / b) steps, none exactly for an empty packet |
| PacketGenerator.NumBeatsBound | tb/tests/filter_rx_pipeline/utils/packet_generator.py:121-136 | Beat k exists iff k·b < n, and is not the last iff k·b + b < n |
| PacketGenerator.EncodeLeBeat | tb/tests/filter_rx_pipeline/utils/packet_generator.py:131-139 | Each beat keeps between 1 and b bytes (b on every beat but the last), tkeep is the low mask of that many bits, tlast is set only on the last beat, and tuser is 0 |
| PacketGenerator.EncodeLeData | tb/tests/filter_rx_pipeline/utils/packet_generator.py:121-129 | Byte j of beat k's tdata is packet byte k·b + j, and padding bytes are zero |
| PacketGenerator.ScapyPacketGenerator.constructor | tb/tests/filter_rx_pipeline/utils/packet_generator.py:434-443 | The generator holds its data width and width/8 bytes per beat |
| PacketGenerator.ScapyPacketGenerator.PacketToAxiStream | tb/tests/filter_rx_pipeline/utils/packet_generator.py:540-576 | The same encoding with the generator's bytes per beat; zero bytes per beat raises and a negative value gives no beats |
| PacketGenerator.PacketShouldMatch | tb/tests/filter_rx_pipeline/utils/packet_generator.py:601-616 | A packet expected to pass goes to port 80 or 443 |
| PacketGenerator.ShouldMatchOnlyListedEndpoints | tb/tests/filter_rx_pipeline/utils/packet_generator.py:601-616 | A packet is expected to pass only as IPv4 or IPv6 to port 80 at the .1/::1 address or port 443 at the .2/::2 address; any other IP version never |
| PluginAxiStream.Chunk | plugin/p2p/box_250mhz/filter_rx_pipeline/tb/axi_stream_driver.py:71-76 | Each chunk of the zero-padded packet is exactly 64 bytes |
| PluginAxiStream.BeBeatAt | plugin/p2p/box_250mhz/filter_rx_pipeline/tb/axi_stream_driver.py:78-79 | A beat's big-endian data fits in 512 bits |
| PluginAxiStream.PaddedSlice | plugin/p2p/box_250mhz/filter_rx_pipeline/tb/axi_stream_driver.py:72-76 | Slice k of the zero-padded packet is chunk k |
| PluginAxiStream.PacketToBeats | plugin/p2p/box_250mhz/filter_rx_pipeline/tb/axi_stream_driver.py:66-97 | The beat loop produces exactly the big-endian encoding EncodeBe |
| PluginAxiStream.EncodeBeShape | plugin/p2p/box_250mhz/filter_rx_pipeline/tb/axi_stream_driver.py:81-95 | Every beat keeps 1..64 bytes with an MSB-first keep mask, all 64 on every beat but the last; last is 1 exactly on the final beat |
| PluginAxiStream.EncodeBeCount | plugin/p2p/box_250mhz/filter_rx_pipeline/tb/axi_stream_driver.py:72-75 | A packet takes ceil(len / 64) beats, none for an empty packet |
| PluginAxiStream.LeadingKeep | plugin/p2p/box_250mhz/filter_rx_pipeline/tb/axi_stream_driver.py:159-163 | The run of set keep bits scanned from position i ends at or after i and within 64 |
| PluginAxiStream.BeatBytes | plugin/p2p/box_250mhz/filter_rx_pipeline/tb/axi_stream_driver.py:150-165 | A beat yields at most 64 bytes |
| PluginAxiStream.LeadingKeepRun | plugin/p2p/box_250mhz/filter_rx_pipeline/tb/axi_stream_driver.py:159-163 | Every bit in the scanned run is set, and the bit that stops the scan is clear |
| PluginAxiStream.LeadingKeepFrom | plugin/p2p/box_250mhz/filter_rx_pipeline/tb/axi_stream_driver.py:159-163 | A run of set bits from i to kb ending in a clear bit (or at 64) is where the scan stops |
| PluginAxiStream.MsbKeepCount | plugin/p2p/box_250mhz/filter_rx_pipeline/tb/axi_stream_driver.py:88-90 | The MSB-first mask of kb bytes reads back as kb leading kept bytes |
| PluginAxiStream.BeatToBytes | plugin/p2p/box_250mhz/filter_rx_pipeline/tb/axi_stream_driver.py:150-165 | The byte-extraction loop returns exactly BeatBytes: the leading data bytes whose keep bits are set, stopping at the first clear bit |
| PluginAxiStream.BeatRoundTrip | plugin/p2p/box_250mhz/filter_rx_pipeline/tb/axi_stream_driver.py:66-97 | Beat k of the encoding reads back as packet bytes 64k up to 64k plus its kept count |
| PluginAxiStream.ChunkBytes | plugin/p2p/box_250mhz/filter_rx_pipeline/tb/axi_stream_driver.py:156-163 | A 64-byte chunk under an MSB-first mask of kb bytes reads back as its first kb bytes |
| PluginAxiStream.ChunkPrefix | plugin/p2p/box_250mhz/filter_rx_pipeline/tb/axi_stream_driver.py:72-86 | The kept part of chunk k is the packet's bytes from 64k |
| PluginAxiStream.DecodeSnoc | plugin/p2p/box_250mhz/filter_rx_pipeline/tb/axi_stream_driver.py:139 | Decoding one more beat extends the decoded bytes by that beat's bytes |
| PluginAxiStream.DecodePrefix | plugin/p2p/box_250mhz/filter_rx_pipeline/tb/axi_stream_driver.py:139 | Decoding the first k beats gives the packet's first PrefixEnd(len, k) bytes |
| PluginAxiStream.DecodePrefixStep | plugin/p2p/box_250mhz/filter_rx_pipeline/tb/axi_stream_driver.py:139 | The step of DecodePrefix from k−1 beats to k |
| PluginAxiStream.DecodeAppend | plugin/p2p/box_250mhz/filter_rx_pipeline/tb/axi_stream_driver.py:139 | Decoding a beat list appends the last beat's bytes to the decoded front |
| PluginAxiStream.DecodeInvertsEncode | plugin/p2p/box_250mhz/filter_rx_pipeline/tb/axi_stream_driver.py:66-97 | Extracting the bytes of every encoded beat and concatenating gives back the packet |
| PluginAxiStream.RunReceives | plugin/p2p/box_250mhz/filter_rx_pipeline/tb/axi_stream_driver.py:123-148 | A run of the monitor loop keeps the packets already received and adds one per sample that completes a packet |
| PluginAxiStream.RunSnoc | plugin/p2p/box_250mhz/filter_rx_pipeline/tb/axi_stream_driver.py:127-148 | Running one more sample is one more step |
| PluginAxiStream.DrivenSample | plugin/p2p/box_250mhz/filter_rx_pipeline/tb/axi_stream_driver.py:43-55 | Sample k of the driven trace carries beat k with valid and ready set |
| PluginAxiStream.StepAppends | plugin/p2p/box_250mhz/filter_rx_pipeline/tb/axi_stream_driver.py:131-139 | A handshaked beat without last appends its bytes to the current packet |
| PluginAxiStream.StepCompletes | plugin/p2p/box_250mhz/filter_rx_pipeline/tb/axi_stream_driver.py:143-148 | A handshaked beat with last closes the current packet and appends it to the received list |
| PluginAxiStream.MonitorPrefix | plugin/p2p/box_250mhz/filter_rx_pipeline/tb/axi_stream_driver.py:123-148 | After the first k (non-final) driven beats the monitor holds the packet's first 64k bytes and the earlier packets |
| PluginAxiStream.MonitorPrefixStep | plugin/p2p/box_250mhz/filter_rx_pipeline/tb/axi_stream_driver.py:123-148 | The step of MonitorPrefix from k−1 beats to k |
| PluginAxiStream.DrivenBeatAppends | plugin/p2p/box_250mhz/filter_rx_pipeline/tb/axi_stream_driver.py:131-139 | A non-final driven beat appends its 64 packet bytes |
| PluginAxiStream.DrivenBeatCompletes | plugin/p2p/box_250mhz/filter_rx_pipeline/tb/axi_stream_driver.py:143-148 | The final driven beat closes the packet with the rest of its bytes |
| PluginAxiStream.MonitorReceivesDrivenPacket | plugin/p2p/box_250mhz/filter_rx_pipeline/tb/axi_stream_driver.py:36-148 | A monitor fed the beats send_packet drives receives exactly the sent packet (nothing for an empty packet) |
| PluginAxiStream.AxiStreamMonitor.constructor | plugin/p2p/box_250mhz/filter_rx_pipeline/tb/axi_stream_driver.py:102-121 | A new monitor has no current packet and no received packets |
| PluginAxiStream.AxiStreamMonitor.Observe | plugin/p2p/box_250mhz/filter_rx_pipeline/tb/axi_stream_driver.py:127-148 | One sampled edge advances the monitor by one step |
| PluginAxiStream.AxiStreamMonitor.WaitForPacket | plugin/p2p/box_250mhz/filter_rx_pipeline/tb/axi_stream_driver.py:167-176 | Returns the newest packet once the waiter sees the count grown, which is one edge after the packet's tlast beat because the monitor updates after ReadOnly; None after timeout_cycles edges, so a packet completed on the last polled edge is missed |
| ResetUtils.DetectResetSignal | tb/utils/reset_utils.py:84-99 | No signal exactly when no candidate name is an attribute of the design; otherwise a candidate the design has |
| ResetUtils.FirstPresent | tb/utils/reset_utils.py:93-99 | The scan finds nothing exactly when no candidate name is an attribute of the design, and anything it finds is a candidate |
| ResetUtils.FirstPresentIsFirst | tb/utils/reset_utils.py:93-97 | The signal found is the first candidate, in list order, whose name the design has |
| ResetUtils.DetectPicksFirstPresent | tb/utils/reset_utils.py:84-97 | When candidate i is present and no earlier one is, candidate i is the detected signal |
| ResetUtils.DetectedPolarity | tb/utils/reset_utils.py:84-91 | rst_n, resetn and aresetn are asserted with 0 and released with 1; rst, reset and areset the other way round |
| ResetUtils.NoCandidateNoSignal | tb/utils/reset_utils.py:93-99 | A design with none of the six names has no reset signal |
| ResetUtils.Edges | tb/utils/reset_utils.py:57-58 | Waiting n cycles is n rising edges of the clock (none for n ≤ 0) |
| ResetUtils.LevelsOverEdges | tb/utils/reset_utils.py:57-58 | The signal holds its level across a run of n edges |
| ResetUtils.LevelsAfterWrite | tb/utils/reset_utils.py:53-54 | A write sets the level seen at every later edge until the next write |
| ResetUtils.ResetDutTrace | tb/utils/reset_utils.py:46-48 | A design without a reset signal gets no writes and no waits |
| ResetUtils.ResetDutLevels | tb/utils/reset_utils.py:28-71 | reset_dut holds the active level for exactly reset_cycles edges, then the inactive level for exactly settle_cycles |
| ResetUtils.ControlledReleaseTrace | tb/utils/reset_utils.py:146-148 | A design without a reset signal gets no writes and no waits |
| ResetUtils.ControlledReleaseLevels | tb/utils/reset_utils.py:132-166 | The active level holds for reset_cycles edges; the release is seen on exactly one edge after it, with the optional delay before it |
| ResetUtils.SyncReleaseLevels | tb/utils/reset_utils.py:207-236 | The synchronized reset reads 0 on sync_stages + 1 edges and then 1 on the final edge |
| ResetUtils.EdgeCountAppend | tb/utils/reset_utils.py:101-130 | Edge counts add over concatenated traces |
| ResetUtils.EdgeCountEdges | tb/utils/reset_utils.py:129-130 | A wait of n cycles contributes n edges (none for n ≤ 0) |
| ResetUtils.DomainEdgeCount | tb/utils/reset_utils.py:116-121 | A domain waits its reset and settle counts (defaults 10 and 5), or nothing without a reset signal |
| ResetUtils.DomainsEdgeCount | tb/utils/reset_utils.py:112-121 | Resetting domains in sequence waits the sum of their edges |
| ResetUtils.MultiDomainEdgeCount | tb/utils/reset_utils.py:101-130 | reset_multiple_domains waits every domain's edges plus the global settle count, which is skipped for an empty list or a count ≤ 0 |
| ResetUtils.WaitEdges | tb/utils/reset_utils.py:57-58 | The loop appends exactly n edges of the clock |
| ResetUtils.ResetManager.constructor | tb/utils/reset_utils.py:18-26 | The manager carries its name |
| ResetUtils.ResetManager.ResetDut | tb/utils/reset_utils.py:28-71 | The events added are exactly ResetDutTrace: assert, reset_cycles edges, release, settle_cycles edges |
| ResetUtils.ResetManager.ResetMultipleDomains | tb/utils/reset_utils.py:101-130 | The events added are each domain's reset in order, then the global settle edges on the first domain's clock |
| ResetUtils.ResetManager.ControlledResetRelease | tb/utils/reset_utils.py:132-166 | The events added are exactly ControlledReleaseTrace |
| ResetUtils.ResetDomains | tb/utils/reset_utils.py:112-121 | The domain loop adds each domain's reset trace in order |
| ResetUtils.DomainsTraceStep | tb/utils/reset_utils.py:112-121 | The trace of the first i + 1 domains extends that of the first i by domain i's trace |
| ResetUtils.Release | tb/utils/reset_utils.py:158-164 | The release adds the optional delay, the inactive write and one edge |
| ResetUtils.PowerOnSequence | tb/utils/reset_utils.py:174-199 | The power-on delay, then reset_dut with settle count 10 |
| ResetUtils.SyncResetRelease | tb/utils/reset_utils.py:207-236 | The events added are exactly SyncReleaseTrace |
| ResetUtils.OpennicStandardReset | tb/utils/reset_utils.py:241-256 | reset_dut with 20 reset and 15 settle cycles |
| ResetUtils.QuickReset | tb/utils/reset_utils.py:259-274 | reset_dut with 5 reset and 3 settle cycles |
| ResetUtils.ResetWithPowerOn | tb/utils/reset_utils.py:277-293 | A power-on delay, then reset_dut with 25 reset cycles and settle 10 |
| RunTestsScoreboard.CreatePacket | plugin/p2p/box_250mhz/filter_rx_pipeline/scripts/run_tests.py:222-321 | Keeps the version; expected to hit rule 0 iff its source port is 8080 and rule 1 iff its destination port is 1234; a rule-0 packet comes from 192.168.1.100 (2001:db8:1::100), a rule-1 packet goes to 203.0.113.25 (2001:db8:4::25) |
| RunTestsScoreboard.Unmatched | plugin/p2p/box_250mhz/filter_rx_pipeline/scripts/run_tests.py:262-272 | A filler packet keeps the version, expects neither rule, and has source port 9000-9999 and destination port 2000-2999 |
| RunTestsScoreboard.PacketClass | plugin/p2p/box_250mhz/filter_rx_pipeline/scripts/run_tests.py:222-321 | Packet i is expected to hit rule 0 iff i mod 10 is 0 or 2, and rule 1 iff i mod 10 is 1 or 2, for both IP versions |
| RunTestsScoreboard.Packets | plugin/p2p/box_250mhz/filter_rx_pipeline/scripts/run_tests.py:97-99 | Packets 0 .. n−1 of one version, n of them |
| RunTestsScoreboard.PlusZero | plugin/p2p/box_250mhz/filter_rx_pipeline/scripts/run_tests.py:323-338 | Adding no prediction changes nothing |
| RunTestsScoreboard.PlusAssociative | plugin/p2p/box_250mhz/filter_rx_pipeline/scripts/run_tests.py:323-338 | Adding predictions is associative |
| RunTestsScoreboard.Predict | plugin/p2p/box_250mhz/filter_rx_pipeline/scripts/run_tests.py:323-338 | One packet adds exactly one to passed or dropped (dropped together with no-rules); rule 0 and rule 1 count iff expected, both iff both are; rule0 + rule1 = both + passed |
| RunTestsScoreboard.Tally | plugin/p2p/box_250mhz/filter_rx_pipeline/scripts/run_tests.py:323-338 | Over a list, passed + dropped is its length, no-rules equals dropped, rule0 + rule1 = both + passed, and both never exceeds either rule count |
| RunTestsScoreboard.TallyAppend | plugin/p2p/box_250mhz/filter_rx_pipeline/scripts/run_tests.py:96-106 | The tally of two runs in sequence is the sum of their tallies |
| RunTestsScoreboard.TallySnoc | plugin/p2p/box_250mhz/filter_rx_pipeline/scripts/run_tests.py:96-100 | One more packet adds its prediction to the tally |
| RunTestsScoreboard.ClassCountClosed | plugin/p2p/box_250mhz/filter_rx_pipeline/scripts/run_tests.py:226 | Among indices 0 .. n−1, class c < 10 occurs n div 10 times plus one if n mod 10 > c |
| RunTestsScoreboard.PredictClass | plugin/p2p/box_250mhz/filter_rx_pipeline/scripts/run_tests.py:225-338 | A packet's prediction by its class: classes 0 and 2 hit rule 0, classes 1 and 2 hit rule 1, class 2 both, and these three pass |
| RunTestsScoreboard.TallyOfPackets | plugin/p2p/box_250mhz/filter_rx_pipeline/scripts/run_tests.py:97-100 | The tally of a generated run is the tally accumulated index by index |
| RunTestsScoreboard.TallyPackets | plugin/p2p/box_250mhz/filter_rx_pipeline/scripts/run_tests.py:97-100 | n packets predict classes 0+2 rule 0 hits, 1+2 rule 1 hits, class 2 both, and pass classes 0, 1 and 2 |
| RunTestsScoreboard.PacketsTallyClasses | plugin/p2p/box_250mhz/filter_rx_pipeline/scripts/run_tests.py:97-100 | The index-by-index tally has those class counts |
| RunTestsScoreboard.PacketsTallyStep | plugin/p2p/box_250mhz/filter_rx_pipeline/scripts/run_tests.py:97-100 | Packet n−1 moves the tally by its class |
| RunTestsScoreboard.TallyPacketsClosed | plugin/p2p/box_250mhz/filter_rx_pipeline/scripts/run_tests.py:222-338 | In closed form: each full ten packets holds one packet of each of classes 0, 1 and 2, and the rest are dropped |
| RunTestsScoreboard.MixFor | plugin/p2p/box_250mhz/filter_rx_pipeline/scripts/run_tests.py:72-220 | The mix of every test name has a total of 50, 100, 1000, 200 or 75 and at most that many IPv4 packets |
| RunTestsScoreboard.MixPackets | plugin/p2p/box_250mhz/filter_rx_pipeline/scripts/run_tests.py:96-110 | A mix yields exactly its total number of packets |
| RunTestsScoreboard.MixParts | plugin/p2p/box_250mhz/filter_rx_pipeline/scripts/run_tests.py:96-110 | A mix is its IPv4 run followed by its IPv6 run |
| RunTestsScoreboard.TallyAppendFrom | plugin/p2p/box_250mhz/filter_rx_pipeline/scripts/run_tests.py:96-106 | Accumulating two runs one after the other adds the tally of the joined run |
| RunTestsScoreboard.BasicMixPrediction | plugin/p2p/box_250mhz/filter_rx_pipeline/scripts/run_tests.py:87-110 | The basic mix (35 IPv4 then 15 IPv6) predicts 12 rule 0 hits, 12 rule 1 hits, 6 both, 18 passed and 32 dropped |
| RunTestsScoreboard.FieldIndex | plugin/p2p/box_250mhz/filter_rx_pipeline/scripts/run_tests.py:340-356 | Each compared counter has its place in the comparison order |
| RunTestsScoreboard.PacketFilteringScoreboard.constructor | plugin/p2p/box_250mhz/filter_rx_pipeline/scripts/run_tests.py:43-45 | A new scoreboard carries the test name and every counter at 0 |
| RunTestsScoreboard.PacketFilteringScoreboard.ResetCounters | plugin/p2p/box_250mhz/filter_rx_pipeline/scripts/run_tests.py:47-70 | Every counter back to 0; the test name stays |
| RunTestsScoreboard.PacketFilteringScoreboard.ResetGeneration | plugin/p2p/box_250mhz/filter_rx_pipeline/scripts/run_tests.py:50-52 | The generation counts back to 0 |
| RunTestsScoreboard.PacketFilteringScoreboard.ResetPredictions | plugin/p2p/box_250mhz/filter_rx_pipeline/scripts/run_tests.py:55-62 | The prediction counters back to 0 |
| RunTestsScoreboard.PacketFilteringScoreboard.ResetActuals | plugin/p2p/box_250mhz/filter_rx_pipeline/scripts/run_tests.py:65-70 | The hardware hit and error counts back to 0 |
| RunTestsScoreboard.PacketFilteringScoreboard.PredictFilterOutcome | plugin/p2p/box_250mhz/filter_rx_pipeline/scripts/run_tests.py:323-338 | The counters grow by the packet's prediction |
| RunTestsScoreboard.PacketFilteringScoreboard.GenerateTestPackets | plugin/p2p/box_250mhz/filter_rx_pipeline/scripts/run_tests.py:72-85 | The packets are the named mix's, the generation counts are overwritten with the mix's sizes, the predictions grow by the mix's tally, and passed + dropped grows by the total |
| RunTestsScoreboard.PacketFilteringScoreboard.GenerateMix | plugin/p2p/box_250mhz/filter_rx_pipeline/scripts/run_tests.py:87-110 | One mix body: total, then the two loops, then the IPv4 and IPv6 counts |
| RunTestsScoreboard.PacketFilteringScoreboard.PredictMix | plugin/p2p/box_250mhz/filter_rx_pipeline/scripts/run_tests.py:96-106 | The IPv4 loop then the IPv6 loop add the tally of the whole mix |
| RunTestsScoreboard.PacketFilteringScoreboard.PredictPackets | plugin/p2p/box_250mhz/filter_rx_pipeline/scripts/run_tests.py:97-100 | The loop creates packets 0 .. count−1 of a version and adds their tally |
| RunTestsScoreboard.PacketFilteringScoreboard.CheckFrom | plugin/p2p/box_250mhz/filter_rx_pipeline/scripts/run_tests.py:344-356 | From position k on: raises on the first missing key; otherwise one mismatch per field whose hardware value differs from the prediction |
| RunTestsScoreboard.PacketFilteringScoreboard.VerifyFilteringResults | plugin/p2p/box_250mhz/filter_rx_pipeline/scripts/run_tests.py:340-356 | Raises KeyError on the first missing counter in comparison order; otherwise the errors are exactly the fields whose hardware value differs from the prediction, and none iff all four agree |
| Scoreboard.Drain | tb/env/base/scoreboard.py:96-119 | The pairs compared never exceed either queue; every pair before the last compared matched; the run ends on a mismatch iff the last pair compared differs; without a mismatch it compares min(len) pairs |
| Scoreboard.AddComparesAtMostOnce | tb/env/base/scoreboard.py:72-81 | When one queue was empty before the append (as between adds), adding an expected transaction compares at most one pair |
| Scoreboard.DrainAt | tb/env/base/scoreboard.py:96-98 | Popping the matching front pair leaves the rest of the drain unchanged |
| Scoreboard.Scoreboard.constructor | tb/env/base/scoreboard.py:32-45 | A new scoreboard has empty queues, no comparison function, no handlers and zero statistics |
| Scoreboard.Scoreboard.Compare | tb/env/base/scoreboard.py:121-151 | Without a custom function, transactions match iff their string forms are equal; otherwise the custom function decides |
| Scoreboard.Scoreboard.Stats | tb/env/base/scoreboard.py:47-52 | The statistics with the pending counts refreshed from the queue lengths |
| Scoreboard.Scoreboard.SetComparisonFunction | tb/env/base/scoreboard.py:54-61 | The custom comparison is installed |
| Scoreboard.Scoreboard.AddMismatchHandler | tb/env/base/scoreboard.py:63-70 | The handler is appended |
| Scoreboard.Scoreboard.TryCheckTransactions | tb/env/base/scoreboard.py:94-119 | Pops and counts the pairs Drain says; a mismatch counts once, calls every handler in order with the pair (a raising one not stopping the rest) and then fails; checked = matches + mismatches is kept |
| Scoreboard.Scoreboard.DrainPairs | tb/env/base/scoreboard.py:96-104 | The pop-and-compare loop removes exactly the pairs Drain compares and returns the mismatching pair, if any |
| Scoreboard.Scoreboard.AddExpectedTransaction | tb/env/base/scoreboard.py:72-81 | Appends, then drains at most one pair, counting it; on a mismatch the handlers are dispatched on that pair and it fails, otherwise no handler is called |
| Scoreboard.Scoreboard.AddActualTransaction | tb/env/base/scoreboard.py:83-92 | Appends, then drains at most one pair, counting it; on a mismatch the handlers are dispatched on that pair and it fails, otherwise no handler is called |
| Scoreboard.Scoreboard.CheckEmpty | tb/env/base/scoreboard.py:153-160 | True iff both queues are empty |
| Scoreboard.Scoreboard.FlushQueues | tb/env/base/scoreboard.py:162-171 | Both queues emptied |
| Scoreboard.AddActualComparesAtMostOnce | tb/env/base/scoreboard.py:83-92 | When one queue was empty before the append, adding an actual transaction compares at most one pair |
| Scoreboard.WaitForCompletion | tb/env/base/scoreboard.py:183-204 | Succeeds iff the queues are seen empty at one of the polls before more than timeout_ms ms have passed, at the first such poll; otherwise times out after exactly the deadline's polls |
| Scoreboard.ScenarioDrains | tb/env/base/scoreboard.py:96-119 | The drains of the adds in the scenario below |
| Scoreboard.ThreeExpected | tb/env/base/scoreboard.py:72-81 | Three expected adds with nothing actual compare nothing |
| Scoreboard.MismatchScenario | tb/env/base/scoreboard.py:72-119 | Three expected then actual 1 and 5: one match, one mismatch that fails the second add, one expected left pending |
| StatisticsChecker.Field32 | tb/tests/filter_rx_pipeline/utils/statistics_checker.py:40-43 | Each extracted field is a 32-bit value |
| StatisticsChecker.FromStatusReg | tb/tests/filter_rx_pipeline/utils/statistics_checker.py:32-51 | The four counters read from the 128-bit status register are each below 2^32 |
| StatisticsChecker.ShiftTwice | tb/tests/filter_rx_pipeline/utils/statistics_checker.py:40-43 | Shifting right by a then by b is shifting by a·b, the low part dropping out |
| StatisticsChecker.FromStatusRegInvertsPacking | tb/tests/filter_rx_pipeline/utils/statistics_checker.py:34-43 | Packing four 32-bit counters at bits 0, 32, 64 and 96 and reading them back gives the same counters |
| StatisticsChecker.PackingInvertsFromStatusReg | tb/tests/filter_rx_pipeline/utils/statistics_checker.py:34-43 | Reading a register and packing the counters back gives its low 128 bits |
| StatisticsChecker.StatsItems | tb/tests/filter_rx_pipeline/utils/statistics_checker.py:411-416 | The statistics dict has four entries |
| StatisticsChecker.StatsDict | tb/tests/filter_rx_pipeline/utils/statistics_checker.py:403-416 | read_statistics' dict has exactly the four counter names, each mapped to its counter |
| StatisticsChecker.ExpectPacket | tb/tests/filter_rx_pipeline/utils/statistics_checker.py:180-192 | One more packet in the total and in exactly one of rule 0, rule 1 or dropped: rule 0 iff not dropped and rule_hit is 0, rule 1 iff not dropped and rule_hit is 1, dropped otherwise |
| StatisticsChecker.CounterCheck | tb/tests/filter_rx_pipeline/utils/statistics_checker.py:218-232 | A counter reports a mismatch, with both values, iff expected and actual differ |
| StatisticsChecker.ConsistencyCheck | tb/tests/filter_rx_pipeline/utils/statistics_checker.py:234-243 | At most one report, and none iff total = rule0 + rule1 + dropped |
| StatisticsChecker.StatsMismatchesEmpty | tb/tests/filter_rx_pipeline/utils/statistics_checker.py:215-247 | verify_stats finds no mismatch iff actual equals expected and the expected counters are consistent |
| StatisticsChecker.StatsMismatchReportsCounter | tb/tests/filter_rx_pipeline/utils/statistics_checker.py:218-232 | Every counter that differs is reported with its expected and actual value |
| StatisticsChecker.Disagreement | tb/tests/filter_rx_pipeline/utils/statistics_checker.py:465-472 | A missing counter is reported as unknown, a present one as a value mismatch, under its own name |
| StatisticsChecker.KeyMismatches | tb/tests/filter_rx_pipeline/utils/statistics_checker.py:464-472 | No mismatch iff every expected counter is present with its value; at most one report per expected entry |
| StatisticsChecker.VerifyPacketStatistics | tb/tests/filter_rx_pipeline/utils/statistics_checker.py:453-479 | Passes iff every expected counter is read back with its value; otherwise raises with every mismatch, unknown counters included, in the dict's order |
| StatisticsChecker.ReadAll | tb/tests/filter_rx_pipeline/utils/statistics_checker.py:270-271 | One decoded sample per register read, in order |
| StatisticsChecker.StatisticsChecker.constructor | tb/tests/filter_rx_pipeline/utils/statistics_checker.py:142-160 | Expected and last actual at zero, empty history and mismatch list, last check passed |
| StatisticsChecker.StatisticsChecker.ReadCurrentStats | tb/tests/filter_rx_pipeline/utils/statistics_checker.py:162-178 | The decoded register becomes the last actual sample and is appended to the history; nothing else changes |
| StatisticsChecker.StatisticsChecker.ExpectPacketSent | tb/tests/filter_rx_pipeline/utils/statistics_checker.py:180-197 | The expectation becomes ExpectPacket of the old one, which keeps it consistent |
| StatisticsChecker.StatisticsChecker.VerifyStats | tb/tests/filter_rx_pipeline/utils/statistics_checker.py:199-257 | Reads one sample, appends every mismatch found, and passes iff the sample equals the expectation and the expectation is consistent |
| StatisticsChecker.StatisticsChecker.WaitForStatsUpdate | tb/tests/filter_rx_pipeline/utils/statistics_checker.py:259-279 | Reads until a sample's total reaches the target (true) or timeout_cycles samples have been read (false); the history gains exactly the samples read, and the last actual stats are those of the final read (unchanged when none was made) |
| StatisticsChecker.StatisticsChecker.ResetExpectedStats | tb/tests/filter_rx_pipeline/utils/statistics_checker.py:281-284 | The expectation back to zero; nothing else changes |
| StatisticsChecker.StatisticsChecker.ClearHistory | tb/tests/filter_rx_pipeline/utils/statistics_checker.py:286-289 | History and mismatches emptied; nothing else changes |
| StatisticsChecker.StatisticsChecker.CheckCounterOverflow | tb/tests/filter_rx_pipeline/utils/statistics_checker.py:332-360 | A negative width raises; otherwise the warnings name exactly the counters at or above 2^width − 1, in field order |
| StatisticsChecker.IndexOf | tb/tests/filter_rx_pipeline/utils/statistics_checker.py:345-355 | Each counter has its place in the warning order |
| Text.Split | tb/tests/filter_rx_pipeline/utils/test_utils.py:306 | str.split on '.' gives at least one piece, and no piece contains a dot |
| Text.SplitCount | tb/tests/filter_rx_pipeline/utils/test_utils.py:306 | str.split gives exactly one more piece than the input holds separators |
| Text.SplitCons | tb/tests/filter_rx_pipeline/utils/test_utils.py:306 | Splitting a dot-free piece, a dot and a rest gives that piece followed by the pieces of the rest |
| Text.ParseNatToString | tb/tests/filter_rx_pipeline/utils/test_utils.py:307 | int() reads back every non-negative number from its decimal string |
| TestUtils.Part | tb/tests/filter_rx_pipeline/utils/test_utils.py:307 | int(parts[i]) succeeds exactly when part i exists and is a decimal number, and then gives its value |
| TestUtils.QuadBound | tb/tests/filter_rx_pipeline/utils/test_utils.py:307 | An address of four octets fits in 32 bits |
| TestUtils.PackOctetsIsBase256 | tb/tests/filter_rx_pipeline/utils/test_utils.py:307 | With octets below 256, the shifted ORs do not overlap and give the base-256 number a.b.c.d |
| TestUtils.SplitFour | tb/tests/filter_rx_pipeline/utils/test_utils.py:306 | Four dot-free pieces joined by dots split back into the same four pieces |
| TestUtils.FourParts | tb/tests/filter_rx_pipeline/utils/test_utils.py:306-307 | Four dot-free decimal parts joined by dots convert to the packing of their values |
| TestUtils.DecimalPart | tb/tests/filter_rx_pipeline/utils/test_utils.py:307 | A number's decimal string has no dot and int() reads the number back from it |
| TestUtils.Ipv4StrToInt | tb/tests/filter_rx_pipeline/utils/test_utils.py:304-307 | Fails exactly when one of the first four dot-separated parts is missing or not a decimal number |
| TestUtils.Ipv4StrToIntDotted | tb/tests/filter_rx_pipeline/utils/test_utils.py:304-307 | ipv4_str_to_int inverts dotted-quad notation: "a.b.c.d" gives a·2^24 + b·2^16 + c·2^8 + d |
| TestUtils.Ipv4Example | tb/tests/filter_rx_pipeline/utils/test_utils.py:304-307 | "192.168.1.1" converts to 0xC0A80101 |
| TestUtils.Masked | tb/tests/filter_rx_pipeline/utils/test_utils.py:86-93 | Masking a field to its width gives a value below 2^width, keeps a value already in range, and gives 0 for an absent key |
| TestUtils.RuleWordLayout | tb/tests/filter_rx_pipeline/utils/test_utils.py:82-93 | A rule word is the port in bits 0-31, the IPv4 address in bits 32-63 and the IPv6 address in bits 64-191, and it fits in 192 bits |
| TestUtils.UnconfiguredWord | tb/tests/filter_rx_pipeline/utils/test_utils.py:84-93 | A rule with none of the three keys contributes the value 0 |
| TestUtils.ConfigWord | tb/tests/filter_rx_pipeline/utils/test_utils.py:74-96 | Building the configuration value fails exactly when some rule index is negative, because shifting by a negative count raises |
| TestUtils.Configured | tb/tests/filter_rx_pipeline/utils/test_utils.py:77-96 | A rule index that the dictionary does not contain has no fields configured |
| TestUtils.ConfigFailureSticks | tb/tests/filter_rx_pipeline/utils/test_utils.py:77-96 | Once a rule with a negative index is reached, the whole configuration fails with that rule's error |
| TestUtils.PlaceRule0 | tb/tests/filter_rx_pipeline/utils/test_utils.py:96 | OR-ing rule 0 into a value that holds only rule 1 adds rule 0 in the low 192 bits |
| TestUtils.PlaceRule1 | tb/tests/filter_rx_pipeline/utils/test_utils.py:96 | OR-ing rule 1 into a value that holds only rule 0 adds rule 1 above bit 191 |
| TestUtils.ConfigWordSlots | tb/tests/filter_rx_pipeline/utils/test_utils.py:77-96 | With distinct indices, the value holds rule 0's word in bits 0-191 and rule 1's word in bits 192-383; indices of 2 or more leave no trace |
| TestUtils.WordReadsBack | tb/tests/filter_rx_pipeline/utils/test_utils.py:82-96 | The port, IPv4 and IPv6 fields of a rule word placed at any scale read back as their masked values |
| TestUtils.ConfigReadsBack | tb/tests/filter_rx_pipeline/utils/test_utils.py:74-98 | Every field of both rules reads back from the register at its offset: port at 192r, IPv4 at 192r + 32, IPv6 at 192r + 64, and 0 for a rule or key not given |
| TestUtils.CreateRuleConfig | tb/tests/filter_rx_pipeline/utils/test_utils.py:316-330 | The result is a one-entry dictionary keyed by the rule index with all three keys; a missing or empty address gives 0; it fails only when a non-empty IPv4 string does not parse |
| TestUtils.CreatedDottedRule | tb/tests/filter_rx_pipeline/utils/test_utils.py:316-323 | A rule made from a dotted quad carries that address as a 32-bit number and the given port |
| TestUtils.SingleRuleReadsBack | tb/tests/filter_rx_pipeline/utils/test_utils.py:77-98 | Configuring a single rule in slot 0 or 1 reads back that rule's fields, and 0 from the other slot |
| TestUtils.CreatedRuleReadsBack | tb/tests/filter_rx_pipeline/utils/test_utils.py:316-330 | A rule made by create_rule_config and written by configure_rules reads back with its address and port; the other slot stays 0 |
| TestUtils.Captures | tb/tests/filter_rx_pipeline/utils/test_utils.py:142-155 | One beat is captured per handshake edge, in order, so there are never more beats than edges |
| TestUtils.IdleRun | tb/tests/filter_rx_pipeline/utils/test_utils.py:143-164 | The idle counter counts the edges since the last handshake: none of them has a handshake, and the edge before them does |
| TestUtils.PrefixStep | tb/tests/filter_rx_pipeline/utils/test_utils.py:145-164 | Each edge either captures its beat and clears the idle counter, or leaves the beats unchanged and adds one to the counter |
| TestUtils.ReadStatistics | tb/tests/filter_rx_pipeline/utils/test_utils.py:220-232 | The statistics hold exactly the four counters, each the 32 bits at offset 0, 32, 64 or 96 of the status register |
| TestUtils.TestResult.constructor | tb/tests/filter_rx_pipeline/utils/test_utils.py:268-273 | A new result has passed set, no errors, no warnings and no statistics |
| TestUtils.TestResult.AddError | tb/tests/filter_rx_pipeline/utils/test_utils.py:275-279 | An error is appended and the result fails; the warnings and statistics are unchanged |
| TestUtils.TestResult.AddWarning | tb/tests/filter_rx_pipeline/utils/test_utils.py:281-284 | A warning is appended and the pass/fail status is unchanged |
| TestUtils.TestResult.AddStatistics | tb/tests/filter_rx_pipeline/utils/test_utils.py:286-288 | The statistics are updated as a dictionary: new keys are added and new values override old ones under the same key |
| TestUtils.TestResult.Summary | tb/tests/filter_rx_pipeline/utils/test_utils.py:290-300 | The summary is "name: PASS" or "name: FAIL", and it is longer exactly when there are errors or warnings |
| TestUtils.TestResult.SummaryReportsErrors | tb/tests/filter_rx_pipeline/utils/test_utils.py:270-300 | The summary says PASS exactly when no error has been added |
| TestUtils.FilterRxTestbench.constructor | tb/tests/filter_rx_pipeline/utils/test_utils.py:18-29 | A new testbench starts with every counter at 0 |
| TestUtils.FilterRxTestbench.ConfigureRules | tb/tests/filter_rx_pipeline/utils/test_utils.py:61-99 | The register is written only when no rule index is negative, and then it holds the configuration value; the packet counters are unchanged |
| TestUtils.FilterRxTestbench.VerifyStatistics | tb/tests/filter_rx_pipeline/utils/test_utils.py:234-248 | Passes exactly when every given counter exists and matches; otherwise reports the first unknown or mismatched counter; counters not given are not checked |
| TestUtils.CollectBeats | tb/tests/filter_rx_pipeline/utils/test_utils.py:142-169 | Stops at the first handshake with tlast and returns the captured beats, or times out once the idle run reaches timeout_cycles; before the stop, no timeout fired and no tlast was seen; running out of samples means none of them was a tlast handshake |
| TestUtils.FilterRxTestbench.SendAxiStreamPacket | tb/tests/filter_rx_pipeline/utils/test_utils.py:101-133 | Drives a prefix of the beats that ends at the first tlast beat (or all of them when none has tlast), clears the inputs exactly when some beat has tlast, and counts one sent packet in every case, the empty list included |
| TestUtils.FilterRxTestbench.ReceiveAxiStreamPacket | tb/tests/filter_rx_pipeline/utils/test_utils.py:135-169 | Returns the packet's beats at the first tlast handshake, or None after timeout_cycles idle edges in a row, and counts a received packet; running out of samples means none of them was a tlast handshake |

## Left out

- Clock-edge scheduling, `await`, `ReadOnly`/`Timer` and `start_soon` concurrency: each monitor or driver is a step over sampled signal values, with no interleaving.
- Logging is a no-op. The subclasses log through `self.logger`, which `Component` does not define (it defines `self.log`), so every such log call would fail.
- Constructing Driver, Monitor, Scoreboard or Coverage fails because `_start_impl` is abstract. The classes are modelled by their method bodies, and the hooks are parameters that may raise.
- Every use of `random` that is modelled is a parameter. This covers random payload bytes, retry candidates and the agent driver's own gap after each transaction, whose `randint` draw is a parameter. Random transactions (`send_random_transaction`, `send_random_data`) are not modelled. AXIStreamSink and AXIStreamSource (random ready, endless loops) are not modelled.
- Scapy frame construction: the frame Scapy builds is a parameter, and only the truncation, padding and sequence update applied to it are modelled.
- IPv6 text parsing (the `ipaddress` module) is a parameter of `create_rule_config`. `ipv6_str_to_int` itself is not modelled.
- Floating-point values are left out: PerformanceMetrics, `pass_rate`/`pass_rate_percent`, timestamps and clock periods. Coverage percentages are exact reals.
- The `int(N * 0.x)` splits of the packet mixes are written as the integers they evaluate to: 35/15, 90/10, 10/90, 600/400, 100/100 and 45/30.
- Scoreboard.WaitForCompletion: `timeout_ms` is a float in the source, and the model takes whole milliseconds.
- TestUtils.Part: `int()` is modelled on strings of decimal digits only. Python's `int()` also accepts surrounding whitespace, a sign and underscores, which the model rejects.
- Report and export methods only log or build display dictionaries, and are not modelled: `report_statistics`, `report_status`, `report_coverage`, `export_coverage_data`, `get_statistics`, `get_transaction_stats`, `get_verification_summary`, `get_performance_summary` and `get_scoreboard_summary`.
- Scoreboard.Scoreboard.TryCheckTransactions: a raising custom comparison function is not modelled. In the source, `transactions_checked` is incremented before the comparison, so such a raise escapes with checked one ahead of matches + mismatches and the popped pair lost. The model's comparison is total, so its Valid() (checked = matches + mismatches) holds only for comparisons that return.
- The protocol-checking monitor's `_monitor_interface` loop and the `start_soon` launching it are not modelled as a loop. Its per-edge body is modelled (Observe), and so are the flag set and cleared by `start_monitoring`/`stop_monitoring`. Its `wait_for_packet` is not modelled: its waiting pattern is the plugin monitor's `wait_for_packet`, which is modelled.
- `send_packet`, `send_idle_cycles`, `apply_backpressure` and `_wait_for_ready` of the protocol-checking monitor's driver are not modelled. The same holds for `wait_for_idle` and `apply_backpressure_pattern` in `test_utils.py`: they only write signals and wait for edges. Of `send_axi_stream_packet` the model keeps which beats are driven and the packet count (`TestUtils.FilterRxTestbench.SendAxiStreamPacket`), not the wait for tready on each beat.
- The plugin driver's `send_packet` handshake (waiting for tready, deasserting after the last beat) is not modelled. The model drives one accepted sample per beat. `get_received_packets` and `clear_received_packets` only return or clear the list and are not modelled.
- The generic agent monitor's `wait_for_packet` and `_get_all_transactions` are not modelled. Its waiting pattern is the base monitor's `wait_for_transaction`, which is modelled.
- The filter driver's `_write_hardware_rule`, `config_signals` writes and `send_test_sequence` are not modelled: they log, wait one cycle, or replay a list through the modelled `send_transaction`.
- `monitor_continuous_stats` and `verify_counter_increment` of the statistics checker are not modelled: they are timed polling loops over the modelled status-register read.
- A reset domain or hardware-counter dictionary missing a required key makes the source raise KeyError. The model takes domains with both keys present and reports the missing counter key as a failure.
- `TestRunner`, the CLI scripts, YAML/JSON configuration, `env.py` wiring, clock generators and the cocotb test modules are not part of this model.
