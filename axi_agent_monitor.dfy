/**
 * The generic AXI4-Stream agent's monitor (tb/env/agents/axi_stream/monitor.py):
 * on every edge where tvalid and tready are both 1 it unpacks the beat
 * little-endian (byte i from tdata bits 8i..8i+7, keep flag i from tkeep
 * bit i, ARM IHI 0051A section 2.3), appends it to the transaction being
 * assembled, and on tlast emits the keep=1 bytes as one transaction to
 * the observers.
 *
 * The per-edge behaviour is given twice: as the class, whose methods
 * follow the source's loops and buffers, and as the function Step over
 * sampled signal values, which the methods are proved to implement and
 * which the round-trip lemma about the agent driver is stated over.
 */
module AxiAgentMonitor {
  import opened Bits
  import opened Wrappers
  import opened Callbacks
  import opened AxiAgentDriver
  import BaseMonitor
  import PacketGenerator

  /** The signal values read after ReadOnly on one rising edge; absent signals are ignored. */
  datatype Sample = Sample(
    tvalid: int, tready: int, tdata: nat, tkeep: nat, tlast: int, tuser: int, tdest: int, tid: int)

  /** The transaction being assembled: its bytes and keep flags so far, and the first beat's sideband. */
  datatype Pending = Pending(data: seq<byte>, keep: seq<bit>, user: int, dest: int, id: int)

  /** The monitor's assembly state: the open transaction, if any, and the last one emitted. */
  datatype Assembly = Assembly(current: Option<Pending>, last: Option<AxiStreamTransaction>)

  datatype MonitorError = NoTransactionsObserved  // RuntimeError("No transactions observed yet")

  // ---------------------------------------------------------------------
  // Unpacking one beat.

  /** Beat byte i is (tdata >> 8i) & 0xFF, for the bus's bytes. */
  function UnpackData(tdata: nat, b: nat): (r: seq<byte>)
    ensures |r| == b
  {
    ToLe(tdata, b)
  }

  /** Keep flag i is (tkeep >> i) & 1, or 1 on an interface without tkeep. */
  function UnpackKeep(tkeep: nat, b: nat, hasKeep: bool): (r: seq<bit>)
    ensures |r| == b
    ensures forall i :: 0 <= i < b ==> r[i] == if hasKeep then (tkeep / Pow2(i)) % 2 else 1
  {
    seq(b, i requires 0 <= i => if hasKeep then (tkeep / Pow2(i)) % 2 else 1)
  }

  /** Unpacking inverts the driver's packing of a full chunk. */
  lemma UnpackInvertsPack(data: seq<byte>, keep: seq<bit>)
    requires |data| == |keep|
    ensures UnpackData(LeValue(data), |data|) == data
    ensures UnpackKeep(LeBits(keep), |keep|, true) == keep
  {
    ToLeLeValue(data);
    forall i | 0 <= i < |keep|
      ensures UnpackKeep(LeBits(keep), |keep|, true)[i] == keep[i]
    {
      LeBitsAt(keep, i);
    }
  }

  // ---------------------------------------------------------------------
  // Completing a transaction.

  /** zip(data, keep) filtered on the keep flag: the kept bytes in order. */
  function Kept(data: seq<byte>, keep: seq<bit>): seq<byte>
  {
    if data == [] || keep == [] then []
    else (if keep[0] == 1 then [data[0]] else []) + Kept(data[1..], keep[1..])
  }

  /** Kept from position i on: the byte at i if its flag is set, then the rest. */
  lemma KeptStep(data: seq<byte>, keep: seq<bit>, i: nat)
    requires i < |data| && i < |keep|
    ensures Kept(data[i..], keep[i..]) == (if keep[i] == 1 then [data[i]] else []) + Kept(data[i + 1..], keep[i + 1..])
  {
    assert data[i..][1..] == data[i + 1..] && keep[i..][1..] == keep[i + 1..];
  }

  /** How many keep flags are set. */
  function Ones(keep: seq<bit>): nat
  {
    if keep == [] then 0 else keep[0] + Ones(keep[1..])
  }

  /** The emitted data has one byte per set keep flag; a non-contiguous keep is accepted. */
  lemma {:induction false} KeptCount(data: seq<byte>, keep: seq<bit>)
    requires |data| == |keep|
    ensures |Kept(data, keep)| == Ones(keep)
  {
    if data != [] {
      KeptCount(data[1..], keep[1..]);
    }
  }

  /** A keep list of n ones and then zeros keeps exactly the first n bytes. */
  lemma {:induction false} KeptPrefix(data: seq<byte>, keep: seq<bit>, n: nat)
    requires |data| == |keep| && n <= |data|
    requires forall j :: 0 <= j < |keep| ==> keep[j] == if j < n then 1 else 0
    ensures Kept(data, keep) == data[..n]
  {
    if data != [] {
      KeptPrefix(data[1..], keep[1..], if n > 0 then n - 1 else 0);
      if n > 0 {
        assert data[..n] == [data[0]] + data[1..][..n - 1];
      }
    }
  }

  /**
   * The transaction _complete_transaction emits: the kept bytes, the first
   * len(data) keep flags as accumulated (not the filtered ones), last set,
   * and the sideband of the first beat.
   */
  function Complete(p: Pending): (t: AxiStreamTransaction)
    ensures t.last && t.user == p.user && t.dest == p.dest && t.id == p.id
  {
    var valid := Kept(p.data, p.keep);
    AxiStreamTransaction(valid, Slice(p.keep, 0, |valid|), true, p.user, p.dest, p.id)
  }

  lemma {:induction false} OnesBound(keep: seq<bit>)
    ensures Ones(keep) <= |keep|
  {
    if keep != [] {
      OnesBound(keep[1..]);
    }
  }

  /**
   * When the buffers have equal length (as the monitor keeps them), the
   * emitted data has one byte per set keep flag and the emitted keep is
   * the first that many accumulated flags.
   */
  lemma CompleteShape(p: Pending)
    requires |p.data| == |p.keep|
    ensures |Complete(p).data| == Ones(p.keep) <= |p.keep|
    ensures Complete(p).keep == p.keep[..Ones(p.keep)]
  {
    KeptCount(p.data, p.keep);
    OnesBound(p.keep);
  }

  // ---------------------------------------------------------------------
  // The per-edge step.

  /** Whether this edge transfers a beat. */
  predicate Handshake(s: Sample)
  {
    s.tvalid == 1 && s.tready == 1
  }

  /** Whether a captured beat closes the transaction: only an interface with tlast can. */
  predicate Closes(sig: Signals, s: Sample)
  {
    sig.hasLast && s.tlast != 0
  }

  /**
   * _capture_beat's assembly: a new transaction takes this beat's
   * sideband (0 for an absent signal); an open one keeps its own, whatever
   * later beats carry. Either way the beat's bytes and keep flags are
   * appended.
   */
  function Capture(b: nat, sig: Signals, current: Option<Pending>, s: Sample): (p: Pending)
    ensures |p.data| == (if current.Some? then |current.value.data| else 0) + b
    ensures |p.keep| == (if current.Some? then |current.value.keep| else 0) + b
    ensures current.Some? ==>
      (p.user == current.value.user && p.dest == current.value.dest && p.id == current.value.id
       && p.data[..|current.value.data|] == current.value.data && p.keep[..|current.value.keep|] == current.value.keep)
    ensures current.None? ==>
      (p.user == (if sig.hasUser then s.tuser else 0) && p.dest == (if sig.hasDest then s.tdest else 0)
       && p.id == (if sig.hasId then s.tid else 0))
  {
    var open := if current.Some? then current.value
      else Pending([], [], if sig.hasUser then s.tuser else 0, if sig.hasDest then s.tdest else 0,
                   if sig.hasId then s.tid else 0);
    open.(data := open.data + UnpackData(s.tdata, b), keep := open.keep + UnpackKeep(s.tkeep, b, sig.hasKeep))
  }

  /** One rising edge: the new assembly state and the transaction emitted on it, if any. */
  function Step(b: nat, sig: Signals, st: Assembly, s: Sample): (Assembly, Option<AxiStreamTransaction>)
  {
    if !Handshake(s) then (st, None)
    else
      var p := Capture(b, sig, st.current, s);
      if Closes(sig, s) then (Assembly(None, Some(Complete(p))), Some(Complete(p)))
      else (Assembly(Some(p), st.last), None)
  }

  /** A run of edges from a state: the final state and the transactions emitted, in order. */
  function Run(b: nat, sig: Signals, st: Assembly, samples: seq<Sample>): (Assembly, seq<AxiStreamTransaction>)
  {
    if samples == [] then (st, [])
    else
      var before := Run(b, sig, st, samples[..|samples| - 1]);
      var after := Step(b, sig, before.0, samples[|samples| - 1]);
      (after.0, before.1 + if after.1.Some? then [after.1.value] else [])
  }

  /** The calls notify_observers makes for what an edge emitted. */
  function Notifications(observers: seq<nat>, emitted: Option<AxiStreamTransaction>, raises: (nat, AxiStreamTransaction) -> bool)
    : (r: seq<Call<AxiStreamTransaction>>)
    ensures emitted.None? ==> r == []
    ensures emitted.Some? ==> |r| == |observers|
  {
    if emitted.Some? then Dispatch(observers, emitted.value, raises) else []
  }

  /** On an interface without tlast no transaction is ever emitted, and none is left closed. */
  lemma {:induction false} NoLastNoTransaction(b: nat, sig: Signals, st: Assembly, samples: seq<Sample>)
    requires !sig.hasLast
    ensures Run(b, sig, st, samples).1 == []
    ensures Run(b, sig, st, samples).0.last == st.last
  {
    if samples != [] {
      NoLastNoTransaction(b, sig, st, samples[..|samples| - 1]);
    }
  }

  // ---------------------------------------------------------------------
  // The monitor.

  class AxiStreamMonitor {
    /** The Monitor base: observers, the observed count and the calls made. */
    const base: BaseMonitor.Monitor<AxiStreamTransaction>
    /** data_width // 8 */
    const busBytes: nat
    const signals: Signals
    var currentTransaction: Option<seq<byte>>
    var currentKeep: Option<seq<bit>>
    var currentUser: int
    var currentDest: int
    var currentId: int
    var lastTransaction: Option<AxiStreamTransaction>

    /** The two buffers are open and closed together. */
    ghost predicate Valid()
      reads this
    {
      currentTransaction.Some? <==> currentKeep.Some?
    }

    function State(): Assembly
      reads this
    {
      Assembly(
        if currentTransaction.Some? && currentKeep.Some?
        then Some(Pending(currentTransaction.value, currentKeep.value, currentUser, currentDest, currentId))
        else None,
        lastTransaction)
    }

    constructor (name: string, dataWidth: nat, signals: Signals)
      ensures Valid() && fresh(base) && base.observers == [] && base.transactionsObserved == 0
      ensures busBytes == dataWidth / 8 && this.signals == signals
      ensures State() == Assembly(None, None)
    {
      base := new BaseMonitor.Monitor(name);
      busBytes := dataWidth / 8;
      this.signals := signals;
      currentTransaction := None;
      currentKeep := None;
      currentUser, currentDest, currentId := 0, 0, 0;
      lastTransaction := None;
    }

    /** _monitor_interface: one edge; a beat is captured only under the handshake. */
    method MonitorInterface(s: Sample, raises: (nat, AxiStreamTransaction) -> bool)
      requires Valid()
      modifies this, base
      ensures Valid()
      ensures State() == Step(busBytes, signals, old(State()), s).0
      ensures base.calls == old(base.calls) + Notifications(base.observers, Step(busBytes, signals, old(State()), s).1, raises)
      ensures base.transactionsObserved
        == old(base.transactionsObserved) + (if Step(busBytes, signals, old(State()), s).1.Some? then 1 else 0)
      ensures base.observers == old(base.observers) && base.active == old(base.active)
    {
      if s.tvalid == 1 && s.tready == 1 {
        CaptureBeat(s, raises);
      }
    }

    /** _capture_beat: unpack the beat, open or extend the transaction, complete it on tlast. */
    method CaptureBeat(s: Sample, raises: (nat, AxiStreamTransaction) -> bool)
      requires Valid() && Handshake(s)
      modifies this, base
      ensures Valid()
      ensures State() == Step(busBytes, signals, old(State()), s).0
      ensures base.calls == old(base.calls) + Notifications(base.observers, Step(busBytes, signals, old(State()), s).1, raises)
      ensures base.transactionsObserved
        == old(base.transactionsObserved) + (if Step(busBytes, signals, old(State()), s).1.Some? then 1 else 0)
      ensures base.observers == old(base.observers) && base.active == old(base.active)
    {
      var beatData, beatKeep := UnpackBeat(s.tdata, s.tkeep, busBytes, signals.hasKeep);
      AppendBeat(s, beatData, beatKeep);
      if signals.hasLast && s.tlast != 0 {
        CompleteTransaction(raises);
      }
    }

    /** The buffers of _capture_beat: open the transaction with this beat's sideband if none is open, then append the beat. */
    method AppendBeat(s: Sample, beatData: seq<byte>, beatKeep: seq<bit>)
      requires Valid()
      requires beatData == UnpackData(s.tdata, busBytes) && beatKeep == UnpackKeep(s.tkeep, busBytes, signals.hasKeep)
      modifies this`currentTransaction, this`currentKeep, this`currentUser, this`currentDest, this`currentId
      ensures Valid()
      ensures State() == Assembly(Some(Capture(busBytes, signals, old(State()).current, s)), lastTransaction)
    {
      if currentTransaction.None? {
        currentTransaction := Some([]);
        currentKeep := Some([]);
        currentUser := if signals.hasUser then s.tuser else 0;
        currentDest := if signals.hasDest then s.tdest else 0;
        currentId := if signals.hasId then s.tid else 0;
      }
      currentTransaction := Some(currentTransaction.value + beatData);
      currentKeep := Some(currentKeep.value + beatKeep);
    }

    /** The unpacking loop of _capture_beat: byte i and keep flag i of the beat, for each of the bus's bytes. */
    static method UnpackBeat(tdata: nat, tkeep: nat, busBytes: nat, hasKeep: bool) returns (beatData: seq<byte>, beatKeep: seq<bit>)
      ensures beatData == UnpackData(tdata, busBytes) && beatKeep == UnpackKeep(tkeep, busBytes, hasKeep)
    {
      beatData := [];
      beatKeep := [];
      var i := 0;
      while i < busBytes
        invariant 0 <= i <= busBytes && |beatData| == i && |beatKeep| == i
        invariant forall j :: 0 <= j < i ==> beatData[j] == (tdata / Pow2(8 * j)) % 256
        invariant forall j :: 0 <= j < i ==> beatKeep[j] == UnpackKeep(tkeep, busBytes, hasKeep)[j]
      {
        beatData := beatData + [(tdata / Pow2(i * 8)) % 256];
        if hasKeep {
          beatKeep := beatKeep + [(tkeep / Pow2(i)) % 2];
        } else {
          beatKeep := beatKeep + [1];
        }
        i := i + 1;
      }
      forall j | 0 <= j < busBytes
        ensures beatData[j] == UnpackData(tdata, busBytes)[j]
      {
        ToLeAt(tdata, busBytes, j);
      }
    }

    /** _complete_transaction: emit the kept bytes to the observers and close the transaction. */
    method CompleteTransaction(raises: (nat, AxiStreamTransaction) -> bool)
      requires Valid()
      modifies this, base
      ensures Valid() && State().current.None?
      ensures old(State()).current.None? ==>
        (State() == old(State()) && base.calls == old(base.calls)
         && base.transactionsObserved == old(base.transactionsObserved))
      ensures old(State()).current.Some? ==>
        (lastTransaction == Some(Complete(old(State()).current.value))
         && base.calls == old(base.calls) + Dispatch(base.observers, lastTransaction.value, raises)
         && base.transactionsObserved == old(base.transactionsObserved) + 1)
      ensures base.observers == old(base.observers) && base.active == old(base.active)
    {
      if currentTransaction.None? {
        return;
      }
      var data := currentTransaction.value;
      var keep := currentKeep.value;
      var validData := KeepValid(data, keep);
      var transaction := AxiStreamTransaction(
        validData, Slice(keep, 0, |validData|), true, currentUser, currentDest, currentId);
      lastTransaction := Some(transaction);
      base.NotifyObservers(transaction, raises);
      currentTransaction := None;
      currentKeep := None;
    }

    /** The filtering loop of _complete_transaction: enumerate zip(data, keep), keep the flagged bytes. */
    static method KeepValid(data: seq<byte>, keep: seq<bit>) returns (validData: seq<byte>)
      ensures validData == Kept(data, keep)
    {
      var n := if |data| < |keep| then |data| else |keep|;
      validData := [];
      var i := 0;
      while i < n
        invariant 0 <= i <= n
        invariant validData + Kept(data[i..], keep[i..]) == Kept(data, keep)
      {
        KeptStep(data, keep, i);
        var piece := if keep[i] == 1 then [data[i]] else [];
        assert validData + Kept(data[i..], keep[i..]) == (validData + piece) + Kept(data[i + 1..], keep[i + 1..]);
        validData := validData + piece;
        i := i + 1;
      }
      assert data[i..] == [] || keep[i..] == [];
    }

    /** _get_last_transaction: the most recent transaction, or an error before the first. */
    method GetLastTransaction() returns (r: Result<AxiStreamTransaction, MonitorError>)
      ensures lastTransaction.None? <==> r == Failure(NoTransactionsObserved)
      ensures lastTransaction.Some? ==> r == Success(lastTransaction.value)
    {
      if lastTransaction.Some? {
        return Success(lastTransaction.value);
      }
      return Failure(NoTransactionsObserved);
    }
  }

  // ---------------------------------------------------------------------
  // The driver's beats, captured by this monitor.

  /** What a ready monitor samples while the agent driver holds a beat: absent signals read 0. */
  function DrivenSample(beat: DrivenBeat): Sample
  {
    Sample(1, 1, beat.tdata,
      if beat.tkeep.Some? then beat.tkeep.value else 0,
      if beat.tlast.Some? then beat.tlast.value else 0,
      if beat.tuser.Some? then beat.tuser.value else 0,
      if beat.tdest.Some? then beat.tdest.value else 0,
      if beat.tid.Some? then beat.tid.value else 0)
  }

  function DrivenSamples(beats: seq<DrivenBeat>): (r: seq<Sample>)
    ensures |r| == |beats|
  {
    seq(|beats|, k requires 0 <= k < |beats| => DrivenSample(beats[k]))
  }

  /** The first m bytes of the transaction's data padded with zeros. */
  function PaddedData(t: AxiStreamTransaction, m: nat): (r: seq<byte>)
    ensures |r| == m
  {
    seq(m, j requires 0 <= j => if j < |t.data| then t.data[j] else 0)
  }

  function PaddedKeep(t: AxiStreamTransaction, m: nat): (r: seq<bit>)
    ensures |r| == m
  {
    seq(m, j requires 0 <= j => if j < |t.data| && j < |t.keep| then t.keep[j] else 0)
  }

  /** Chunk k's padded bytes and keep flags are the padded transaction's bytes kb..kb+b. */
  lemma ChunkIsPadded(t: AxiStreamTransaction, b: nat, sig: Signals, k: nat)
    requires b > 0 && |t.keep| == |t.data| && k < |Chunks(t, b, sig)|
    ensures PaddedData(t, k * b + b) == PaddedData(t, k * b) + ChunkData(t, b, k)
    ensures PaddedKeep(t, k * b + b) == PaddedKeep(t, k * b) + ChunkKeep(t, b, k)
  {
    var n := |t.data|;
    PacketGenerator.NumBeatsBound(n, b, k);
    assert ChunkLo(n, b, k) == k * b;
    var hi := ChunkHi(n, b, k);
    assert |Slice(t.keep, k * b, k * b + b)| == hi - k * b;
    assert |ChunkKeep(t, b, k)| == b;
    forall j | 0 <= j < b
      ensures ChunkData(t, b, k)[j] == if k * b + j < n then t.data[k * b + j] else 0
      ensures ChunkKeep(t, b, k)[j] == if k * b + j < n then t.keep[k * b + j] else 0
    {
    }
  }

  /** The open transaction after chunks 0..k-1 of t were captured: the padded prefix and t's sideband. */
  function Opened(t: AxiStreamTransaction, b: nat, sig: Signals, k: nat): Option<Pending>
  {
    if k == 0 then None
    else Some(Pending(PaddedData(t, k * b), PaddedKeep(t, k * b),
                      if sig.hasUser then t.user else 0, if sig.hasDest then t.dest else 0,
                      if sig.hasId then t.id else 0))
  }

  /** Capture appends the beat's bytes and keep flags to the open transaction, or to a new one with the beat's sideband. */
  lemma CaptureAppends(b: nat, sig: Signals, current: Option<Pending>, s: Sample, p0: Pending)
    requires current == Some(p0)
      || (current == None && p0 == Pending([], [], if sig.hasUser then s.tuser else 0,
                                           if sig.hasDest then s.tdest else 0, if sig.hasId then s.tid else 0))
    ensures Capture(b, sig, current, s)
         == p0.(data := p0.data + UnpackData(s.tdata, b), keep := p0.keep + UnpackKeep(s.tkeep, b, sig.hasKeep))
  {
  }

  /**
   * A sample carrying t's sideband and bytes cd with flags ck, where cd
   * and ck continue t's padded prefix of k beats, extends the open
   * transaction to the prefix of k + 1 beats.
   */
  lemma CaptureOpened(t: AxiStreamTransaction, b: nat, sig: Signals, k: nat, s: Sample, cd: seq<byte>, ck: seq<bit>)
    requires UnpackData(s.tdata, b) == cd && UnpackKeep(s.tkeep, b, sig.hasKeep) == ck
    requires PaddedData(t, k * b + b) == PaddedData(t, k * b) + cd && PaddedKeep(t, k * b + b) == PaddedKeep(t, k * b) + ck
    requires (sig.hasUser ==> s.tuser == t.user) && (sig.hasDest ==> s.tdest == t.dest) && (sig.hasId ==> s.tid == t.id)
    ensures Capture(b, sig, Opened(t, b, sig, k), s) == Opened(t, b, sig, k + 1).value
  {
    var lo := k * b;
    var hi := lo + b;
    var user, dest, id := if sig.hasUser then t.user else 0, if sig.hasDest then t.dest else 0, if sig.hasId then t.id else 0;
    var p0 := Pending(PaddedData(t, lo), PaddedKeep(t, lo), user, dest, id);
    if k == 0 {
      assert lo == 0;
      CaptureAppends(b, sig, None, s, p0);
    } else {
      CaptureAppends(b, sig, Some(p0), s, p0);
    }
    assert (k + 1) * b == hi by { MulSucc(k, b); }
  }

  /** Capturing chunk k extends the open transaction by that chunk's bytes and keep flags. */
  lemma CaptureChunk(t: AxiStreamTransaction, b: nat, sig: Signals, k: nat)
    requires b > 0 && sig.hasKeep && |t.keep| == |t.data| && k < |Chunks(t, b, sig)|
    ensures Capture(b, sig, Opened(t, b, sig, k), DrivenSample(Chunks(t, b, sig)[k])) == Opened(t, b, sig, k + 1).value
  {
    var beat := ChunkBeat(t, b, k, sig);
    assert Chunks(t, b, sig)[k] == beat;
    var s := DrivenSample(beat);
    assert UnpackData(s.tdata, b) == ChunkData(t, b, k) && UnpackKeep(s.tkeep, b, true) == ChunkKeep(t, b, k) by {
      UnpackInvertsPack(ChunkData(t, b, k), ChunkKeep(t, b, k));
    }
    ChunkIsPadded(t, b, sig, k);
    CaptureOpened(t, b, sig, k, s, ChunkData(t, b, k), ChunkKeep(t, b, k));
  }

  /** On an interface with tlast, chunk k closes the transaction iff it is the final chunk of a last transaction. */
  lemma ChunkCloses(t: AxiStreamTransaction, b: nat, sig: Signals, k: nat)
    requires b > 0 && k < |Chunks(t, b, sig)|
    ensures Handshake(DrivenSample(Chunks(t, b, sig)[k]))
    ensures Closes(sig, DrivenSample(Chunks(t, b, sig)[k])) <==> sig.hasLast && t.last && k == |Chunks(t, b, sig)| - 1
  {
    PacketGenerator.NumBeatsBound(|t.data|, b, k + 1);
  }

  /** Running one more edge whose Step emits nothing moves the state on and emits nothing. */
  lemma RunSnoc(b: nat, sig: Signals, st: Assembly, beats: seq<DrivenBeat>, k: nat, open: Assembly, next: Assembly)
    requires 0 < k <= |beats|
    requires Run(b, sig, st, DrivenSamples(beats[..k - 1])) == (open, [])
    requires Step(b, sig, open, DrivenSample(beats[k - 1])) == (next, None)
    ensures Run(b, sig, st, DrivenSamples(beats[..k])) == (next, [])
  {
    var samples := DrivenSamples(beats[..k]);
    assert |samples| == k && samples != [];
    assert samples[..k - 1] == DrivenSamples(beats[..k - 1]);
    assert samples[k - 1] == DrivenSample(beats[k - 1]);
    var before := Run(b, sig, st, samples[..|samples| - 1]);
    var after := Step(b, sig, before.0, samples[|samples| - 1]);
    assert before == (open, []) && after == (next, None);
    assert Run(b, sig, st, samples) == (next, before.1 + []);
    assert before.1 + [] == [];
  }

  lemma RunLast(b: nat, sig: Signals, st: Assembly, beats: seq<DrivenBeat>)
    requires beats != []
    ensures var before := Run(b, sig, st, DrivenSamples(beats[..|beats| - 1]));
      var after := Step(b, sig, before.0, DrivenSample(beats[|beats| - 1]));
      Run(b, sig, st, DrivenSamples(beats)) == (after.0, before.1 + if after.1.Some? then [after.1.value] else [])
  {
    assert DrivenSamples(beats)[..|beats| - 1] == DrivenSamples(beats[..|beats| - 1]);
  }

  /** While the driver's beats before the last are captured, the open transaction is the padded prefix. */
  lemma {:induction false} MonitorPrefix(t: AxiStreamTransaction, b: nat, sig: Signals, last0: Option<AxiStreamTransaction>, k: nat)
    requires b > 0 && sig.hasKeep && |t.keep| == |t.data| && k < |Chunks(t, b, sig)|
    ensures Run(b, sig, Assembly(None, last0), DrivenSamples(Chunks(t, b, sig)[..k])) == (Assembly(Opened(t, b, sig, k), last0), [])
  {
    var chunks := Chunks(t, b, sig);
    if k == 0 {
      assert DrivenSamples(chunks[..0]) == [];
    } else {
      var st := Assembly(None, last0);
      var open := Assembly(Opened(t, b, sig, k - 1), last0);
      var next := Assembly(Opened(t, b, sig, k), last0);
      assert Run(b, sig, st, DrivenSamples(chunks[..k - 1])) == (open, []) by {
        MonitorPrefix(t, b, sig, last0, k - 1);
      }
      assert Step(b, sig, open, DrivenSample(chunks[k - 1])) == (next, None) by {
        ChunkCloses(t, b, sig, k - 1);
        CaptureChunk(t, b, sig, k - 1);
      }
      RunSnoc(b, sig, st, chunks, k, open, next);
    }
  }

  /**
   * A non-empty transaction with last set and one keep flag of 1 per
   * byte, sent by the agent driver on an interface with tkeep and tlast,
   * is reassembled by a monitor of the same bus width as exactly one
   * transaction with the same data and keep, and with the same user,
   * dest and id on an interface that carries them.
   */
  lemma MonitorReceivesDrivenTransaction(t: AxiStreamTransaction, b: nat, sig: Signals, last0: Option<AxiStreamTransaction>)
    requires b > 0 && sig.hasKeep && sig.hasLast && t.last && t.data != []
    requires |t.keep| == |t.data| && forall j :: 0 <= j < |t.keep| ==> t.keep[j] == 1
    ensures var r := Run(b, sig, Assembly(None, last0), DrivenSamples(Chunks(t, b, sig)));
      && |r.1| == 1 && r.0 == Assembly(None, Some(r.1[0]))
      && r.1[0].data == t.data && r.1[0].keep == t.keep && r.1[0].last
      && (sig.hasUser ==> r.1[0].user == t.user) && (sig.hasDest ==> r.1[0].dest == t.dest)
      && (sig.hasId ==> r.1[0].id == t.id)
  {
    var chunks := Chunks(t, b, sig);
    var n := |t.data|;
    ChunkCount(t, b, sig);
    var k := |chunks| - 1;
    var p := Opened(t, b, sig, k + 1).value;
    var s := DrivenSample(chunks[k]);
    var open := Assembly(Opened(t, b, sig, k), last0);
    assert Run(b, sig, Assembly(None, last0), DrivenSamples(chunks[..k])) == (open, []) by {
      MonitorPrefix(t, b, sig, last0, k);
    }
    assert Step(b, sig, open, s) == (Assembly(None, Some(Complete(p))), Some(Complete(p))) by {
      ChunkCloses(t, b, sig, k);
      CaptureChunk(t, b, sig, k);
    }
    var before := Run(b, sig, Assembly(None, last0), DrivenSamples(chunks[..k]));
    var after := Step(b, sig, before.0, s);
    assert Run(b, sig, Assembly(None, last0), DrivenSamples(chunks)) == (after.0, before.1 + [after.1.value]) by {
      RunLast(b, sig, Assembly(None, last0), chunks);
    }
    CompleteAll(t, b, sig, k);
  }

  /** Once every chunk is captured, the kept bytes and flags are the transaction's own. */
  lemma CompleteAll(t: AxiStreamTransaction, b: nat, sig: Signals, k: nat)
    requires b > 0 && |t.keep| == |t.data| && forall j :: 0 <= j < |t.keep| ==> t.keep[j] == 1
    requires k + 1 == |Chunks(t, b, sig)|
    ensures Complete(Opened(t, b, sig, k + 1).value).data == t.data
    ensures Complete(Opened(t, b, sig, k + 1).value).keep == t.keep
  {
    var n := |t.data|;
    var p := Opened(t, b, sig, k + 1).value;
    assert n <= |p.data| by {
      PacketGenerator.NumBeatsBound(n, b, k + 1);
      MulSucc(k, b);
    }
    KeptPrefix(p.data, p.keep, n);
    assert p.data[..n] == t.data;
    assert p.keep[..n] == t.keep;
  }
}
