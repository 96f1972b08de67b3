/**
 * The senders of StreamRuns and the captures of WireOrder on one wire: what a frontend finds inside the
 * bracket of one capture.
 */
module Delivery {
  import opened Wrappers
  import opened ByteStrings
  import opened Payload
  import opened Protocol
  import opened Events
  import opened Chunking
  import opened CaptureLog
  import ControlLoop
  import ControlLoopSafety
  import WireOrder
  import StreamRuns

  /** The chunks on the wire, in order. */
  function Payloads(wire: seq<ControlLoop.Sent>): seq<CaptureData> {
    if wire == [] then [] else
      var last := wire[|wire| - 1].event;
      Payloads(wire[..|wire| - 1]) + if last.Data? then [last.data] else []
  }

  /** At most one capture of the reading has this id. */
  predicate UniqueId(r: Reading, id: nat) {
    && (forall i, j | 0 <= i < |r.done| && 0 <= j < |r.done| && r.done[i].capture.id == id == r.done[j].capture.id
          :: i == j)
    && (r.current.Some? && r.current.value.id == id ==> forall i | 0 <= i < |r.done| :: r.done[i].capture.id != id)
  }

  predicate HasId(r: Reading, id: nat) {
    || (r.current.Some? && r.current.value.id == id)
    || exists i | 0 <= i < |r.done| :: r.done[i].capture.id == id
  }

  /** Whatever the wire holds of the stream is inside the bracket of its capture. */
  predicate Inside(r: Reading, chunks: seq<CaptureData>, key: StreamRuns.Key) {
    && (forall i | 0 <= i < |r.done| && r.done[i].capture.id == key.captureId ::
          StreamRuns.ByKey(r.done[i].capture.chunks, key) == StreamRuns.ByKey(chunks, key))
    && (r.current.Some? && r.current.value.id == key.captureId ==>
          StreamRuns.ByKey(r.current.value.chunks, key) == StreamRuns.ByKey(chunks, key))
    && (!HasId(r, key.captureId) ==> StreamRuns.ByKey(chunks, key) == [])
  }

  /** A chunk that is not of the stream changes nothing for it. */
  lemma ByKeySkip(chunks: seq<CaptureData>, data: CaptureData, key: StreamRuns.Key)
    requires StreamRuns.KeyOf(data) != key
    ensures StreamRuns.ByKey(chunks + [data], key) == StreamRuns.ByKey(chunks, key)
  {
    StreamRuns.ByKeySnoc(chunks, data, key);
  }

  /** The reading after one more chunk of the open capture. */
  function WithChunk(r: Reading, data: CaptureData): Reading
    requires r.current.Some?
  {
    r.(current := Some(r.current.value.(chunks := r.current.value.chunks + [data])))
  }

  lemma InsideOwn(r: Reading, data: CaptureData, chunks: seq<CaptureData>, key: StreamRuns.Key)
    requires r.current.Some? && Inside(r, chunks, key) && UniqueId(r, key.captureId)
    requires data.captureId == r.current.value.id && StreamRuns.KeyOf(data) == key
    ensures Inside(WithChunk(r, data), chunks + [data], key)
  {
    StreamRuns.ByKeySnoc(chunks, data, key);
    StreamRuns.ByKeySnoc(r.current.value.chunks, data, key);
  }

  lemma InsideForeign(r: Reading, data: CaptureData, chunks: seq<CaptureData>, key: StreamRuns.Key)
    requires r.current.Some? && Inside(r, chunks, key) && StreamRuns.KeyOf(data) != key
    ensures Inside(WithChunk(r, data), chunks + [data], key)
  {
    ByKeySkip(chunks, data, key);
    ByKeySkip(r.current.value.chunks, data, key);
  }

  lemma InsideData(r: Reading, sent: ControlLoop.Sent, chunks: seq<CaptureData>, key: StreamRuns.Key)
    requires ReadNext(r, sent).Some? && Inside(r, chunks, key) && UniqueId(r, key.captureId)
    requires sent.event.Data? && sent.event.data.captureId == r.current.value.id
    ensures Inside(ReadNext(r, sent).value, chunks + [sent.event.data], key)
  {
    if StreamRuns.KeyOf(sent.event.data) == key {
      InsideOwn(r, sent.event.data, chunks, key);
    } else {
      InsideForeign(r, sent.event.data, chunks, key);
    }
  }

  lemma InsideOther(r: Reading, sent: ControlLoop.Sent, chunks: seq<CaptureData>, key: StreamRuns.Key)
    requires ReadNext(r, sent).Some? && Inside(r, chunks, key) && UniqueId(r, key.captureId) && !sent.event.Data?
    requires UniqueId(ReadNext(r, sent).value, key.captureId)
    ensures Inside(ReadNext(r, sent).value, chunks, key)
  {
    var next := ReadNext(r, sent).value;
    if !sent.event.CaptureBegin? {
      assert next.done[|r.done|].capture == r.current.value;
    }
    assert forall i | 0 <= i < |r.done| :: next.done[i] == r.done[i];
  }

  lemma UniqueBefore(r: Reading, sent: ControlLoop.Sent, id: nat)
    requires ReadNext(r, sent).Some? && UniqueId(ReadNext(r, sent).value, id)
    ensures UniqueId(r, id)
  {
    var next := ReadNext(r, sent).value;
    assert forall i | 0 <= i < |r.done| :: next.done[i] == r.done[i];
    if !sent.event.CaptureBegin? && !sent.event.Data? {
      assert next.done[|r.done|].capture == r.current.value;
    }
  }

  /** Every chunk in a bracket is labelled with the bracket's capture. */
  predicate OwnChunks(c: Capture) {
    forall i | 0 <= i < |c.chunks| :: c.chunks[i].captureId == c.id
  }

  predicate AllOwnChunks(r: Reading) {
    && (forall i | 0 <= i < |r.done| :: OwnChunks(r.done[i].capture))
    && (r.current.Some? ==> OwnChunks(r.current.value))
  }

  lemma OwnChunksBefore(r: Reading, sent: ControlLoop.Sent)
    requires ReadNext(r, sent).Some? && AllOwnChunks(ReadNext(r, sent).value)
    ensures AllOwnChunks(r)
    ensures sent.event.Data? ==> sent.event.data.captureId == r.current.value.id
  {
    var next := ReadNext(r, sent).value;
    assert forall i | 0 <= i < |r.done| :: next.done[i] == r.done[i];
    if sent.event.Data? {
      var chunks, longer := r.current.value.chunks, next.current.value.chunks;
      assert forall i | 0 <= i < |chunks| :: longer[i] == chunks[i];
      assert longer[|chunks|] == sent.event.data;
    } else if !sent.event.CaptureBegin? {
      assert next.done[|r.done|].capture == r.current.value;
    }
  }

  /** Taking a stream out of its capture's bracket is taking it out of the whole wire. */
  lemma {:induction false} BracketHoldsStream(wire: seq<ControlLoop.Sent>, key: StreamRuns.Key)
    requires Scan(wire).Some?
    requires AllOwnChunks(Scan(wire).value) && UniqueId(Scan(wire).value, key.captureId)
    ensures Inside(Scan(wire).value, Payloads(wire), key)
    decreases |wire|
  {
    if wire != [] {
      var before, sent := wire[..|wire| - 1], wire[|wire| - 1];
      var r := Scan(before).value;
      UniqueBefore(r, sent, key.captureId);
      OwnChunksBefore(r, sent);
      BracketHoldsStream(before, key);
      if sent.event.Data? {
        InsideData(r, sent, Payloads(before), key);
      } else {
        InsideOther(r, sent, Payloads(before), key);
        assert Payloads(wire) == Payloads(before) + [] == Payloads(before);
      }
    }
  }

  // ---------- Capture ids ----------

  predicate Distinct(ids: seq<nat>) {
    forall i, j | 0 <= i < j < |ids| :: ids[i] != ids[j]
  }

  lemma DistinctIsUnique(r: Reading, ids: seq<nat>, id: nat)
    requires WellFormed(r) && AllBelong(r, ids) && Distinct(ids)
    ensures UniqueId(r, id) && AllOwnChunks(r)
  {
    forall i, j | 0 <= i < j < |r.done| ensures r.done[i].capture.id != r.done[j].capture.id {
      assert Belongs(r.done[i].capture, ids) && Belongs(r.done[j].capture, ids);
    }
    forall i | 0 <= i < |r.done| && r.current.Some? ensures r.done[i].capture.id != r.current.value.id {
      assert Belongs(r.done[i].capture, ids);
    }
  }

  /** One if this is a request for capture `id`, otherwise nothing. */
  function Asks(asked: Option<Request>, id: nat): nat {
    if ControlLoop.IsStart(asked) && asked.value.captureId == id then 1 else 0
  }

  function AskedBy(a: ControlLoop.Action, id: nat): nat {
    if a.Ask? && a.question.Typed? then Asks(Some(a.question.request), id) else 0
  }

  /** How often the client has asked for capture `id`. */
  function TimesAsked(run: seq<ControlLoop.Action>, id: nat): nat {
    if run == [] then 0 else TimesAsked(run[..|run| - 1], id) + AskedBy(run[|run| - 1], id)
  }

  function Carried(mail: ControlLoop.Mail, id: nat): nat {
    if mail.message.Message? then Asks(mail.message.request, id) else 0
  }

  /** How many requests for capture `id` wait to be taken off the channel. */
  function Queued(asked: seq<ControlLoop.Mail>, taken: nat, id: nat): nat
    decreases |asked|
  {
    if |asked| <= taken then 0 else
      Queued(asked[..|asked| - 1], taken, id) + Carried(asked[|asked| - 1], id)
  }

  /** Whether the loop is about to start a worker for capture `id`. */
  function InLoop(pc: ControlLoop.Pc, id: nat): nat {
    if !ControlLoop.Starting(pc) then 0
    else Asks(if pc.Received? then pc.asked else Some(pc.request), id)
  }

  function Started(workers: seq<ControlLoop.Worker>, id: nat): nat {
    if workers == [] then 0 else
      Started(workers[..|workers| - 1], id) + if workers[|workers| - 1].captureId == id then 1 else 0
  }

  lemma QueuedSnoc(asked: seq<ControlLoop.Mail>, taken: nat, mail: ControlLoop.Mail, id: nat)
    requires taken <= |asked|
    ensures Queued(asked + [mail], taken, id) == Queued(asked, taken, id) + Carried(mail, id)
  {
    assert (asked + [mail])[..|asked|] == asked;
  }

  lemma {:induction false} QueuedFirst(asked: seq<ControlLoop.Mail>, taken: nat, id: nat)
    requires taken < |asked|
    ensures Queued(asked, taken, id) == Carried(asked[taken], id) + Queued(asked, taken + 1, id)
    decreases |asked|
  {
    if taken + 1 < |asked| {
      QueuedFirst(asked[..|asked| - 1], taken, id);
    }
  }

  lemma StartedSnoc(workers: seq<ControlLoop.Worker>, worker: ControlLoop.Worker, id: nat)
    ensures Started(workers + [worker], id) == Started(workers, id) + if worker.captureId == id then 1 else 0
  {
    assert (workers + [worker])[..|workers|] == workers;
  }

  lemma {:induction false} StartedSame(a: seq<ControlLoop.Worker>, b: seq<ControlLoop.Worker>, id: nat)
    requires |a| == |b| && forall i | 0 <= i < |a| :: a[i].captureId == b[i].captureId
    ensures Started(a, id) == Started(b, id)
    decreases |a|
  {
    if a != [] {
      StartedSame(a[..|a| - 1], b[..|b| - 1], id);
    }
  }

  /** Every worker and every pending start goes back to a request of its own. */
  predicate Accounted(s: ControlLoop.State, id: nat, asked: nat) {
    && s.taken <= |s.asked|
    && Started(s.workers, id) + InLoop(s.pc, id) + Queued(s.asked, s.taken, id) <= asked
  }

  lemma AccountedStep(s: ControlLoop.State, a: ControlLoop.Action, id: nat, asked: nat)
    requires Accounted(s, id, asked) && ControlLoopSafety.Gated(s)
    requires ControlLoop.Enabled(s, a) && ControlLoop.Contract(s, a)
    ensures Accounted(ControlLoop.Apply(s, a), id, asked + AskedBy(a, id))
  {
    if a.Receive? || a.LoseRequest? {
      QueuedFirst(s.asked, s.taken, id);
    } else if ControlLoop.OfClient(a) {
      AccountedAsk(s, a, id, asked);
    } else if a.Spawn? {
      AccountedSpawn(s, a, id, asked);
    } else if ControlLoop.OfPlugin(a) {
      AccountedSend(s, a, id, asked);
    } else {
      LoopForgets(s, a, id);
    }
  }

  lemma AccountedAsk(s: ControlLoop.State, a: ControlLoop.Action, id: nat, asked: nat)
    requires Accounted(s, id, asked) && ControlLoop.Enabled(s, a) && ControlLoop.OfClient(a) && !a.LoseRequest?
    ensures Accounted(ControlLoop.Apply(s, a), id, asked + AskedBy(a, id))
  {
    if a.Ask? && a.sent {
      QueuedSnoc(s.asked, s.taken, ControlLoop.Apply(s, a).asked[|s.asked|], id);
    }
  }

  lemma AccountedSpawn(s: ControlLoop.State, a: ControlLoop.Action, id: nat, asked: nat)
    requires Accounted(s, id, asked) && ControlLoopSafety.Gated(s)
    requires ControlLoop.Enabled(s, a) && ControlLoop.Contract(s, a) && a.Spawn?
    ensures Accounted(ControlLoop.Apply(s, a), id, asked)
  {
    StartedSnoc(s.workers, ControlLoop.Worker(a.captureId, ControlLoop.Fresh, false), id);
  }

  lemma AccountedSend(s: ControlLoop.State, a: ControlLoop.Action, id: nat, asked: nat)
    requires Accounted(s, id, asked) && ControlLoop.Enabled(s, a) && ControlLoop.OfPlugin(a) && !a.Spawn?
    ensures Accounted(ControlLoop.Apply(s, a), id, asked)
  {
    StartedSame(s.workers, ControlLoop.Apply(s, a).workers, id);
  }

  /** Past its first step the loop can only drop the start it has. */
  lemma LoopForgets(s: ControlLoop.State, a: ControlLoop.Action, id: nat)
    requires ControlLoopSafety.Gated(s) && ControlLoop.Enabled(s, a) && ControlLoop.OfLoop(a) && !a.Receive?
    ensures InLoop(ControlLoop.Apply(s, a).pc, id) <= InLoop(s.pc, id)
  {
  }

  lemma {:induction false} AccountedAlways(run: seq<ControlLoop.Action>, id: nat)
    requires ControlLoop.After(run).Some? && ControlLoop.Keeps(run, ControlLoop.Contract)
    ensures Accounted(ControlLoop.After(run).value, id, TimesAsked(run, id))
    decreases |run|
  {
    if run != [] {
      var earlier := run[..|run| - 1];
      AccountedAlways(earlier, id);
      ControlLoopSafety.HandlersAreGated(earlier);
      AccountedStep(ControlLoop.After(earlier).value, run[|run| - 1], id, TimesAsked(earlier, id));
    }
  }

  lemma {:induction false} StartedOnce(workers: seq<ControlLoop.Worker>, i: nat)
    requires i < |workers|
    ensures Started(workers, workers[i].captureId) >= 1
    decreases |workers|
  {
    if i < |workers| - 1 {
      StartedOnce(workers[..|workers| - 1], i);
    }
  }

  lemma {:induction false} StartedTwice(workers: seq<ControlLoop.Worker>, i: nat, j: nat)
    requires i < j < |workers| && workers[i].captureId == workers[j].captureId
    ensures Started(workers, workers[i].captureId) >= 2
    decreases |workers|
  {
    if j < |workers| - 1 {
      StartedTwice(workers[..|workers| - 1], i, j);
    } else {
      StartedOnce(workers[..|workers| - 1], i);
    }
  }

  /** A client that never asks twice for the same capture id has captures with ids of their own. */
  lemma OwnIds(run: seq<ControlLoop.Action>)
    requires ControlLoop.After(run).Some? && ControlLoop.Keeps(run, ControlLoop.Contract)
    requires forall id :: TimesAsked(run, id) <= 1
    ensures Distinct(WireOrder.Ids(ControlLoop.After(run).value.workers))
  {
    var workers := ControlLoop.After(run).value.workers;
    forall i, j | 0 <= i < j < |workers| ensures workers[i].captureId != workers[j].captureId {
      if workers[i].captureId == workers[j].captureId {
        StartedTwice(workers, i, j);
        AccountedAlways(run, workers[i].captureId);
      }
    }
  }

  // ---------- One capture, one stream ----------

  /** The two models see the same pushes of chunks. */
  predicate SameWire(s: ControlLoop.State, t: StreamRuns.State) {
    t.wire == Payloads(s.wire)
  }

  /** The stream taken out of the bracket of its capture is what was put on the wire for it. */
  lemma BracketIsStream(run: seq<ControlLoop.Action>, c: Capture, key: StreamRuns.Key)
    requires ControlLoop.After(run).Some? && ControlLoop.Keeps(run, ControlLoop.Contract)
    requires forall id :: TimesAsked(run, id) <= 1
    requires Scan(ControlLoop.After(run).value.wire).Some?
    requires c in Captures(Scan(ControlLoop.After(run).value.wire).value) && c.id == key.captureId
    ensures StreamRuns.ByKey(c.chunks, key) == StreamRuns.ByKey(Payloads(ControlLoop.After(run).value.wire), key)
  {
    var s := ControlLoop.After(run).value;
    var r := Scan(s.wire).value;
    OwnIds(run);
    WireOrder.BracketsBelong(run);
    ScanMeans(s.wire, r);
    DistinctIsUnique(r, WireOrder.Ids(s.workers), key.captureId);
    BracketHoldsStream(s.wire, key);
  }

  /**
   * In a run whose wire is in order, of a client that asks for each capture id once: the chunks inside
   * the bracket of a capture, taken out by the key of one of its streams, are that stream as it left its
   * sender. They are numbered without a gap, and if no push of the stream failed they hold exactly what
   * its encoding keeps of the buffers the plugin handed to it.
   */
  lemma BracketDelivers(run: seq<ControlLoop.Action>, c: Capture, s0: StreamRuns.State, calls: seq<StreamRuns.Action>,
                        key: StreamRuns.Key)
    requires ControlLoop.After(run).Some? && ControlLoop.Keeps(run, ControlLoop.Contract)
    requires forall id :: TimesAsked(run, id) <= 1
    requires Scan(ControlLoop.After(run).value.wire).Some?
    requires c in Captures(Scan(ControlLoop.After(run).value.wire).value) && c.id == key.captureId
    requires StreamRuns.Init(s0) && key in s0.senders && StreamRuns.After(s0, calls).Some?
    requires SameWire(ControlLoop.After(run).value, StreamRuns.After(s0, calls).value)
    ensures var t, u := StreamRuns.After(s0, calls).value, s0.senders[key].unitsize;
            var drained := Drain(StreamRuns.ByKey(c.chunks, key), u);
            && drained.Ok? && StreamRuns.InStep(t, key)
            && drained.value.seqNo == t.senders[key].seqNo == |StreamRuns.ByKey(c.chunks, key)|
            && drained.value.firstSample == t.senders[key].firstSample == SampleSum(StreamRuns.ByKey(c.chunks, key))
            && (StreamRuns.Fail(key) !in calls ==>
                  drained.value.samples + StreamRuns.KeptBy(t.senders[key], t.pending[key]) ==
                  StreamRuns.Inputs(s0, calls, key))
  {
    BracketIsStream(run, c, key);
    StreamRuns.RunKeepsStep(s0, calls, key);
    DrainMeans(StreamRuns.ByKey(c.chunks, key), s0.senders[key].unitsize);
    if StreamRuns.Fail(key) !in calls {
      StreamRuns.StreamFidelity(s0, calls, key);
    }
  }

  /**
   * And with pushes failing at any points: if the plugin goes on from the sender's sample counter each
   * time, the bracket of the capture holds the prefix of the source that the counter describes, exactly
   * if every part pushed was run-length or ended on a whole sample.
   */
  lemma BracketResumes(run: seq<ControlLoop.Action>, c: Capture, s0: StreamRuns.State, calls: seq<StreamRuns.Action>,
                       key: StreamRuns.Key, source: Bytes)
    requires ControlLoop.After(run).Some? && ControlLoop.Keeps(run, ControlLoop.Contract)
    requires forall id :: TimesAsked(run, id) <= 1
    requires Scan(ControlLoop.After(run).value.wire).Some?
    requires c in Captures(Scan(ControlLoop.After(run).value.wire).value) && c.id == key.captureId
    requires StreamRuns.Init(s0) && key in s0.senders && StreamRuns.After(s0, calls).Some?
    requires SameWire(ControlLoop.After(run).value, StreamRuns.After(s0, calls).value)
    requires StreamRuns.ResumesFrom(s0, calls, key, source)
    ensures var t, u := StreamRuns.After(s0, calls).value, s0.senders[key].unitsize;
            var drained := Drain(StreamRuns.ByKey(c.chunks, key), u);
            && drained.Ok? && key in t.senders
            && drained.value.firstSample == t.senders[key].firstSample
            && var n := t.senders[key].firstSample * u;
               StreamRuns.Keeps(s0, calls, key, StreamRuns.MeasuresParts) <==>
               n <= |source| && drained.value.samples == source[..n]
  {
    BracketIsStream(run, c, key);
    StreamRuns.RunKeepsStep(s0, calls, key);
    StreamRuns.ResumeAfterFailure(s0, calls, key, source);
  }
}
