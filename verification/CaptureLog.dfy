/** Reading captures off the wire: which wires are made of brackets, and what each bracket holds. */
module CaptureLog {
  import opened Wrappers
  import opened ByteStrings
  import opened Payload
  import opened Events
  import opened ControlLoop

  datatype Capture = Capture(worker: nat, id: nat, chunks: seq<CaptureData>)

  datatype Bracket = Bracket(capture: Capture, end: Event)

  datatype Reading = Reading(done: seq<Bracket>, current: Option<Capture>)

  const NOTHING := Reading([], None)

  /** Captures are numbered in start order; a later bracket belongs to a later worker. */
  predicate Follows(done: seq<Bracket>, w: nat) {
    done == [] || done[|done| - 1].capture.worker < w
  }

  predicate IsCurrent(r: Reading, w: nat) {
    r.current.Some? && r.current.value.worker == w
  }

  function ReadNext(r: Reading, sent: Sent): Option<Reading> {
    match sent.event
    case CaptureBegin(id) =>
      if r.current.None? && Follows(r.done, sent.worker) then
        Some(r.(current := Some(Capture(sent.worker, id, []))))
      else None
    case Data(data) =>
      if IsCurrent(r, sent.worker) then
        Some(r.(current := Some(r.current.value.(chunks := r.current.value.chunks + [data]))))
      else None
    case _ =>
      if IsCurrent(r, sent.worker) then Some(Reading(r.done + [Bracket(r.current.value, sent.event)], None))
      else None
  }

  /**
   * Reads the wire from left to right. It accepts captures that do not overlap: each is its Begin, any
   * number of its Data and its terminal event, before the next Begin.
   */
  function Scan(wire: seq<Sent>): Option<Reading>
    decreases |wire|
  {
    if wire == [] then Some(NOTHING) else
      var before := Scan(wire[..|wire| - 1]);
      if before.None? then None else ReadNext(before.value, wire[|wire| - 1])
  }

  lemma ScanSnoc(wire: seq<Sent>, sent: Sent)
    ensures Scan(wire + [sent]) == if Scan(wire).None? then None else ReadNext(Scan(wire).value, sent)
  {
    assert (wire + [sent])[..|wire + [sent]| - 1] == wire;
  }

  // ---------- The same wires, written down ----------

  function DataOf(w: nat, chunks: seq<CaptureData>): seq<Sent> {
    if chunks == [] then [] else
      DataOf(w, chunks[..|chunks| - 1]) + [Sent(w, Data(chunks[|chunks| - 1]))]
  }

  function Opened(c: Capture): seq<Sent> {
    [Sent(c.worker, CaptureBegin(c.id))] + DataOf(c.worker, c.chunks)
  }

  function Brackets(done: seq<Bracket>): seq<Sent> {
    if done == [] then [] else
      var last := done[|done| - 1];
      Brackets(done[..|done| - 1]) + (Opened(last.capture) + [Sent(last.capture.worker, last.end)])
  }

  /** Closed brackets one after the other, then the open one if there is one. */
  function WireOf(r: Reading): seq<Sent> {
    Brackets(r.done) + if r.current.Some? then Opened(r.current.value) else []
  }

  predicate WellFormed(r: Reading) {
    && (forall i, j | 0 <= i < j < |r.done| :: r.done[i].capture.worker < r.done[j].capture.worker)
    && (forall i | 0 <= i < |r.done| :: IsTerminal(r.done[i].end))
    && (r.current.Some? ==> Follows(r.done, r.current.value.worker))
  }

  lemma WriteBegin(r: Reading, w: nat, id: nat)
    requires r.current.None?
    ensures WireOf(r.(current := Some(Capture(w, id, [])))) == WireOf(r) + [Sent(w, CaptureBegin(id))]
  {
    assert Opened(Capture(w, id, [])) == [Sent(w, CaptureBegin(id))];
  }

  lemma WriteData(r: Reading, c: Capture, data: CaptureData)
    requires r.current == Some(c)
    ensures WireOf(r.(current := Some(c.(chunks := c.chunks + [data])))) == WireOf(r) + [Sent(c.worker, Data(data))]
  {
    var longer := c.(chunks := c.chunks + [data]);
    assert longer.chunks[..|longer.chunks| - 1] == c.chunks;
    Assoc([Sent(c.worker, CaptureBegin(c.id))], DataOf(c.worker, c.chunks), [Sent(c.worker, Data(data))]);
    assert Opened(longer) == Opened(c) + [Sent(c.worker, Data(data))];
    Assoc(Brackets(r.done), Opened(c), [Sent(c.worker, Data(data))]);
  }

  lemma WriteEnd(r: Reading, c: Capture, end: Event)
    requires r.current == Some(c)
    ensures WireOf(Reading(r.done + [Bracket(c, end)], None)) == WireOf(r) + [Sent(c.worker, end)]
  {
    var done := r.done + [Bracket(c, end)];
    assert done[..|done| - 1] == r.done;
    Assoc(Brackets(r.done), Opened(c), [Sent(c.worker, end)]);
    assert Brackets(done) + [] == Brackets(done);
  }

  lemma ReadKeepsForm(r: Reading, sent: Sent)
    requires WellFormed(r) && ReadNext(r, sent).Some?
    ensures WellFormed(ReadNext(r, sent).value)
  {
  }

  lemma ReadWrites(r: Reading, sent: Sent)
    requires ReadNext(r, sent).Some?
    ensures WireOf(ReadNext(r, sent).value) == WireOf(r) + [sent]
  {
    var w := sent.worker;
    if sent.event.CaptureBegin? {
      WriteBegin(r, w, sent.event.id);
    } else if sent.event.Data? {
      WriteData(r, r.current.value, sent.event.data);
    } else {
      WriteEnd(r, r.current.value, sent.event);
    }
  }

  /** What was read before the last event of a reading, and that event. */
  function Undo(r: Reading): (Reading, Sent)
    requires r != NOTHING
    requires r.current.None? ==> r.done != []
  {
    if r.current.None? then
      var last := r.done[|r.done| - 1];
      (Reading(r.done[..|r.done| - 1], Some(last.capture)), Sent(last.capture.worker, last.end))
    else
      var c := r.current.value;
      if c.chunks == [] then (r.(current := None), Sent(c.worker, CaptureBegin(c.id)))
      else
        (r.(current := Some(c.(chunks := c.chunks[..|c.chunks| - 1]))),
         Sent(c.worker, Data(c.chunks[|c.chunks| - 1])))
  }

  lemma UndoRead(r: Reading)
    requires WellFormed(r) && r != NOTHING
    ensures var (before, sent) := Undo(r); WellFormed(before) && ReadNext(before, sent) == Some(r)
  {
    if r.current.None? {
      var last := r.done[|r.done| - 1];
      assert r.done == r.done[..|r.done| - 1] + [last];
      assert IsTerminal(last.end);
    } else if r.current.value.chunks != [] {
      var c := r.current.value;
      assert c.chunks == c.chunks[..|c.chunks| - 1] + [c.chunks[|c.chunks| - 1]];
    }
  }

  lemma {:induction false} ScanWrites(wire: seq<Sent>)
    requires Scan(wire).Some?
    ensures WellFormed(Scan(wire).value) && wire == WireOf(Scan(wire).value)
    decreases |wire|
  {
    if wire != [] {
      var before, sent := wire[..|wire| - 1], wire[|wire| - 1];
      ScanWrites(before);
      ReadKeepsForm(Scan(before).value, sent);
      ReadWrites(Scan(before).value, sent);
      assert wire == before + [sent];
    }
  }

  lemma {:induction false} WrittenScans(r: Reading)
    requires WellFormed(r)
    ensures Scan(WireOf(r)) == Some(r)
    decreases |WireOf(r)|
  {
    if r != NOTHING {
      var (before, sent) := Undo(r);
      UndoRead(r);
      ReadWrites(before, sent);
      WrittenScans(before);
      ScanSnoc(WireOf(before), sent);
    } else {
      assert WireOf(r) == [];
    }
  }

  /** What the scan accepts: exactly the wires that are such brackets written down, and it reads them back. */
  lemma ScanMeans(wire: seq<Sent>, r: Reading)
    ensures Scan(wire) == Some(r) <==> WellFormed(r) && wire == WireOf(r)
  {
    if Scan(wire) == Some(r) {
      ScanWrites(wire);
    }
    if WellFormed(r) && wire == WireOf(r) {
      WrittenScans(r);
    }
  }

  // ---------- The captures of a reading ----------

  function Finished(done: seq<Bracket>): (captures: seq<Capture>)
    ensures |captures| == |done|
  {
    seq(|done|, i requires 0 <= i < |done| => done[i].capture)
  }

  /** All captures on the wire, in order; the last may be open. */
  function Captures(r: Reading): seq<Capture> {
    Finished(r.done) + if r.current.Some? then [r.current.value] else []
  }

  function Workers(r: Reading): (workers: seq<nat>)
    ensures |workers| == |Captures(r)|
  {
    seq(|Captures(r)|, i requires 0 <= i < |Captures(r)| => Captures(r)[i].worker)
  }

  lemma WorkersStep(r: Reading, sent: Sent)
    requires ReadNext(r, sent).Some?
    ensures Workers(ReadNext(r, sent).value) ==
            Workers(r) + if sent.event.CaptureBegin? then [sent.worker] else []
  {
  }

  /** Event `e` names capture `id` wherever it names one. */
  predicate Names(e: Event, id: nat) {
    match e
    case CaptureBegin(begun) => begun == id
    case Data(data) => data.captureId == id
    case CaptureEnd(ended) => ended == id
    case DeviceLost => true
  }

  predicate Belongs(c: Capture, ids: seq<nat>) {
    && c.worker < |ids| && c.id == ids[c.worker]
    && forall i | 0 <= i < |c.chunks| :: c.chunks[i].captureId == c.id
  }

  predicate AllBelong(r: Reading, ids: seq<nat>) {
    && (forall i | 0 <= i < |r.done| :: Belongs(r.done[i].capture, ids))
    && (r.current.Some? ==> Belongs(r.current.value, ids))
  }

  /** If each thread sent only events of its own capture, every bracket holds one capture's chunks. */
  lemma {:induction false} CapturesBelong(wire: seq<Sent>, ids: seq<nat>)
    requires Scan(wire).Some?
    requires forall j | 0 <= j < |wire| :: wire[j].worker < |ids| && Names(wire[j].event, ids[wire[j].worker])
    ensures AllBelong(Scan(wire).value, ids)
    decreases |wire|
  {
    if wire != [] {
      var before := wire[..|wire| - 1];
      assert forall j | 0 <= j < |before| :: before[j] == wire[j];
      CapturesBelong(before, ids);
    }
  }
}
