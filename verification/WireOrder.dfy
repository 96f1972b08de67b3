/** The order in which captures appear on the event stream. */
module WireOrder {
  import opened Wrappers
  import opened Protocol
  import opened Events
  import opened ControlLoop
  import opened ControlLoopSafety
  import opened CaptureLog

  // ---------- When the wire is in order ----------

  /** Announced, and its terminal event not on the wire: its bracket is open. */
  predicate Unfinished(worker: Worker) {
    worker.announced && worker.phase != Closed(true)
  }

  /** No capture begins while the bracket of another is open. */
  predicate BeginsAlone(s: State, a: Action) {
    a.Push? && a.event.CaptureBegin? && a.accepted ==>
      forall i | 0 <= i < |s.workers| && i != a.worker :: !Unfinished(s.workers[i])
  }

  /** No capture begins after one that was started later. */
  predicate BeginsInTurn(s: State, a: Action) {
    a.Push? && a.event.CaptureBegin? && a.accepted ==>
      forall i | a.worker < i < |s.workers| :: !s.workers[i].announced
  }

  /** A worker whose CaptureBegin has not got through gets nothing else through. */
  predicate AnnouncedFirst(s: State, a: Action) {
    ((a.Push? && !a.event.CaptureBegin?) || a.PushEnd?) && a.accepted ==>
      a.worker < |s.workers| && s.workers[a.worker].announced
  }

  /** The workers whose captures are on the wire, in start order. */
  function Announced(workers: seq<Worker>): seq<nat> {
    if workers == [] then [] else
      var n := |workers| - 1;
      Announced(workers[..n]) + if workers[n].announced then [n] else []
  }

  lemma AnnouncedSnoc(workers: seq<Worker>, worker: Worker)
    ensures Announced(workers + [worker]) == Announced(workers) + if worker.announced then [|workers|] else []
  {
    assert (workers + [worker])[..|workers|] == workers;
  }

  lemma {:induction false} AnnouncedSame(a: seq<Worker>, b: seq<Worker>)
    requires |a| == |b| && forall i | 0 <= i < |a| :: a[i].announced == b[i].announced
    ensures Announced(a) == Announced(b)
    decreases |a|
  {
    if a != [] {
      AnnouncedSame(a[..|a| - 1], b[..|b| - 1]);
    }
  }

  lemma {:induction false} AnnouncedBelow(workers: seq<Worker>)
    ensures forall x | x in Announced(workers) :: x < |workers| && workers[x].announced
    decreases |workers|
  {
    if workers != [] {
      AnnouncedBelow(workers[..|workers| - 1]);
    }
  }

  lemma {:induction false} LastAnnounced(workers: seq<Worker>, i: nat)
    requires i < |workers| && workers[i].announced
    ensures var listed := Announced(workers); listed != [] && listed[|listed| - 1] >= i
    decreases |workers|
  {
    var n := |workers| - 1;
    if i < n && !workers[n].announced {
      LastAnnounced(workers[..n], i);
      assert Announced(workers) == Announced(workers[..n]) + [];
    }
  }

  /** A worker after which none has been announced gets its CaptureBegin through. */
  lemma {:induction false} AnnounceLatest(workers: seq<Worker>, w: nat, worker: Worker)
    requires w < |workers| && worker.announced && forall i | w <= i < |workers| :: !workers[i].announced
    ensures Announced(workers[w := worker]) == Announced(workers) + [w]
    decreases |workers|
  {
    var n := |workers| - 1;
    assert Announced(workers) == Announced(workers[..n]) + [];
    if w == n {
      assert workers[w := worker][..n] == workers[..n];
    } else {
      AnnounceLatest(workers[..n], w, worker);
      assert workers[w := worker][..n] == workers[..n][w := worker];
    }
  }

  /** The open bracket, if there is one, is that of the one unfinished worker. */
  predicate OpenIsUnfinished(r: Reading, workers: seq<Worker>) {
    && (r.current.Some? ==> r.current.value.worker < |workers|)
    && forall i | 0 <= i < |workers| :: Unfinished(workers[i]) == IsCurrent(r, i)
  }

  /** The wire reads as one bracket for each announced worker. */
  predicate InOrder(s: State) {
    && Scan(s.wire).Some?
    && Workers(Scan(s.wire).value) == Announced(s.workers)
    && OpenIsUnfinished(Scan(s.wire).value, s.workers)
  }

  predicate Orderly(s: State, a: Action) {
    BeginsAlone(s, a) && BeginsInTurn(s, a) && AnnouncedFirst(s, a)
  }

  /** With no bracket open, the brackets end before worker `w` exactly if nobody from `w` on is announced. */
  lemma {:induction false} FollowsIff(r: Reading, workers: seq<Worker>, w: nat)
    requires Workers(r) == Announced(workers) && r.current.None?
    requires w < |workers| && !workers[w].announced
    ensures Follows(r.done, w) <==> forall i | w < i < |workers| :: !workers[i].announced
  {
    AnnouncedBelow(workers);
    if r.done != [] {
      assert Workers(r)[|r.done| - 1] == r.done[|r.done| - 1].capture.worker;
      assert Workers(r)[|r.done| - 1] in Announced(workers);
    }
    forall i | w < i < |workers| && workers[i].announced ensures !Follows(r.done, w) {
      LastAnnounced(workers, i);
    }
  }

  lemma NoneUnfinished(r: Reading, workers: seq<Worker>)
    requires OpenIsUnfinished(r, workers) && forall i | 0 <= i < |workers| :: !Unfinished(workers[i])
    ensures r.current.None?
  {
    if r.current.Some? {
      assert IsCurrent(r, r.current.value.worker);
    }
  }

  /** A CaptureBegin is read exactly if no bracket is open and no later worker has had one. */
  lemma BeginReads(r: Reading, workers: seq<Worker>, w: nat, id: nat)
    requires Workers(r) == Announced(workers) && OpenIsUnfinished(r, workers)
    requires w < |workers| && !workers[w].announced
    ensures var read := ReadNext(r, Sent(w, CaptureBegin(id)));
            var changed := workers[w := workers[w].(phase := Open, announced := true)];
            if MayBegin(workers, w) then
              read.Some? && Workers(read.value) == Announced(changed) && OpenIsUnfinished(read.value, changed)
            else read.None?
  {
    var changed := workers[w := workers[w].(phase := Open, announced := true)];
    if forall i | 0 <= i < |workers| :: !Unfinished(workers[i]) {
      NoneUnfinished(r, workers);
      FollowsIff(r, workers, w);
      if MayBegin(workers, w) {
        WorkersStep(r, Sent(w, CaptureBegin(id)));
        AnnounceLatest(workers, w, changed[w]);
      }
    }
  }

  predicate MayBegin(workers: seq<Worker>, w: nat) {
    && (forall i | 0 <= i < |workers| :: !Unfinished(workers[i]))
    && (forall i | w < i < |workers| :: !workers[i].announced)
  }

  lemma OrderlyBegin(s: State, a: Action)
    requires Enabled(s, a) && Contract(s, a) && a.Push? && a.event.CaptureBegin? && a.accepted
    ensures Orderly(s, a) <==> MayBegin(s.workers, a.worker)
  {
  }

  lemma BeginEffect(s: State, a: Action)
    requires Enabled(s, a) && a.Push? && a.event.CaptureBegin? && a.accepted
    ensures var next := Apply(s, a);
            && next.wire == s.wire + [Sent(a.worker, a.event)]
            && next.workers == s.workers[a.worker := s.workers[a.worker].(phase := Open, announced := true)]
  {
  }

  lemma InOrderBegin(s: State, a: Action)
    requires InOrder(s) && Enabled(s, a) && Contract(s, a)
    requires a.Push? && a.event.CaptureBegin? && a.accepted
    ensures if Orderly(s, a) then InOrder(Apply(s, a)) else Scan(Apply(s, a).wire).None?
  {
    OrderlyBegin(s, a);
    BeginEffect(s, a);
    ScanSnoc(s.wire, Sent(a.worker, a.event));
    BeginReads(Scan(s.wire).value, s.workers, a.worker, a.event.id);
  }

  lemma InOrderData(s: State, a: Action)
    requires InOrder(s) && Enabled(s, a) && Contract(s, a)
    requires a.Push? && a.event.Data? && a.accepted
    ensures if AnnouncedFirst(s, a) then InOrder(Apply(s, a)) else Scan(Apply(s, a).wire).None?
  {
    var r, sent, next := Scan(s.wire).value, Sent(a.worker, a.event), Apply(s, a);
    ScanSnoc(s.wire, sent);
    assert next.workers == s.workers;
    assert AnnouncedFirst(s, a) <==> Unfinished(s.workers[a.worker]);
    if AnnouncedFirst(s, a) {
      WorkersStep(r, sent);
    }
  }

  lemma InOrderEnd(s: State, a: Action)
    requires InOrder(s) && ClosingWithEnd(s) && Enabled(s, a) && a.PushEnd? && a.accepted
    ensures if AnnouncedFirst(s, a) then InOrder(Apply(s, a)) else Scan(Apply(s, a).wire).None?
  {
    var r, w, next := Scan(s.wire).value, a.worker, Apply(s, a);
    var sent := Sent(w, s.workers[w].phase.last);
    assert IsTerminal(sent.event);
    ScanSnoc(s.wire, sent);
    assert AnnouncedFirst(s, a) <==> Unfinished(s.workers[w]);
    if AnnouncedFirst(s, a) {
      WorkersStep(r, sent);
      AnnouncedSame(s.workers, next.workers);
    }
  }

  lemma InOrderSpawn(s: State, a: Action)
    requires InOrder(s) && Enabled(s, a) && a.Spawn?
    ensures InOrder(Apply(s, a))
  {
    AnnouncedSnoc(s.workers, Worker(a.captureId, Fresh, false));
    assert Announced(s.workers) + [] == Announced(s.workers);
  }

  predicate Transmits(a: Action) {
    (a.Push? || a.PushEnd?) && a.accepted
  }

  lemma InOrderQuiet(s: State, a: Action)
    requires InOrder(s) && Enabled(s, a) && Contract(s, a) && !Transmits(a) && !a.Spawn?
    ensures InOrder(Apply(s, a)) && Orderly(s, a)
  {
    if OfPlugin(a) {
      InOrderSilent(s, a);
    }
  }

  lemma InOrderSilent(s: State, a: Action)
    requires InOrder(s) && Enabled(s, a) && Contract(s, a) && OfPlugin(a) && !Transmits(a) && !a.Spawn?
    ensures InOrder(Apply(s, a))
  {
    var next := Apply(s, a);
    AnnouncedSame(s.workers, next.workers);
    assert forall i | 0 <= i < |s.workers| :: Unfinished(next.workers[i]) == Unfinished(s.workers[i]);
  }

  lemma InOrderStep(s: State, a: Action)
    requires InOrder(s) && ClosingWithEnd(s) && Enabled(s, a) && Contract(s, a)
    ensures if Orderly(s, a) then InOrder(Apply(s, a)) else Scan(Apply(s, a).wire).None?
  {
    if !Transmits(a) {
      if a.Spawn? {
        InOrderSpawn(s, a);
      } else {
        InOrderQuiet(s, a);
      }
    } else if a.PushEnd? {
      InOrderEnd(s, a);
    } else if a.event.Data? {
      InOrderData(s, a);
    } else {
      InOrderBegin(s, a);
    }
  }

  lemma NoneStaysNone(s: State, a: Action)
    requires Enabled(s, a) && Scan(s.wire).None?
    ensures Scan(Apply(s, a).wire).None?
  {
    var next := Apply(s, a);
    if next.wire != s.wire {
      ScanSnoc(s.wire, next.wire[|s.wire|]);
      assert next.wire == s.wire + [next.wire[|s.wire|]];
    }
  }

  /**
   * With a plugin that keeps the contract, whatever its resets do: the captures on the wire are brackets
   * that do not overlap, in start order, exactly if none began while another's bracket was open or after
   * a later one, and no worker whose CaptureBegin had not got through got anything else through. Then
   * the brackets are those of the announced workers.
   */
  lemma {:induction false} WireOrderIff(run: seq<Action>)
    requires After(run).Some? && Keeps(run, Contract)
    ensures Scan(After(run).value.wire).Some? <==>
            Keeps(run, BeginsAlone) && Keeps(run, BeginsInTurn) && Keeps(run, AnnouncedFirst)
    ensures Scan(After(run).value.wire).Some? ==> InOrder(After(run).value)
    decreases |run|
  {
    if run != [] {
      var earlier, a := run[..|run| - 1], run[|run| - 1];
      var before := After(earlier).value;
      WireOrderIff(earlier);
      EndsAreFinalAlways(earlier);
      if Scan(before.wire).Some? {
        InOrderStep(before, a);
      } else {
        NoneStaysNone(before, a);
      }
    } else {
      assert Workers(NOTHING) == [];
    }
  }

  /** A plugin that never lowers the flag of a running capture begins its captures in turn. */
  lemma {:induction false} ExclusiveBeginsInTurn(run: seq<Action>)
    requires ByContract(run)
    ensures Keeps(run, BeginsInTurn)
    decreases |run|
  {
    if run != [] {
      var before, a := After(run[..|run| - 1]).value, run[|run| - 1];
      ExclusiveBeginsInTurn(run[..|run| - 1]);
      ExclusiveAlways(run[..|run| - 1]);
      assert a.Push? ==> Live(before.workers[a.worker]);
    }
  }

  // ---------- When every CaptureBegin gets through ----------

  predicate BeginsAccepted(s: State, a: Action) {
    a.Push? && a.event.CaptureBegin? ==> a.accepted
  }

  predicate OpenedAnnounced(s: State) {
    forall i | 0 <= i < |s.workers| && !s.workers[i].phase.Fresh? :: s.workers[i].announced
  }

  lemma OpenedAnnouncedStep(s: State, a: Action)
    requires OpenedAnnounced(s) && Enabled(s, a) && Contract(s, a)
    requires TriesBeginFirst(s, a) && BeginsAccepted(s, a)
    ensures OpenedAnnounced(Apply(s, a)) && AnnouncedFirst(s, a)
  {
  }

  /** If workers try their CaptureBegin first, only a refused one can make a worker's later events stray. */
  lemma {:induction false} AcceptedBeginsAnnounce(run: seq<Action>)
    requires After(run).Some? && Keeps(run, Contract)
    requires Keeps(run, TriesBeginFirst) && Keeps(run, BeginsAccepted)
    ensures Keeps(run, AnnouncedFirst) && OpenedAnnounced(After(run).value)
    decreases |run|
  {
    if run != [] {
      AcceptedBeginsAnnounce(run[..|run| - 1]);
      OpenedAnnouncedStep(After(run[..|run| - 1]).value, run[|run| - 1]);
    }
  }

  // ---------- A client that waits ----------

  /** No two starts are on their way at once. */
  predicate OnePending(s: State) {
    && (forall i, j | s.taken <= i < |s.asked| && s.taken <= j < |s.asked| && AsksStart(s.asked[i])
                      && AsksStart(s.asked[j]) :: i == j)
    && (Starting(s.pc) ==> forall i | s.taken <= i < |s.asked| :: !AsksStart(s.asked[i]))
    && s.taken <= |s.asked|
  }

  lemma OnePendingClientStep(s: State, a: Action)
    requires OnePending(s) && Enabled(s, a) && Discipline(s, a) && OfClient(a)
    ensures OnePending(Apply(s, a))
  {
  }

  lemma OnePendingReceive(s: State)
    requires OnePending(s) && Enabled(s, Receive)
    ensures OnePending(Apply(s, Receive))
  {
  }

  /** Past its first step the loop works on what it has; nobody else touches the queue. */
  lemma OnePendingOtherStep(s: State, a: Action)
    requires OnePending(s) && Enabled(s, a) && !OfClient(a) && !a.Receive?
    ensures OnePending(Apply(s, a))
  {
    assert Starting(Apply(s, a).pc) ==> Starting(s.pc);
  }

  lemma OnePendingStep(s: State, a: Action)
    requires OnePending(s) && Enabled(s, a) && Discipline(s, a)
    ensures OnePending(Apply(s, a))
  {
    if OfClient(a) {
      OnePendingClientStep(s, a);
    } else if a.Receive? {
      OnePendingReceive(s);
    } else {
      OnePendingOtherStep(s, a);
    }
  }

  predicate Waited(s: State) {
    && (forall i | 0 <= i < |s.workers| - 1 :: s.workers[i].phase == Closed(true))
    && (StartPending(s) && s.workers != [] ==> s.workers[|s.workers| - 1].phase == Closed(true))
  }

  /** Nothing but a client asking makes a start pending. */
  lemma PendingStep(s: State, a: Action)
    requires Enabled(s, a) && StartPending(Apply(s, a)) && !a.Ask?
    ensures StartPending(s)
  {
    var next := Apply(s, a);
    if !Starting(next.pc) {
      var i :| next.taken <= i < |next.asked| && AsksStart(next.asked[i]);
      assert s.taken <= i < |s.asked| && AsksStart(s.asked[i]);
    } else if a.Receive? {
      assert AsksStart(s.asked[s.taken]);
    }
  }

  lemma WaitedAsk(s: State, a: Action)
    requires Waited(s) && EndsAreFinal(s) && Enabled(s, a) && Discipline(s, a) && a.Ask?
    ensures Waited(Apply(s, a))
  {
    var next := Apply(s, a);
    if StartPending(next) && !StartPending(s) && !Starting(next.pc) {
      var i :| next.taken <= i < |next.asked| && AsksStart(next.asked[i]);
      assert next.asked[i] !in s.asked[s.taken..];
    }
  }

  lemma WaitedSpawn(s: State, a: Action)
    requires Waited(s) && OnePending(s) && Enabled(s, a) && Contract(s, a) && a.Spawn?
    ensures Waited(Apply(s, a))
  {
    assert Starting(s.pc) && !StartPending(Apply(s, a));
  }

  lemma WaitedStep(s: State, a: Action)
    requires Waited(s) && OnePending(s) && EndsAreFinal(s)
    requires Enabled(s, a) && Contract(s, a) && Discipline(s, a)
    ensures Waited(Apply(s, a)) && BeginsAlone(s, a) && BeginsInTurn(s, a)
  {
    if a.Ask? {
      WaitedAsk(s, a);
    } else if a.Spawn? {
      WaitedSpawn(s, a);
    } else if StartPending(Apply(s, a)) {
      PendingStep(s, a);
    }
  }

  /** A plugin that keeps the contract, whatever its resets do, and a client that waits. */
  predicate Disciplined(run: seq<Action>) {
    After(run).Some? && Keeps(run, Contract) && Keeps(run, Discipline)
  }

  /**
   * A client that starts a capture only after reading the terminal event of the one before: no capture
   * begins while an earlier one can still push anything.
   */
  lemma {:induction false} DisciplineWaits(run: seq<Action>)
    requires Disciplined(run)
    ensures Keeps(run, BeginsAlone) && Keeps(run, BeginsInTurn)
    ensures Waited(After(run).value) && OnePending(After(run).value)
    decreases |run|
  {
    if run != [] {
      var earlier, a := run[..|run| - 1], run[|run| - 1];
      DisciplineWaits(earlier);
      EndsAreFinalAlways(earlier);
      WaitedStep(After(earlier).value, a);
      OnePendingStep(After(earlier).value, a);
    }
  }

  /** Everything on the wire names the capture of the worker that sent it. */
  predicate Labelled(s: State) {
    && (forall i | 0 <= i < |s.workers| && s.workers[i].phase.Closing? ::
          Names(s.workers[i].phase.last, s.workers[i].captureId))
    && forall j | 0 <= j < |s.wire| ::
         s.wire[j].worker < |s.workers| && Names(s.wire[j].event, s.workers[s.wire[j].worker].captureId)
  }

  lemma LabelledPush(s: State, a: Action)
    requires Labelled(s) && Enabled(s, a) && Contract(s, a) && Transmits(a)
    ensures Labelled(Apply(s, a))
  {
  }

  lemma LabelledQuiet(s: State, a: Action)
    requires Labelled(s) && Enabled(s, a) && Contract(s, a) && OfPlugin(a) && !Transmits(a)
    ensures Labelled(Apply(s, a))
  {
    assert Apply(s, a).wire == s.wire;
  }

  lemma LabelledStep(s: State, a: Action)
    requires Labelled(s) && Enabled(s, a) && Contract(s, a)
    ensures Labelled(Apply(s, a))
  {
    if Transmits(a) {
      LabelledPush(s, a);
    } else if OfPlugin(a) {
      LabelledQuiet(s, a);
    }
  }

  lemma {:induction false} LabelledAlways(run: seq<Action>)
    requires After(run).Some? && Keeps(run, Contract)
    ensures Labelled(After(run).value)
    decreases |run|
  {
    if run != [] {
      LabelledAlways(run[..|run| - 1]);
      LabelledStep(After(run[..|run| - 1]).value, run[|run| - 1]);
    }
  }

  function Ids(workers: seq<Worker>): (ids: seq<nat>)
    ensures |ids| == |workers|
  {
    seq(|workers|, i requires 0 <= i < |workers| => workers[i].captureId)
  }

  /** In a run whose wire is in order, each bracket holds the events of its own capture only. */
  lemma BracketsBelong(run: seq<Action>)
    requires After(run).Some? && Keeps(run, Contract) && Scan(After(run).value.wire).Some?
    ensures AllBelong(Scan(After(run).value.wire).value, Ids(After(run).value.workers))
  {
    LabelledAlways(run);
    CapturesBelong(After(run).value.wire, Ids(After(run).value.workers));
  }

  function UpTo(n: nat): seq<nat> {
    if n == 0 then [] else UpTo(n - 1) + [n - 1]
  }

  lemma {:induction false} AllAnnounced(workers: seq<Worker>)
    requires forall i | 0 <= i < |workers| - 1 :: workers[i].announced
    ensures var n := |workers|;
            Announced(workers) == UpTo(if n > 0 && !workers[n - 1].announced then n - 1 else n)
    decreases |workers|
  {
    if workers != [] {
      var n := |workers| - 1;
      AllAnnounced(workers[..n]);
      assert Announced(workers[..n]) + [] == Announced(workers[..n]);
    }
  }

  /** A worker whose terminal event is on the wire had announced itself. */
  predicate EndedAnnounced(s: State) {
    forall i | 0 <= i < |s.workers| && s.workers[i].phase == Closed(true) :: s.workers[i].announced
  }

  lemma {:induction false} EndedAnnouncedAlways(run: seq<Action>)
    requires After(run).Some? && Keeps(run, Contract) && Keeps(run, AnnouncedFirst)
    ensures EndedAnnounced(After(run).value)
    decreases |run|
  {
    if run != [] {
      EndedAnnouncedAlways(run[..|run| - 1]);
      EndedAnnouncedStep(After(run[..|run| - 1]).value, run[|run| - 1]);
    }
  }

  lemma EndedAnnouncedStep(s: State, a: Action)
    requires EndedAnnounced(s) && Enabled(s, a) && Contract(s, a) && AnnouncedFirst(s, a)
    ensures EndedAnnounced(Apply(s, a))
  {
  }

  /** All workers but the last have ended on the wire, and so had begun on it. */
  lemma AllButLast(s: State)
    requires Waited(s) && EndedAnnounced(s)
    ensures forall i | 0 <= i < |s.workers| - 1 :: s.workers[i].announced && !Unfinished(s.workers[i])
  {
  }

  lemma OpenIsLast(s: State)
    requires InOrder(s) && forall i | 0 <= i < |s.workers| - 1 :: !Unfinished(s.workers[i])
    ensures Scan(s.wire).value.current.Some? <==> |s.workers| > 0 && Unfinished(s.workers[|s.workers| - 1])
  {
    var current := Scan(s.wire).value.current;
    if current.Some? {
      assert IsCurrent(Scan(s.wire).value, current.value.worker);
    }
  }

  lemma DisciplinedInOrder(run: seq<Action>)
    requires Disciplined(run) && Keeps(run, AnnouncedFirst)
    ensures var s := After(run).value; InOrder(s) && Waited(s) && EndedAnnounced(s)
  {
    DisciplineWaits(run);
    WireOrderIff(run);
    EndedAnnouncedAlways(run);
  }

  /** One bracket for each worker in start order, the last perhaps missing or open. */
  predicate BracketPerWorker(s: State, r: Reading) {
    var n := |s.workers|;
    && WellFormed(r) && s.wire == WireOf(r)
    && Workers(r) == UpTo(if n > 0 && !s.workers[n - 1].announced then n - 1 else n)
    && AllBelong(r, Ids(s.workers))
    && (r.current.Some? <==> n > 0 && Unfinished(s.workers[n - 1]))
  }

  lemma InOrderBrackets(s: State)
    requires InOrder(s) && Waited(s) && EndedAnnounced(s) && AllBelong(Scan(s.wire).value, Ids(s.workers))
    ensures BracketPerWorker(s, Scan(s.wire).value)
  {
    ScanMeans(s.wire, Scan(s.wire).value);
    AllButLast(s);
    AllAnnounced(s.workers);
    OpenIsLast(s);
  }

  /**
   * For a client that waits, and as long as no worker with a refused CaptureBegin gets anything else
   * through, the capture events on the wire are one bracket per worker, in start order and without
   * overlap. Only the last worker may still lack its bracket or the end of it.
   */
  lemma WireIsBrackets(run: seq<Action>)
    requires Disciplined(run) && Keeps(run, AnnouncedFirst)
    ensures var s := After(run).value; Scan(s.wire).Some? && BracketPerWorker(s, Scan(s.wire).value)
  {
    DisciplinedInOrder(run);
    BracketsBelong(run);
    InOrderBrackets(After(run).value);
  }

  /** And it is never told Busy when it asks for the next capture: the flag is down by then. */
  lemma WaitingStartIsNotBusy(run: seq<Action>)
    requires Disciplined(run)
    requires var pc := After(run).value.pc; pc.Received? && IsStart(pc.asked)
    ensures var s := After(run).value; !s.running && !BusyReply(Apply(s, Check).pc)
  {
    DisciplineWaits(run);
    RaisedMeansLive(run);
    HandlersAreGated(run);
    WaitedFlagDown(After(run).value);
  }

  lemma WaitedFlagDown(s: State)
    requires Waited(s) && RaisedForLast(s) && Gated(s) && s.pc.Received? && IsStart(s.pc.asked)
    ensures !s.running && !BusyReply(Apply(s, Check).pc)
  {
    BusyIffRunning(s);
  }

  // ---------- One worker per accepted start ----------

  /** The capture ids of the starts answered with success, in the order of the answers. */
  function Starts(run: seq<Action>): seq<nat>
    decreases |run|
  {
    if run == [] then [] else
      var earlier, a := run[..|run| - 1], run[|run| - 1];
      var before := After(earlier);
      Starts(earlier) +
      if before.Some? && AnswersStart(before.value, a) then [before.value.pc.asked.value.captureId] else []
  }

  /** A start that succeeded and whose answer has not gone out. */
  function Unanswered(pc: Pc): seq<nat> {
    if InStartHandler(pc) && pc.spawned then [pc.request.captureId]
    else if (pc.Replying? || pc.Broken?) && IsStart(pc.asked) && pc.response.error.None? then
      [pc.asked.value.captureId]
    else []
  }

  lemma IdsStep(s: State, a: Action)
    requires Enabled(s, a)
    ensures Ids(Apply(s, a).workers) == Ids(s.workers) + if a.Spawn? then [a.captureId] else []
  {
    if OfPlugin(a) && !a.Spawn? {
      IdsKept(s, a);
    }
  }

  lemma IdsKept(s: State, a: Action)
    requires Enabled(s, a) && OfPlugin(a) && !a.Spawn?
    ensures Ids(Apply(s, a).workers) == Ids(s.workers)
  {
  }

  /** Whether this step answers a start with success. */
  predicate AnswersStart(s: State, a: Action) {
    a.Reply? && RepliesToStart(s) && s.pc.response.error.None?
  }

  lemma UnansweredStep(s: State, a: Action)
    requires Gated(s) && Enabled(s, a) && Contract(s, a)
    ensures a.Spawn? ==> Unanswered(s.pc) == [] && Unanswered(Apply(s, a).pc) == [a.captureId]
    ensures AnswersStart(s, a) ==>
              Unanswered(s.pc) == [s.pc.asked.value.captureId] && Unanswered(Apply(s, a).pc) == []
    ensures !a.Spawn? && !AnswersStart(s, a) ==> Unanswered(Apply(s, a).pc) == Unanswered(s.pc)
  {
  }

  /** The workers are the accepted starts, one each and in order, then at most one being answered. */
  lemma {:induction false} WorkersAreStarts(run: seq<Action>)
    requires After(run).Some? && Keeps(run, Contract)
    ensures var s := After(run).value;
            Ids(s.workers) == Starts(run) + Unanswered(s.pc)
    decreases |run|
  {
    if run != [] {
      var earlier, a := run[..|run| - 1], run[|run| - 1];
      var before := After(earlier).value;
      WorkersAreStarts(earlier);
      HandlersAreGated(earlier);
      IdsStep(before, a);
      UnansweredStep(before, a);
    }
  }
}
