/** The spool, the server and the history, for every task at once. */
module Durability {
  import opened Protocol
  import opened LocalInvariant
  import opened Exclusion

  /** A result is spooled, and the LLM called, only while no earlier result of the task is still owed; no
      completion is sent before the server holds the result. */
  ghost predicate HistoryOk(log: seq<Event>) {
    forall i :: 0 <= i < |log| ==> EntryOk(log[..i], log[i])
  }

  ghost predicate EntryOk(before: seq<Event>, e: Event) {
    && (e.LlmCalled? || e.Spooled? ==> !Owed(before, e.key))
    && (e.CompletionSent? ==> e.resultStored && (e.typed ==> FoundSince(before, e.key)))
    && (e.FailPosted? && e.cause == RefusedDelivery ==> !Owed(before, e.msg.Key()))
  }

  ghost predicate Recorded(s: State) {
    && (forall k :: SlotInv(k, s.Slot(k), s.log))
    && (forall k :: Durable(s.log, k, s.Slot(k), s.Task(k)))
    && (forall a :: a in s.actors ==> PcInv(s.actors[a].role, s.See(a)))
    && (s.scan.Scanning? ==> forall e :: e in s.scan.rest ==> Authentic(s.log, e))
    && HistoryOk(s.log)
  }

  lemma HistoryGrows(log: seq<Event>, e: Event)
    requires HistoryOk(log) && EntryOk(log, e)
    ensures HistoryOk(log + [e])
  {
    var log' := log + [e];
    forall i | 0 <= i < |log'| ensures EntryOk(log'[..i], log'[i]) {
      assert log'[..i] == log[..i];
      assert i == |log| ==> log[..i] == log;
    }
  }

  predicate Neutral(e: Event) { e.Taken? || e.Acked? || e.Discarded? || e.Requeued? || e.Crashed? }

  ghost predicate LogQuiet(log: seq<Event>, log': seq<Event>) {
    log' == log || (|log'| == |log| + 1 && log' == log + [log'[|log|]] && Neutral(log'[|log|]))
  }

  lemma QuietLog(log: seq<Event>, log': seq<Event>, k: TaskKey)
    requires LogQuiet(log, log')
    ensures (Owed(log', k) <==> Owed(log, k)) && (FoundSince(log', k) <==> FoundSince(log, k))
    ensures forall e :: e in log ==> e in log'
  {
    if log' != log {
      SpooledAfter(log, log'[|log|], k);
    }
  }

  lemma DurableFrame(k: TaskKey, s: State, s': State)
    requires Durable(s.log, k, s.Slot(k), s.Task(k))
    requires s'.Slot(k) == s.Slot(k) && s.Task(k).MayBecome(s'.Task(k))
    requires Owed(s'.log, k) ==> Owed(s.log, k)
    requires forall e :: e in s.log ==> e in s'.log
    ensures Durable(s'.log, k, s'.Slot(k), s'.Task(k))
  {}

  /** A step outside the local code: files stay, the server only moves forward, actors keep their place or
      get one of which nothing is claimed. */
  ghost predicate Quiet(s: State, s': State) {
    && s'.spool == s.spool && s'.ledger == s.ledger && LogQuiet(s.log, s'.log)
    && (forall k :: s.Task(k).MayBecome(s'.Task(k)))
    && (forall a :: a in s'.actors ==>
          (a in s.actors && s'.actors[a].role == s.actors[a].role && s'.actors[a].pc == s.actors[a].pc)
          || PcInv(s'.actors[a].role, s'.See(a)))
    && (s'.scan.Scanning? ==> forall e :: e in s'.scan.rest ==> Authentic(s'.log, e))
  }

  lemma QuietKeeps(s: State, s': State)
    requires Recorded(s) && Quiet(s, s')
    ensures Recorded(s')
  {
    forall k ensures SlotInv(k, s'.Slot(k), s'.log) && Durable(s'.log, k, s'.Slot(k), s'.Task(k)) {
      QuietLog(s.log, s'.log, k);
      DurableFrame(k, s, s');
    }
    forall a | a in s'.actors ensures PcInv(s'.actors[a].role, s'.See(a)) {
      if a in s.actors && s'.actors[a].role == s.actors[a].role && s'.actors[a].pc == s.actors[a].pc {
        QuietLog(s.log, s'.log, s.actors[a].role.Key());
        PcInvFrame(s.actors[a].role, s.See(a), s'.See(a));
      }
    }
    if s'.log != s.log {
      HistoryGrows(s.log, s'.log[|s.log|]);
    }
  }

  /** Actor `a` has a task of its own: another actor either works on another task or waits empty-handed. */
  lemma OthersElsewhere(s: State, a: nat, b: nat)
    requires Exclusive(s) && Works(s, a) && b in s.actors && b != a
    ensures s.actors[b].Id() != s.actors[a].Id()
         || s.actors[b].pc.Received? || s.actors[b].pc.Releasing? || s.actors[b].pc == Settle(Requeue)
  {
    assert Shaped(s.actors[b]);
  }

  /** The part of `Put` that other tasks see: nothing but a history entry that is not theirs. */
  lemma PutElsewhere(s: State, a: nat, w: View, k: TaskKey)
    requires a in s.actors && k != s.actors[a].role.Key() && Moves(s.actors[a].role, s.See(a), w)
    ensures s.Put(a, w).Slot(k) == s.Slot(k) && s.Put(a, w).Task(k) == s.Task(k)
    ensures (Owed(w.log, k) <==> Owed(s.log, k)) && (FoundSince(w.log, k) <==> FoundSince(s.log, k))
    ensures forall e :: e in s.log ==> e in w.log
  {
    if w.log != s.log {
      SpooledAfter(s.log, w.log[|s.log|], k);
    }
  }

  lemma PutHere(s: State, a: nat, w: View)
    requires a in s.actors
    ensures var s' := s.Put(a, w); var k := s.actors[a].role.Key();
      && s'.Slot(k) == w.slot && s'.Task(k) == w.task && s'.log == w.log && s'.scan == s.scan
      && a in s'.actors && s'.actors[a] == s.actors[a].(pc := w.pc)
      && s'.See(a).(inLedger := w.inLedger) == w
      && (s.actors[a].role.Handler? && s.See(a).inLedger ==> s'.See(a).inLedger)
  {}

  lemma LedgerElsewhere(s: State, a: nat, w: View, b: nat)
    requires a in s.actors && b in s.actors && s.actors[b].Id() != s.actors[a].Id()
    ensures s.Put(a, w).See(b).inLedger == s.See(b).inLedger
    ensures s.Put(a, w).See(b).pc == s.See(b).pc
  {}

  /** Program counters about which nothing is claimed. */
  predicate Idling(pc: Pc) {
    pc.Received? || pc.Start? || pc.Releasing? || pc == Settle(Requeue) || pc == Settle(Ack(Republished))
  }

  lemma IdlingPc(role: Role, v: View)
    requires Idling(v.pc) && (v.pc.Settle? ==> role.Handler?)
    ensures PcInv(role, v)
  {}

  lemma SeesOther(s: State, a: nat, w: View, b: nat)
    requires a in s.actors && b in s.actors && b != a
    ensures b in s.Put(a, w).actors && s.Put(a, w).actors[b] == s.actors[b]
  {}

  lemma OtherTaskPcKept(s: State, a: nat, w: View, b: nat)
    requires a in s.actors && b in s.actors && b != a && s.actors[b].Id() != s.actors[a].Id()
    requires Moves(s.actors[a].role, s.See(a), w) && PcInv(s.actors[b].role, s.See(b))
    ensures PcInv(s.actors[b].role, s.Put(a, w).See(b))
  {
    PutElsewhere(s, a, w, s.actors[b].role.Key());
    LedgerElsewhere(s, a, w, b);
    PcInvFrame(s.actors[b].role, s.See(b), s.Put(a, w).See(b));
  }

  lemma OtherPcKept(s: State, a: nat, w: View, b: nat)
    requires Exclusive(s) && Works(s, a) && b in s.actors && b != a
    requires Moves(s.actors[a].role, s.See(a), w) && PcInv(s.actors[b].role, s.See(b))
    ensures PcInv(s.actors[b].role, s.Put(a, w).See(b))
  {
    OthersElsewhere(s, a, b);
    if s.actors[b].Id() != s.actors[a].Id() {
      OtherTaskPcKept(s, a, w, b);
    } else {
      SeesOther(s, a, w, b);
      assert Shaped(s.actors[b]);
      IdlingPc(s.actors[b].role, s.Put(a, w).See(b));
    }
  }

  /** A local step of actor `a` to `w`, as `Recorded` needs it. */
  ghost predicate PutOk(s: State, a: nat, w: View) {
    && Works(s, a) && LocalInv(s.actors[a].role, w) && Moves(s.actors[a].role, s.See(a), w)
    && (s.actors[a].role.Handler? && s.actors[a].role.msg.Ref() in s.ledger ==> w.inLedger)
    && (s.actors[a].role.Replay? ==> !w.inLedger)
  }

  lemma PutSlot(s: State, a: nat, w: View, k: TaskKey)
    requires Recorded(s) && PutOk(s, a, w)
    ensures var s' := s.Put(a, w); SlotInv(k, s'.Slot(k), s'.log) && Durable(s'.log, k, s'.Slot(k), s'.Task(k))
  {
    PutHere(s, a, w);
    if k != s.actors[a].role.Key() {
      assert SlotInv(k, s.Slot(k), s.log);
      PutElsewhere(s, a, w, k);
      DurableFrame(k, s, s.Put(a, w));
    }
  }

  lemma PutPc(s: State, a: nat, w: View, b: nat)
    requires Recorded(s) && Exclusive(s) && PutOk(s, a, w) && b in s.actors
    ensures PcInv(s.Put(a, w).actors[b].role, s.Put(a, w).See(b))
  {
    if b == a {
      PutHere(s, a, w);
      assert s.Put(a, w).See(a) == w;
    } else {
      OtherPcKept(s, a, w, b);
    }
  }

  lemma PutHistory(s: State, a: nat, w: View)
    requires Recorded(s) && PutOk(s, a, w)
    ensures HistoryOk(w.log)
    ensures forall e :: e in s.log ==> e in w.log
  {
    if w.log != s.log {
      assert EntryOk(s.log, w.log[|s.log|]);
      HistoryGrows(s.log, w.log[|s.log|]);
    }
  }

  lemma PutKeeps(s: State, a: nat, w: View)
    requires Recorded(s) && Exclusive(s) && PutOk(s, a, w)
    ensures Recorded(s.Put(a, w))
  {
    var s' := s.Put(a, w);
    forall k ensures SlotInv(k, s'.Slot(k), s'.log) && Durable(s'.log, k, s'.Slot(k), s'.Task(k)) {
      PutSlot(s, a, w, k);
    }
    forall b | b in s'.actors ensures PcInv(s'.actors[b].role, s'.See(b)) {
      PutPc(s, a, w, b);
    }
    PutHistory(s, a, w);
  }

  lemma LocalRecorded(cfg: Config, s: State, a: nat, c: Choice)
    requires Enabled(cfg, s, Local(a, c)) && Exclusive(s) && Recorded(s)
    ensures Recorded(s.Put(a, LocalStep(cfg, s.actors[a].role, s.See(a), c)))
  {
    var role := s.actors[a].role;
    assert Shaped(s.actors[a]);
    assert SlotInv(role.Key(), s.Slot(role.Key()), s.log);
    LocalStepKeeps(cfg, role, s.See(a), c);
    PutKeeps(s, a, LocalStep(cfg, role, s.See(a), c));
  }

  lemma ScanStarts(cfg: Config, s: State, entries: seq<Entry>)
    requires Recorded(s) && Enabled(cfg, s, ScanStart(entries))
    ensures Recorded(s.(scan := Scanning(entries, false)))
  {
    var s' := s.(scan := Scanning(entries, false));
    forall e | e in entries ensures Authentic(s.log, e) {
      assert SlotInv(e.key, s.Slot(e.key), s.log);
    }
    forall k ensures s.Task(k).MayBecome(s'.Task(k)) {}
    QuietKeeps(s, s');
  }

  /** At most actor `a` changes, to a place where nothing is claimed of it. */
  ghost predicate OnlyMoves(s: State, s': State, a: nat) {
    && s'.spool == s.spool && s'.ledger == s.ledger && s'.server == s.server && LogQuiet(s.log, s'.log)
    && (s'.scan == s.scan || s'.scan == Idle || (s.scan.Scanning? && s'.scan.Scanning? && s'.scan.rest == s.scan.rest))
    && (forall b :: b in s'.actors && b != a ==> b in s.actors && s'.actors[b] == s.actors[b])
    && (a in s'.actors ==> Idling(s'.actors[a].pc) && (s'.actors[a].pc.Settle? ==> s'.actors[a].role.Handler?))
  }

  lemma OneMoves(s: State, s': State, a: nat)
    requires OnlyMoves(s, s', a) && Recorded(s)
    ensures Recorded(s')
  {
    if s'.scan.Scanning? {
      forall e | e in s'.scan.rest ensures Authentic(s'.log, e) {
        assert Authentic(s.log, e);
      }
    }
    forall k ensures s.Task(k).MayBecome(s'.Task(k)) {}
    if a in s'.actors {
      IdlingPc(s'.actors[a].role, s'.See(a));
    }
    QuietKeeps(s, s');
  }

  lemma ReplayStarts(role: Role, v: View, e: Entry)
    requires v.pc == Deliver(EnsureRequestId, e, 1) && role == Replay(e.key) && Authentic(v.log, e)
    ensures PcInv(role, v)
  {}

  lemma ScanNextQuiet(s: State)
    requires s.scan.Scanning? && s.scan.rest != [] && forall e :: e in s.scan.rest ==> Authentic(s.log, e)
    ensures Quiet(s, ScanNextStep(s))
  {
    var s' := ScanNextStep(s);
    var e := s.scan.rest[0];
    assert e in s.scan.rest;
    forall d | d in s'.scan.rest ensures Authentic(s'.log, d) {
      assert d in s.scan.rest;
    }
    if e.key.id !in s.inflight {
      ReplayStarts(s'.actors[s.next].role, s'.See(s.next), e);
    }
  }

  lemma ScanNextRecorded(s: State)
    requires Recorded(s) && s.scan.Scanning? && s.scan.rest != []
    ensures Recorded(ScanNextStep(s))
  {
    ScanNextQuiet(s);
    QuietKeeps(s, ScanNextStep(s));
  }

  lemma SettleMoves(s: State, a: nat)
    requires a in s.actors && s.actors[a].role.Handler? && s.actors[a].pc.Settle? && s.actors[a].role.copy in s.copies
    ensures OnlyMoves(s, SettleStep(s, a), a)
  {}

  lemma RegisterFrame(cfg: Config, s: State, a: nat)
    requires a in s.actors
    ensures var s' := RegisterStep(cfg, s, a);
      && s' == s.(actors := s'.actors, inflight := s'.inflight, counts := s'.counts)
      && a in s'.actors && s'.actors == s.actors[a := s'.actors[a]] && s'.actors[a].role == s.actors[a].role
      && (s'.actors[a].pc == Settle(Requeue) || s'.actors[a].pc == Start)
  {}

  lemma RegisterMoves(cfg: Config, s: State, a: nat)
    requires a in s.actors && s.actors[a].role.Handler?
    ensures OnlyMoves(s, RegisterStep(cfg, s, a), a)
  {
    RegisterFrame(cfg, s, a);
  }

  lemma ReceiveMoves(s: State, c: nat)
    requires c in s.copies && s.next !in s.actors
    ensures OnlyMoves(s, ReceiveStep(s, c), s.next)
  {}

  lemma RepublishMoves(cfg: Config, s: State, a: nat, confirmed: bool, effect: bool)
    requires a in s.actors && s.actors[a].role.Handler?
    ensures OnlyMoves(s, RepublishStep(cfg, s, a, confirmed, effect), a)
  {}

  lemma ReleaseMoves(s: State, a: nat)
    requires a in s.actors && s.actors[a].pc.Releasing?
    ensures OnlyMoves(s, ReleaseStep(s, a), a)
  {}

  lemma CrashRecorded(s: State)
    requires Recorded(s)
    ensures Recorded(CrashStep(s))
  {
    QuietKeeps(s, CrashStep(s));
  }

  /** The steps after which at most one actor has moved, and which one. */
  predicate Moving(step: Step) {
    step.Receive? || step.Register? || step.RepublishCopy? || step.SettleCopy? || step.Release?
  }

  function Mover(s: State, step: Step): nat
    requires Moving(step)
  {
    if step.Receive? then s.next else step.actor
  }

  lemma StepMoves(cfg: Config, s: State, step: Step)
    requires Enabled(cfg, s, step) && Exclusive(s) && Moving(step)
    ensures OnlyMoves(s, Apply(cfg, s, step), Mover(s, step))
  {
    assert s.next !in s.actors;
    match step
    case Receive(c) => ReceiveMoves(s, c);
    case Register(a) =>
      assert Shaped(s.actors[a]);
      RegisterMoves(cfg, s, a);
    case RepublishCopy(a, confirmed, effect) => RepublishMoves(cfg, s, a, confirmed, effect);
    case SettleCopy(a) => SettleMoves(s, a);
    case Release(a) => ReleaseMoves(s, a);
  }

  lemma RecordedKept(cfg: Config, s: State, step: Step)
    requires Enabled(cfg, s, step) && Exclusive(s) && Recorded(s)
    ensures Recorded(Apply(cfg, s, step))
  {
    if Moving(step) {
      StepMoves(cfg, s, step);
      OneMoves(s, Apply(cfg, s, step), Mover(s, step));
    } else {
      OtherRecorded(cfg, s, step);
    }
  }

  lemma OtherRecorded(cfg: Config, s: State, step: Step)
    requires Enabled(cfg, s, step) && Exclusive(s) && Recorded(s) && !Moving(step)
    ensures Recorded(Apply(cfg, s, step))
  {
    match step
    case Produce(_) => QuietKeeps(s, Apply(cfg, s, step));
    case Local(a, c) => LocalRecorded(cfg, s, a, c);
    case ScanStart(es) => ScanStarts(cfg, s, es);
    case ScanNext => ScanNextRecorded(s);
    case ScanStop => QuietKeeps(s, Apply(cfg, s, step));
    case Crash => CrashRecorded(s);
    case ServerMoves(_) => QuietKeeps(s, Apply(cfg, s, step));
  }
}
