/** No message is lost: what becomes of every message put into the queue, counted and traced. */
module Conservation {
  import opened Registry
  import opened Protocol
  import opened Exclusion
  import opened Durability
  import opened DeadLetters
  import opened Settlement
  import opened Retries
  import opened Justification

  lemma SameCopies(cfg: Config, s: State, step: Step)
    requires Enabled(cfg, s, step)
    requires step.Register? || step.Release? || step.ScanStart? || step.ScanNext? || step.ScanStop? || step.ServerMoves?
    ensures var s' := Apply(cfg, s, step); s'.copies == s.copies && s.next <= s'.next && s'.log == s.log
  {
    match step
    case Register(a) => RegisterLog(cfg, s, a);
    case Release(a) => ReleaseLog(s, a);
    case _ =>
  }

  // ----- Where a copy goes -----

  /** The acknowledgement that ends copy `c`. */
  predicate Ends(s: State, step: Step, c: nat) {
    step.SettleCopy? && step.actor in s.actors && s.actors[step.actor].role.Handler?
    && s.actors[step.actor].role.copy == c && s.actors[step.actor].pc.Settle? && s.actors[step.actor].pc.how.Ack?
  }

  /** A copy of a message stays with the broker, as it is, unless it is acknowledged. */
  lemma CopyStays(cfg: Config, s: State, step: Step, c: nat)
    requires Enabled(cfg, s, step) && Brokered(cfg, s) && c in s.copies && s.copies[c].packet.Task? && !Ends(s, step, c)
    ensures var s' := Apply(cfg, s, step); c in s'.copies && s'.copies[c].packet == s.copies[c].packet
  {
    assert c < s.next;
    if step.Register? || step.Release? || step.ScanStart? || step.ScanNext? || step.ScanStop? || step.ServerMoves? {
      SameCopies(cfg, s, step);
    } else if step.RepublishCopy? {
      RepublishCopies(cfg, s, step.actor, step.confirmed, step.effect);
    }
  }

  /** A republish adds at most one copy, of the message's next generation, and adds it if it is confirmed. */
  lemma RepublishCopies(cfg: Config, s: State, a: nat, confirmed: bool, effect: bool)
    requires Enabled(cfg, s, RepublishCopy(a, confirmed, effect)) && Brokered(cfg, s)
    ensures var s' := RepublishStep(cfg, s, a, confirmed, effect);
      && (forall c :: c in s.copies ==> c in s'.copies && s'.copies[c].packet == s.copies[c].packet)
      && (confirmed || effect ==>
            s.next in s'.copies && s'.copies[s.next].packet == Task(cfg.Retried(s.actors[a].role.msg)))
      && (forall c :: c in s'.copies && c !in s.copies ==> c == s.next && (confirmed || effect))
  {
    assert s.next !in s.copies;
  }

  // ----- Tracing one message -----

  ghost predicate Queued(s: State, m: Message) {
    exists c :: c in s.copies && s.copies[c].packet == Task(m)
  }

  ghost predicate Acknowledged(log: seq<Event>, m: Message) {
    exists d, why :: Acked(d, m, why) in log
  }

  ghost predicate AcknowledgedForGood(log: seq<Event>, m: Message) {
    exists d, why :: Acked(d, m, why) in log && why != Republished
  }

  ghost predicate Lives(s: State, m: Message) { Queued(s, m) || Acknowledged(s.log, m) }

  /** The next generation of a message that had a retry left. */
  ghost predicate Succeeded(cfg: Config, s: State, m: Message) {
    !cfg.Exhausted(m) && Lives(s, cfg.Retried(m))
  }

  /** Whatever was, or is about to be, acknowledged as republished has its next generation. */
  ghost predicate Followed(cfg: Config, s: State) {
    && (forall d, m :: Acked(d, m, Republished) in s.log ==> Succeeded(cfg, s, m))
    && (forall a :: a in s.actors && AcksRepublished(s.actors[a]) ==>
          s.actors[a].role.Handler? && Succeeded(cfg, s, s.actors[a].role.msg))
  }

  lemma AcknowledgedStays(log: seq<Event>, log': seq<Event>, m: Message)
    requires log <= log' && Acknowledged(log, m)
    ensures Acknowledged(log', m)
  {
    var d, why :| Acked(d, m, why) in log;
    assert Acked(d, m, why) in log';
  }

  lemma EndedIsAcknowledged(cfg: Config, s: State, a: nat)
    requires Enabled(cfg, s, SettleCopy(a)) && Brokered(cfg, s) && Ends(s, SettleCopy(a), s.actors[a].role.copy)
    ensures s.copies[s.actors[a].role.copy].packet == Task(s.actors[a].role.msg)
    ensures Acknowledged(SettleStep(s, a).log, s.actors[a].role.msg)
  {
    assert Owes(s, a) && Holds(s, a);
    var e := Acked(a, s.actors[a].role.msg, s.actors[a].pc.how.why);
    assert SettleStep(s, a).log == s.log + [e];
    assert e in SettleStep(s, a).log;
  }

  /** No step loses a message: it stays with the broker, or is acknowledged. */
  lemma LivesOn(cfg: Config, s: State, step: Step, m: Message)
    requires Enabled(cfg, s, step) && Recorded(s) && Brokered(cfg, s) && Lives(s, m)
    ensures Lives(Apply(cfg, s, step), m)
  {
    StepForward(cfg, s, step);
    if Queued(s, m) {
      var c :| c in s.copies && s.copies[c].packet == Task(m);
      if Ends(s, step, c) {
        EndedIsAcknowledged(cfg, s, step.actor);
      } else {
        CopyStays(cfg, s, step, c);
      }
    } else {
      AcknowledgedStays(s.log, Apply(cfg, s, step).log, m);
    }
  }

  /** An actor about to acknowledge a republish stays as it is, and none becomes one. */
  ghost predicate SameHands(s: State, s': State, a: nat) {
    && (a in s'.actors && AcksRepublished(s'.actors[a]) ==> a in s.actors && s'.actors[a] == s.actors[a])
    && (a in s.actors && AcksRepublished(s.actors[a]) ==> a in s'.actors && s'.actors[a] == s.actors[a])
  }

  lemma RegisterHands(cfg: Config, s: State, b: nat, a: nat)
    requires b in s.actors && s.actors[b].pc.Received?
    ensures SameHands(s, RegisterStep(cfg, s, b), a)
  {}

  lemma ReleaseHands(s: State, b: nat, a: nat)
    requires b in s.actors && s.actors[b].pc.Releasing?
    ensures SameHands(s, ReleaseStep(s, b), a)
  {}

  lemma ScanNextHands(s: State, a: nat)
    requires s.scan.Scanning? && s.scan.rest != [] && s.next !in s.actors
    ensures SameHands(s, ScanNextStep(s), a)
  {}

  lemma ReceiveHands(s: State, c: nat, a: nat)
    requires c in s.copies && s.next !in s.actors
    ensures SameHands(s, ReceiveStep(s, c), a)
  {}

  lemma DeliverNeverSettles(cfg: Config, v: View, c: Choice)
    requires v.pc.Deliver?
    ensures !DeliverStep(cfg, v, c).pc.Settle?
  {}

  lemma LocalNeverRepublishes(cfg: Config, role: Role, v: View, c: Choice)
    requires LocalPc(role, v.pc)
    ensures LocalStep(cfg, role, v, c).pc != Settle(Ack(Republished))
  {
    if v.pc.Deliver? {
      DeliverNeverSettles(cfg, v, c);
    }
  }

  lemma PutHands(s: State, b: nat, w: View, a: nat)
    requires b in s.actors && s.actors[b].pc != Settle(Ack(Republished)) && w.pc != Settle(Ack(Republished))
    ensures SameHands(s, s.Put(b, w), a)
  {}

  lemma LocalHands(cfg: Config, s: State, b: nat, c: Choice, a: nat)
    requires Enabled(cfg, s, Local(b, c))
    ensures SameHands(s, s.Put(b, LocalStep(cfg, s.actors[b].role, s.See(b), c)), a)
  {
    LocalNeverRepublishes(cfg, s.actors[b].role, s.See(b), c);
    PutHands(s, b, LocalStep(cfg, s.actors[b].role, s.See(b), c), a);
  }

  lemma SettleHands(s: State, b: nat, a: nat)
    requires b in s.actors && s.actors[b].role.Handler? && s.actors[b].pc.Settle? && s.actors[b].role.copy in s.copies
    ensures a != b ==> SameHands(s, SettleStep(s, b), a)
    ensures b in SettleStep(s, b).actors && !AcksRepublished(SettleStep(s, b).actors[b])
  {}

  lemma RepublishHands(cfg: Config, s: State, b: nat, confirmed: bool, effect: bool, a: nat)
    requires b in s.actors && s.actors[b].role.Handler? && s.actors[b].pc.Republish?
    ensures var s' := RepublishStep(cfg, s, b, confirmed, effect);
      && (a != b || !confirmed ==> SameHands(s, s', a))
      && b in s'.actors && s'.actors[b].role == s.actors[b].role && AcksRepublished(s'.actors[b]) == confirmed
  {}

  /** Only a confirmed republish leads to an acknowledgement as republished. */
  lemma AboutToAck(cfg: Config, s: State, step: Step, a: nat)
    requires Enabled(cfg, s, step) && Exclusive(s)
    requires a in Apply(cfg, s, step).actors && AcksRepublished(Apply(cfg, s, step).actors[a])
    ensures (a in s.actors && Apply(cfg, s, step).actors[a] == s.actors[a])
         || (step.RepublishCopy? && step.actor == a && step.confirmed)
  {
    assert s.next !in s.actors;
    match step
    case Local(b, c) => LocalHands(cfg, s, b, c, a);
    case Register(b) => RegisterHands(cfg, s, b, a);
    case Release(b) => ReleaseHands(s, b, a);
    case ScanNext => ScanNextHands(s, a);
    case Receive(c) => ReceiveHands(s, c, a);
    case RepublishCopy(b, confirmed, effect) => RepublishHands(cfg, s, b, confirmed, effect, a);
    case SettleCopy(b) => SettleHands(s, b, a);
    case _ =>
  }

  lemma NewSuccessor(cfg: Config, s: State, a: nat, effect: bool)
    requires Enabled(cfg, s, RepublishCopy(a, true, effect)) && Brokered(cfg, s)
    ensures Succeeded(cfg, RepublishStep(cfg, s, a, true, effect), s.actors[a].role.msg)
  {
    RepublishCopies(cfg, s, a, true, effect);
    assert Queued(RepublishStep(cfg, s, a, true, effect), cfg.Retried(s.actors[a].role.msg));
  }

  lemma ActorFollowed(cfg: Config, s: State, step: Step, a: nat)
    requires Enabled(cfg, s, step) && Exclusive(s) && Recorded(s) && Brokered(cfg, s) && Followed(cfg, s)
    requires a in Apply(cfg, s, step).actors && AcksRepublished(Apply(cfg, s, step).actors[a])
    ensures var x := Apply(cfg, s, step).actors[a]; x.role.Handler? && Succeeded(cfg, Apply(cfg, s, step), x.role.msg)
  {
    AboutToAck(cfg, s, step, a);
    if step.RepublishCopy? && step.actor == a && step.confirmed {
      NewSuccessor(cfg, s, a, step.effect);
    } else {
      LivesOn(cfg, s, step, cfg.Retried(s.actors[a].role.msg));
    }
  }

  lemma AckFollowed(cfg: Config, s: State, step: Step, d: nat, m: Message)
    requires Enabled(cfg, s, step) && Recorded(s) && Brokered(cfg, s) && Followed(cfg, s)
    requires Acked(d, m, Republished) in Apply(cfg, s, step).log
    ensures Succeeded(cfg, Apply(cfg, s, step), m)
  {
    if Acked(d, m, Republished) !in s.log {
      if !step.SettleCopy? {
        NoNewAcks(cfg, s, step);
      }
      NewAcks(cfg, s, step.actor, Acked(d, m, Republished));
    }
    LivesOn(cfg, s, step, cfg.Retried(m));
  }

  lemma FollowedKept(cfg: Config, s: State, step: Step)
    requires Enabled(cfg, s, step) && Exclusive(s) && Recorded(s) && Brokered(cfg, s) && Followed(cfg, s)
    ensures Followed(cfg, Apply(cfg, s, step))
  {
    var s' := Apply(cfg, s, step);
    forall d, m | Acked(d, m, Republished) in s'.log ensures Succeeded(cfg, s', m) {
      AckFollowed(cfg, s, step, d, m);
    }
    forall a | a in s'.actors && AcksRepublished(s'.actors[a])
      ensures s'.actors[a].role.Handler? && Succeeded(cfg, s', s'.actors[a].role.msg)
    {
      ActorFollowed(cfg, s, step, a);
    }
  }

  /** The generations of a message, up to one that is still queued or was acknowledged for good. */
  ghost predicate Traced(cfg: Config, s: State, m: Message, chain: seq<Message>) {
    && Chain(cfg, chain) && chain != [] && chain[0] == m
    && (Queued(s, chain[|chain| - 1]) || AcknowledgedForGood(s.log, chain[|chain| - 1]))
  }

  lemma TracedLonger(cfg: Config, s: State, m: Message, chain: seq<Message>)
    requires !cfg.Exhausted(m) && Traced(cfg, s, cfg.Retried(m), chain)
    ensures Traced(cfg, s, m, [m] + chain)
  {
    var longer := [m] + chain;
    forall i | 0 <= i < |longer| - 1 ensures !cfg.Exhausted(longer[i]) && longer[i + 1] == cfg.Retried(longer[i]) {
      assert i > 0 ==> longer[i] == chain[i - 1] && longer[i + 1] == chain[i];
    }
    assert longer[|longer| - 1] == chain[|chain| - 1];
  }

  lemma {:induction false} Trace(cfg: Config, s: State, m: Message) returns (chain: seq<Message>)
    requires Followed(cfg, s) && Lives(s, m)
    ensures Traced(cfg, s, m, chain)
    decreases Budget(cfg, Task(m))
  {
    chain := [m];
    if !Queued(s, m) {
      var d, why :| Acked(d, m, why) in s.log;
      if why == Republished {
        assert Succeeded(cfg, s, m);
        RetriedBudget(cfg, m);
        chain := Trace(cfg, s, cfg.Retried(m));
        TracedLonger(cfg, s, m, chain);
        chain := [m] + chain;
      }
    }
  }

  // ----- Counting all messages with one identity -----

  predicate About(p: Packet, r: MessageRef) { p.Task? && p.msg.Ref() == r }

  function Waiting(copies: map<nat, Copy>, r: MessageRef): set<nat> {
    set c | c in copies && About(copies[c].packet, r)
  }

  lemma WaitingPut(copies: map<nat, Copy>, c: nat, x: Copy, r: MessageRef)
    ensures |Waiting(copies[c := x], r)| + Bit(c in Waiting(copies, r))
         == |Waiting(copies, r)| + Bit(About(x.packet, r))
  {
    var rest := Waiting(copies, r) - {c};
    assert Waiting(copies[c := x], r) == if About(x.packet, r) then rest + {c} else rest;
  }

  lemma WaitingDrop(copies: map<nat, Copy>, c: nat, r: MessageRef)
    ensures |Waiting(copies - {c}, r)| + Bit(c in Waiting(copies, r)) == |Waiting(copies, r)|
  {
    assert Waiting(copies - {c}, r) == Waiting(copies, r) - {c};
  }

  /** A handler whose republish is confirmed and whose acknowledgement is still to come. */
  predicate HandsOver(s: State, a: nat, r: MessageRef) {
    a in s.actors && s.actors[a].role.Handler? && AcksRepublished(s.actors[a]) && s.actors[a].role.msg.Ref() == r
  }

  function Handing(s: State, r: MessageRef): set<nat> {
    set a | a in s.actors && HandsOver(s, a, r)
  }

  predicate ForGood(e: Event, r: MessageRef) { e.Acked? && e.msg.Ref() == r && e.why != Republished }

  /** Acknowledgements for good. */
  function Finished(log: seq<Event>, r: MessageRef): nat {
    if log == [] then 0
    else Finished(log[..|log| - 1], r) + if ForGood(log[|log| - 1], r) then 1 else 0
  }

  /** What producers add, what an unconfirmed republish adds all the same, and what a crash between republish and
      acknowledgement leaves behind twice. */
  function Added(cfg: Config, s: State, step: Step, r: MessageRef): nat {
    match step
    case Produce(p) => Bit(About(p, r))
    case RepublishCopy(a, confirmed, effect) =>
      Bit(!confirmed && effect && a in s.actors && s.actors[a].role.Handler? && s.actors[a].role.msg.Ref() == r)
    case Crash => |Handing(s, r)|
    case _ => 0
  }

  ghost predicate Balanced(s: State, s': State, r: MessageRef, added: nat) {
    |Waiting(s'.copies, r)| + Finished(s'.log, r) + |Handing(s, r)|
    == |Waiting(s.copies, r)| + Finished(s.log, r) + |Handing(s', r)| + added
  }

  lemma FinishedAfter(log: seq<Event>, e: Event, r: MessageRef)
    ensures Finished(log + [e], r) == Finished(log, r) + if ForGood(e, r) then 1 else 0
  {
    assert (log + [e])[..|log + [e]| - 1] == log;
  }

  lemma SameHanding(s: State, s': State, r: MessageRef)
    requires forall a :: SameHands(s, s', a)
    ensures Handing(s', r) == Handing(s, r)
  {
    forall a ensures a in Handing(s', r) <==> a in Handing(s, r) {
      assert SameHands(s, s', a);
    }
  }

  /** The copies, the handlers about to acknowledge a republish, and the acknowledgements stay. */
  lemma StillBalanced(s: State, s': State, r: MessageRef)
    requires |Waiting(s'.copies, r)| == |Waiting(s.copies, r)| && forall a :: SameHands(s, s', a)
    requires s'.log == s.log
          || (|s'.log| == |s.log| + 1 && s'.log == s.log + [s'.log[|s.log|]] && !s'.log[|s.log|].Acked?)
    ensures Balanced(s, s', r, 0)
  {
    SameHanding(s, s', r);
    if s'.log != s.log {
      FinishedAfter(s.log, s'.log[|s.log|], r);
    }
  }

  lemma LocalNoAck(cfg: Config, s: State, a: nat, c: Choice)
    requires Enabled(cfg, s, Local(a, c)) && Exclusive(s) && Recorded(s)
    ensures var w := LocalStep(cfg, s.actors[a].role, s.See(a), c);
      w.log == s.log || (|w.log| == |s.log| + 1 && w.log == s.log + [w.log[|s.log|]] && !w.log[|s.log|].Acked?)
  {
    LocalOwes(cfg, s, a, c);
    var w := LocalStep(cfg, s.actors[a].role, s.See(a), c);
    if w.log != s.log {
      assert SettledBy(w.log[|s.log|]) == {};
    }
  }

  lemma PutBalanced(s: State, a: nat, w: View, r: MessageRef)
    requires a in s.actors && forall b :: SameHands(s, s.Put(a, w), b)
    requires w.log == s.log || (|w.log| == |s.log| + 1 && w.log == s.log + [w.log[|s.log|]] && !w.log[|s.log|].Acked?)
    ensures Balanced(s, s.Put(a, w), r, 0)
  {
    StillBalanced(s, s.Put(a, w), r);
  }

  lemma LocalBalanced(cfg: Config, s: State, a: nat, c: Choice, r: MessageRef)
    requires Enabled(cfg, s, Local(a, c)) && Exclusive(s) && Recorded(s)
    ensures Balanced(s, s.Put(a, LocalStep(cfg, s.actors[a].role, s.See(a), c)), r, 0)
  {
    var w := LocalStep(cfg, s.actors[a].role, s.See(a), c);
    LocalNoAck(cfg, s, a, c);
    forall b ensures SameHands(s, s.Put(a, w), b) {
      LocalHands(cfg, s, a, c, b);
    }
    PutBalanced(s, a, w, r);
  }

  lemma ReceiveWaiting(s: State, c: nat, r: MessageRef)
    requires c in s.copies
    ensures |Waiting(ReceiveStep(s, c).copies, r)| == |Waiting(s.copies, r)|
  {
    if s.copies[c].packet.Garbage? {
      WaitingDrop(s.copies, c, r);
    } else {
      WaitingPut(s.copies, c, s.copies[c].(holder := Some(s.next)), r);
    }
  }

  lemma ReceiveBalanced(cfg: Config, s: State, c: nat, r: MessageRef)
    requires Enabled(cfg, s, Receive(c)) && Exclusive(s)
    ensures Balanced(s, ReceiveStep(s, c), r, 0)
  {
    ReceiveWaiting(s, c, r);
    forall a ensures SameHands(s, ReceiveStep(s, c), a) {
      ReceiveHands(s, c, a);
    }
    StillBalanced(s, ReceiveStep(s, c), r);
  }

  predicate RosterOnly(step: Step) {
    step.Register? || step.Release? || step.ScanStart? || step.ScanNext? || step.ScanStop? || step.ServerMoves?
  }

  lemma RosterHands(cfg: Config, s: State, step: Step, a: nat)
    requires Enabled(cfg, s, step) && Exclusive(s) && RosterOnly(step)
    ensures SameHands(s, Apply(cfg, s, step), a)
  {
    assert s.next !in s.actors;
    match step
    case Register(b) => RegisterHands(cfg, s, b, a);
    case Release(b) => ReleaseHands(s, b, a);
    case ScanNext => ScanNextHands(s, a);
    case _ =>
  }

  lemma RosterBalanced(cfg: Config, s: State, step: Step, r: MessageRef)
    requires Enabled(cfg, s, step) && Exclusive(s) && RosterOnly(step)
    ensures Balanced(s, Apply(cfg, s, step), r, 0)
  {
    var s' := Apply(cfg, s, step);
    SameCopies(cfg, s, step);
    forall a ensures SameHands(s, s', a) {
      RosterHands(cfg, s, step, a);
    }
    StillBalanced(s, s', r);
  }

  lemma SettleWaiting(s: State, a: nat, r: MessageRef)
    requires Holds(s, a) && s.actors[a].pc.Settle?
    ensures |Waiting(SettleStep(s, a).copies, r)| + Bit(s.actors[a].pc.how.Ack? && s.actors[a].role.msg.Ref() == r)
         == |Waiting(s.copies, r)|
  {
    var c := s.actors[a].role.copy;
    assert c in Waiting(s.copies, r) <==> s.actors[a].role.msg.Ref() == r;
    if s.actors[a].pc.how.Ack? {
      WaitingDrop(s.copies, c, r);
    } else {
      WaitingPut(s.copies, c, s.copies[c].(holder := None), r);
    }
  }

  lemma SettleHanding(s: State, a: nat, r: MessageRef)
    requires Holds(s, a) && s.actors[a].pc.Settle?
    ensures |Handing(SettleStep(s, a), r)| == |Handing(s, r)| - if HandsOver(s, a, r) then 1 else 0
  {
    var s' := SettleStep(s, a);
    forall b ensures b in Handing(s', r) <==> b in Handing(s, r) && b != a {
      SettleHands(s, a, b);
    }
    assert Handing(s', r) == Handing(s, r) - {a};
  }

  lemma SettleBalanced(cfg: Config, s: State, a: nat, r: MessageRef)
    requires Enabled(cfg, s, SettleCopy(a)) && Brokered(cfg, s)
    ensures Balanced(s, SettleStep(s, a), r, 0)
  {
    assert Owes(s, a) && Holds(s, a);
    SettleWaiting(s, a, r);
    SettleHanding(s, a, r);
    FinishedAfter(s.log, SettleStep(s, a).log[|s.log|], r);
  }

  lemma RepublishWaiting(cfg: Config, s: State, a: nat, confirmed: bool, effect: bool, r: MessageRef)
    requires Enabled(cfg, s, RepublishCopy(a, confirmed, effect)) && Brokered(cfg, s)
    ensures |Waiting(RepublishStep(cfg, s, a, confirmed, effect).copies, r)|
         == |Waiting(s.copies, r)| + Bit(s.actors[a].role.msg.Ref() == r && (confirmed || effect))
  {
    assert s.next !in s.copies;
    if confirmed || effect {
      var c := s.actors[a].role.copy;
      var mid := s.copies[s.next := Copy(Task(cfg.Retried(s.actors[a].role.msg)), None, false)];
      WaitingPut(s.copies, s.next, mid[s.next], r);
      if confirmed && c in mid {
        WaitingPut(mid, c, mid[c].(superseded := true), r);
      }
    }
  }

  lemma RepublishHanding(cfg: Config, s: State, a: nat, confirmed: bool, effect: bool, r: MessageRef)
    requires Enabled(cfg, s, RepublishCopy(a, confirmed, effect))
    ensures |Handing(RepublishStep(cfg, s, a, confirmed, effect), r)| ==
      |Handing(s, r)| + if s.actors[a].role.msg.Ref() == r && confirmed then 1 else 0
  {
    var s' := RepublishStep(cfg, s, a, confirmed, effect);
    var anew := if s.actors[a].role.msg.Ref() == r && confirmed then {a} else {};
    forall b ensures b in Handing(s', r) <==> b in Handing(s, r) || b in anew {
      RepublishHands(cfg, s, a, confirmed, effect, b);
    }
    assert a !in Handing(s, r);
    assert Handing(s', r) == Handing(s, r) + anew;
  }

  lemma RepublishBalanced(cfg: Config, s: State, a: nat, confirmed: bool, effect: bool, r: MessageRef)
    requires Enabled(cfg, s, RepublishCopy(a, confirmed, effect)) && Brokered(cfg, s)
    ensures Balanced(s, RepublishStep(cfg, s, a, confirmed, effect), r,
                     Added(cfg, s, RepublishCopy(a, confirmed, effect), r))
  {
    RepublishWaiting(cfg, s, a, confirmed, effect, r);
    RepublishHanding(cfg, s, a, confirmed, effect, r);
    RepublishLog(cfg, s, a, confirmed, effect);
  }

  lemma ProduceBalanced(cfg: Config, s: State, p: Packet, r: MessageRef)
    requires Brokered(cfg, s)
    ensures Balanced(s, s.(copies := s.copies[s.next := Copy(p, None, false)], next := s.next + 1), r, Bit(About(p, r)))
  {
    assert s.next !in s.copies;
    WaitingPut(s.copies, s.next, Copy(p, None, false), r);
    SameHanding(s, s.(copies := s.copies[s.next := Copy(p, None, false)], next := s.next + 1), r);
  }

  lemma CrashBalanced(s: State, r: MessageRef)
    ensures Balanced(s, CrashStep(s), r, |Handing(s, r)|)
  {
    var s' := CrashStep(s);
    assert Waiting(s'.copies, r) == Waiting(s.copies, r);
    assert Handing(s', r) == {};
    FinishedAfter(s.log, s'.log[|s.log|], r);
  }

  /** Every step keeps the balance of every message identity. */
  lemma StepBalanced(cfg: Config, s: State, step: Step, r: MessageRef)
    requires Enabled(cfg, s, step) && Exclusive(s) && Recorded(s) && Brokered(cfg, s)
    ensures Balanced(s, Apply(cfg, s, step), r, Added(cfg, s, step, r))
  {
    match step
    case Produce(p) => ProduceBalanced(cfg, s, p, r);
    case Receive(c) => ReceiveBalanced(cfg, s, c, r);
    case Local(a, c) => LocalBalanced(cfg, s, a, c, r);
    case RepublishCopy(a, confirmed, effect) => RepublishBalanced(cfg, s, a, confirmed, effect, r);
    case SettleCopy(a) => SettleBalanced(cfg, s, a, r);
    case Crash => CrashBalanced(s, r);
    case _ => RosterBalanced(cfg, s, step, r);
  }
}
