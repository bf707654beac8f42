/** Every delivery is settled exactly once, and retrying ends. */
module Settlement {
  import opened Protocol
  import opened LocalInvariant
  import opened Exclusion
  import opened Durability

  // ----- Settling -----

  function SettledBy(e: Event): set<nat> {
    match e
    case Acked(d, _, _) => {d}
    case Discarded(d) => {d}
    case Requeued(d) => {d}
    case Crashed(ds, _) => ds
    case _ => {}
  }

  ghost predicate Settled(log: seq<Event>, d: nat) {
    exists i :: 0 <= i < |log| && d in SettledBy(log[i])
  }

  /** A delivery still waiting for its ack or nack. */
  predicate Owes(s: State, d: nat) {
    d in s.actors && s.actors[d].Unsettled()
  }

  ghost predicate Past(s: State, e: Event) {
    forall d: nat :: d in SettledBy(e) ==> d < s.next && !Owes(s, d)
  }

  /** No delivery is settled twice, and each one taken is either still owed or settled. */
  ghost predicate SettledOnce(s: State) {
    && (forall i, j :: 0 <= i < j < |s.log| ==> SettledBy(s.log[i]) !! SettledBy(s.log[j]))
    && (forall i :: 0 <= i < |s.log| ==> Past(s, s.log[i]))
    && (forall i :: 0 <= i < |s.log| && s.log[i].Taken? ==>
          s.log[i].delivery < s.next && (Owes(s, s.log[i].delivery) || Settled(s.log, s.log[i].delivery)))
  }

  lemma SettledGrows(log: seq<Event>, e: Event, d: nat)
    ensures Settled(log + [e], d) <==> Settled(log, d) || d in SettledBy(e)
  {
    var log' := log + [e];
    if Settled(log, d) {
      var i :| 0 <= i < |log| && d in SettledBy(log[i]);
      assert d in SettledBy(log'[i]);
    }
    assert log'[|log|] == e;
  }

  /** One event that settles deliveries owed so far, or takes a new one. */
  lemma SettledOnceGrows(s: State, s': State, e: Event)
    requires SettledOnce(s) && s'.log == s.log + [e] && s.next <= s'.next
    requires forall d: nat :: d in SettledBy(e) ==> (Owes(s, d) || d == s.next) && d < s'.next && !Owes(s', d)
    requires forall d: nat :: d < s.next && d !in SettledBy(e) ==> (Owes(s', d) <==> Owes(s, d))
    requires e.Taken? ==> e.delivery == s.next && s.next < s'.next && Owes(s', e.delivery)
    ensures SettledOnce(s')
  {
    forall i | 0 <= i < |s'.log| ensures Past(s', s'.log[i]) {
      assert i < |s.log| ==> Past(s, s.log[i]);
    }
    forall i | 0 <= i < |s'.log| && s'.log[i].Taken?
      ensures s'.log[i].delivery < s'.next && (Owes(s', s'.log[i].delivery) || Settled(s'.log, s'.log[i].delivery))
    {
      SettledGrows(s.log, e, s'.log[i].delivery);
    }
  }

  lemma SettledOnceStays(s: State, s': State)
    requires SettledOnce(s) && s'.log == s.log && s.next <= s'.next
    requires forall d: nat :: d < s.next ==> (Owes(s', d) <==> Owes(s, d))
    ensures SettledOnce(s')
  {
    forall i | 0 <= i < |s'.log| ensures Past(s', s'.log[i]) {
      assert Past(s, s.log[i]);
    }
  }

  lemma StaysOwed(cfg: Config, role: Role, v: View, c: Choice)
    requires role.Handler? && LocalPc(role, v.pc)
    ensures !LocalStep(cfg, role, v, c).pc.Releasing?
  {}

  /** A local step settles nothing. */
  ghost predicate SettlesNothing(log: seq<Event>, log': seq<Event>) {
    log' == log
    || (|log'| == |log| + 1 && log' == log + [log'[|log|]]
        && SettledBy(log'[|log|]) == {} && !log'[|log|].Taken?)
  }

  lemma MovesSettleNothing(role: Role, v: View, w: View)
    requires Moves(role, v, w)
    ensures SettlesNothing(v.log, w.log)
  {}

  lemma LocalOwes(cfg: Config, s: State, a: nat, c: Choice)
    requires Enabled(cfg, s, Local(a, c)) && Exclusive(s) && Recorded(s)
    ensures var w := LocalStep(cfg, s.actors[a].role, s.See(a), c);
      (s.actors[a].role.Handler? ==> !w.pc.Releasing?) && SettlesNothing(s.log, w.log)
  {
    var role := s.actors[a].role;
    assert SlotInv(role.Key(), s.Slot(role.Key()), s.log);
    LocalStepKeeps(cfg, role, s.See(a), c);
    MovesSettleNothing(role, s.See(a), LocalStep(cfg, role, s.See(a), c));
    if role.Handler? {
      StaysOwed(cfg, role, s.See(a), c);
    }
  }

  lemma LocalSettled(cfg: Config, s: State, a: nat, c: Choice)
    requires Enabled(cfg, s, Local(a, c)) && Exclusive(s) && Recorded(s) && SettledOnce(s)
    ensures SettledOnce(s.Put(a, LocalStep(cfg, s.actors[a].role, s.See(a), c)))
  {
    var w := LocalStep(cfg, s.actors[a].role, s.See(a), c);
    var s' := s.Put(a, w);
    LocalOwes(cfg, s, a, c);
    forall d: nat ensures Owes(s', d) <==> Owes(s, d) {}
    if w.log == s.log {
      SettledOnceStays(s, s');
    } else {
      SettledOnceGrows(s, s', w.log[|s.log|]);
    }
  }

  lemma ReceiveSettled(s: State, c: nat)
    requires Exclusive(s) && SettledOnce(s) && c in s.copies
    ensures SettledOnce(ReceiveStep(s, c))
  {
    var s' := ReceiveStep(s, c);
    assert s.next !in s.actors;
    SettledOnceGrows(s, s', s'.log[|s.log|]);
  }

  lemma SettleSettled(cfg: Config, s: State, a: nat)
    requires Enabled(cfg, s, SettleCopy(a)) && Exclusive(s) && SettledOnce(s)
    ensures SettledOnce(SettleStep(s, a))
  {
    var s' := SettleStep(s, a);
    SettledOnceGrows(s, s', s'.log[|s.log|]);
  }

  lemma CrashSettled(s: State)
    requires Exclusive(s) && SettledOnce(s)
    ensures SettledOnce(CrashStep(s))
  {
    var s' := CrashStep(s);
    SettledOnceGrows(s, s', s'.log[|s.log|]);
  }

  lemma RegisterSettled(cfg: Config, s: State, a: nat)
    requires Enabled(cfg, s, Register(a)) && SettledOnce(s)
    ensures SettledOnce(RegisterStep(cfg, s, a))
  {
    var s' := RegisterStep(cfg, s, a);
    forall d: nat ensures Owes(s', d) <==> Owes(s, d) {}
    SettledOnceStays(s, s');
  }

  lemma RepublishSettled(cfg: Config, s: State, a: nat, confirmed: bool, effect: bool)
    requires Enabled(cfg, s, RepublishCopy(a, confirmed, effect)) && SettledOnce(s)
    ensures SettledOnce(RepublishStep(cfg, s, a, confirmed, effect))
  {
    SettledOnceStays(s, RepublishStep(cfg, s, a, confirmed, effect));
  }

  lemma ReleaseSettled(cfg: Config, s: State, a: nat)
    requires Enabled(cfg, s, Release(a)) && SettledOnce(s)
    ensures SettledOnce(ReleaseStep(s, a))
  {
    SettledOnceStays(s, ReleaseStep(s, a));
  }

  lemma ScanNextSettled(s: State)
    requires Exclusive(s) && SettledOnce(s) && s.scan.Scanning? && s.scan.rest != []
    ensures SettledOnce(ScanNextStep(s))
  {
    SettledOnceStays(s, ScanNextStep(s));
  }

  lemma SettledOnceKept(cfg: Config, s: State, step: Step)
    requires Enabled(cfg, s, step) && Exclusive(s) && Recorded(s) && SettledOnce(s)
    ensures SettledOnce(Apply(cfg, s, step))
  {
    match step
    case Local(a, c) => LocalSettled(cfg, s, a, c);
    case Receive(c) => ReceiveSettled(s, c);
    case SettleCopy(a) => SettleSettled(cfg, s, a);
    case Crash => CrashSettled(s);
    case Register(a) => RegisterSettled(cfg, s, a);
    case RepublishCopy(a, confirmed, effect) => RepublishSettled(cfg, s, a, confirmed, effect);
    case Release(a) => ReleaseSettled(cfg, s, a);
    case ScanNext => ScanNextSettled(s);
    case _ => SettledOnceStays(s, Apply(cfg, s, step));
  }
}
