/** The broker's copies, and why retrying ends: every acknowledgement is paid for out of a finite budget that
    only producers, crashes and unconfirmed republishes top up. */
module Retries {
  import opened Registry
  import opened Protocol
  import opened LocalInvariant
  import opened Exclusion
  import opened Settlement

  // ----- Who holds which copy -----

  predicate Holds(s: State, a: nat) {
    && a in s.actors && s.actors[a].role.Handler?
    && s.actors[a].role.copy in s.copies
    && s.copies[s.actors[a].role.copy].holder == Some(a)
    && s.copies[s.actors[a].role.copy].packet == Task(s.actors[a].role.msg)
  }

  predicate AcksRepublished(x: Actor) { x.pc == Settle(Ack(Republished)) }

  predicate HeldOk(s: State, c: nat)
    requires c in s.copies
  {
    && (s.copies[c].holder.Some? ==>
          Owes(s, s.copies[c].holder.value) && s.actors[s.copies[c].holder.value].role.copy == c)
    && (s.copies[c].superseded ==>
          s.copies[c].holder.Some? && s.copies[c].holder.value in s.actors
          && AcksRepublished(s.actors[s.copies[c].holder.value]))
  }

  /** A copy is held by exactly the one delivery that still owes its settlement; it counts as superseded only
      while that delivery is about to be acknowledged as republished; and only messages with a retry left get
      near the republish. */
  ghost predicate Brokered(cfg: Config, s: State) {
    && (forall c :: c in s.copies ==> c < s.next && HeldOk(s, c))
    && (forall a :: Owes(s, a) ==> Holds(s, a))
    && (forall a :: a in s.actors && (s.actors[a].pc.PostRetry? || s.actors[a].pc.Republish?) ==>
          s.actors[a].role.Handler? && !cfg.Exhausted(s.actors[a].role.msg))
  }

  ghost predicate MayRetry(cfg: Config, x: Actor) {
    x.pc.PostRetry? || x.pc.Republish? ==> x.role.Handler? && !cfg.Exhausted(x.role.msg)
  }

  /** Actor `a` moves but goes on owing what it owes, and the copies stay as they are. */
  lemma BrokeredMoves(cfg: Config, s: State, s': State, a: nat)
    requires Brokered(cfg, s) && s'.copies == s.copies && s.next <= s'.next && a in s.actors && a in s'.actors
    requires s'.actors == s.actors[a := s'.actors[a]] && s'.actors[a].role == s.actors[a].role
    requires s'.actors[a].Unsettled() == s.actors[a].Unsettled()
    requires AcksRepublished(s.actors[a]) ==> AcksRepublished(s'.actors[a])
    requires MayRetry(cfg, s'.actors[a])
    ensures Brokered(cfg, s')
  {
    forall c | c in s'.copies ensures c < s'.next && HeldOk(s', c) {
      assert HeldOk(s, c);
    }
    forall b | Owes(s', b) ensures Holds(s', b) {
      assert Owes(s, b);
    }
  }

  /** Actors that owe nothing come or go. */
  lemma BrokeredRoster(cfg: Config, s: State, s': State, a: nat)
    requires Brokered(cfg, s) && s'.copies == s.copies && s.next <= s'.next
    requires forall b :: b != a ==> (b in s'.actors <==> b in s.actors)
    requires forall b :: b != a && b in s.actors ==> s'.actors[b] == s.actors[b]
    requires !Owes(s, a) && !Owes(s', a)
    requires a in s'.actors ==> MayRetry(cfg, s'.actors[a])
    ensures Brokered(cfg, s')
  {
    forall c | c in s'.copies ensures c < s'.next && HeldOk(s', c) {
      assert HeldOk(s, c);
    }
    forall b | Owes(s', b) ensures Holds(s', b) {
      assert Owes(s, b);
    }
  }

  lemma LocalRetry(cfg: Config, role: Role, v: View, c: Choice)
    requires LocalPc(role, v.pc)
    ensures MayRetry(cfg, Actor(role, LocalStep(cfg, role, v, c).pc, true, true)) ||
      (v.pc.PostRetry? && LocalStep(cfg, role, v, c).pc.Republish?)
  {
    if v.pc.Deliver? {
      DeliverStays(cfg, v, c);
    }
  }

  lemma LocalBrokered(cfg: Config, s: State, a: nat, c: Choice)
    requires Enabled(cfg, s, Local(a, c)) && Exclusive(s) && Brokered(cfg, s)
    ensures Brokered(cfg, s.Put(a, LocalStep(cfg, s.actors[a].role, s.See(a), c)))
  {
    var role := s.actors[a].role;
    var w := LocalStep(cfg, role, s.See(a), c);
    LocalRetry(cfg, role, s.See(a), c);
    if role.Handler? {
      StaysOwed(cfg, role, s.See(a), c);
    }
    BrokeredMoves(cfg, s, s.Put(a, w), a);
  }

  /** A new handler `s.next` takes hold of copy `c`, which nobody held. */
  lemma BrokeredTakes(cfg: Config, s: State, c: nat)
    requires Brokered(cfg, s) && s.next !in s.actors
    requires c in s.copies && s.copies[c].holder.None? && s.copies[c].packet.Task?
    ensures Brokered(cfg, ReceiveStep(s, c))
  {
    var s' := ReceiveStep(s, c);
    assert HeldOk(s, c);
    forall d | d in s'.copies ensures d < s'.next && HeldOk(s', d) {
      assert HeldOk(s, d);
    }
    forall b | Owes(s', b) ensures Holds(s', b) {
      assert b != s.next ==> Owes(s, b) && Holds(s, b);
    }
  }

  lemma BrokeredDrops(cfg: Config, s: State, c: nat)
    requires Brokered(cfg, s) && c in s.copies && s.copies[c].holder.None? && s.copies[c].packet.Garbage?
    ensures Brokered(cfg, ReceiveStep(s, c))
  {
    var s' := ReceiveStep(s, c);
    forall d | d in s'.copies ensures d < s'.next && HeldOk(s', d) {
      assert HeldOk(s, d);
    }
    forall b | Owes(s', b) ensures Holds(s', b) {
      assert Owes(s, b) && Holds(s, b);
    }
  }

  lemma ReceiveBrokered(cfg: Config, s: State, c: nat)
    requires Enabled(cfg, s, Receive(c)) && Exclusive(s) && Brokered(cfg, s)
    ensures Brokered(cfg, ReceiveStep(s, c))
  {
    if s.copies[c].packet.Task? {
      BrokeredTakes(cfg, s, c);
    } else {
      BrokeredDrops(cfg, s, c);
    }
  }

  /** Actor `a` gives up its copy, which leaves the broker or becomes free; the others go on as before. */
  lemma BrokeredSettles(cfg: Config, s: State, s': State, a: nat)
    requires Brokered(cfg, s) && Owes(s, a) && s.next <= s'.next
    requires a in s'.actors && s'.actors == s.actors[a := s'.actors[a]] && s'.actors[a].pc.Releasing?
    requires forall c :: c in s'.copies ==> c in s.copies
    requires forall c :: c in s.copies && c != s.actors[a].role.copy ==> c in s'.copies && s'.copies[c] == s.copies[c]
    requires var c := s.actors[a].role.copy; c in s'.copies ==> s'.copies[c].holder.None? && !s'.copies[c].superseded
    ensures Brokered(cfg, s')
  {
    assert Holds(s, a);
    forall c | c in s'.copies ensures c < s'.next && HeldOk(s', c) {
      assert HeldOk(s, c);
    }
    forall b | Owes(s', b) ensures Holds(s', b) {
      assert Owes(s, b) && Holds(s, b);
    }
  }

  lemma SettleBrokered(cfg: Config, s: State, a: nat)
    requires Enabled(cfg, s, SettleCopy(a)) && Brokered(cfg, s)
    ensures Brokered(cfg, SettleStep(s, a))
  {
    assert Owes(s, a) && Holds(s, a) && HeldOk(s, s.actors[a].role.copy);
    BrokeredSettles(cfg, s, SettleStep(s, a), a);
  }

  lemma RepublishBrokered(cfg: Config, s: State, a: nat, confirmed: bool, effect: bool)
    requires Enabled(cfg, s, RepublishCopy(a, confirmed, effect)) && Brokered(cfg, s)
    ensures Brokered(cfg, RepublishStep(cfg, s, a, confirmed, effect))
  {
    var s' := RepublishStep(cfg, s, a, confirmed, effect);
    assert Owes(s, a) && Holds(s, a);
    forall d | d in s'.copies ensures d < s'.next && HeldOk(s', d) {
      if d in s.copies { assert HeldOk(s, d); }
    }
    forall b | Owes(s', b) ensures Holds(s', b) {
      assert Owes(s, b) && Holds(s, b);
    }
  }

  lemma RegisterBrokered(cfg: Config, s: State, a: nat)
    requires Enabled(cfg, s, Register(a)) && Brokered(cfg, s)
    ensures Brokered(cfg, RegisterStep(cfg, s, a))
  {
    BrokeredMoves(cfg, s, RegisterStep(cfg, s, a), a);
  }

  lemma ScanNextBrokered(cfg: Config, s: State)
    requires Exclusive(s) && s.scan.Scanning? && s.scan.rest != [] && Brokered(cfg, s)
    ensures Brokered(cfg, ScanNextStep(s))
  {
    assert s.next !in s.actors;
    BrokeredRoster(cfg, s, ScanNextStep(s), s.next);
  }

  lemma OtherBrokered(cfg: Config, s: State, step: Step)
    requires Enabled(cfg, s, step) && Brokered(cfg, s) && s.next !in s.actors
    requires step.ScanStart? || step.ScanStop? || step.ServerMoves? || step.Release? || step.Produce? || step.Crash?
    ensures Brokered(cfg, Apply(cfg, s, step))
  {
    var s' := Apply(cfg, s, step);
    match step
    case Release(a) => BrokeredRoster(cfg, s, s', a);
    case Produce(_) =>
      forall d | d in s'.copies ensures d < s'.next && HeldOk(s', d) {
        if d in s.copies && d != s.next { assert HeldOk(s, d); }
      }
      forall b | Owes(s', b) ensures Holds(s', b) {
        assert Owes(s, b) && Holds(s, b);
      }
    case Crash =>
    case _ => BrokeredRoster(cfg, s, s', s.next);
  }

  lemma BrokeredKept(cfg: Config, s: State, step: Step)
    requires Enabled(cfg, s, step) && Exclusive(s) && Brokered(cfg, s)
    ensures Brokered(cfg, Apply(cfg, s, step))
  {
    assert s.next !in s.actors;
    match step
    case Local(a, c) => LocalBrokered(cfg, s, a, c);
    case Receive(c) => ReceiveBrokered(cfg, s, c);
    case SettleCopy(a) => SettleBrokered(cfg, s, a);
    case RepublishCopy(a, confirmed, effect) => RepublishBrokered(cfg, s, a, confirmed, effect);
    case Register(a) => RegisterBrokered(cfg, s, a);
    case ScanNext => ScanNextBrokered(cfg, s);
    case _ => OtherBrokered(cfg, s, step);
  }

  // ----- The budget -----

  /** How many acknowledgements a copy can still cause: its own and one per retry left. */
  function Budget(cfg: Config, p: Packet): nat {
    match p
    case Garbage => 1
    case Task(m) => if cfg.MaxRetry(m) > m.retryCount then cfg.MaxRetry(m) - m.retryCount + 1 else 1
  }

  /** A superseded copy has passed its retries on and keeps only its own ack. */
  function Weight(cfg: Config, c: Copy): nat {
    if c.superseded then 1 else Budget(cfg, c.packet)
  }

  function At(cfg: Config, copies: map<nat, Copy>, c: nat): nat {
    if c in copies then Weight(cfg, copies[c]) else 0
  }

  function Total(cfg: Config, copies: map<nat, Copy>, n: nat): nat {
    if n == 0 then 0 else Total(cfg, copies, n - 1) + At(cfg, copies, n - 1)
  }

  /** What a crash gives back to the superseded copies it requeues. */
  function Regained(cfg: Config, copies: map<nat, Copy>, n: nat): nat {
    if n == 0 then 0
    else Regained(cfg, copies, n - 1) +
         if n - 1 in copies && copies[n - 1].superseded then Budget(cfg, copies[n - 1].packet) - 1 else 0
  }

  function Acks(log: seq<Event>): nat {
    if log == [] then 0
    else Acks(log[..|log| - 1]) + if log[|log| - 1].Acked? || log[|log| - 1].Discarded? then 1 else 0
  }

  /** What a step adds to the budget. */
  function Topup(cfg: Config, s: State, step: Step): nat {
    match step
    case Produce(p) => Budget(cfg, p)
    case RepublishCopy(a, confirmed, effect) =>
      if !confirmed && effect && a in s.actors && s.actors[a].role.Handler?
      then Budget(cfg, Task(cfg.Retried(s.actors[a].role.msg))) else 0
    case Crash => Regained(cfg, s.copies, s.next)
    case _ => 0
  }

  lemma AcksAfter(log: seq<Event>, e: Event)
    ensures Acks(log + [e]) == Acks(log) + if e.Acked? || e.Discarded? then 1 else 0
  {
    assert (log + [e])[..|log + [e]| - 1] == log;
  }

  lemma {:induction false} TotalChange(cfg: Config, m: map<nat, Copy>, m': map<nat, Copy>, n: nat, k: nat)
    requires forall c: nat :: c != k ==> At(cfg, m', c) == At(cfg, m, c)
    ensures Total(cfg, m', n) == Total(cfg, m, n) + (if k < n then At(cfg, m', k) - At(cfg, m, k) else 0)
  {
    if n > 0 {
      TotalChange(cfg, m, m', n - 1, k);
    }
  }

  lemma {:induction false} TotalBeyond(cfg: Config, m: map<nat, Copy>, n: nat, n': nat)
    requires n <= n' && forall c :: c in m ==> c < n
    ensures Total(cfg, m, n') == Total(cfg, m, n)
  {
    if n < n' {
      TotalBeyond(cfg, m, n, n' - 1);
    }
  }

  lemma {:induction false} TotalCrash(cfg: Config, s: State, n: nat)
    ensures Total(cfg, CrashStep(s).copies, n) == Total(cfg, s.copies, n) + Regained(cfg, s.copies, n)
  {
    if n > 0 {
      TotalCrash(cfg, s, n - 1);
    }
  }

  /** Resolving the maximum twice changes nothing, and a retry costs exactly one. */
  lemma RetriedBudget(cfg: Config, m: Message)
    requires !cfg.Exhausted(m)
    ensures cfg.MaxRetry(cfg.Retried(m)) == cfg.MaxRetry(m)
    ensures Budget(cfg, Task(m)) == Budget(cfg, Task(cfg.Retried(m))) + 1
  {}

  /** Each message the republished form of the one before. */
  ghost predicate Chain(cfg: Config, chain: seq<Message>) {
    forall i :: 0 <= i < |chain| - 1 ==> !cfg.Exhausted(chain[i]) && chain[i + 1] == cfg.Retried(chain[i])
  }

  /** Along a chain of republishes the retry count rises by one each time, the resolved maximum and the identities
      stay, and the chain is no longer than the retries its first message had left. */
  lemma {:induction false} ChainIsBounded(cfg: Config, chain: seq<Message>, n: nat)
    requires Chain(cfg, chain) && n < |chain|
    ensures chain[n].retryCount == chain[0].retryCount + n && cfg.MaxRetry(chain[n]) == cfg.MaxRetry(chain[0])
    ensures chain[n].Ref() == chain[0].Ref() && chain[n].taskType == chain[0].taskType
    ensures n > 0 ==> n <= cfg.MaxRetry(chain[0]) - chain[0].retryCount
  {
    if n > 0 {
      ChainIsBounded(cfg, chain, n - 1);
      RetriedBudget(cfg, chain[n - 1]);
    }
  }

  ghost predicate Paid(cfg: Config, s: State, s': State, topup: nat) {
    Acks(s'.log) + Total(cfg, s'.copies, s'.next) <= Acks(s.log) + Total(cfg, s.copies, s.next) + topup
  }

  /** A confirmed republish moves the retries left from the copy at hand to a new copy of the next generation:
      the budget stays exactly as it is. */
  lemma RepublishPaid(cfg: Config, s: State, a: nat, confirmed: bool, effect: bool)
    requires Enabled(cfg, s, RepublishCopy(a, confirmed, effect)) && Brokered(cfg, s)
    ensures var s' := RepublishStep(cfg, s, a, confirmed, effect); var x := s.actors[a].role;
      && Paid(cfg, s, s', Topup(cfg, s, RepublishCopy(a, confirmed, effect)))
      && (confirmed ==>
            && Total(cfg, s'.copies, s'.next) == Total(cfg, s.copies, s.next)
            && s.next !in s.copies && s.next in s'.copies
            && s'.copies[s.next] == Copy(Task(cfg.Retried(x.msg)), None, false)
            && x.copy in s'.copies && s'.copies[x.copy] == s.copies[x.copy].(superseded := true))
  {
    var s' := RepublishStep(cfg, s, a, confirmed, effect);
    var x := s.actors[a];
    assert Owes(s, a) && Holds(s, a) && HeldOk(s, x.role.copy);
    assert s.next !in s.copies;
    RetriedBudget(cfg, x.role.msg);
    TotalBeyond(cfg, s.copies, s.next, s'.next);
    if confirmed || effect {
      var mid := s.copies[s.next := Copy(Task(cfg.Retried(x.role.msg)), None, false)];
      TotalChange(cfg, s.copies, mid, s'.next, s.next);
      TotalChange(cfg, mid, s'.copies, s'.next, x.role.copy);
    }
  }

  lemma SettlePaid(cfg: Config, s: State, a: nat)
    requires Enabled(cfg, s, SettleCopy(a)) && Brokered(cfg, s)
    ensures Paid(cfg, s, SettleStep(s, a), 0)
  {
    var s' := SettleStep(s, a);
    TotalChange(cfg, s.copies, s'.copies, s.next, s.actors[a].role.copy);
    AcksAfter(s.log, s'.log[|s.log|]);
  }

  lemma ReceiveTotal(cfg: Config, s: State, c: nat)
    requires Brokered(cfg, s) && c in s.copies && s.copies[c].holder.None?
    ensures var s' := ReceiveStep(s, c);
      Total(cfg, s'.copies, s'.next) + (if s.copies[c].packet.Garbage? then 1 else 0) == Total(cfg, s.copies, s.next)
  {
    var s' := ReceiveStep(s, c);
    assert c < s.next && HeldOk(s, c);
    TotalBeyond(cfg, s.copies, s.next, s'.next);
    TotalChange(cfg, s.copies, s'.copies, s'.next, c);
  }

  lemma ReceivePaid(cfg: Config, s: State, c: nat)
    requires Enabled(cfg, s, Receive(c)) && Brokered(cfg, s)
    ensures Paid(cfg, s, ReceiveStep(s, c), 0)
  {
    ReceiveTotal(cfg, s, c);
    AcksAfter(s.log, ReceiveStep(s, c).log[|s.log|]);
  }

  lemma ProducePaid(cfg: Config, s: State, p: Packet)
    requires Brokered(cfg, s)
    ensures Paid(cfg, s, s.(copies := s.copies[s.next := Copy(p, None, false)], next := s.next + 1), Budget(cfg, p))
  {
    var m := s.copies[s.next := Copy(p, None, false)];
    assert s.next !in s.copies;
    TotalBeyond(cfg, s.copies, s.next, s.next + 1);
    TotalChange(cfg, s.copies, m, s.next + 1, s.next);
  }

  lemma CrashPaid(cfg: Config, s: State)
    ensures Paid(cfg, s, CrashStep(s), Regained(cfg, s.copies, s.next))
  {
    TotalCrash(cfg, s, s.next);
    AcksAfter(s.log, CrashStep(s).log[|s.log|]);
  }

  /** The copies stay, and the history gains no acknowledgement. */
  lemma IdlePaid(cfg: Config, s: State, s': State)
    requires Brokered(cfg, s) && s'.copies == s.copies && s.next <= s'.next
    requires s'.log == s.log || (|s'.log| == |s.log| + 1 && s'.log == s.log + [s'.log[|s.log|]]
                                 && SettledBy(s'.log[|s.log|]) == {})
    ensures Paid(cfg, s, s', 0)
  {
    TotalBeyond(cfg, s.copies, s.next, s'.next);
    if s'.log != s.log {
      assert !s'.log[|s.log|].Acked? && !s'.log[|s.log|].Discarded?;
      AcksAfter(s.log, s'.log[|s.log|]);
    }
  }
}
