/** Whole runs of the address manager. */
module AddrManRun {
  import opened Prelude
  import opened AddrManModel
  import opened AddrManMoves
  import opened AddrMan
  import opened AddrManCheck

  datatype Op =
    | DoAdd(addrs: seq<Address>, source: NetAddr, penalty: int, now: int)
    | DoGood(addr: Service, time: int)
    | DoAttempt(addr: Service, countFailure: bool, time: int)
    | DoConnected(addr: Service, time: int)
    | DoSetServices(addr: Service, services: bv64)
    | DoResolveCollisions
    | DoSelectTriedCollision
    | DoGetAddr(maxAddresses: nat, maxPct: nat, network: Option<Network>, now: int)

  /** Successes and attempts are recorded with positive times. */
  predicate Positive(op: Op) {
    match op
    case DoGood(_, time) => time > 0
    case DoAttempt(_, _, time) => time > 0
    case _ => true
  }

  /** Whether an operation leaves sensible times behind. A success at time zero does only if the
      address is unknown or has to wait for its place in the tried table. */
  ghost predicate Acceptable(s: State, op: Op) {
    match op
    case DoGood(addr, time) => addr !in s.addr || time > 0 || (time == 0 && StaysUntried(s, s.addr[addr]))
    case DoAttempt(addr, _, time) => addr !in s.addr || time >= 0
    case _ => true
  }

  lemma TimedOthers(s: State, id: int)
    requires Timed(s)
    ensures TimedBut(s, id)
  {
  }

  method Perform(m: AddrManImpl, op: Op)
    requires m.Shaped() && Inv(m.St()) && Pending(m.St())
    modifies m, m.vvNew, m.vvTried
    ensures Inv(m.St()) && Pending(m.St()) && Later(old(m.St()), m.St())
    ensures old(Timed(m.St())) ==> (Timed(m.St()) <==> old(Acceptable(m.St(), op)))
  {
    hide Inv, Timed, TimedBut, StaysUntried, Pending, Later;
    ghost var s := m.St();
    if op.DoAdd? {
      var _ := m.Add(op.addrs, op.source, op.penalty, op.now);
    } else if op.DoGood? {
      if Timed(s) && op.addr in s.addr { TimedOthers(s, s.addr[op.addr]); }
      var _ := m.Good(op.addr, op.time);
    } else if op.DoAttempt? {
      m.Attempt(op.addr, op.countFailure, op.time);
    } else if op.DoConnected? {
      m.Connected(op.addr, op.time);
    } else if op.DoSetServices? {
      m.SetServices(op.addr, op.services);
    } else if op.DoResolveCollisions? {
      m.ResolveCollisions();
    } else if op.DoSelectTriedCollision? {
      var _, _, _ := m.SelectTriedCollision();
    } else {
      var _, _ := m.GetAddr(op.maxAddresses, op.maxPct, op.network, op.now);
      SampledLater(s, m.St());
    }
  }

  /** The check after an operation passes exactly if the recorded times are sensible. */
  method PerformChecked(m: AddrManImpl, op: Op) returns (code: int)
    requires m.Shaped() && Inv(m.St()) && Pending(m.St())
    modifies m, m.vvNew, m.vvTried
    ensures Inv(m.St()) && Pending(m.St()) && Later(old(m.St()), m.St())
    ensures code == 0 <==> Timed(m.St())
    ensures old(Timed(m.St())) ==> (code == 0 <==> old(Acceptable(m.St(), op)))
  {
    hide Inv, Timed, Pending, Later, Consistent, TableOf, Acceptable;
    Perform(m, op);
    ConsistentIffTimed(m.St());
    code := CheckAddrman(m);
  }

  lemma SampledLater(s: State, t: State)
    requires Inv(s) && Inv(t) && Reshuffled(s, t)
    ensures Later(s, t) && (Timed(s) ==> Timed(t)) && (Pending(s) ==> Pending(t))
  {
    hide Structured, Reshuffled, Later, Timed, Pending;
    StructuredShuffled(t);
    ReshuffledInv(s, t);
  }

  /** Successive states from an empty manager: every one keeps the invariant, no id ever names
      another address, and no occupied tried slot is ever empty again. */
  ghost predicate History(states: seq<State>) {
    && |states| > 0 && states[0].info == map[]
    && (forall i :: 0 <= i < |states| ==> Inv(states[i]) && Pending(states[i]))
    && (forall i, j :: 0 <= i <= j < |states| ==> Later(states[i], states[j]))
  }

  lemma {:induction false} Extend(states: seq<State>, t: State)
    requires History(states) && Later(states[|states| - 1], t) && Inv(t) && Pending(t)
    ensures History(states + [t])
  {
    hide Structured, Later, Pending;
    var n := |states| - 1;
    LaterReflexive(t);
    forall i | 0 <= i <= n ensures Later(states[i], t) {
      StructuredAddressed(states[i]);
      LaterTransitive(states[i], states[n], t);
    }
  }

  lemma Begin(s: State)
    requires Inv(s) && Pending(s) && Timed(s) && s.info == map[]
    ensures History([s]) && Audited([s], [], [])
  {
    hide Inv, Later, Pending, Timed;
    LaterReflexive(s);
  }

  /** The codes of the checks after each operation of a run through `states`. */
  ghost predicate Audited(states: seq<State>, ops: seq<Op>, codes: seq<int>) {
    && |codes| == |ops| && |states| == |ops| + 1 && Timed(states[0])
    && forall i :: 0 <= i < |ops| ==>
         (codes[i] == 0 <==> Timed(states[i + 1])) && (Timed(states[i]) ==> (codes[i] == 0 <==> Acceptable(states[i], ops[i])))
  }

  /** The first check that fails is the one after the first operation with an unacceptable time. */
  lemma {:induction false} FirstFailure(states: seq<State>, ops: seq<Op>, codes: seq<int>, n: nat)
    requires Audited(states, ops, codes) && n <= |ops|
    ensures (forall i :: 0 <= i < n ==> codes[i] == 0) <==> forall i :: 0 <= i < n ==> Acceptable(states[i], ops[i])
  {
    hide Timed, Acceptable;
    if n > 0 {
      FirstFailure(states, ops, codes, n - 1);
      assert n - 1 > 0 && (forall i :: 0 <= i < n - 1 ==> codes[i] == 0) ==> codes[n - 2] == 0;
    }
  }

  lemma {:induction false} Audit(states: seq<State>, ops: seq<Op>, codes: seq<int>, t: State, code: int)
    requires |ops| > 0 && Audited(states, ops[..|ops| - 1], codes) && (code == 0 <==> Timed(t))
    requires var n := |ops| - 1; Timed(states[n]) ==> (code == 0 <==> Acceptable(states[n], ops[n]))
    ensures Audited(states + [t], ops, codes + [code])
  {
    hide Timed, Acceptable;
  }

  lemma PositiveAcceptable(states: seq<State>, ops: seq<Op>)
    requires |states| > |ops|
    ensures (forall i :: 0 <= i < |ops| ==> Positive(ops[i])) ==> forall i :: 0 <= i < |ops| ==> Acceptable(states[i], ops[i])
  {
  }

  /** Performs the operations with a check after each. */
  method PerformAll(m: AddrManImpl, ops: seq<Op>) returns (codes: seq<int>, ghost states: seq<State>)
    requires m.Shaped() && Inv(m.St()) && Pending(m.St()) && Timed(m.St()) && m.mapInfo == map[]
    modifies m, m.vvNew, m.vvTried
    ensures History(states) && |states| == |ops| + 1 && states[|ops|] == m.St()
    ensures Audited(states, ops, codes)
  {
    hide Inv, Timed, Pending, Later, History, TableOf, Audited, Acceptable;
    codes, states := [], [m.St()];
    Begin(m.St());
    for n := 0 to |ops|
      invariant Inv(m.St()) && Pending(m.St())
      invariant History(states) && |states| == n + 1 && states[n] == m.St()
      invariant |codes| == n && Audited(states, ops[..n], codes)
    {
      var code := PerformChecked(m, ops[n]);
      Extend(states, m.St());
      assert ops[..n + 1][..n] == ops[..n];
      Audit(states, ops[..n + 1], codes, m.St(), code);
      states := states + [m.St()];
      codes := codes + [code];
    }
    assert ops[..|ops|] == ops;
  }

  /** From an empty manager, whatever the operations: every state keeps the invariant, and the
      consistency checks pass exactly up to the first unacceptable time. With positive times all do. */
  method CheckedRun(env: Env, key: Key, ops: seq<Op>)
      returns (m: AddrManImpl, codes: seq<int>, ghost states: seq<State>)
    requires key != 0
    ensures History(states) && |states| == |ops| + 1 && states[|ops|] == m.St()
    ensures Audited(states, ops, codes)
    ensures (forall i :: 0 <= i < |ops| ==> codes[i] == 0) <==> forall i :: 0 <= i < |ops| ==> Acceptable(states[i], ops[i])
    ensures (forall i :: 0 <= i < |ops| ==> Positive(ops[i])) ==> forall i :: 0 <= i < |ops| ==> codes[i] == 0
  {
    m := new AddrManImpl(env, key);
    hide Inv, Timed, Pending, Later, History, TableOf, Acceptable;
    codes, states := PerformAll(m, ops);
    FirstFailure(states, ops, codes, |ops|);
    PositiveAcceptable(states, ops);
  }

  /** A new manager that hears of one address and connects to it at time zero fails its check, until
      a connection at a positive time. */
  method ZeroTimeFails(env: Env, key: Key, addr: Address, source: NetAddr) returns (before: int, after: int, again: int)
    requires key != 0 && env.valid(addr.service.ip) && !env.special(addr.service.ip)
    ensures before == 0 && after != 0 && again == 0
  {
    hide Inv, TimedBut, Pending, Later, Consistent, TableOf;
    var m := new AddrManImpl(env, key);
    ghost var s := m.St();
    var inserted := m.AddSingle(addr, source, 0, 0);
    AddedTimed(s, m.St(), addr.service, source, inserted);
    ConsistentIffTimed(m.St());
    before := CheckAddrman(m);
    TimedOthers(m.St(), m.mapAddr[addr.service]);
    hide Timed, Added;
    var _ := m.Good(addr.service, 0);
    ConsistentIffTimed(m.St());
    after := CheckAddrman(m);
    var _ := m.Good(addr.service, 1);
    ConsistentIffTimed(m.St());
    again := CheckAddrman(m);
  }

  lemma AddedTimed(s: State, t: State, a: Service, source: NetAddr, inserted: bool)
    requires Inv(s) && Timed(s) && Added(s, t, a, source, inserted)
    ensures Timed(t) && t.triedTable == s.triedTable && (inserted ==> a in t.addr)
  {
    hide Structured, Referenced, Timed;
    StructuredAddressed(s);
    AddedLater(s, t, a, source, inserted);
  }
}
