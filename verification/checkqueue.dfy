/** The parallel check queue as a protocol of one master and any number of workers.
    A step is one critical section, or one evaluation outside the lock. */
module CheckQueue {
  import opened Prelude

  // A verification is named by a number; `passes` says what evaluating it returns.
  type Check = nat
  type Verdicts = Check -> bool

  datatype Thread =
    | Outside                                            // has not entered Loop, or has returned
    | Seeking                                            // at the loop head, holding the lock
    | Waiting(notified: bool)                            // blocked on its condition variable
    | Working(batch: seq<Check>, evaluated: nat, fOk: bool)

  /** The outcome of one Wait, with everything that was added for it. */
  datatype Round = Round(added: multiset<Check>, result: bool)

  // Thread 0 is the master. `added`, `finished` and `rounds` record history.
  datatype State = State(
    queue: seq<Check>,
    nIdle: int,
    nTotal: int,
    fAllOk: bool,
    nTodo: int,
    threads: seq<Thread>,
    added: multiset<Check>,
    finished: multiset<Check>,
    rounds: seq<Round>)

  datatype Step =
    | Add(checks: seq<Check>)   // the master pushes a batch
    | Enter(t: nat)             // a worker starts, or the master calls Wait
    | Evaluate(t: nat)          // evaluate (or skip) the next check of a batch
    | Finish(t: nat)            // clean up after a batch, then look for more work
    | Wake(t: nat)              // return from a condition-variable wait, notified or not

  function Initial(workers: nat): State {
    State([], 0, 0, true, 0, seq(workers + 1, _ => Outside), multiset{}, multiset{}, [])
  }

  lemma {:induction false} ProductBound(q: nat, d: nat)
    requires d > 0
    ensures q * d >= q
  {
  }

  lemma {:induction false} QuotientBound(a: nat, d: nat)
    requires d > 0
    ensures a / d <= a
  {
    var q, r := a / d, a % d;
    assert a == q * d + r;
    ProductBound(q, d);
  }

  /** How many checks a thread takes; never more than there are. */
  function BatchSize(nBatchSize: nat, s: State): (n: int)
    requires s.nTotal >= 0 && s.nIdle >= 0 && s.queue != []
    ensures 1 <= n <= |s.queue| && n <= Max(1, nBatchSize)
  {
    QuotientBound(|s.queue|, s.nTotal + s.nIdle + 1);
    Max(1, Min(nBatchSize, |s.queue| / (s.nTotal + s.nIdle + 1)))
  }

  /** The loop head, entered with the lock held: return, wait, or take a batch. */
  function SeekWork(nBatchSize: nat, s: State, t: nat): State
    requires t < |s.threads| && s.threads[t].Seeking? && s.nTotal >= 0 && s.nIdle >= 0
  {
    if s.queue == [] then
      if t == 0 && s.nTodo == 0 then
        s.(nTotal := s.nTotal - 1, fAllOk := true, threads := s.threads[t := Outside],
           added := multiset{}, finished := multiset{}, rounds := s.rounds + [Round(s.added, s.fAllOk)])
      else
        s.(nIdle := s.nIdle + 1, threads := s.threads[t := Waiting(false)])
    else
      var cut := |s.queue| - BatchSize(nBatchSize, s);
      s.(queue := s.queue[..cut], threads := s.threads[t := Working(s.queue[cut..], 0, s.fAllOk)])
  }

  function NotifyMaster(ts: seq<Thread>): seq<Thread>
    requires |ts| > 0
  {
    if ts[0].Waiting? then ts[0 := Waiting(true)] else ts
  }

  // The state in which a thread has handed in its batch and looks for more work.
  function HandIn(s: State, t: nat): State
    requires t < |s.threads| && s.threads[t].Working?
  {
    var w := s.threads[t];
    var left := s.nTodo - |w.batch|;
    var ts := if left == 0 && t != 0 then NotifyMaster(s.threads) else s.threads;
    s.(fAllOk := s.fAllOk && w.fOk, nTodo := left, threads := ts[t := Seeking], finished := s.finished + multiset(w.batch))
  }

  predicate Enabled(s: State, a: Step) {
    match a
    case Add(_) => |s.threads| > 0 && s.threads[0].Outside?
    case Enter(t) => t < |s.threads| && s.threads[t].Outside?
    case Evaluate(t) => t < |s.threads| && s.threads[t].Working? && s.threads[t].evaluated < |s.threads[t].batch|
    case Finish(t) => t < |s.threads| && s.threads[t].Working? && s.threads[t].evaluated == |s.threads[t].batch|
    case Wake(t) => t < |s.threads| && s.threads[t].Waiting?
  }

  /** One step; the loop head's divisor is positive in every reachable state. */
  function Next(nBatchSize: nat, passes: Verdicts, s: State, a: Step): State
    requires Enabled(s, a) && s.nTotal >= 0 && s.nIdle >= 0 && (a.Wake? ==> s.nIdle > 0)
  {
    match a
    case Add(checks) =>
      s.(queue := s.queue + checks, nTodo := s.nTodo + |checks|, added := s.added + multiset(checks))
    case Enter(t) =>
      SeekWork(nBatchSize, s.(nTotal := s.nTotal + 1, threads := s.threads[t := Seeking]), t)
    case Evaluate(t) =>
      var w := s.threads[t];
      var ok := if w.fOk then passes(w.batch[w.evaluated]) else false;
      s.(threads := s.threads[t := Working(w.batch, w.evaluated + 1, ok)])
    case Finish(t) =>
      SeekWork(nBatchSize, HandIn(s, t), t)
    case Wake(t) =>
      SeekWork(nBatchSize, s.(nIdle := s.nIdle - 1, threads := s.threads[t := Seeking]), t)
  }

  // ---------- What the threads hold ----------

  function Held(th: Thread): multiset<Check> {
    if th.Working? then multiset(th.batch) else multiset{}
  }

  function InFlight(ts: seq<Thread>): multiset<Check> {
    if ts == [] then multiset{} else Held(ts[0]) + InFlight(ts[1..])
  }

  function One(b: bool): nat { if b then 1 else 0 }

  function Idle(ts: seq<Thread>): nat {
    if ts == [] then 0 else One(ts[0].Waiting?) + Idle(ts[1..])
  }

  function Inside(ts: seq<Thread>): nat {
    if ts == [] then 0 else One(!ts[0].Outside?) + Inside(ts[1..])
  }

  lemma Associate<T>(a: multiset<T>, b: multiset<T>, c: multiset<T>)
    ensures a + (b + c) == a + b + c
  {
  }

  // A thread that held nothing now holds x's batch.
  lemma {:induction false} PickUp(ts: seq<Thread>, t: nat, x: Thread)
    requires t < |ts| && Held(ts[t]) == multiset{}
    ensures InFlight(ts[t := x]) == InFlight(ts) + Held(x)
  {
    hide Held;
    if t == 0 {
      assert ts[t := x][1..] == ts[1..];
    } else {
      PickUp(ts[1..], t - 1, x);
      assert ts[t := x][1..] == ts[1..][t - 1 := x];
      Associate(Held(ts[0]), InFlight(ts[1..]), Held(x));
    }
  }

  // A thread puts down its batch.
  lemma {:induction false} PutDown(ts: seq<Thread>, t: nat, x: Thread)
    requires t < |ts| && Held(x) == multiset{}
    ensures InFlight(ts) == InFlight(ts[t := x]) + Held(ts[t])
  {
    PickUp(ts[t := x], t, ts[t]);
    assert ts[t := x][t := ts[t]] == ts;
  }

  lemma HeldNothing()
    ensures Held(Seeking) == multiset{}
  {
  }

  lemma {:induction false} SameLoad(ts: seq<Thread>, t: nat, x: Thread)
    requires t < |ts| && Held(ts[t]) == Held(x)
    ensures InFlight(ts[t := x]) == InFlight(ts)
  {
    hide InFlight, Held;
    HeldNothing();
    PutDown(ts, t, Seeking);
    PickUp(ts[t := Seeking], t, x);
    assert ts[t := Seeking][t := x] == ts[t := x];
  }

  lemma {:induction false} Recount(ts: seq<Thread>, t: nat, x: Thread)
    requires t < |ts|
    ensures Idle(ts[t := x]) + One(ts[t].Waiting?) == Idle(ts) + One(x.Waiting?)
    ensures Inside(ts[t := x]) + One(!ts[t].Outside?) == Inside(ts) + One(!x.Outside?)
  {
    if t == 0 {
      assert ts[t := x][1..] == ts[1..];
    } else {
      Recount(ts[1..], t - 1, x);
      assert ts[t := x][1..] == ts[1..][t - 1 := x];
    }
  }

  lemma {:induction false} HeldInFlight(ts: seq<Thread>, t: nat)
    requires t < |ts|
    ensures Held(ts[t]) <= InFlight(ts)
    ensures ts[t].Waiting? ==> Idle(ts) > 0
    ensures !ts[t].Outside? ==> Inside(ts) > 0
  {
    if t > 0 {
      HeldInFlight(ts[1..], t - 1);
    }
  }

  // A check in flight is in some thread's batch.
  lemma {:induction false} SomeoneHolds(ts: seq<Thread>, c: Check) returns (t: nat)
    requires c in InFlight(ts)
    ensures t < |ts| && c in Held(ts[t])
  {
    if c in Held(ts[0]) {
      t := 0;
    } else {
      var u := SomeoneHolds(ts[1..], c);
      t := u + 1;
    }
  }

  // ---------- The invariant ----------

  ghost predicate AllPass(passes: Verdicts, m: multiset<Check>) {
    forall c :: c in m ==> passes(c)
  }

  ghost predicate ThreadOk(passes: Verdicts, s: State, th: Thread) {
    th.Working? ==>
      && 0 < |th.batch| && th.evaluated <= |th.batch|
      && (th.fOk ==> forall i :: 0 <= i < th.evaluated ==> passes(th.batch[i]))
      && (!th.fOk ==> !AllPass(passes, s.added))
  }

  ghost predicate Counters(s: State) {
    && |s.threads| > 0
    && s.nTodo == |s.queue| + |InFlight(s.threads)|
    && multiset(s.queue) + InFlight(s.threads) + s.finished == s.added
    && s.nIdle == Idle(s.threads)
    && s.nTotal == Inside(s.threads)
  }

  ghost predicate Inv(passes: Verdicts, s: State) {
    && Counters(s)
    && (if s.fAllOk then AllPass(passes, s.finished) else !AllPass(passes, s.added))
    && (forall t :: 0 <= t < |s.threads| ==> ThreadOk(passes, s, s.threads[t]))
    && (s.threads[0] == Waiting(false) ==> s.queue == [] && s.nTodo > 0)
    && (forall i :: 0 <= i < |s.rounds| ==> (s.rounds[i].result <==> AllPass(passes, s.rounds[i].added)))
  }

  // The invariant while thread t holds the lock at the loop head.
  ghost predicate SeekInv(passes: Verdicts, s: State, t: nat) {
    && Counters(s) && t < |s.threads| && s.threads[t].Seeking?
    && (if s.fAllOk then AllPass(passes, s.finished) else !AllPass(passes, s.added))
    && (forall u :: 0 <= u < |s.threads| && u != t ==> ThreadOk(passes, s, s.threads[u]))
    && (s.threads[0] == Waiting(false) ==> s.queue == [] && s.nTodo > 0)
    && (forall i :: 0 <= i < |s.rounds| ==> (s.rounds[i].result <==> AllPass(passes, s.rounds[i].added)))
  }

  lemma {:induction false} ReturnKeepsInv(nBatchSize: nat, passes: Verdicts, s: State)
    requires SeekInv(passes, s, 0) && s.queue == [] && s.nTodo == 0
    ensures Inv(passes, SeekWork(nBatchSize, s, 0))
  {
    hide InFlight, Idle, Inside;
    SameLoad(s.threads, 0, Outside);
    Recount(s.threads, 0, Outside);
    forall u | 0 < u < |s.threads| ensures !s.threads[u].Working? {
      NoneWorking(passes, s, u);
    }
  }

  lemma {:induction false} NoneWorking(passes: Verdicts, s: State, u: nat)
    requires u < |s.threads| && ThreadOk(passes, s, s.threads[u]) && InFlight(s.threads) == multiset{}
    ensures !s.threads[u].Working?
  {
    HeldInFlight(s.threads, u);
  }

  lemma {:induction false} WaitKeepsInv(nBatchSize: nat, passes: Verdicts, s: State, t: nat)
    requires SeekInv(passes, s, t) && s.queue == [] && !(t == 0 && s.nTodo == 0)
    ensures Inv(passes, SeekWork(nBatchSize, s, t))
  {
    hide InFlight, Idle, Inside;
    SameLoad(s.threads, t, Waiting(false));
    Recount(s.threads, t, Waiting(false));
  }

  lemma Transfer<T>(a: multiset<T>, b: multiset<T>, i: multiset<T>, f: multiset<T>)
    ensures a + (i + b) + f == (a + b) + i + f
  {
  }

  /** Moving the end of the queue into a thread's hands changes no total. */
  lemma {:induction false} TakeCounters(s: State, t: nat, cut: nat, fOk: bool)
    requires Counters(s) && t < |s.threads| && s.threads[t].Seeking? && cut <= |s.queue|
    ensures Counters(s.(queue := s.queue[..cut], threads := s.threads[t := Working(s.queue[cut..], 0, fOk)]))
  {
    hide InFlight, Idle, Inside;
    var w := Working(s.queue[cut..], 0, fOk);
    assert s.queue == s.queue[..cut] + s.queue[cut..];
    PickUp(s.threads, t, w);
    Recount(s.threads, t, w);
    Transfer(multiset(s.queue[..cut]), Held(w), InFlight(s.threads), s.finished);
  }

  lemma {:induction false} TakeKeepsInv(nBatchSize: nat, passes: Verdicts, s: State, t: nat)
    requires SeekInv(passes, s, t) && s.queue != [] && s.nTotal >= 0 && s.nIdle >= 0
    ensures Inv(passes, SeekWork(nBatchSize, s, t))
  {
    var cut := |s.queue| - BatchSize(nBatchSize, s);
    TakeCounters(s, t, cut, s.fAllOk);
    var next := SeekWork(nBatchSize, s, t);
    assert next == s.(queue := s.queue[..cut], threads := s.threads[t := Working(s.queue[cut..], 0, s.fAllOk)]);
    hide SeekWork, Counters, BatchSize;
    forall u | 0 <= u < |next.threads| ensures ThreadOk(passes, next, next.threads[u]) {
      if u != t { assert ThreadOk(passes, s, s.threads[u]); }
    }
  }

  lemma {:induction false} SeekWorkKeepsInv(nBatchSize: nat, passes: Verdicts, s: State, t: nat)
    requires SeekInv(passes, s, t)
    ensures Inv(passes, SeekWork(nBatchSize, s, t))
  {
    if s.queue != [] {
      TakeKeepsInv(nBatchSize, passes, s, t);
    } else if t == 0 && s.nTodo == 0 {
      ReturnKeepsInv(nBatchSize, passes, s);
    } else {
      WaitKeepsInv(nBatchSize, passes, s, t);
    }
  }

  // ---------- Every step keeps the invariant ----------

  lemma {:induction false} Steppable(passes: Verdicts, s: State, a: Step)
    requires Inv(passes, s) && Enabled(s, a)
    ensures s.nTotal >= 0 && s.nIdle >= 0 && (a.Wake? ==> s.nIdle > 0)
  {
    if a.Wake? {
      HeldInFlight(s.threads, a.t);
    }
  }

  lemma {:induction false} AddKeepsInv(nBatchSize: nat, passes: Verdicts, s: State, checks: seq<Check>)
    requires Inv(passes, s) && Enabled(s, Add(checks))
    ensures Inv(passes, Next(nBatchSize, passes, s, Add(checks)))
  {
    hide InFlight, Idle, Inside;
    var s' := Next(nBatchSize, passes, s, Add(checks));
    assert multiset(s'.queue) == multiset(s.queue) + multiset(checks);
    assert forall c :: c in s.added ==> c in s'.added;
    forall t | 0 <= t < |s'.threads| ensures ThreadOk(passes, s', s'.threads[t]) {
      assert ThreadOk(passes, s, s.threads[t]);
    }
  }

  lemma {:induction false} EnterKeepsInv(nBatchSize: nat, passes: Verdicts, s: State, t: nat)
    requires Inv(passes, s) && Enabled(s, Enter(t))
    ensures Inv(passes, Next(nBatchSize, passes, s, Enter(t)))
  {
    hide InFlight, Idle, Inside, SeekWork;
    var mid := s.(nTotal := s.nTotal + 1, threads := s.threads[t := Seeking]);
    SameLoad(s.threads, t, Seeking);
    Recount(s.threads, t, Seeking);
    forall u | 0 <= u < |s.threads| && u != t ensures ThreadOk(passes, mid, mid.threads[u]) {
      assert ThreadOk(passes, s, s.threads[u]);
    }
    SeekWorkKeepsInv(nBatchSize, passes, mid, t);
  }

  lemma {:induction false} WakeKeepsInv(nBatchSize: nat, passes: Verdicts, s: State, t: nat)
    requires Inv(passes, s) && Enabled(s, Wake(t)) && s.nIdle > 0
    ensures Inv(passes, Next(nBatchSize, passes, s, Wake(t)))
  {
    hide InFlight, Idle, Inside, SeekWork;
    var mid := s.(nIdle := s.nIdle - 1, threads := s.threads[t := Seeking]);
    SameLoad(s.threads, t, Seeking);
    Recount(s.threads, t, Seeking);
    forall u | 0 <= u < |s.threads| && u != t ensures ThreadOk(passes, mid, mid.threads[u]) {
      assert ThreadOk(passes, s, s.threads[u]);
    }
    SeekWorkKeepsInv(nBatchSize, passes, mid, t);
  }

  lemma {:induction false} HeldWasAdded(s: State, t: nat, i: nat)
    requires Counters(s) && t < |s.threads| && s.threads[t].Working? && i < |s.threads[t].batch|
    ensures s.threads[t].batch[i] in s.added
  {
    assert s.threads[t].batch[i] in Held(s.threads[t]);
    HeldInFlight(s.threads, t);
  }

  // Replacing a thread by one that holds the same batch keeps every counter.
  lemma {:induction false} CountersUnmoved(s: State, t: nat, x: Thread)
    requires Counters(s) && t < |s.threads| && s.threads[t].Working? && x.Working? && x.batch == s.threads[t].batch
    ensures Counters(s.(threads := s.threads[t := x]))
  {
    hide InFlight, Idle, Inside;
    Recount(s.threads, t, x);
    SameLoad(s.threads, t, x);
  }

  lemma {:induction false} EvaluateKeepsInv(nBatchSize: nat, passes: Verdicts, s: State, t: nat)
    requires Inv(passes, s) && Enabled(s, Evaluate(t))
    ensures Inv(passes, Next(nBatchSize, passes, s, Evaluate(t)))
  {
    hide InFlight, Idle, Inside;
    var w := s.threads[t];
    var s' := Next(nBatchSize, passes, s, Evaluate(t));
    CountersUnmoved(s, t, s'.threads[t]);
    HeldWasAdded(s, t, w.evaluated);
    forall u | 0 <= u < |s'.threads| ensures ThreadOk(passes, s', s'.threads[u]) {
      assert ThreadOk(passes, s, s.threads[u]);
    }
  }

  lemma {:induction false} Regroup(q: multiset<Check>, a: multiset<Check>, b: multiset<Check>, f: multiset<Check>)
    ensures q + (a + b) + f == q + a + (f + b)
  {
  }

  lemma {:induction false} HandInCounters(s: State, t: nat)
    requires Counters(s) && t < |s.threads| && s.threads[t].Working?
    ensures Counters(HandIn(s, t))
  {
    hide InFlight, Idle, Inside;
    var w, s' := s.threads[t], HandIn(s, t);
    var ts := if s'.nTodo == 0 && t != 0 then NotifyMaster(s.threads) else s.threads;
    NotifyChangesNothing(s.threads);
    PutDown(ts, t, Seeking);
    Recount(ts, t, Seeking);
    Regroup(multiset(s.queue), InFlight(s'.threads), multiset(w.batch), s.finished);
  }

  lemma {:induction false} HandInVerdict(passes: Verdicts, s: State, t: nat)
    requires Inv(passes, s) && Enabled(s, Finish(t))
    ensures var s' := HandIn(s, t);
            if s'.fAllOk then AllPass(passes, s'.finished) else !AllPass(passes, s'.added)
  {
    hide InFlight, Idle, Inside;
    var w, s' := s.threads[t], HandIn(s, t);
    assert ThreadOk(passes, s, w);
    if s'.fAllOk {
      forall c | c in multiset(w.batch) ensures passes(c) {
        assert c in w.batch;
      }
    }
  }

  lemma {:induction false} FinishKeepsInv(nBatchSize: nat, passes: Verdicts, s: State, t: nat)
    requires Inv(passes, s) && Enabled(s, Finish(t))
    ensures Inv(passes, Next(nBatchSize, passes, s, Finish(t)))
  {
    hide InFlight, Idle, Inside, SeekWork;
    var s' := HandIn(s, t);
    HandInCounters(s, t);
    HandInVerdict(passes, s, t);
    forall u | 0 <= u < |s.threads| && u != t ensures ThreadOk(passes, s', s'.threads[u]) {
      assert ThreadOk(passes, s, s.threads[u]);
    }
    SeekWorkKeepsInv(nBatchSize, passes, s', t);
  }

  lemma {:induction false} NotifyChangesNothing(ts: seq<Thread>)
    requires |ts| > 0
    ensures InFlight(NotifyMaster(ts)) == InFlight(ts)
    ensures Idle(NotifyMaster(ts)) == Idle(ts) && Inside(NotifyMaster(ts)) == Inside(ts)
  {
    hide InFlight, Idle, Inside;
    if ts[0].Waiting? {
      SameLoad(ts, 0, Waiting(true));
      Recount(ts, 0, Waiting(true));
    }
  }

  lemma {:induction false} StepKeepsInv(nBatchSize: nat, passes: Verdicts, s: State, a: Step)
    requires Inv(passes, s) && Enabled(s, a)
    ensures s.nTotal >= 0 && s.nIdle >= 0 && (a.Wake? ==> s.nIdle > 0)
    ensures Inv(passes, Next(nBatchSize, passes, s, a))
  {
    Steppable(passes, s, a);
    match a
    case Add(checks) => AddKeepsInv(nBatchSize, passes, s, checks);
    case Enter(t) => EnterKeepsInv(nBatchSize, passes, s, t);
    case Evaluate(t) => EvaluateKeepsInv(nBatchSize, passes, s, t);
    case Finish(t) => FinishKeepsInv(nBatchSize, passes, s, t);
    case Wake(t) => WakeKeepsInv(nBatchSize, passes, s, t);
  }

  // ---------- Whole runs ----------

  /** States reachable in any interleaving, with any number of workers and no stop request. */
  ghost predicate Reachable(nBatchSize: nat, passes: Verdicts, workers: nat, trace: seq<State>, steps: seq<Step>) {
    && |trace| == |steps| + 1
    && trace[0] == Initial(workers)
    && forall i :: 0 <= i < |steps| ==>
         && Enabled(trace[i], steps[i])
         && trace[i].nTotal >= 0 && trace[i].nIdle >= 0 && (steps[i].Wake? ==> trace[i].nIdle > 0)
         && trace[i + 1] == Next(nBatchSize, passes, trace[i], steps[i])
  }

  lemma {:induction false} NobodyYet(n: nat)
    ensures var ts := seq(n, _ => Outside);
            InFlight(ts) == multiset{} && Idle(ts) == 0 && Inside(ts) == 0
  {
    if n > 0 {
      NobodyYet(n - 1);
      assert seq(n, _ => Outside)[1..] == seq(n - 1, _ => Outside);
    }
  }

  /** The invariant holds in every reachable state. */
  lemma {:induction false} ReachableInv(nBatchSize: nat, passes: Verdicts, workers: nat, trace: seq<State>,
                                        steps: seq<Step>, k: nat)
    requires Reachable(nBatchSize, passes, workers, trace, steps) && k < |trace|
    ensures Inv(passes, trace[k])
  {
    if k == 0 {
      NobodyYet(workers + 1);
    } else {
      ReachableInv(nBatchSize, passes, workers, trace, steps, k - 1);
      StepKeepsInv(nBatchSize, passes, trace[k - 1], steps[k - 1]);
    }
  }

  /** Every Wait of every run returned true exactly when all checks added for it pass. */
  lemma WaitIsExact(nBatchSize: nat, passes: Verdicts, workers: nat, trace: seq<State>, steps: seq<Step>, k: nat,
                    i: nat)
    requires Reachable(nBatchSize, passes, workers, trace, steps) && k < |trace| && i < |trace[k].rounds|
    ensures trace[k].rounds[i].result <==> forall c :: c in trace[k].rounds[i].added ==> passes(c)
  {
    ReachableInv(nBatchSize, passes, workers, trace, steps, k);
  }

  /** A check that was added once is queued, or in one thread's batch, or finished: never two of these. */
  lemma TakenOnce(passes: Verdicts, s: State, t: nat, c: Check)
    requires Inv(passes, s) && t < |s.threads| && c in Held(s.threads[t]) && s.added[c] == 1
    ensures c !in s.queue && c !in s.finished
    ensures forall u :: 0 <= u < |s.threads| && u != t ==> c !in Held(s.threads[u])
  {
    HeldInFlight(s.threads, t);
    assert s.added[c] == multiset(s.queue)[c] + InFlight(s.threads)[c] + s.finished[c];
    assert c in s.queue <==> c in multiset(s.queue);
    forall u | 0 <= u < |s.threads| && u != t ensures c !in Held(s.threads[u]) {
      PutDown(s.threads, t, Seeking);
      HeldInFlight(s.threads[t := Seeking], u);
    }
  }

  /** While the master is blocked and not yet notified, some worker holds an unfinished batch. */
  lemma BlockedMasterHasHelper(passes: Verdicts, s: State) returns (t: nat)
    requires Inv(passes, s) && s.threads[0] == Waiting(false)
    ensures 0 < t < |s.threads| && s.threads[t].Working? && |s.threads[t].batch| > 0
    ensures Enabled(s, Evaluate(t)) || Enabled(s, Finish(t))
  {
    assert |InFlight(s.threads)| > 0;
    var c :| c in InFlight(s.threads);
    t := SomeoneHolds(s.threads, c);
    assert ThreadOk(passes, s, s.threads[t]);
  }

  // ---------- Progress ----------

  function Effort(th: Thread): int {
    if th.Working? then 2 * (|th.batch| - th.evaluated) + 1 else 0
  }

  function TotalEffort(ts: seq<Thread>): int {
    if ts == [] then 0 else Effort(ts[0]) + TotalEffort(ts[1..])
  }

  /** Work left: queued checks weigh more than taken ones, a taken batch more than its checks. */
  function WorkLeft(s: State): int {
    4 * |s.queue| + TotalEffort(s.threads)
  }

  lemma {:induction false} EffortReplace(ts: seq<Thread>, t: nat, x: Thread)
    requires t < |ts|
    ensures TotalEffort(ts[t := x]) == TotalEffort(ts) - Effort(ts[t]) + Effort(x)
  {
    if t == 0 {
      assert ts[t := x][1..] == ts[1..];
    } else {
      EffortReplace(ts[1..], t - 1, x);
      assert ts[t := x][1..] == ts[1..][t - 1 := x];
    }
  }

  lemma {:induction false} SeekWorkShrinks(nBatchSize: nat, s: State, t: nat)
    requires t < |s.threads| && s.threads[t].Seeking? && s.nTotal >= 0 && s.nIdle >= 0
    ensures WorkLeft(SeekWork(nBatchSize, s, t)) <= WorkLeft(s)
  {
    EffortReplace(s.threads, t, SeekWork(nBatchSize, s, t).threads[t]);
  }

  lemma {:induction false} HandInShrinks(s: State, t: nat)
    requires Enabled(s, Finish(t))
    ensures WorkLeft(HandIn(s, t)) == WorkLeft(s) - 1
    ensures var s' := HandIn(s, t); t < |s'.threads| && s'.threads[t].Seeking? && s'.nTotal == s.nTotal && s'.nIdle == s.nIdle
  {
    var s' := HandIn(s, t);
    var ts := if s'.nTodo == 0 && t != 0 then NotifyMaster(s.threads) else s.threads;
    if s.threads[0].Waiting? {
      EffortReplace(s.threads, 0, Waiting(true));
    }
    EffortReplace(ts, t, Seeking);
  }

  /** Evaluating or finishing a batch strictly reduces the work left; waking and entering never
      add any. */
  lemma {:induction false} ProductiveStepsShrinkWork(nBatchSize: nat, passes: Verdicts, s: State, a: Step)
    requires Enabled(s, a) && !a.Add?
    requires s.nTotal >= 0 && s.nIdle >= 0 && (a.Wake? ==> s.nIdle > 0)
    ensures WorkLeft(Next(nBatchSize, passes, s, a)) <= WorkLeft(s)
    ensures a.Evaluate? || a.Finish? ==> WorkLeft(Next(nBatchSize, passes, s, a)) < WorkLeft(s)
  {
    hide TotalEffort, SeekWork, HandIn;
    match a
    case Enter(t) =>
      EffortReplace(s.threads, t, Seeking);
      SeekWorkShrinks(nBatchSize, s.(nTotal := s.nTotal + 1, threads := s.threads[t := Seeking]), t);
    case Evaluate(t) =>
      EffortReplace(s.threads, t, Next(nBatchSize, passes, s, a).threads[t]);
    case Finish(t) =>
      HandInShrinks(s, t);
      SeekWorkShrinks(nBatchSize, HandIn(s, t), t);
    case Wake(t) =>
      EffortReplace(s.threads, t, Seeking);
      SeekWorkShrinks(nBatchSize, s.(nIdle := s.nIdle - 1, threads := s.threads[t := Seeking]), t);
  }

  /** Evaluations and hand-ins among the steps from i up to j. */
  function Productive(steps: seq<Step>, i: nat, j: nat): nat
    requires i <= j <= |steps|
    decreases j - i
  {
    if i == j then 0 else Productive(steps, i, j - 1) + One(steps[j - 1].Evaluate? || steps[j - 1].Finish?)
  }

  lemma {:induction false} EffortNonNegative(passes: Verdicts, s: State, ts: seq<Thread>)
    requires forall t :: 0 <= t < |ts| ==> ThreadOk(passes, s, ts[t])
    ensures TotalEffort(ts) >= 0
  {
    if ts != [] {
      assert ThreadOk(passes, s, ts[0]);
      forall t | 0 <= t < |ts[1..]| ensures ThreadOk(passes, s, ts[1..][t]) { assert ts[1..][t] == ts[t + 1]; }
      EffortNonNegative(passes, s, ts[1..]);
    }
  }

  /** In every stretch of every run during which nothing is added, at most as many checks are
      evaluated and batches handed in as there was work left at its start. */
  lemma {:induction false} FiniteProgress(nBatchSize: nat, passes: Verdicts, workers: nat, trace: seq<State>,
                                          steps: seq<Step>, i: nat, j: nat)
    requires Reachable(nBatchSize, passes, workers, trace, steps) && i <= j <= |steps|
    requires forall k :: i <= k < j ==> !steps[k].Add?
    ensures 0 <= WorkLeft(trace[j]) && Productive(steps, i, j) + WorkLeft(trace[j]) <= WorkLeft(trace[i])
    decreases j - i
  {
    hide WorkLeft, Inv;
    ReachableInv(nBatchSize, passes, workers, trace, steps, j);
    WorkNonNegative(passes, trace[j]);
    if i < j {
      FiniteProgress(nBatchSize, passes, workers, trace, steps, i, j - 1);
      ProductiveStepsShrinkWork(nBatchSize, passes, trace[j - 1], steps[j - 1]);
    }
  }

  lemma {:induction false} WorkNonNegative(passes: Verdicts, s: State)
    requires Inv(passes, s)
    ensures WorkLeft(s) >= 0
  {
    EffortNonNegative(passes, s, s.threads);
  }
}
