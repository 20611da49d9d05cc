/** The worker pool: producers that push a buffer and signal, workers that wait
    on the condition variable, in any interleaving before shutdown; and who
    owns each receive buffer on its way from a connection through the queue to
    a worker. */
module ThreadPool {
  import opened Common

  type Buf = nat

  /** Where a worker is in ThreadFunc. Testing and Holding are inside the mutex;
      Done has freed its buffer and not yet lowered the running count. */
  datatype Worker = Top | Testing | Sleeping | Woken | Holding(job: Buf) | Got(job: Buf) | Running(job: Buf) | Done

  /** Where a thread that received a packet is in inMsgRecvQueueAndSignal.
      Locked and Pushed are inside the mutex. */
  datatype Producer = Idle | Wants(buf: Buf) | Locked(buf: Buf) | Pushed | Signalling

  datatype Mutex = Free | ByWorker(w: nat) | ByProducer(p: nat)

  /** A connection: whether it is leased, whether it is receiving a body, and
      its receive buffer. */
  datatype Conn = Conn(leased: bool, body: bool, mem: Option<Buf>)

  /** pushed and taken are all buffers that entered and left the queue so far,
      processed those a worker freed, dropped those freed elsewhere, and next
      counts the allocations. */
  datatype State = State(
    conns: seq<Conn>,
    producers: seq<Producer>,
    workers: seq<Worker>,
    mutex: Mutex,
    queue: seq<Buf>,
    queueCount: int,
    running: int,
    pushed: seq<Buf>,
    taken: seq<Buf>,
    processed: seq<Buf>,
    dropped: seq<Buf>,
    next: Buf)

  /** Lease to BodyDone are what happens to connections; BodyDone and
      HeaderOnly hand a complete packet to producer p, unless it is flood. */
  datatype Event =
    | Lease(c: nat)
    | Release(c: nat)
    | BeginBody(c: nat)
    | BodyDone(c: nat, p: nat, flood: bool)
    | HeaderOnly(c: nat, p: nat, flood: bool)
    | ProducerStep(p: nat)
    | Signal(p: nat, w: nat)
    | WorkerStep(w: nat)
    | Spurious(w: nat)

  // ---------------------------------------------------------------------
  // Sums over threads.

  function Sum<T>(xs: seq<T>, f: T -> nat): nat {
    if xs == [] then 0 else f(xs[0]) + Sum(xs[1..], f)
  }

  function Union<T>(xs: seq<T>, f: T -> multiset<Buf>): multiset<Buf> {
    if xs == [] then multiset{} else f(xs[0]) + Union(xs[1..], f)
  }

  lemma {:induction false} SumUpdate<T>(xs: seq<T>, f: T -> nat, i: nat, x: T)
    requires i < |xs|
    ensures Sum(xs[i := x], f) + f(xs[i]) == Sum(xs, f) + f(x)
  {
    if i == 0 {
      assert xs[i := x][1..] == xs[1..];
    } else {
      SumUpdate(xs[1..], f, i - 1, x);
      assert xs[i := x][1..] == xs[1..][i - 1 := x];
    }
  }

  lemma {:induction false} UnionUpdate<T>(xs: seq<T>, f: T -> multiset<Buf>, i: nat, x: T, b: Buf)
    requires i < |xs|
    ensures Union(xs[i := x], f)[b] + f(xs[i])[b] == Union(xs, f)[b] + f(x)[b]
  {
    if i == 0 {
      assert xs[i := x][1..] == xs[1..];
    } else {
      UnionUpdate(xs[1..], f, i - 1, x, b);
      assert xs[i := x][1..] == xs[1..][i - 1 := x];
    }
  }

  lemma {:induction false} SumAll<T>(xs: seq<T>, f: T -> nat)
    requires forall i :: 0 <= i < |xs| ==> f(xs[i]) == 1
    ensures Sum(xs, f) == |xs|
  {
    if xs != [] {
      SumAll(xs[1..], f);
    }
  }

  lemma {:induction false} SumNone<T>(xs: seq<T>, f: T -> nat)
    requires forall i :: 0 <= i < |xs| ==> f(xs[i]) == 0
    ensures Sum(xs, f) == 0
  {
    if xs != [] {
      SumNone(xs[1..], f);
    }
  }

  lemma {:induction false} SumSome<T>(xs: seq<T>, f: T -> nat) returns (i: nat)
    requires Sum(xs, f) > 0
    ensures i < |xs| && f(xs[i]) > 0
  {
    if f(xs[0]) > 0 {
      i := 0;
    } else {
      i := SumSome(xs[1..], f);
      i := i + 1;
    }
  }

  lemma {:induction false} UnionNone<T>(xs: seq<T>, f: T -> multiset<Buf>)
    requires forall i :: 0 <= i < |xs| ==> f(xs[i]) == multiset{}
    ensures Union(xs, f) == multiset{}
  {
    if xs != [] {
      UnionNone(xs[1..], f);
    }
  }

  // ---------------------------------------------------------------------
  // The steps.

  predicate InMutexW(w: Worker) {
    w.Testing? || w.Holding?
  }

  predicate InMutexP(p: Producer) {
    p.Locked? || p.Pushed?
  }

  function Awake(w: Worker): nat {
    if w.Sleeping? then 0 else 1
  }

  function Processing(w: Worker): nat {
    if w.Running? || w.Done? then 1 else 0
  }

  /** A buffer is in the queue and its signal has not been given. */
  function Owes(p: Producer): nat {
    if p.Pushed? || p.Signalling? then 1 else 0
  }

  function WorkerBufs(w: Worker): multiset<Buf> {
    if w.Holding? || w.Got? || w.Running? then multiset{w.job} else multiset{}
  }

  function ProducerBufs(p: Producer): multiset<Buf> {
    if p.Wants? || p.Locked? then multiset{p.buf} else multiset{}
  }

  function ConnBufs(c: Conn): multiset<Buf> {
    if c.mem.Some? then multiset{c.mem.value} else multiset{}
  }

  predicate ProducerReady(s: State, p: nat) {
    p < |s.producers| && (s.producers[p].Locked? || s.producers[p].Pushed? || (s.producers[p].Wants? && s.mutex.Free?))
  }

  predicate WorkerReady(s: State, w: nat) {
    && w < |s.workers| && !s.workers[w].Sleeping?
    && (s.workers[w].Top? || s.workers[w].Woken? ==> s.mutex.Free?)
  }

  predicate Enabled(s: State, e: Event) {
    match e
    case Lease(c) => c < |s.conns| && !s.conns[c].leased
    case Release(c) => c < |s.conns| && s.conns[c].leased
    case BeginBody(c) => c < |s.conns| && s.conns[c].leased && !s.conns[c].body
    case BodyDone(c, p, _) =>
      c < |s.conns| && s.conns[c].leased && s.conns[c].body && s.conns[c].mem.Some? && p < |s.producers| && s.producers[p].Idle?
    case HeaderOnly(c, p, _) =>
      c < |s.conns| && s.conns[c].leased && !s.conns[c].body && p < |s.producers| && s.producers[p].Idle?
    case ProducerStep(p) => ProducerReady(s, p)
    case Signal(p, w) =>
      && p < |s.producers| && s.producers[p].Signalling?
      && ((w < |s.workers| && s.workers[w].Sleeping?) || forall i :: 0 <= i < |s.workers| ==> !s.workers[i].Sleeping?)
    case WorkerStep(w) => WorkerReady(s, w)
    case Spurious(w) => w < |s.workers| && s.workers[w].Sleeping?
  }

  /** One atomic step of inMsgRecvQueueAndSignal before the signal. */
  function Produced(s: State, p: nat): State
    requires ProducerReady(s, p)
  {
    match s.producers[p]
    case Wants(buf) => s.(producers := s.producers[p := Locked(buf)], mutex := ByProducer(p))
    case Locked(buf) =>
      s.(producers := s.producers[p := Pushed], queue := s.queue + [buf], queueCount := s.queueCount + 1,
         pushed := s.pushed + [buf])
    case _ => s.(producers := s.producers[p := Signalling], mutex := Free)
  }

  /** One atomic step of ThreadFunc. The loop's test and the pop are together:
      both are inside the mutex. */
  function Worked(s: State, w: nat): State
    requires WorkerReady(s, w)
  {
    match s.workers[w]
    case Top => s.(workers := s.workers[w := Testing], mutex := ByWorker(w))
    case Woken => s.(workers := s.workers[w := Testing], mutex := ByWorker(w))
    case Testing =>
      if s.queue == [] then
        s.(workers := s.workers[w := Sleeping], mutex := Free)
      else
        s.(workers := s.workers[w := Holding(s.queue[0])], queue := s.queue[1..], queueCount := s.queueCount - 1,
           taken := s.taken + [s.queue[0]])
    case Holding(job) => s.(workers := s.workers[w := Got(job)], mutex := Free)
    case Got(job) => s.(workers := s.workers[w := Running(job)], running := s.running + 1)
    case Running(job) => s.(workers := s.workers[w := Done], processed := s.processed + [job])
    case _ => s.(workers := s.workers[w := Top], running := s.running - 1)
  }

  function Woke(s: State, w: nat): State {
    if w < |s.workers| && s.workers[w].Sleeping? then s.(workers := s.workers[w := Woken]) else s
  }

  /** A complete packet: flood is freed at once, the rest goes to the pool. */
  function HandedOver(s: State, c: nat, p: nat, buf: Buf, flood: bool): State
    requires c < |s.conns| && p < |s.producers|
  {
    var t := s.(conns := s.conns[c := Conn(s.conns[c].leased, false, None)]);
    if flood then t.(dropped := s.dropped + [buf]) else t.(producers := s.producers[p := Wants(buf)])
  }

  function Next(s: State, e: Event): State
    requires Enabled(s, e)
  {
    match e
    case Lease(c) => s.(conns := s.conns[c := Conn(true, false, None)])
    case Release(c) =>
      s.(conns := s.conns[c := Conn(false, s.conns[c].body, None)],
         dropped := if s.conns[c].mem.Some? then s.dropped + [s.conns[c].mem.value] else s.dropped)
    case BeginBody(c) => s.(conns := s.conns[c := Conn(true, true, Some(s.next))], next := s.next + 1)
    case BodyDone(c, p, flood) => HandedOver(s, c, p, s.conns[c].mem.value, flood)
    case HeaderOnly(c, p, flood) => HandedOver(s, c, p, s.next, flood).(next := s.next + 1)
    case ProducerStep(p) => Produced(s, p)
    case Signal(p, w) => Woke(s.(producers := s.producers[p := Idle]), w)
    case WorkerStep(w) => Worked(s, w)
    case Spurious(w) => Woke(s, w)
  }

  predicate Runs(s: State, events: seq<Event>, t: State)
    decreases events
  {
    if events == [] then s == t else Enabled(s, events[0]) && Runs(Next(s, events[0]), events[1..], t)
  }

  /** No connection leased, every thread at its start. */
  predicate Initial(s: State) {
    && (forall c :: 0 <= c < |s.conns| ==> s.conns[c] == Conn(false, false, None))
    && (forall p :: 0 <= p < |s.producers| ==> s.producers[p] == Idle)
    && (forall w :: 0 <= w < |s.workers| ==> s.workers[w] == Top)
    && s.mutex == Free && s.queue == s.pushed == s.taken == s.processed == s.dropped == []
    && s.queueCount == s.running == 0 && s.next == 0
  }

  // ---------------------------------------------------------------------
  // The invariant.

  /** The mutex is held by exactly the thread that is inside it. */
  predicate Exclusive(s: State) {
    && (forall w :: 0 <= w < |s.workers| ==> (InMutexW(s.workers[w]) <==> s.mutex == ByWorker(w)))
    && (forall p :: 0 <= p < |s.producers| ==> (InMutexP(s.producers[p]) <==> s.mutex == ByProducer(p)))
    && (s.mutex.ByWorker? ==> s.mutex.w < |s.workers|)
    && (s.mutex.ByProducer? ==> s.mutex.p < |s.producers|)
  }

  predicate Counted(s: State) {
    s.queueCount == |s.queue| && s.running == Sum(s.workers, Processing)
  }

  /** Enough threads are awake, or will be woken, for the queue. */
  predicate Supplied(s: State) {
    Sum(s.workers, Awake) + Sum(s.producers, Owes) >= Min(|s.queue|, |s.workers|)
  }

  /** The queue hands out in order what entered it, to workers. */
  ghost predicate InOrder(s: State) {
    s.pushed == s.taken + s.queue && multiset(s.taken) == Union(s.workers, WorkerBufs) + multiset(s.processed)
  }

  /** All the places a buffer can be in, on the way into the queue or past it. */
  function Places(s: State): multiset<Buf> {
    Union(s.conns, ConnBufs) + Union(s.producers, ProducerBufs) + multiset(s.pushed) + multiset(s.dropped)
  }

  /** Every allocated buffer is in one place. */
  ghost predicate Owned(s: State) {
    forall b: Buf :: Places(s)[b] == if b < s.next then 1 else 0
  }

  /** A leased connection owns a buffer exactly while it receives a body. */
  predicate ConnsOk(s: State) {
    forall c :: 0 <= c < |s.conns| ==> (s.conns[c].mem.Some? <==> s.conns[c].leased && s.conns[c].body)
  }

  ghost predicate Inv(s: State) {
    Exclusive(s) && Counted(s) && Supplied(s) && InOrder(s) && Owned(s) && ConnsOk(s)
  }

  lemma InitialInv(s: State)
    requires Initial(s)
    ensures Inv(s)
  {
    hide Sum, Union;
    SumAll(s.workers, Awake);
    SumNone(s.workers, Processing);
    UnionNone(s.workers, WorkerBufs);
    UnionNone(s.producers, ProducerBufs);
    UnionNone(s.conns, ConnBufs);
    assert Places(s) == multiset{};
    assert InOrder(s);
    assert Counted(s);
    assert Supplied(s);
    assert Owned(s);
  }

  lemma ExclusiveStep(s: State, e: Event)
    requires Exclusive(s) && Enabled(s, e)
    ensures Exclusive(Next(s, e))
  {
    match e
    case WorkerStep(w) => ExclusiveWorker(s, w);
    case ProducerStep(p) => ExclusiveProducer(s, p);
    case _ =>
  }

  lemma ExclusiveWorker(s: State, w: nat)
    requires Exclusive(s) && WorkerReady(s, w)
    ensures Exclusive(Worked(s, w))
  {
  }

  lemma ExclusiveProducer(s: State, p: nat)
    requires Exclusive(s) && ProducerReady(s, p)
    ensures Exclusive(Produced(s, p))
  {
  }

  lemma ConnsStep(s: State, e: Event)
    requires ConnsOk(s) && Enabled(s, e)
    ensures ConnsOk(Next(s, e))
  {
  }

  lemma CountedWorker(s: State, w: nat)
    requires Counted(s) && WorkerReady(s, w)
    ensures Counted(Worked(s, w))
  {
    hide Sum;
    SumUpdate(s.workers, Processing, w, Worked(s, w).workers[w]);
  }

  lemma CountedStep(s: State, e: Event)
    requires Counted(s) && Enabled(s, e)
    ensures Counted(Next(s, e))
  {
    hide Sum, Worked;
    match e
    case WorkerStep(w) =>
      CountedWorker(s, w);
    case Signal(p, w) =>
      if w < |s.workers| {
        SumUpdate(s.workers, Processing, w, Woken);
      }
    case Spurious(w) =>
      SumUpdate(s.workers, Processing, w, Woken);
    case _ =>
  }

  lemma SuppliedWorker(s: State, w: nat)
    requires Supplied(s) && WorkerReady(s, w)
    ensures Supplied(Worked(s, w))
  {
    hide Sum;
    SumUpdate(s.workers, Awake, w, Worked(s, w).workers[w]);
  }

  lemma SuppliedProducer(s: State, p: nat)
    requires Supplied(s) && ProducerReady(s, p)
    ensures Supplied(Produced(s, p))
  {
    hide Sum;
    SumUpdate(s.producers, Owes, p, Produced(s, p).producers[p]);
  }

  lemma SuppliedSignal(s: State, p: nat, w: nat)
    requires Supplied(s) && Enabled(s, Signal(p, w))
    ensures Supplied(Next(s, Signal(p, w)))
  {
    var t := Next(s, Signal(p, w));
    hide Sum;
    SumUpdate(s.producers, Owes, p, Idle);
    if w < |s.workers| && s.workers[w].Sleeping? {
      SumUpdate(s.workers, Awake, w, Woken);
    } else {
      SumAll(s.workers, Awake);
    }
  }

  lemma SuppliedStep(s: State, e: Event)
    requires Supplied(s) && Enabled(s, e)
    ensures Supplied(Next(s, e))
  {
    hide Sum;
    match e
    case WorkerStep(w) =>
      SuppliedWorker(s, w);
    case ProducerStep(p) =>
      SuppliedProducer(s, p);
    case Signal(p, w) =>
      SuppliedSignal(s, p, w);
    case Spurious(w) =>
      SumUpdate(s.workers, Awake, w, Woken);
    case BodyDone(c, p, flood) =>
      SumUpdate(s.producers, Owes, p, Next(s, e).producers[p]);
    case HeaderOnly(c, p, flood) =>
      SumUpdate(s.producers, Owes, p, Next(s, e).producers[p]);
    case _ =>
  }

  lemma OrderPop(s: State, w: nat)
    requires InOrder(s) && WorkerReady(s, w) && s.workers[w].Testing? && s.queue != []
    ensures InOrder(Worked(s, w))
  {
    hide Union;
    var t := Worked(s, w);
    assert s.queue == [s.queue[0]] + s.queue[1..];
    forall b: Buf
      ensures multiset(t.taken)[b] == (Union(t.workers, WorkerBufs) + multiset(t.processed))[b]
    {
      UnionUpdate(s.workers, WorkerBufs, w, t.workers[w], b);
    }
  }

  lemma OrderSame(s: State, t: State, w: nat, x: Worker)
    requires InOrder(s) && w < |s.workers| && t.workers == s.workers[w := x]
    requires WorkerBufs(x) == WorkerBufs(s.workers[w])
    requires t.taken == s.taken && t.queue == s.queue && t.pushed == s.pushed && t.processed == s.processed
    ensures InOrder(t)
  {
    hide Union, WorkerBufs;
    forall b: Buf
      ensures Union(t.workers, WorkerBufs)[b] == Union(s.workers, WorkerBufs)[b]
    {
      UnionUpdate(s.workers, WorkerBufs, w, x, b);
    }
    assert Union(t.workers, WorkerBufs) == Union(s.workers, WorkerBufs);
  }

  lemma OrderFreed(s: State, w: nat)
    requires InOrder(s) && WorkerReady(s, w) && s.workers[w].Running?
    ensures InOrder(Worked(s, w))
  {
    hide Union;
    var t := Worked(s, w);
    forall b: Buf
      ensures multiset(t.taken)[b] == (Union(t.workers, WorkerBufs) + multiset(t.processed))[b]
    {
      UnionUpdate(s.workers, WorkerBufs, w, Done, b);
      assert multiset(s.taken)[b] == (Union(s.workers, WorkerBufs) + multiset(s.processed))[b];
    }
  }

  lemma OrderWorker(s: State, w: nat)
    requires InOrder(s) && WorkerReady(s, w)
    ensures InOrder(Worked(s, w))
  {
    hide InOrder, Sum, Union;
    var t := Worked(s, w);
    match s.workers[w]
    case Top => OrderSame(s, t, w, Testing);
    case Woken => OrderSame(s, t, w, Testing);
    case Testing =>
      if s.queue == [] {
        OrderSame(s, t, w, Sleeping);
      } else {
        OrderPop(s, w);
      }
    case Holding(job) => OrderSame(s, t, w, Got(job));
    case Got(job) => OrderSame(s, t, w, Running(job));
    case Running(_) => OrderFreed(s, w);
    case _ => OrderSame(s, t, w, Top);
  }

  lemma OrderWoke(s: State, w: nat)
    requires InOrder(s)
    ensures InOrder(Woke(s, w))
  {
    hide Union;
    if w < |s.workers| && s.workers[w].Sleeping? {
      forall b: Buf
        ensures Union(s.workers[w := Woken], WorkerBufs)[b] == Union(s.workers, WorkerBufs)[b]
      {
        UnionUpdate(s.workers, WorkerBufs, w, Woken, b);
      }
      assert Union(s.workers[w := Woken], WorkerBufs) == Union(s.workers, WorkerBufs);
    }
  }

  lemma OrderStep(s: State, e: Event)
    requires InOrder(s) && Enabled(s, e)
    ensures InOrder(Next(s, e))
  {
    hide Union, Woke;
    match e
    case WorkerStep(w) => OrderWorker(s, w);
    case Signal(p, w) => OrderWoke(s.(producers := s.producers[p := Idle]), w);
    case Spurious(w) => OrderWoke(s, w);
    case ProducerStep(p) => OrderProducer(s, p);
    case _ =>
  }

  lemma OrderProducer(s: State, p: nat)
    requires InOrder(s) && ProducerReady(s, p)
    ensures InOrder(Produced(s, p))
  {
    hide Union;
    if s.producers[p].Locked? {
      assert Produced(s, p).pushed == s.taken + (s.queue + [s.producers[p].buf]);
    }
  }

  lemma PlacesProducer(s: State, p: nat, b: Buf)
    requires ProducerReady(s, p)
    ensures Places(Produced(s, p))[b] == Places(s)[b] && Produced(s, p).next == s.next
  {
    hide Union;
    UnionUpdate(s.producers, ProducerBufs, p, Produced(s, p).producers[p], b);
  }

  lemma PlacesHandedOver(s: State, c: nat, p: nat, buf: Buf, flood: bool, b: Buf)
    requires c < |s.conns| && p < |s.producers| && s.producers[p].Idle?
    ensures Places(HandedOver(s, c, p, buf, flood))[b] + ConnBufs(s.conns[c])[b] == Places(s)[b] + multiset{buf}[b]
    ensures HandedOver(s, c, p, buf, flood).next == s.next
  {
    hide Union;
    var t := HandedOver(s, c, p, buf, flood);
    UnionUpdate(s.conns, ConnBufs, c, t.conns[c], b);
    UnionUpdate(s.producers, ProducerBufs, p, t.producers[p], b);
  }

  lemma PlacesHeaderOnly(s: State, c: nat, p: nat, flood: bool, b: Buf)
    requires Enabled(s, HeaderOnly(c, p, flood)) && ConnsOk(s)
    ensures Places(Next(s, HeaderOnly(c, p, flood)))[b] == Places(s)[b] + if b == s.next then 1 else 0
    ensures Next(s, HeaderOnly(c, p, flood)).next == s.next + 1
  {
    hide Union;
    PlacesHandedOver(s, c, p, s.next, flood, b);
  }

  lemma PlacesConn(s: State, e: Event, b: Buf)
    requires ConnsOk(s) && Enabled(s, e) && (e.Lease? || e.Release? || e.BeginBody?)
    ensures Places(Next(s, e))[b] == Places(s)[b] + if e.BeginBody? && b == s.next then 1 else 0
  {
    hide Union;
    UnionUpdate(s.conns, ConnBufs, e.c, Next(s, e).conns[e.c], b);
  }

  lemma PlacesSignal(s: State, p: nat, w: nat, b: Buf)
    requires Enabled(s, Signal(p, w))
    ensures Places(Next(s, Signal(p, w)))[b] == Places(s)[b]
  {
    hide Union;
    UnionUpdate(s.producers, ProducerBufs, p, Idle, b);
  }

  lemma PlacesSame(s: State, t: State)
    requires t.conns == s.conns && t.producers == s.producers && t.pushed == s.pushed && t.dropped == s.dropped
    ensures Places(t) == Places(s)
  {
  }

  lemma PlacesWorker(s: State, w: nat)
    requires WorkerReady(s, w)
    ensures Places(Worked(s, w)) == Places(s) && Worked(s, w).next == s.next
  {
    hide Places;
    PlacesSame(s, Worked(s, w));
  }

  lemma PlacesWoke(s: State, w: nat)
    ensures Places(Woke(s, w)) == Places(s)
  {
    hide Places;
    PlacesSame(s, Woke(s, w));
  }

  lemma PlacesStep(s: State, e: Event, b: Buf)
    requires ConnsOk(s) && Enabled(s, e)
    ensures Places(Next(s, e))[b] == Places(s)[b] + if s.next <= b < Next(s, e).next then 1 else 0
  {
    hide Places, Worked, Produced, HandedOver;
    match e
    case ProducerStep(p) => PlacesProducer(s, p, b);
    case Signal(p, w) => PlacesSignal(s, p, w, b);
    case BodyDone(c, p, flood) => PlacesHandedOver(s, c, p, s.conns[c].mem.value, flood, b);
    case HeaderOnly(c, p, flood) => PlacesHeaderOnly(s, c, p, flood, b);
    case WorkerStep(w) => PlacesWorker(s, w);
    case Spurious(w) => PlacesWoke(s, w);
    case _ => PlacesConn(s, e, b);
  }

  lemma NextGrows(s: State, e: Event)
    requires Enabled(s, e)
    ensures s.next <= Next(s, e).next
  {
  }

  lemma OwnedStep(s: State, e: Event)
    requires Owned(s) && ConnsOk(s) && Enabled(s, e)
    ensures Owned(Next(s, e))
  {
    hide Places, Enabled, Next, ConnsOk;
    var t := Next(s, e);
    NextGrows(s, e);
    forall b: Buf
      ensures Places(t)[b] == if b < t.next then 1 else 0
    {
      PlacesStep(s, e, b);
    }
  }

  /** Every step of every thread keeps the invariant. */
  lemma InvStep(s: State, e: Event)
    requires Inv(s) && Enabled(s, e)
    ensures Inv(Next(s, e))
  {
    hide Exclusive, Counted, Supplied, InOrder, Owned, ConnsOk;
    ExclusiveStep(s, e);
    CountedStep(s, e);
    SuppliedStep(s, e);
    OrderStep(s, e);
    OwnedStep(s, e);
    ConnsStep(s, e);
  }

  lemma {:induction false} EveryRun(s: State, events: seq<Event>, t: State)
    requires Inv(s) && Runs(s, events, t)
    ensures Inv(t)
    decreases events
  {
    hide Inv, Enabled, Next;
    if events != [] {
      InvStep(s, events[0]);
      EveryRun(Next(s, events[0]), events[1..], t);
    }
  }

  // ---------------------------------------------------------------------
  // The pool keeps working.

  /** In every interleaving: the counters are right, and queued work is never
      left with every thread asleep and no signal owed. */
  lemma KeepsWorking(s: State, events: seq<Event>, t: State)
    requires Initial(s) && Runs(s, events, t)
    ensures Sum(t.workers, Awake) + Sum(t.producers, Owes) >= Min(|t.queue|, |t.workers|)
    ensures t.queueCount == |t.queue| && t.running == Sum(t.workers, Processing)
    ensures t.queue != [] && t.workers != [] ==>
      || (exists w :: 0 <= w < |t.workers| && !t.workers[w].Sleeping?)
      || (exists p :: 0 <= p < |t.producers| && (t.producers[p].Pushed? || t.producers[p].Signalling?))
  {
    InitialInv(s);
    EveryRun(s, events, t);
    hide Sum;
    if t.queue != [] && t.workers != [] {
      if Sum(t.workers, Awake) > 0 {
        var w := SumSome(t.workers, Awake);
      } else {
        var p := SumSome(t.producers, Owes);
      }
    }
  }

  /** A step the pool takes on its own: no new packet, no spurious wake-up. */
  predicate Internal(e: Event) {
    e.ProducerStep? || e.Signal? || e.WorkerStep?
  }

  ghost predicate Stuck(s: State) {
    forall e :: Internal(e) ==> !Enabled(s, e)
  }

  /** The thread inside the mutex can always go on. */
  lemma HolderMoves(s: State)
    requires Exclusive(s) && Stuck(s)
    ensures s.mutex.Free?
  {
    match s.mutex
    case Free =>
    case ByWorker(w) =>
      assert Enabled(s, WorkerStep(w));
    case ByProducer(p) =>
      assert Enabled(s, ProducerStep(p));
  }

  /** Nothing deadlocks: the pool stops only with all its work done, every
      thread asleep and every producer idle. */
  lemma StuckIsDone(s: State)
    requires Inv(s) && Stuck(s) && s.workers != []
    ensures s.queue == [] && s.queueCount == 0 && s.running == 0
    ensures forall w :: 0 <= w < |s.workers| ==> s.workers[w].Sleeping?
    ensures forall p :: 0 <= p < |s.producers| ==> s.producers[p].Idle?
    ensures s.pushed == s.taken && multiset(s.processed) == multiset(s.pushed)
  {
    hide Sum, Union;
    HolderMoves(s);
    forall w | 0 <= w < |s.workers|
      ensures s.workers[w].Sleeping?
    {
      assert !Enabled(s, WorkerStep(w));
    }
    forall p | 0 <= p < |s.producers|
      ensures s.producers[p].Idle?
    {
      assert !Enabled(s, ProducerStep(p)) && !Enabled(s, Signal(p, 0));
    }
    SumNone(s.workers, Awake);
    SumNone(s.workers, Processing);
    SumNone(s.producers, Owes);
    UnionNone(s.workers, WorkerBufs);
    assert s.taken + [] == s.taken;
  }

  function WorkerWork(w: Worker): nat {
    match w
    case Sleeping => 0
    case Testing => 1
    case Top => 2
    case Woken => 2
    case Done => 3
    case Running(_) => 4
    case Got(_) => 5
    case Holding(_) => 6
  }

  function ProducerWork(p: Producer): nat {
    match p
    case Idle => 0
    case Signalling => 3
    case Pushed => 4
    case Locked(_) => 11
    case Wants(_) => 12
  }

  /** How many steps are left at most. */
  function Work(s: State): nat {
    6 * |s.queue| + Sum(s.workers, WorkerWork) + Sum(s.producers, ProducerWork)
  }

  lemma WorkStep(s: State, e: Event)
    requires Internal(e) && Enabled(s, e)
    ensures Work(Next(s, e)) < Work(s)
  {
    hide Sum;
    var t := Next(s, e);
    match e
    case ProducerStep(p) =>
      SumUpdate(s.producers, ProducerWork, p, t.producers[p]);
    case WorkerStep(w) =>
      SumUpdate(s.workers, WorkerWork, w, t.workers[w]);
    case Signal(p, w) =>
      SumUpdate(s.producers, ProducerWork, p, Idle);
      if w < |s.workers| {
        SumUpdate(s.workers, WorkerWork, w, t.workers[w]);
      }
  }

  predicate AllInternal(events: seq<Event>) {
    forall i :: 0 <= i < |events| ==> Internal(events[i])
  }

  /** What has left a producer stays handed over, in order. */
  lemma PushedGrows(s: State, e: Event)
    requires Enabled(s, e)
    ensures s.pushed <= Next(s, e).pushed
  {
  }

  /** Without new packets every run is finite, and one that cannot go on has
      processed exactly once everything ever handed to the pool, in order. */
  lemma {:induction false} EveryRunDrains(s: State, events: seq<Event>, t: State)
    requires Inv(s) && s.workers != [] && Runs(s, events, t) && AllInternal(events)
    ensures |events| + Work(t) <= Work(s)
    ensures s.pushed <= t.pushed
    ensures Stuck(t) ==> t.queue == [] && t.taken == t.pushed && multiset(t.processed) == multiset(t.pushed)
    decreases events
  {
    hide Inv, Enabled, Next, Work;
    if events == [] {
      if Stuck(t) {
        StuckIsDone(t);
      }
    } else {
      var e := events[0];
      assert Internal(e);
      InvStep(s, e);
      WorkStep(s, e);
      PushedGrows(s, e);
      ThreadsStay(s, e);
      EveryRunDrains(Next(s, e), events[1..], t);
    }
  }

  lemma ThreadsStay(s: State, e: Event)
    requires Enabled(s, e)
    ensures |Next(s, e).workers| == |s.workers|
  {
  }

  /** How many complete packets the events hand over: those not counted as flood. */
  function Completed(events: seq<Event>): nat {
    if events == [] then 0
    else (if (events[0].BodyDone? || events[0].HeaderOnly?) && !events[0].flood then 1 else 0) + Completed(events[1..])
  }

  function Carries(p: Producer): nat {
    if p.Wants? || p.Locked? then 1 else 0
  }

  lemma CompletedStep(s: State, e: Event)
    requires Enabled(s, e)
    ensures |Next(s, e).pushed| + Sum(Next(s, e).producers, Carries) ==
      |s.pushed| + Sum(s.producers, Carries) + if (e.BodyDone? || e.HeaderOnly?) && !e.flood then 1 else 0
  {
    hide Sum, Worked;
    match e
    case ProducerStep(p) =>
      SumUpdate(s.producers, Carries, p, Next(s, e).producers[p]);
    case Signal(p, w) =>
      SumUpdate(s.producers, Carries, p, Idle);
    case BodyDone(c, p, flood) =>
      SumUpdate(s.producers, Carries, p, Next(s, e).producers[p]);
    case HeaderOnly(c, p, flood) =>
      SumUpdate(s.producers, Carries, p, Next(s, e).producers[p]);
    case WorkerStep(w) =>
      WorkerPushesNothing(s, w);
    case _ =>
  }

  lemma WorkerPushesNothing(s: State, w: nat)
    requires WorkerReady(s, w)
    ensures Worked(s, w).pushed == s.pushed && Worked(s, w).producers == s.producers
  {
  }

  lemma {:induction false} CompletedRun(s: State, events: seq<Event>, t: State)
    requires Runs(s, events, t)
    ensures |t.pushed| + Sum(t.producers, Carries) == |s.pushed| + Sum(s.producers, Carries) + Completed(events)
    decreases events
  {
    hide Enabled, Next, Sum;
    if events != [] {
      CompletedStep(s, events[0]);
      CompletedRun(Next(s, events[0]), events[1..], t);
    }
  }

  /** Whenever the pool has come to rest, every complete packet that was not
      flood has been processed, once. */
  lemma EveryPacketProcessed(s: State, events: seq<Event>, t: State)
    requires Initial(s) && Runs(s, events, t) && s.workers != [] && Stuck(t)
    ensures |t.processed| == Completed(events)
  {
    InitialInv(s);
    SumNone(s.producers, Carries);
    hide Inv, Initial, Enabled, Next, Sum, Stuck;
    EveryRun(s, events, t);
    CompletedRun(s, events, t);
    WorkersStay(s, events, t);
    StuckIsDone(t);
    SumNone(t.producers, Carries);
    assert |multiset(t.processed)| == |multiset(t.pushed)|;
  }

  lemma {:induction false} WorkersStay(s: State, events: seq<Event>, t: State)
    requires Runs(s, events, t)
    ensures |t.workers| == |s.workers|
    decreases events
  {
    hide Enabled, Next;
    if events != [] {
      ThreadsStay(s, events[0]);
      WorkersStay(Next(s, events[0]), events[1..], t);
    }
  }

  // ---------------------------------------------------------------------
  // Buffers.

  /** Connections, producers, the queue, workers, and the buffers freed by
      workers or elsewhere. */
  function Owners(s: State): multiset<Buf> {
    Union(s.conns, ConnBufs) + Union(s.producers, ProducerBufs) + multiset(s.queue)
    + Union(s.workers, WorkerBufs) + multiset(s.processed) + multiset(s.dropped)
  }

  /** In every reachable state each allocated buffer has exactly one owner: a
      connection, a producer, the queue, a worker, or it was freed, once. Each
      queued one is taken once, in queue order. A leased connection owns one
      exactly in the body states. */
  lemma BufferOwnership(s: State, events: seq<Event>, t: State)
    requires Initial(s) && Runs(s, events, t)
    ensures forall b: Buf :: Owners(t)[b] == if b < t.next then 1 else 0
    ensures t.pushed == t.taken + t.queue && forall b: Buf :: multiset(t.pushed)[b] <= 1
    ensures forall c :: 0 <= c < |t.conns| && t.conns[c].leased ==> (t.conns[c].mem.Some? <==> t.conns[c].body)
  {
    InitialInv(s);
    EveryRun(s, events, t);
    hide Union;
    assert multiset(t.pushed) == multiset(t.taken) + multiset(t.queue);
    assert Owners(t) == Places(t);
    forall b: Buf
      ensures multiset(t.pushed)[b] <= 1
    {
      assert Places(t)[b] <= 1;
    }
  }

  // ---------------------------------------------------------------------
  // The pool as the server runs it.

  /** Extends a run by the step that is about to be taken. */
  lemma Did(start: State, events: seq<Event>, s: State, e: Event) returns (longer: seq<Event>)
    requires Inv(s) && Runs(start, events, s) && Enabled(s, e)
    ensures longer == events + [e] && Inv(Next(s, e)) && Runs(start, longer, Next(s, e))
  {
    hide Inv, Next, Enabled;
    InvStep(s, e);
    longer := events + [e];
    RunsSnoc(start, events, s, e);
  }

  lemma {:induction false} RunsSnoc(s: State, events: seq<Event>, t: State, e: Event)
    requires Runs(s, events, t) && Enabled(t, e)
    ensures Runs(s, events + [e], Next(t, e))
    decreases events
  {
    hide Next, Enabled;
    if events == [] {
      assert [e][1..] == [];
      assert Runs(Next(t, e), [], Next(t, e));
    } else {
      RunsSnoc(Next(s, events[0]), events[1..], t, e);
      assert (events + [e])[1..] == events[1..] + [e];
    }
  }

  class WorkerPool {
    var m_MsgRecvQueue: seq<Buf>
    var m_iRecvMsgQueueCount: int
    var m_iRunningThreadNum: int
    var m_pthreadMutex: Mutex
    var producers: seq<Producer>
    var workers: seq<Worker>
    var conns: seq<Conn>
    var pushed: seq<Buf>
    var taken: seq<Buf>
    var processed: seq<Buf>
    var dropped: seq<Buf>
    var next: Buf

    ghost function View(): State
      reads this
    {
      State(conns, producers, workers, m_pthreadMutex, m_MsgRecvQueue, m_iRecvMsgQueueCount, m_iRunningThreadNum,
            pushed, taken, processed, dropped, next)
    }

    ghost predicate Valid()
      reads this
    {
      Inv(View())
    }

    /** No thread has got anywhere yet. */
    constructor (connections: nat, producing: nat, threads: nat)
      ensures Valid() && Initial(View())
      ensures |conns| == connections && |producers| == producing && |workers| == threads
    {
      m_MsgRecvQueue, pushed, taken, processed, dropped := [], [], [], [], [];
      m_iRecvMsgQueueCount, m_iRunningThreadNum, next := 0, 0, 0;
      m_pthreadMutex := Free;
      conns := seq(connections, i => Conn(false, false, None));
      producers := seq(producing, i => Idle);
      workers := seq(threads, i => Top);
      new;
      InitialInv(View());
    }

    /** pthread_mutex_lock by a producer, when the mutex is free. */
    method Lock(p: nat, buf: Buf)
      requires p < |producers| && producers[p] == Wants(buf) && m_pthreadMutex == Free
      modifies this`m_pthreadMutex, this`producers
      ensures producers == old(producers)[p := Locked(buf)] && m_pthreadMutex == ByProducer(p)
      ensures View() == Next(old(View()), ProducerStep(p))
    {
      m_pthreadMutex := ByProducer(p);
      producers := producers[p := Locked(buf)];
    }

    method PushBack(p: nat, buf: Buf)
      requires p < |producers| && producers[p] == Locked(buf)
      modifies this`m_MsgRecvQueue, this`m_iRecvMsgQueueCount, this`pushed, this`producers
      ensures producers == old(producers)[p := Pushed] && m_MsgRecvQueue == old(m_MsgRecvQueue) + [buf]
      ensures View() == Next(old(View()), ProducerStep(p))
    {
      m_MsgRecvQueue := m_MsgRecvQueue + [buf];
      m_iRecvMsgQueueCount := m_iRecvMsgQueueCount + 1;
      pushed := pushed + [buf];
      producers := producers[p := Pushed];
    }

    method Unlock(p: nat)
      requires p < |producers| && producers[p] == Pushed
      modifies this`m_pthreadMutex, this`producers
      ensures producers == old(producers)[p := Signalling] && m_pthreadMutex == Free
      ensures View() == Next(old(View()), ProducerStep(p))
    {
      m_pthreadMutex := Free;
      producers := producers[p := Signalling];
    }

    /** The signal wakes w, unless no thread waits. */
    method Call(p: nat, w: nat)
      requires Enabled(View(), Signal(p, w))
      modifies this`producers, this`workers
      ensures producers == old(producers)[p := Idle]
      ensures workers == if w < |old(workers)| && old(workers)[w].Sleeping? then old(workers)[w := Woken] else old(workers)
      ensures View() == Next(old(View()), Signal(p, w))
    {
      producers := producers[p := Idle];
      if w < |workers| && workers[w].Sleeping? {
        workers := workers[w := Woken];
      }
    }

    /** The part of inMsgRecvQueueAndSignal inside the mutex. */
    method PushLocked(p: nat, buf: Buf) returns (ghost events: seq<Event>)
      requires Valid() && p < |producers| && producers[p] == Wants(buf) && m_pthreadMutex == Free
      modifies this`m_pthreadMutex, this`m_MsgRecvQueue, this`m_iRecvMsgQueueCount, this`pushed, this`producers
      ensures Valid() && Runs(old(View()), events, View())
      ensures events == [ProducerStep(p), ProducerStep(p), ProducerStep(p)]
      ensures m_MsgRecvQueue == old(m_MsgRecvQueue) + [buf] && m_pthreadMutex == Free
      ensures producers == old(producers)[p := Signalling]
    {
      hide Inv, Next, Runs;
      ghost var start := View();
      NoRun(start);
      events := Did(start, [], start, ProducerStep(p));
      Lock(p, buf);
      events := Did(start, events, View(), ProducerStep(p));
      PushBack(p, buf);
      events := Did(start, events, View(), ProducerStep(p));
      Unlock(p);
    }

    /** inMsgRecvQueueAndSignal by producer p, when no other thread gets in
        between; w is the thread that pthread_cond_signal picks. */
    method InMsgRecvQueueAndSignal(p: nat, buf: Buf, w: nat) returns (ghost events: seq<Event>)
      requires Valid() && p < |producers| && producers[p] == Wants(buf) && m_pthreadMutex == Free
      requires (w < |workers| && workers[w].Sleeping?) || forall i :: 0 <= i < |workers| ==> !workers[i].Sleeping?
      modifies this
      ensures Valid() && Runs(old(View()), events, View())
      ensures events == [ProducerStep(p), ProducerStep(p), ProducerStep(p), Signal(p, w)]
      ensures m_MsgRecvQueue == old(m_MsgRecvQueue) + [buf] && m_pthreadMutex == Free
      ensures producers == old(producers)[p := Idle]
      ensures workers == if w < |old(workers)| && old(workers)[w].Sleeping? then old(workers)[w := Woken] else old(workers)
    {
      hide Inv, Next, Runs;
      ghost var start := View();
      events := PushLocked(p, buf);
      events := Did(start, events, View(), Signal(p, w));
      Call(p, w);
    }

    /** The loop in ThreadFunc gets the mutex, at its top or after a wait. */
    method Enter(w: nat)
      requires w < |workers| && m_pthreadMutex == Free && (workers[w].Top? || workers[w].Woken?)
      modifies this`m_pthreadMutex, this`workers
      ensures workers == old(workers)[w := Testing] && m_pthreadMutex == ByWorker(w)
      ensures View() == Next(old(View()), WorkerStep(w))
    {
      m_pthreadMutex := ByWorker(w);
      workers := workers[w := Testing];
    }

    /** pthread_cond_wait on an empty queue; otherwise the first buffer. */
    method TakeOrWait(w: nat) returns (jobbuf: Option<Buf>)
      requires w < |workers| && workers[w] == Testing
      modifies this`m_pthreadMutex, this`workers, this`m_MsgRecvQueue, this`m_iRecvMsgQueueCount, this`taken
      ensures View() == Next(old(View()), WorkerStep(w))
      ensures if old(m_MsgRecvQueue) == [] then
          jobbuf == None && workers == old(workers)[w := Sleeping] && m_MsgRecvQueue == [] && m_pthreadMutex == Free
        else
          && jobbuf == Some(old(m_MsgRecvQueue)[0]) && workers == old(workers)[w := Holding(jobbuf.value)]
          && m_MsgRecvQueue == old(m_MsgRecvQueue)[1..]
    {
      if |m_MsgRecvQueue| == 0 {
        workers := workers[w := Sleeping];
        m_pthreadMutex := Free;
        return None;
      }
      jobbuf := Some(m_MsgRecvQueue[0]);
      m_MsgRecvQueue := m_MsgRecvQueue[1..];
      m_iRecvMsgQueueCount := m_iRecvMsgQueueCount - 1;
      taken := taken + [jobbuf.value];
      workers := workers[w := Holding(jobbuf.value)];
    }

    method Leave(w: nat, jobbuf: Buf)
      requires w < |workers| && workers[w] == Holding(jobbuf)
      modifies this`m_pthreadMutex, this`workers
      ensures workers == old(workers)[w := Got(jobbuf)] && m_pthreadMutex == Free
      ensures View() == Next(old(View()), WorkerStep(w))
    {
      m_pthreadMutex := Free;
      workers := workers[w := Got(jobbuf)];
    }

    method Begin(w: nat, jobbuf: Buf)
      requires w < |workers| && workers[w] == Got(jobbuf)
      modifies this`m_iRunningThreadNum, this`workers
      ensures workers == old(workers)[w := Running(jobbuf)] && m_iRunningThreadNum == old(m_iRunningThreadNum) + 1
      ensures View() == Next(old(View()), WorkerStep(w))
    {
      m_iRunningThreadNum := m_iRunningThreadNum + 1;
      workers := workers[w := Running(jobbuf)];
    }

    /** threadRecvProcFunc returns and the buffer is freed. */
    method Process(w: nat, jobbuf: Buf)
      requires w < |workers| && workers[w] == Running(jobbuf)
      modifies this`processed, this`workers
      ensures workers == old(workers)[w := Done] && processed == old(processed) + [jobbuf]
      ensures View() == Next(old(View()), WorkerStep(w))
    {
      processed := processed + [jobbuf];
      workers := workers[w := Done];
    }

    method End(w: nat)
      requires w < |workers| && workers[w] == Done
      modifies this`m_iRunningThreadNum, this`workers
      ensures workers == old(workers)[w := Top] && m_iRunningThreadNum == old(m_iRunningThreadNum) - 1
      ensures View() == Next(old(View()), WorkerStep(w))
    {
      m_iRunningThreadNum := m_iRunningThreadNum - 1;
      workers := workers[w := Top];
    }

    /** Unlocks, lets the buffer be processed, and frees it. */
    method Serve(w: nat, jobbuf: Buf) returns (ghost events: seq<Event>)
      requires Valid() && w < |workers| && workers[w] == Holding(jobbuf)
      modifies this`m_pthreadMutex, this`m_iRunningThreadNum, this`processed, this`workers
      ensures Valid() && Runs(old(View()), events, View()) && AllBy(events, w)
      ensures m_pthreadMutex == Free && m_iRunningThreadNum == old(m_iRunningThreadNum)
      ensures workers == old(workers)[w := Top] && processed == old(processed) + [jobbuf]
    {
      hide Inv, Next, Runs;
      ghost var start := View();
      NoRun(start);
      events := Did(start, [], start, WorkerStep(w));
      Leave(w, jobbuf);
      events := Did(start, events, View(), WorkerStep(w));
      Begin(w, jobbuf);
      events := Did(start, events, View(), WorkerStep(w));
      Process(w, jobbuf);
      events := Did(start, events, View(), WorkerStep(w));
      End(w);
    }

    /** One round of ThreadFunc by worker w, when no other thread gets in
        between: it goes to sleep, or takes the first buffer, has it processed
        and frees it. */
    method ThreadRound(w: nat) returns (ghost events: seq<Event>)
      requires Valid() && w < |workers| && m_pthreadMutex == Free && (workers[w].Top? || workers[w].Woken?)
      modifies this
      ensures Valid() && Runs(old(View()), events, View()) && AllBy(events, w)
      ensures m_pthreadMutex == Free && m_iRunningThreadNum == old(m_iRunningThreadNum)
      ensures if old(m_MsgRecvQueue) == [] then
          workers == old(workers)[w := Sleeping] && m_MsgRecvQueue == [] && processed == old(processed)
        else
          && workers == old(workers)[w := Top] && m_MsgRecvQueue == old(m_MsgRecvQueue)[1..]
          && processed == old(processed) + [old(m_MsgRecvQueue)[0]]
    {
      hide Inv, Next, Runs;
      ghost var start := View();
      NoRun(start);
      events := Did(start, [], start, WorkerStep(w));
      Enter(w);
      events := Did(start, events, View(), WorkerStep(w));
      var jobbuf := TakeOrWait(w);
      if jobbuf.Some? {
        ghost var held := View();
        ghost var more := Serve(w, jobbuf.value);
        RunsConcat(start, events, held, more, View());
        events := events + more;
      }
    }
  }

  predicate AllBy(events: seq<Event>, w: nat) {
    forall i :: 0 <= i < |events| ==> events[i] == WorkerStep(w)
  }

  lemma {:induction false} RunsConcat(s: State, a: seq<Event>, t: State, b: seq<Event>, u: State)
    requires Runs(s, a, t) && Runs(t, b, u)
    ensures Runs(s, a + b, u)
    decreases a
  {
    hide Next, Enabled;
    if a == [] {
      assert a + b == b;
    } else {
      RunsConcat(Next(s, a[0]), a[1..], t, b, u);
      assert (a + b)[1..] == a[1..] + b;
    }
  }

  lemma NoRun(s: State)
    ensures Runs(s, [], s)
  {
  }
}
