/**
 The fd monitor (src/fd_monitor.rs:240-289, 292-433): any number of client threads adding and removing items, and
 the background threads they start, as interleaved steps. A step is what happens between two moments at
 which other threads can get in: under the data lock, or at the signaller.
 */
module FdMonitor {
  import opened Common

  type ItemId = nat
  type ClientId = nat
  type ThreadId = nat

  /** None once the callback has closed it. */
  type Fd = Option<nat>

  datatype Client =
    | Idle
    | HasId(id: ItemId, fd: nat)
    | StartThread
    | Post

  /** `snapshot` are the items waited on, with their fds. */
  datatype Thread =
    | Top
    | Waiting(snapshot: map<ItemId, nat>)
    | Woken(snapshot: map<ItemId, nat>, readable: set<nat>, signalled: bool)

  /** A callback: for which item, on which fd, and the fd waited on for it. */
  datatype Call = Call(id: ItemId, fd: nat, waited: Option<nat>)

  datatype Monitor = Monitor(
    items: map<ItemId, Fd>,
    running: bool,
    terminate: bool,
    lastId: nat,
    posted: bool,
    clients: map<ClientId, Client>,
    threads: map<ThreadId, Thread>,
    calls: seq<Call>)

  const NEW_MONITOR := Monitor(map[], false, false, 0, false, map[], map[], [])

  datatype Event =
    | Arrive(c: ClientId)
    | TakeId(c: ClientId, fd: nat)
    | Insert(c: ClientId)
    | Spawn(c: ClientId, t: ThreadId)
    | PostChange(c: ClientId)
    | Remove(c: ClientId, id: ItemId)
    | Terminate(c: ClientId)
    | Snapshot(t: ThreadId)
    | SelectReturns(t: ThreadId, readable: set<nat>, signalled: bool)
    | Process(t: ThreadId, closed: set<ItemId>)

  predicate Enabled(m: Monitor, e: Event) {
    match e
    case Arrive(c) => c !in m.clients
    case TakeId(c, _) => c in m.clients && m.clients[c].Idle?
    case Insert(c) => c in m.clients && m.clients[c].HasId?
    case Spawn(c, t) => c in m.clients && m.clients[c].StartThread? && t !in m.threads
    case PostChange(c) => c in m.clients && m.clients[c].Post?
    // remove_item panics on an unknown id.
    case Remove(c, id) => c in m.clients && m.clients[c].Idle? && id in m.items
    case Terminate(c) => c in m.clients && m.clients[c].Idle?
    case Snapshot(t) => t in m.threads && m.threads[t].Top?
    // select sees the signaller only if it has been posted.
    case SelectReturns(t, _, signalled) => t in m.threads && m.threads[t].Waiting? && (signalled ==> m.posted)
    case Process(t, _) => t in m.threads && m.threads[t].Woken?
  }

  function AtClient(m: Monitor, c: ClientId, pc: Client): Monitor {
    m.(clients := m.clients[c := pc])
  }

  function AtThread(m: Monitor, t: ThreadId, pc: Thread): Monitor {
    m.(threads := m.threads[t := pc])
  }

  /** The items with a valid fd. */
  function Valid(items: map<ItemId, Fd>): map<ItemId, nat> {
    map id | id in items && items[id].Some? :: items[id].value
  }

  /** The snapshotted items still there whose fd is readable. */
  function Ready(m: Monitor, th: Thread): set<ItemId>
    requires th.Woken?
  {
    set id | id in th.snapshot && id in m.items && m.items[id].Some? && m.items[id].value in th.readable
  }

  ghost predicate IsCallOf(m: Monitor, th: Thread, call: Call)
    requires th.Woken?
  {
    && call.id in Ready(m, th) && m.items[call.id] == Some(call.fd)
    && call.waited == Some(th.snapshot[call.id])
  }

  ghost function CallOn(m: Monitor, th: Thread, id: ItemId): Call
    requires th.Woken? && id in Ready(m, th)
  {
    Call(id, m.items[id].value, Some(th.snapshot[id]))
  }

  /** The callbacks of one round, in the order of the ids. */
  ghost function CallsOf(m: Monitor, th: Thread, ids: set<ItemId>): (calls: seq<Call>)
    requires th.Woken? && ids <= Ready(m, th)
    ensures forall call <- calls :: IsCallOf(m, th, call)
    ensures forall id <- ids :: CallOn(m, th, id) in calls
    decreases |ids|
  {
    if ids == {} then []
    else
      var id := Smallest(ids);
      [CallOn(m, th, id)] + CallsOf(m, th, ids - {id})
  }

  ghost predicate AscendingIn(calls: seq<Call>, ids: set<ItemId>) {
    && (forall i :: 0 <= i < |calls| ==> calls[i].id in ids)
    && (forall i, j :: 0 <= i < j < |calls| ==> calls[i].id < calls[j].id)
  }

  lemma AscendingAfter(first: Call, rest: seq<Call>, ids: set<ItemId>)
    requires first.id in ids && AscendingIn(rest, ids - {first.id})
    requires forall id <- ids :: first.id <= id
    ensures AscendingIn([first] + rest, ids)
  {
  }

  /** Each id is called once. */
  lemma {:induction false} CallsAscend(m: Monitor, th: Thread, ids: set<ItemId>)
    requires th.Woken? && ids <= Ready(m, th)
    ensures AscendingIn(CallsOf(m, th, ids), ids)
    decreases |ids|
  {
    if ids != {} {
      var id := Smallest(ids);
      hide Smallest, Ready, IsCallOf, AscendingIn;
      CallsAscend(m, th, ids - {id});
      AscendingAfter(CallOn(m, th, id), CallsOf(m, th, ids - {id}), ids);
    } else {
      assert CallsOf(m, th, ids) == [];
    }
  }

  predicate IsSmallest(ids: set<nat>, id: nat) {
    id in ids && forall other <- ids :: id <= other
  }

  ghost function Smallest(ids: set<nat>): (id: nat)
    requires ids != {}
    ensures IsSmallest(ids, id)
  {
    SmallestExists(ids);
    var id :| IsSmallest(ids, id);
    id
  }

  lemma {:induction false} SmallestExists(ids: set<nat>)
    requires ids != {}
    ensures exists id :: IsSmallest(ids, id)
  {
    var id :| id in ids;
    var rest := ids - {id};
    if rest == {} {
      assert ids == {id};
      assert IsSmallest(ids, id);
    } else {
      SmallestExists(rest);
      var other :| IsSmallest(rest, other);
      assert ids == rest + {id};
      assert IsSmallest(ids, if id < other then id else other);
    }
  }

  /** Servicing, then the change signaller and the wait lap, all with the lock held. */
  ghost function Processed(m: Monitor, t: ThreadId, closed: set<ItemId>): Monitor
    requires Enabled(m, Process(t, closed))
  {
    var th := m.threads[t];
    var ready := Ready(m, th);
    var items := map id | id in m.items :: if id in ready && id in closed then None else m.items[id];
    var lap := th.snapshot == map[];
    var served := m.(items := items, calls := m.calls + CallsOf(m, th, ready));
    if !th.signalled && !lap then AtThread(served, t, Top)
    else if m.terminate || (lap && items == map[] && !th.signalled) then
      served.(posted := false, running := false, threads := m.threads - {t})
    else AtThread(served.(posted := false), t, Top)
  }

  ghost function Apply(m: Monitor, e: Event): Monitor
    requires Enabled(m, e)
  {
    match e
    case Arrive(c) => AtClient(m, c, Idle)
    case TakeId(c, fd) => AtClient(m.(lastId := m.lastId + 1), c, HasId(m.lastId + 1, fd))
    case Insert(c) =>
      AtClient(m.(items := m.items[m.clients[c].id := Some(m.clients[c].fd)], running := true), c,
               if m.running then Post else StartThread)
    case Spawn(c, t) => AtClient(AtThread(m, t, Top), c, Post)
    case PostChange(c) => AtClient(m.(posted := true), c, Idle)
    case Remove(c, id) => AtClient(m.(items := m.items - {id}), c, Post)
    case Terminate(c) => AtClient(m.(terminate := true), c, Post)
    case Snapshot(t) => AtThread(m, t, Waiting(Valid(m.items)))
    case SelectReturns(t, readable, signalled) => AtThread(m, t, Woken(m.threads[t].snapshot, readable, signalled))
    case Process(t, closed) => Processed(m, t, closed)
  }

  // ---------------------------------------------------------------- invariant

  /** Ids are unique for all time. */
  predicate IdsSound(m: Monitor) {
    && (forall id <- m.items :: id <= m.lastId)
    && (forall c <- m.clients :: m.clients[c].HasId? ==> m.clients[c].id <= m.lastId && m.clients[c].id !in m.items)
    && (forall c, d :: c in m.clients && d in m.clients && c != d && m.clients[c].HasId? && m.clients[d].HasId?
                       ==> m.clients[c].id != m.clients[d].id)
  }

  /** What a thread has snapshotted is, while still there, the same item with the same fd. */
  predicate SnapshotSound(m: Monitor, snapshot: map<ItemId, nat>) {
    && (forall id <- snapshot :: id <= m.lastId)
    && (forall id <- snapshot :: id in m.items && m.items[id].Some? ==> m.items[id].value == snapshot[id])
    && (forall c <- m.clients :: m.clients[c].HasId? ==> m.clients[c].id !in snapshot)
  }

  /** Somebody is about to post. */
  predicate PostComing(m: Monitor) {
    exists c :: c in m.clients && (m.clients[c].Post? || m.clients[c].StartThread?)
  }

  predicate ThreadSound(m: Monitor, th: Thread) {
    match th
    case Top => true
    case Waiting(snapshot) => SnapshotSound(m, snapshot) && (snapshot == Valid(m.items) || m.posted || PostComing(m))
    case Woken(snapshot, _, _) => SnapshotSound(m, snapshot)
  }

  /** While running there is one thread, or one client about to start one; else there is neither. */
  predicate OneThread(m: Monitor) {
    && (forall s, t :: s in m.threads && t in m.threads ==> s == t)
    && (forall c, d :: c in m.clients && d in m.clients && m.clients[c].StartThread? && m.clients[d].StartThread? ==> c == d)
    && (forall c :: c in m.clients && m.clients[c].StartThread? ==> m.threads == map[])
    && (m.running <==> m.threads != map[] || exists c :: c in m.clients && m.clients[c].StartThread?)
  }

  predicate Inv(m: Monitor) {
    && IdsSound(m) && OneThread(m)
    && (forall t <- m.threads :: ThreadSound(m, m.threads[t]))
    && (m.items != map[] && !m.terminate ==> m.running)
    && (forall call <- m.calls :: call.waited == Some(call.fd))
  }

  lemma StartSound()
    ensures Inv(NEW_MONITOR)
  {
  }

  // ---------------------------------------------------------------- one step

  lemma ArriveStep(m: Monitor, c: ClientId)
    requires Inv(m) && Enabled(m, Arrive(c))
    ensures Inv(Apply(m, Arrive(c)))
  {
    var m' := Apply(m, Arrive(c));
    StaysComing(m, m', c);
    StarterStays(m, m', c);
  }

  lemma TakeIdStep(m: Monitor, c: ClientId, fd: nat)
    requires Inv(m) && Enabled(m, TakeId(c, fd))
    ensures Inv(Apply(m, TakeId(c, fd)))
  {
    var m' := Apply(m, TakeId(c, fd));
    StaysComing(m, m', c);
    StarterStays(m, m', c);
  }

  lemma TerminateStep(m: Monitor, c: ClientId)
    requires Inv(m) && Enabled(m, Terminate(c))
    ensures Inv(Apply(m, Terminate(c)))
  {
    var m' := Apply(m, Terminate(c));
    StaysComing(m, m', c);
    StarterStays(m, m', c);
  }

  /** A thread about to be started still is. */
  lemma StarterStays(m: Monitor, m': Monitor, c: ClientId)
    requires OneThread(m) && c in m'.clients && m'.clients == m.clients[c := m'.clients[c]]
    requires c in m.clients ==> !m.clients[c].StartThread?
    ensures m.running && m.threads == map[] ==> exists d :: d in m'.clients && m'.clients[d].StartThread?
  {
    if m.running && m.threads == map[] {
      var d :| d in m.clients && m.clients[d].StartThread?;
      assert d in m'.clients && m'.clients[d].StartThread?;
    }
  }

  /** Whoever else is about to post still is. */
  lemma StaysComing(m: Monitor, m': Monitor, c: ClientId)
    requires c in m'.clients && m'.clients == m.clients[c := m'.clients[c]]
    requires m'.clients[c].Post? || m'.clients[c].StartThread? || c !in m.clients || m.clients[c].Idle? || m.clients[c].HasId?
    ensures PostComing(m) ==> PostComing(m')
  {
    if PostComing(m) {
      var d :| d in m.clients && (m.clients[d].Post? || m.clients[d].StartThread?);
      assert d == c ==> d in m'.clients && (m'.clients[d].Post? || m'.clients[d].StartThread?);
      assert d in m'.clients;
    }
  }

  lemma InsertStep(m: Monitor, c: ClientId)
    requires Inv(m) && Enabled(m, Insert(c))
    ensures Inv(Apply(m, Insert(c)))
    // The assertion that the id is new holds.
    ensures m.clients[c].id !in m.items
  {
    var m' := Apply(m, Insert(c));
    assert PostComing(m') by {
      assert c in m'.clients && (m'.clients[c].Post? || m'.clients[c].StartThread?);
    }
    InsertThreads(m, c);
  }

  lemma InsertThreads(m: Monitor, c: ClientId)
    requires Inv(m) && Enabled(m, Insert(c))
    ensures OneThread(Apply(m, Insert(c)))
  {
    var m' := Apply(m, Insert(c));
    forall d | d in m'.clients && m'.clients[d].StartThread? ensures m.running ==> d in m.clients && m.clients[d].StartThread? {
    }
    if m.running && m.threads == map[] {
      var d :| d in m.clients && m.clients[d].StartThread?;
      assert d in m'.clients && m'.clients[d].StartThread?;
    }
    if !m.running {
      assert c in m'.clients && m'.clients[c].StartThread?;
      forall d | d in m.clients ensures !m.clients[d].StartThread? {
      }
    }
  }

  lemma SpawnStep(m: Monitor, c: ClientId, t: ThreadId)
    requires Inv(m) && Enabled(m, Spawn(c, t))
    ensures Inv(Apply(m, Spawn(c, t)))
  {
    var m' := Apply(m, Spawn(c, t));
    assert m.threads == map[];
    assert m'.threads == map[t := Top];
  }

  lemma PostStep(m: Monitor, c: ClientId)
    requires Inv(m) && Enabled(m, PostChange(c))
    ensures Inv(Apply(m, PostChange(c)))
  {
    var m' := Apply(m, PostChange(c));
    StarterStays(m, m', c);
  }

  lemma RemoveStep(m: Monitor, c: ClientId, id: ItemId)
    requires Inv(m) && Enabled(m, Remove(c, id))
    ensures Inv(Apply(m, Remove(c, id)))
  {
    var m' := Apply(m, Remove(c, id));
    assert PostComing(m') by {
      assert c in m'.clients && m'.clients[c].Post?;
    }
    StarterStays(m, m', c);
  }

  lemma WaitStep(m: Monitor, e: Event)
    requires Inv(m) && Enabled(m, e) && (e.Snapshot? || e.SelectReturns?)
    ensures Inv(Apply(m, e))
  {
    var m' := Apply(m, e);
    assert ThreadSound(m, m.threads[e.t]);
    assert m'.threads == m.threads[e.t := m'.threads[e.t]];
    assert m'.threads != map[] by {
      assert e.t in m'.threads;
    }
  }

  lemma ProcessStep(m: Monitor, t: ThreadId, closed: set<ItemId>)
    requires Inv(m) && Enabled(m, Process(t, closed))
    ensures Inv(Apply(m, Process(t, closed)))
  {
    hide IdsSound, OneThread, CallsOf, Ready, Processed;
    ProcessCalls(m, t, closed);
    ProcessThreads(m, t, closed);
    ProcessIds(m, t, closed);
    assert forall s <- Processed(m, t, closed).threads :: ThreadSound(Processed(m, t, closed), Processed(m, t, closed).threads[s]);
  }

  lemma ProcessIds(m: Monitor, t: ThreadId, closed: set<ItemId>)
    requires Inv(m) && Enabled(m, Process(t, closed))
    ensures IdsSound(Processed(m, t, closed))
  {
    hide CallsOf, Ready;
    var m' := Processed(m, t, closed);
    assert m'.clients == m.clients && m'.lastId == m.lastId && m'.items.Keys == m.items.Keys;
  }

  lemma ProcessCalls(m: Monitor, t: ThreadId, closed: set<ItemId>)
    requires Inv(m) && Enabled(m, Process(t, closed))
    ensures forall call <- Processed(m, t, closed).calls :: call.waited == Some(call.fd)
  {
    var th := m.threads[t];
    assert ThreadSound(m, th);
    var calls := CallsOf(m, th, Ready(m, th));
    assert Processed(m, t, closed).calls == m.calls + calls;
    forall call <- m.calls + calls ensures call.waited == Some(call.fd) {
      if call !in m.calls {
        assert IsCallOf(m, th, call);
      }
    }
  }

  lemma ProcessThreads(m: Monitor, t: ThreadId, closed: set<ItemId>)
    requires Inv(m) && Enabled(m, Process(t, closed))
    ensures var m' := Processed(m, t, closed);
            && OneThread(m')
            && (forall s <- m'.threads :: m'.threads[s] == Top)
            && (m'.items != map[] && !m'.terminate ==> m'.running)
  {
    hide CallsOf, Ready, IdsSound, ThreadSound;
    var m' := Apply(m, Process(t, closed));
    assert t in m.threads;
    forall c | c in m.clients ensures !m.clients[c].StartThread? {
      assert m.threads != map[];
    }
    if t in m'.threads {
      assert m'.threads != map[];
    } else {
      assert m'.threads == map[];
    }
    if m.items == map[] {
      assert m'.items == map[];
    }
  }

  lemma StepKeepsInv(m: Monitor, e: Event)
    requires Inv(m) && Enabled(m, e)
    ensures Inv(Apply(m, e))
  {
    match e
    case Insert(c) => InsertStep(m, c);
    case Spawn(c, t) => SpawnStep(m, c, t);
    case PostChange(c) => PostStep(m, c);
    case Remove(c, id) => RemoveStep(m, c, id);
    case Snapshot(_) => WaitStep(m, e);
    case SelectReturns(_, _, _) => WaitStep(m, e);
    case Process(t, closed) => ProcessStep(m, t, closed);
    case Arrive(c) => ArriveStep(m, c);
    case TakeId(c, fd) => TakeIdStep(m, c, fd);
    case Terminate(c) => TerminateStep(m, c);
  }

  // ---------------------------------------------------------------- whole runs

  ghost predicate Possible(m: Monitor, events: seq<Event>)
    decreases |events|
  {
    events == [] || (Enabled(m, events[0]) && Possible(Apply(m, events[0]), events[1..]))
  }

  ghost function After(m: Monitor, events: seq<Event>): Monitor
    requires Possible(m, events)
    decreases |events|
  {
    if events == [] then m else After(Apply(m, events[0]), events[1..])
  }

  lemma {:induction false} RunKeepsInv(m: Monitor, events: seq<Event>)
    requires Inv(m) && Possible(m, events)
    ensures Inv(After(m, events))
    decreases |events|
  {
    if events != [] {
      StepKeepsInv(m, events[0]);
      RunKeepsInv(Apply(m, events[0]), events[1..]);
    }
  }

  /** In every run: items are watched over by a thread, or one is being started; there is never more than one. */
  lemma ItemsAreWatched(events: seq<Event>)
    requires Possible(NEW_MONITOR, events)
    ensures var m := After(NEW_MONITOR, events);
            && (m.items != map[] && !m.terminate ==>
                  m.threads != map[] || exists c :: c in m.clients && m.clients[c].StartThread?)
            && (forall s, t :: s in m.threads && t in m.threads ==> s == t)
            && (m.threads != map[] ==> m.running)
  {
    StartSound();
    RunKeepsInv(NEW_MONITOR, events);
  }

  /** In every run a callback runs on the very fd that was waited on for its item: an id never
      comes back for another fd. */
  lemma CallbacksAreForWaitedItems(events: seq<Event>)
    requires Possible(NEW_MONITOR, events)
    ensures forall call <- After(NEW_MONITOR, events).calls :: call.waited == Some(call.fd)
  {
    StartSound();
    RunKeepsInv(NEW_MONITOR, events);
  }

  /** In every run a thread never waits on items other than the present ones without a wake-up posted
      or about to be. */
  lemma ChangesWakeTheThread(events: seq<Event>, t: ThreadId)
    requires Possible(NEW_MONITOR, events)
    requires var m := After(NEW_MONITOR, events); t in m.threads && m.threads[t].Waiting?
    ensures var m := After(NEW_MONITOR, events);
            m.threads[t].snapshot == Valid(m.items) || m.posted || PostComing(m)
  {
    StartSound();
    RunKeepsInv(NEW_MONITOR, events);
    var m := After(NEW_MONITOR, events);
    assert ThreadSound(m, m.threads[t]);
  }

  /** One round calls back exactly the snapshotted items that are still there and readable, each once and in
      the order of their ids, and on the fd that was waited on. */
  lemma ReadyAreCalled(m: Monitor, t: ThreadId, closed: set<ItemId>)
    requires Enabled(m, Process(t, closed))
    ensures var calls' := Processed(m, t, closed).calls;
            var calls := calls'[|m.calls|..];
            && m.calls <= calls'
            && (forall i, j :: 0 <= i < j < |calls| ==> calls[i].id < calls[j].id)
            && (forall id <- Ready(m, m.threads[t]) :: exists call <- calls :: call.id == id)
            && (forall call <- calls :: IsCallOf(m, m.threads[t], call))
  {
    var th := m.threads[t];
    var ready := Ready(m, th);
    var calls := CallsOf(m, th, ready);
    assert Processed(m, t, closed).calls == m.calls + calls;
    CallsAscend(m, th, ready);
    hide Processed, Ready, CallsOf, Enabled, IsCallOf;
    assert (m.calls + calls)[|m.calls|..] == calls;
    forall id <- ready ensures exists call <- calls :: call.id == id {
      assert CallOn(m, th, id) in calls;
    }
  }
}
