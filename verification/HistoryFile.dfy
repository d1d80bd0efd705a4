module HistoryFile {
  /** What holds after every run of HistoryProtocol: no item is lost, but for those in a write or rename that fails. */

  import opened Common
  import opened HistoryItems
  import opened HistoryProtocol
  import opened HistorySteps
  import opened HistoryKeeping

  // ---------------------------------------------------------------- whole runs

  predicate Possible(w: World, events: seq<Event>)
    decreases |events|
  {
    events == [] || (Enabled(w, events[0]) && Possible(Apply(w, events[0]), events[1..]))
  }

  function After(w: World, events: seq<Event>): World
    requires Possible(w, events)
    decreases |events|
  {
    if events == [] then w else After(Apply(w, events[0]), events[1..])
  }

  lemma {:induction false} RunKeepsInv(initial: seq<Item>, w: World, events: seq<Event>)
    requires Inv(initial, w) && Possible(w, events)
    ensures Inv(initial, After(w, events))
    decreases |events|
  {
    if events != [] {
      StepKeepsInv(initial, w, events[0]);
      RunKeepsInv(initial, Apply(w, events[0]), events[1..]);
    }
  }

  /** However appending and rewriting shells interleave, the file at the path is the initial one with every
      write and every rewrite applied in the order they took effect. */
  lemma NoLostWrite(initial: seq<Item>, w: World, events: seq<Event>)
    requires Init(initial, w) && Possible(w, events)
    ensures CurrentItems(After(w, events)) == Fold(initial, After(w, events).log)
  {
    InitSound(initial, w);
    RunKeepsInv(initial, w, events);
  }

  /** At most one shell at a time may write to the file or replace it. */
  lemma MutualExclusion(initial: seq<Item>, w: World, events: seq<Event>, p: Pid, q: Pid)
    requires Init(initial, w) && Possible(w, events)
    requires var shells := After(w, events).shells;
             p in shells && q in shells && Critical(shells[p].pc) && Critical(shells[q].pc)
    ensures p == q
  {
    InitSound(initial, w);
    RunKeepsInv(initial, w, events);
    OneCritical(After(w, events), p, q);
  }

  /** A rewriter that has passed its check holds the lock of exactly the file it read, which is at the path
      and still has what it read. */
  lemma RewriterHoldsWhatItRead(initial: seq<Item>, w: World, events: seq<Event>, pid: Pid)
    requires Init(initial, w) && Possible(w, events)
    requires var shells := After(w, events).shells; pid in shells && shells[pid].pc.RewriteChecked?
    ensures var w' := After(w, events);
            var s := w'.shells[pid];
            && PathId(w') == Some(s.pc.orig)
            && s.pc.orig.inode in w'.locks && w'.locks[s.pc.orig.inode] == pid
            && s.pc.tmp == Rewritten(s.session, CurrentItems(w'))
  {
    InitSound(initial, w);
    RunKeepsInv(initial, w, events);
    var w' := After(w, events);
    assert PcSound(w'.files, w'.path, w'.shells[pid]);
    LockHeld(w', pid);
  }

  predicate WriteFailure(e: Event) {
    e.FailToWrite? || e.FailToRename?
  }

  lemma {:induction false} NothingLost(w: World, events: seq<Event>)
    requires Possible(w, events) && w.lost == {}
    requires forall e <- events :: !WriteFailure(e)
    ensures After(w, events).lost == {}
    decreases |events|
  {
    if events != [] {
      assert events[0] in events;
      NothingLost(Apply(w, events[0]), events[1..]);
    }
  }

  /** No history item is lost, unless in a failed write or rename: a text a living shell was given to keep is still
      to be written, is just being written, or is in the file, unless some shell has removed it. */
  lemma NoItemLost(initial: seq<Item>, w: World, events: seq<Event>, pid: Pid, text: string)
    requires Init(initial, w) && Possible(w, events)
    requires Roomy(initial, After(w, events).log)
    requires pid in After(w, events).shells && text in After(w, events).shells[pid].added
    requires text != "" && text !in After(w, events).removed && text !in After(w, events).lost
    ensures Kept(After(w, events), pid, text)
  {
    InitSound(initial, w);
    RunKeepsInv(initial, w, events);
    var w' := After(w, events);
    assert SessionSound(Saved(initial, w'.log), w'.removed, w'.lost, w'.shells[pid]);
    if text in Saved(initial, w'.log) {
      SavedStays(initial, w'.log, text);
    }
  }

  /** As long as none fails, none is lost. */
  lemma NoItemLostWithoutFailure(initial: seq<Item>, w: World, events: seq<Event>, pid: Pid, text: string)
    requires Init(initial, w) && Possible(w, events)
    requires forall e <- events :: !WriteFailure(e)
    requires Roomy(initial, After(w, events).log)
    requires pid in After(w, events).shells && text in After(w, events).shells[pid].added
    requires text != "" && text !in After(w, events).removed
    ensures Kept(After(w, events), pid, text)
  {
    NothingLost(w, events);
    NoItemLost(initial, w, events, pid, text);
  }

  // ---------------------------------------------------------------- following one text

  predicate NeverRemoved(w: World, events: seq<Event>, text: string)
    requires Possible(w, events)
    decreases |events|
  {
    events == [] || (text !in Removals(w, events[0]) && NeverRemoved(Apply(w, events[0]), events[1..], text))
  }

  predicate NeverLost(w: World, events: seq<Event>, text: string)
    requires Possible(w, events)
    decreases |events|
  {
    events == [] || (text !in Losses(w, events[0]) && NeverLost(Apply(w, events[0]), events[1..], text))
  }

  predicate NeverCrashes(events: seq<Event>, pid: Pid) {
    forall e <- events :: !(e.Crash? && e.pid == pid)
  }

  predicate NeverGivenTo(events: seq<Event>, pid: Pid, text: string) {
    forall e <- events :: !(e.AddItem? && e.pid == pid && e.item.contents == text)
  }

  predicate NeverGiven(events: seq<Event>, text: string) {
    forall e <- events :: !(e.AddItem? && e.item.contents == text)
  }

  lemma {:induction false} LogGrows(w: World, events: seq<Event>)
    requires Possible(w, events)
    ensures w.log <= After(w, events).log
    decreases |events|
  {
    if events != [] {
      LogGrows(Apply(w, events[0]), events[1..]);
      OneStepLogs(w, events[0]);
    }
  }

  lemma OneStepLogs(w: World, e: Event)
    requires Enabled(w, e)
    ensures w.log <= Apply(w, e).log
    ensures e.Rename? ==> Apply(w, e).log == w.log + [Replaced(w.shells[e.pid].session)]
  {
    hide Rewritten, ForDisk, DiskTexts, AllTexts;
  }

  lemma {:induction false} RoomyBefore(initial: seq<Item>, log: seq<Commit>, n: nat)
    requires Roomy(initial, log) && n <= |log|
    ensures Roomy(initial, log[..n])
    decreases |log|
  {
    if n < |log| {
      RoomyBefore(initial, log[..|log| - 1], n);
      assert log[..|log| - 1][..n] == log[..n];
    } else {
      assert log[..n] == log;
    }
  }

  /** If there was room in every rewrite of a run, there is in its first step. */
  lemma RoomInStep(initial: seq<Item>, w: World, events: seq<Event>)
    requires Inv(initial, w) && Possible(w, events) && events != [] && Roomy(initial, After(w, events).log)
    ensures events[0].Rename? ==>
              |AllTexts(RewriteInput(w.shells[events[0].pid].session, CurrentItems(w)))| <= HISTORY_SAVE_MAX
  {
    var e := events[0];
    var log, log' := Apply(w, e).log, After(w, events).log;
    assert CurrentItems(w) == Fold(initial, w.log);
    hide Inv, Apply, Enabled, RewriteInput, AllTexts, CurrentItems, Fold;
    OneStepLogs(w, e);
    LogGrows(Apply(w, e), events[1..]);
    RoomyBefore(initial, log', |log|);
    assert log == log'[..|log|];
    if e.Rename? {
      assert log[..|log| - 1] == w.log;
    }
  }

  lemma {:induction false} FileStays(initial: seq<Item>, w: World, events: seq<Event>, text: string)
    requires Inv(initial, w) && Possible(w, events) && Roomy(initial, After(w, events).log)
    requires InFile(w, text) && text != "" && !Pending(w, text) && NeverRemoved(w, events, text)
    ensures InFile(After(w, events), text)
    decreases |events|
  {
    if events != [] {
      var e := events[0];
      RoomInStep(initial, w, events);
      NotDeleted(w, e, text);
      hide Inv, Apply, Enabled, InFile, Pending, Roomy;
      FileStep(initial, w, e, text);
      PendingStep(initial, w, e, text);
      StepKeepsInv(initial, w, e);
      FileStays(initial, Apply(w, e), events[1..], text);
    }
  }

  lemma NotDeleted(w: World, e: Event, text: string)
    requires Enabled(w, e) && !Pending(w, text)
    ensures e.Rename? ==> text !in w.shells[e.pid].session.deleted
  {
  }

  /** What is in the file at some moment of a run stays, whoever appends, rewrites or fails to, unless a deletion
      of it is pending at that moment or made later. */
  lemma CommittedStays(initial: seq<Item>, w: World, before: seq<Event>, later: seq<Event>, text: string)
    requires Init(initial, w) && Possible(w, before) && Possible(After(w, before), later)
    requires InFile(After(w, before), text) && text != ""
    requires !Pending(After(w, before), text) && NeverRemoved(After(w, before), later, text)
    requires Roomy(initial, After(After(w, before), later).log)
    ensures InFile(After(After(w, before), later), text)
  {
    InitSound(initial, w);
    RunKeepsInv(initial, w, before);
    FileStays(initial, After(w, before), later, text);
  }

  lemma {:induction false} StaysKept(initial: seq<Item>, w: World, events: seq<Event>, pid: Pid, text: string)
    requires Inv(initial, w) && Possible(w, events) && Roomy(initial, After(w, events).log)
    requires pid in w.shells && Kept(w, pid, text) && text != "" && !Pending(w, text)
    requires NeverRemoved(w, events, text) && NeverLost(w, events, text) && NeverCrashes(events, pid)
    ensures pid in After(w, events).shells && Kept(After(w, events), pid, text)
    decreases |events|
  {
    if events != [] {
      var e := events[0];
      assert e in events;
      RoomInStep(initial, w, events);
      NotDeleted(w, e, text);
      hide Inv, Apply, Enabled, InFile, Pending, Roomy, Has;
      KeptStep(initial, w, e, pid, text);
      PendingStep(initial, w, e, text);
      StepKeepsInv(initial, w, e);
      StaysKept(initial, Apply(w, e), events[1..], pid, text);
    }
  }

  lemma KeptStep(initial: seq<Item>, w: World, e: Event, pid: Pid, text: string)
    requires Inv(initial, w) && Enabled(w, e) && pid in w.shells && Kept(w, pid, text) && text != ""
    requires text !in Removals(w, e) && text !in Losses(w, e) && !(e.Crash? && e.pid == pid)
    requires e.Rename? ==> text !in w.shells[e.pid].session.deleted
    requires e.Rename? ==> |AllTexts(RewriteInput(w.shells[e.pid].session, CurrentItems(w)))| <= HISTORY_SAVE_MAX
    ensures pid in Apply(w, e).shells && Kept(Apply(w, e), pid, text)
  {
    StepEffect(initial, w, e);
    SpawnIsNew(w, e);
    hide Inv, Apply, Enabled, InFile, RewriteInput, AllTexts, CurrentItems, Removals, Losses, Effect;
    if e.pid != pid {
      OthersSame(w, e, Apply(w, e), pid);
    }
    if InFile(w, text) {
      if e.pid == pid {
        EffectOn(w, e);
      }
      FileStep(initial, w, e, text);
    } else if e.pid == pid {
      HasStep(initial, w, e, text);
    }
  }

  lemma SpawnIsNew(w: World, e: Event)
    requires Enabled(w, e)
    ensures e.Spawn? <==> e.pid !in w.shells
  {
  }

  lemma EffectOn(w: World, e: Event)
    requires e.pid in w.shells && Enabled(w, e) && Effect(w, e, Apply(w, e))
    ensures e.pid in Apply(w, e).shells
  {
  }

  /** A shell keeps a text it has from any moment on, whatever has happened to the text before: it is still to be
      written, is just being written, or is in the file, as long as the shell does not crash, no failed write or
      rename loses the text, and no deletion of it is pending at that moment or made later. */
  lemma KeptStaysKept(initial: seq<Item>, w: World, before: seq<Event>, later: seq<Event>, pid: Pid, text: string)
    requires Init(initial, w) && Possible(w, before) && Possible(After(w, before), later)
    requires var w1 := After(w, before);
             && pid in w1.shells && Kept(w1, pid, text) && text != "" && !Pending(w1, text)
             && NeverRemoved(w1, later, text) && NeverLost(w1, later, text) && NeverCrashes(later, pid)
    requires Roomy(initial, After(After(w, before), later).log)
    ensures var w2 := After(After(w, before), later);
            pid in w2.shells && Kept(w2, pid, text)
  {
    InitSound(initial, w);
    RunKeepsInv(initial, w, before);
    StaysKept(initial, After(w, before), later, pid, text);
  }

  // ---------------------------------------------------------------- when a write fails

  /** What a write or rename is about to save. */
  function AtRisk(w: World, f: Event): set<string>
    requires Enabled(w, f)
  {
    match f
    case FailToWrite(pid, _, _) => AllTexts(w.shells[pid].pc.buffer)
    case FailToRename(pid) => DiskTexts(w.shells[pid].session.unwritten)
    case _ => {}
  }

  /** Whether a text at risk survives the failure: it is in the file, or gets there before the write fails, or is
      once more among the items the write had not come to. */
  predicate Survives(w: World, f: Event, text: string)
    requires Enabled(w, f)
  {
    || InFile(w, text)
    || match f
       case FailToWrite(pid, done, _) =>
         text in AllTexts(w.shells[pid].pc.buffer[..done]) || text in DiskTexts(w.shells[pid].session.unwritten)
       case _ => false
  }

  lemma FailureKeepsIff(initial: seq<Item>, w: World, f: Event, text: string)
    requires Inv(initial, w) && Enabled(w, f) && WriteFailure(f) && text in AtRisk(w, f)
    ensures f.pid in w.shells && f.pid in Apply(w, f).shells
    ensures Kept(Apply(w, f), f.pid, text) <==> Survives(w, f, text)
  {
    StepEffect(initial, w, f);
    assert AllTexts([]) == {} && DiskTexts([]) == {};
    var s, file := w.shells[f.pid], CurrentItems(w);
    hide Inv, Apply, DiskTexts, AllTexts, CurrentItems;
    if f.FailToWrite? {
      AllTextsConcat(file, s.pc.buffer[..f.done]);
    }
  }

  lemma {:induction false} HasNotStays(initial: seq<Item>, w: World, events: seq<Event>, p: Pid, text: string)
    requires Inv(initial, w) && Possible(w, events) && (p in w.shells ==> !Has(w, p, text)) && NeverGivenTo(events, p, text)
    ensures p in After(w, events).shells ==> !Has(After(w, events), p, text)
    decreases |events|
  {
    if events != [] {
      var e := events[0];
      assert e in events;
      hide Inv, Apply, Enabled, Has;
      HasNotStep(initial, w, e, p, text);
      StepKeepsInv(initial, w, e);
      HasNotStays(initial, Apply(w, e), events[1..], p, text);
    }
  }

  /** A text that did not survive a failure the shell never writes, unless it is given it again: from then on it is kept
      exactly if it is in the file, where only another shell can have put it. */
  lemma FailedShellGivesUp(initial: seq<Item>, w: World, before: seq<Event>, f: Event, later: seq<Event>, text: string)
    requires Init(initial, w) && Possible(w, before)
    requires var w1 := After(w, before);
             && Enabled(w1, f) && WriteFailure(f) && text in AtRisk(w1, f) && !Survives(w1, f, text)
             && Possible(Apply(w1, f), later)
    requires NeverGivenTo(later, f.pid, text)
    ensures var w2 := After(Apply(After(w, before), f), later);
            f.pid in w2.shells ==> (Kept(w2, f.pid, text) <==> InFile(w2, text))
  {
    InitSound(initial, w);
    RunKeepsInv(initial, w, before);
    var w1 := After(w, before);
    FailureKeepsIff(initial, w1, f, text);
    StepKeepsInv(initial, w1, f);
    HasNotStays(initial, Apply(w1, f), later, f.pid, text);
  }

  /** No shell has the text, and it is not in the file. */
  predicate Nowhere(w: World, text: string) {
    !InFile(w, text) && forall p <- w.shells :: !Has(w, p, text)
  }

  lemma {:induction false} NowhereStays(initial: seq<Item>, w: World, events: seq<Event>, text: string)
    requires Inv(initial, w) && Possible(w, events) && Nowhere(w, text) && NeverGiven(events, text)
    ensures Nowhere(After(w, events), text)
    decreases |events|
  {
    if events != [] {
      var e := events[0];
      assert e in events;
      NowhereStep(initial, w, e, text);
      hide Inv, Apply, Enabled, Nowhere;
      StepKeepsInv(initial, w, e);
      NowhereStays(initial, Apply(w, e), events[1..], text);
    }
  }

  lemma NowhereStep(initial: seq<Item>, w: World, e: Event, text: string)
    requires Inv(initial, w) && Enabled(w, e) && Nowhere(w, text) && !(e.AddItem? && e.item.contents == text)
    ensures Nowhere(Apply(w, e), text)
  {
    SpawnIsNew(w, e);
    hide Inv, Apply, Enabled, Has, InFile;
    FileNotStep(initial, w, e, text);
    forall p <- Apply(w, e).shells ensures !Has(Apply(w, e), p, text) {
      HasNotStep(initial, w, e, p, text);
    }
  }

  /** Which texts a failure loses for good: if no other shell has the text, nobody is given it again, and nothing else
      happens to it, it is kept exactly if it survives the failure, and otherwise it is never in the file again. */
  lemma FailureLosesIff(initial: seq<Item>, w: World, before: seq<Event>, f: Event, later: seq<Event>, text: string)
    requires Init(initial, w) && Possible(w, before)
    requires var w1 := After(w, before);
             && Enabled(w1, f) && WriteFailure(f) && text in AtRisk(w1, f) && text != ""
             && Possible(Apply(w1, f), later) && Roomy(initial, After(Apply(w1, f), later).log)
             && (forall p <- w1.shells :: p != f.pid ==> !Has(w1, p, text)) && NeverGiven(later, text)
             && !Pending(w1, text) && NeverRemoved(Apply(w1, f), later, text) && NeverLost(Apply(w1, f), later, text)
             && NeverCrashes(later, f.pid)
    ensures var w1, w2 := After(w, before), After(Apply(After(w, before), f), later);
            && f.pid in w2.shells && (Kept(w2, f.pid, text) <==> Survives(w1, f, text))
            && (!Survives(w1, f, text) ==> !InFile(w2, text))
  {
    InitSound(initial, w);
    RunKeepsInv(initial, w, before);
    var w1 := After(w, before);
    FailureKeepsIff(initial, w1, f, text);
    StepKeepsInv(initial, w1, f);
    if Survives(w1, f, text) {
      PendingStep(initial, w1, f, text);
      StaysKept(initial, Apply(w1, f), later, f.pid, text);
    } else {
      OthersHaveNot(initial, w1, f, text);
      NowhereStays(initial, Apply(w1, f), later, text);
      StaysAlive(Apply(w1, f), later, f.pid);
    }
  }

  lemma OthersHaveNot(initial: seq<Item>, w: World, f: Event, text: string)
    requires Inv(initial, w) && Enabled(w, f) && WriteFailure(f)
    requires forall p <- w.shells :: p != f.pid ==> !Has(w, p, text)
    requires f.pid in Apply(w, f).shells && !Kept(Apply(w, f), f.pid, text)
    ensures Nowhere(Apply(w, f), text)
  {
    StepEffect(initial, w, f);
    hide Inv, Apply, Enabled, InFile, Effect;
    forall p <- Apply(w, f).shells ensures !Has(Apply(w, f), p, text) {
      if p != f.pid {
        OthersSame(w, f, Apply(w, f), p);
      }
    }
  }

  lemma {:induction false} StaysAlive(w: World, events: seq<Event>, pid: Pid)
    requires Possible(w, events) && pid in w.shells
    ensures pid in After(w, events).shells
    decreases |events|
  {
    if events != [] {
      OneStepAlive(w, events[0], pid);
      StaysAlive(Apply(w, events[0]), events[1..], pid);
    }
  }

  lemma OneStepAlive(w: World, e: Event, pid: Pid)
    requires Enabled(w, e) && pid in w.shells
    ensures pid in Apply(w, e).shells
  {
    hide Rewritten, ForDisk, DiskTexts, AllTexts;
  }

  // ---------------------------------------------------------------- a failed write

  const ONE_FILE := World(map[0 := File([], 0)], Some(0), map[], map[], [], {}, {})

  const ITEM := Item("ls", 1, [], 1, Disk)

  const BEGIN: seq<Event> := [Spawn(7, 0), Event.AddItem(7, ITEM), BeginSave(7, false)]
  const LOCK: seq<Event> := [OpenToAppend(7), LockToAppend(7), CompareToAppend(7)]
  const FAIL: seq<Event> := [BufferItem(7), FailToWrite(7, 0, false)]

  /** The run leads from one world to the other. */
  predicate RunsTo(w: World, events: seq<Event>, w': World) {
    Possible(w, events) && After(w, events) == w'
  }

  lemma {:induction false} RunsToConcat(w: World, a: seq<Event>, w1: World, b: seq<Event>, w2: World)
    requires RunsTo(w, a, w1) && RunsTo(w1, b, w2)
    ensures RunsTo(w, a + b, w2)
    decreases |a|
  {
    if a == [] {
      assert a + b == b;
    } else {
      assert (a + b)[1..] == a[1..] + b;
      RunsToConcat(Apply(w, a[0]), a[1..], w1, b, w2);
    }
  }

  lemma OneEvent(w: World, e: Event)
    requires Enabled(w, e)
    ensures RunsTo(w, [e], Apply(w, e))
  {
    assert [e][1..] == [];
  }

  lemma TwoEvents(w: World, e: Event, f: Event)
    requires Enabled(w, e) && Enabled(Apply(w, e), f)
    ensures RunsTo(w, [e, f], Apply(Apply(w, e), f))
  {
    OneEvent(w, e);
    OneEvent(Apply(w, e), f);
    RunsToConcat(w, [e], Apply(w, e), [f], Apply(Apply(w, e), f));
    assert [e] + [f] == [e, f];
  }

  lemma ThreeEvents(w: World, e: Event, f: Event, g: Event)
    requires Enabled(w, e) && Enabled(Apply(w, e), f) && Enabled(Apply(Apply(w, e), f), g)
    ensures RunsTo(w, [e, f, g], Apply(Apply(Apply(w, e), f), g))
  {
    TwoEvents(w, e, f);
    OneEvent(Apply(Apply(w, e), f), g);
    RunsToConcat(w, [e, f], Apply(Apply(w, e), f), [g], Apply(Apply(Apply(w, e), f), g));
    assert [e, f] + [g] == [e, f, g];
  }

  lemma ItemBuffered()
    ensures Compact([ITEM], {}) == [ITEM] && Compact([], {"ls"}) == [] && DiskTexts([ITEM]) == {"ls"}
    ensures ForDisk([ITEM]) == [Stored(ITEM)]
  {
    OneDiskText(ITEM);
    assert DiskTexts([]) == {};
    assert [ITEM][1..] == [];
  }

  function SaveAt(pc: Pc, locks: map<Inode, Pid>): World {
    ONE_FILE.(locks := locks, shells := map[7 := Shell(pc, Session([], [ITEM], map[], 0), {"ls"})])
  }

  const AFTER_FAILURE := ONE_FILE.(shells := map[7 := Shell(RewriteStart, Session([ITEM], [], map[], 0), {"ls"})], lost := {"ls"})

  lemma BeginRuns()
    ensures RunsTo(ONE_FILE, BEGIN, SaveAt(AppendStart, map[]))
  {
    var w1 := Apply(ONE_FILE, BEGIN[0]);
    var w2 := Apply(w1, BEGIN[1]);
    assert w2.shells[7].session == Session([], [ITEM], map[], 0) && w2.shells[7].added == {"ls"};
    ItemBuffered();
    var w3 := Apply(w2, BEGIN[2]);
    assert w3.shells[7] == Shell(AppendStart, Session([], [ITEM], map[], 0), {"ls"});
    assert w3 == SaveAt(AppendStart, map[]);
    ThreeEvents(ONE_FILE, BEGIN[0], BEGIN[1], BEGIN[2]);
  }

  lemma LockRuns()
    ensures RunsTo(SaveAt(AppendStart, map[]), LOCK, SaveAt(Appending(0, []), map[0 := 7]))
  {
    hide Possible, After, RunsTo, Compact, Rewritten, ForDisk;
    var w3 := SaveAt(AppendStart, map[]);
    var w4 := Apply(w3, LOCK[0]);
    assert w4 == SaveAt(AppendOpened(0), map[]);
    var w5 := Apply(w4, LOCK[1]);
    assert w5 == SaveAt(AppendLocked(0), map[0 := 7]);
    assert Apply(w5, LOCK[2]) == SaveAt(Appending(0, []), map[0 := 7]);
    ThreeEvents(w3, LOCK[0], LOCK[1], LOCK[2]);
  }

  const BUFFERED := ONE_FILE.(locks := map[0 := 7],
    shells := map[7 := Shell(Appending(0, [Stored(ITEM)]), Session([ITEM], [], map[], 0), {"ls"})])

  lemma BufferRuns()
    ensures Enabled(SaveAt(Appending(0, []), map[0 := 7]), FAIL[0]) && Apply(SaveAt(Appending(0, []), map[0 := 7]), FAIL[0]) == BUFFERED
  {
    hide Rewritten, ForDisk;
    ItemBuffered();
    assert [ITEM][1..] == [] && [] + [ITEM] == [ITEM] && [] + [Stored(ITEM)] == [Stored(ITEM)];
    var w := Apply(SaveAt(Appending(0, []), map[0 := 7]), FAIL[0]);
    assert w.shells[7] == BUFFERED.shells[7];
  }

  lemma LoseRuns()
    ensures Enabled(BUFFERED, FAIL[1]) && Apply(BUFFERED, FAIL[1]) == AFTER_FAILURE
  {
    hide Rewritten;
    OneText(Stored(ITEM));
    var w := Apply(BUFFERED, FAIL[1]);
    assert w.locks == map[] && w.lost == {"ls"};
  }

  lemma FailRuns()
    ensures RunsTo(SaveAt(Appending(0, []), map[0 := 7]), FAIL, AFTER_FAILURE)
  {
    BufferRuns();
    LoseRuns();
    hide Apply, Enabled, RunsTo, SaveAt;
    TwoEvents(SaveAt(Appending(0, []), map[0 := 7]), FAIL[0], FAIL[1]);
  }

  /** A run in which one write fails and the item is gone, though nobody removed it. */
  lemma FailedWriteLosesItem()
    ensures Init([], ONE_FILE) && RunsTo(ONE_FILE, BEGIN + LOCK + FAIL, AFTER_FAILURE)
    ensures "ls" in AFTER_FAILURE.shells[7].added && "ls" !in AFTER_FAILURE.removed && !Kept(AFTER_FAILURE, 7, "ls")
  {
    hide Possible, After, RunsTo, Apply, SaveAt;
    BeginRuns();
    LockRuns();
    FailRuns();
    RunsToConcat(ONE_FILE, BEGIN, SaveAt(AppendStart, map[]), LOCK, SaveAt(Appending(0, []), map[0 := 7]));
    RunsToConcat(ONE_FILE, BEGIN + LOCK, SaveAt(Appending(0, []), map[0 := 7]), FAIL, AFTER_FAILURE);
    assert AllTexts([]) == {} && DiskTexts([]) == {};
  }

  // ---------------------------------------------------------------- a failed rename

  const VACUUM: seq<Event> := [Spawn(7, 0), Event.AddItem(7, ITEM), BeginSave(7, true)]
  const REWRITE: seq<Event> := [OpenToRewrite(7, 1), ReadAndRewrite(7), Reopen(7)]
  const REPLACE: seq<Event> := [LockToReplace(7), CompareToReplace(7), FailToRename(7)]

  const TMP := Rewritten(Session([], [ITEM], map[], 0), [])

  const AFTER_RENAME := ONE_FILE.(locks := map[0 := 7],
    shells := map[7 := Shell(Closing(0), Session([ITEM], [], map[], 0), {"ls"})], lost := {"ls"})

  lemma VacuumRuns()
    ensures RunsTo(ONE_FILE, VACUUM, SaveAt(RewriteStart, map[]))
  {
    hide Rewritten;
    var w1 := Apply(ONE_FILE, VACUUM[0]);
    var w2 := Apply(w1, VACUUM[1]);
    assert w2.shells[7].session == Session([], [ITEM], map[], 0) && w2.shells[7].added == {"ls"};
    ItemBuffered();
    var w3 := Apply(w2, VACUUM[2]);
    assert w3.shells[7] == Shell(RewriteStart, Session([], [ITEM], map[], 0), {"ls"});
    assert w3 == SaveAt(RewriteStart, map[]);
    ThreeEvents(ONE_FILE, VACUUM[0], VACUUM[1], VACUUM[2]);
  }

  lemma RewriteRuns()
    ensures RunsTo(SaveAt(RewriteStart, map[]), REWRITE, SaveAt(RewriteReopened(FileId(0, 0), TMP, 0), map[]))
  {
    hide Possible, After, RunsTo, Compact, Rewritten, ForDisk;
    var w1 := SaveAt(RewriteStart, map[]);
    var w2 := Apply(w1, REWRITE[0]);
    assert w2 == SaveAt(RewriteOpened(FileId(0, 0)), map[]);
    var w3 := Apply(w2, REWRITE[1]);
    assert w3 == SaveAt(RewriteRead(FileId(0, 0), TMP), map[]);
    assert Apply(w3, REWRITE[2]) == SaveAt(RewriteReopened(FileId(0, 0), TMP, 0), map[]);
    ThreeEvents(w1, REWRITE[0], REWRITE[1], REWRITE[2]);
  }

  lemma ReplaceRuns()
    ensures RunsTo(SaveAt(RewriteReopened(FileId(0, 0), TMP, 0), map[]), REPLACE, AFTER_RENAME)
  {
    hide Possible, After, RunsTo, Compact, Rewritten, ForDisk;
    var w1 := SaveAt(RewriteReopened(FileId(0, 0), TMP, 0), map[]);
    var w2 := Apply(w1, REPLACE[0]);
    assert w2 == SaveAt(RewriteLocked(FileId(0, 0), TMP, 0), map[0 := 7]);
    assert Apply(w2, REPLACE[1]) == SaveAt(RewriteChecked(FileId(0, 0), TMP, 0), map[0 := 7]);
    RenameFails();
    ThreeEvents(w1, REPLACE[0], REPLACE[1], REPLACE[2]);
  }

  lemma RenameFails()
    ensures var w := SaveAt(RewriteChecked(FileId(0, 0), TMP, 0), map[0 := 7]);
            Enabled(w, FailToRename(7)) && Apply(w, FailToRename(7)) == AFTER_RENAME
  {
    ItemBuffered();
    hide Rewritten, ForDisk, Compact;
    assert [] + [ITEM] == [ITEM];
    var w := SaveAt(RewriteChecked(FileId(0, 0), TMP, 0), map[0 := 7]);
    var w' := Apply(w, FailToRename(7));
    assert w'.shells[7] == AFTER_RENAME.shells[7];
    assert w'.lost == {"ls"};
    assert w'.shells == AFTER_RENAME.shells;
  }

  /** A run in which a rename fails and the item is gone, though nobody removed it. */
  lemma FailedRenameLosesItem()
    ensures Init([], ONE_FILE) && RunsTo(ONE_FILE, VACUUM + REWRITE + REPLACE, AFTER_RENAME)
    ensures "ls" in AFTER_RENAME.shells[7].added && "ls" !in AFTER_RENAME.removed && !Kept(AFTER_RENAME, 7, "ls")
  {
    hide Possible, After, RunsTo, Apply, SaveAt;
    VacuumRuns();
    RewriteRuns();
    ReplaceRuns();
    var w1, w2 := SaveAt(RewriteStart, map[]), SaveAt(RewriteReopened(FileId(0, 0), TMP, 0), map[]);
    RunsToConcat(ONE_FILE, VACUUM, w1, REWRITE, w2);
    RunsToConcat(ONE_FILE, VACUUM + REWRITE, w2, REPLACE, AFTER_RENAME);
    assert AllTexts([]) == {} && DiskTexts([]) == {};
  }
}
