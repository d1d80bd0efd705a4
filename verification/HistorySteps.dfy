/**
 Every step of HistoryProtocol keeps its invariant.

 What the invariant says of a shell is, first, how the files it has opened, read or locked relate to the one at the
 path (`PcSound`), and second, that nothing it was given is missing (`SessionSound`). Most steps leave the files
 alone (`QuietStep`), and then only the shell that moves has to be looked at. A write and a rename change the file
 at the path; they are made only by the shell that holds its lock, so that nobody else relies on its contents,
 and what they put into it goes from the session, or the buffer, to the saved texts.
 */
module HistorySteps {
  import opened Common
  import opened HistoryItems
  import opened HistoryProtocol

  lemma InitSound(initial: seq<Item>, w: World)
    requires Init(initial, w)
    ensures Inv(initial, w)
  {
  }

  // ---------------------------------------------------------------- one step

  /** What the steps of one shell can do to the files as the others see them. */
  predicate FilesGrow(before: map<Inode, File>, after: map<Inode, File>) {
    forall i <- before ::
      && i in after && after[i].version >= before[i].version
      && (after[i].version == before[i].version ==> after[i].items == before[i].items)
  }

  lemma PcStaysSound(w: World, w': World, s: Shell)
    requires PcSound(w.files, w.path, s) && FilesGrow(w.files, w'.files)
    requires w'.path == w.path || (w'.path.Some? && w'.path.value !in w.files)
    requires Critical(s.pc) ==> w'.path == w.path && w'.files[s.pc.ino] == w.files[s.pc.ino]
    ensures PcSound(w'.files, w'.path, s)
  {
  }

  lemma LockHeld(w: World, pid: Pid)
    requires pid in w.shells && LocksSound(w) && PcSound(w.files, w.path, w.shells[pid]) && Critical(w.shells[pid].pc)
    ensures w.path == Some(w.shells[pid].pc.ino)
    ensures w.shells[pid].pc.ino in w.locks && w.locks[w.shells[pid].pc.ino] == pid
  {
    assert Holds(w.shells[pid].pc, w.shells[pid].pc.ino);
  }

  /** The lock makes the critical section exclusive. */
  lemma OneCritical(w: World, p: Pid, q: Pid)
    requires p in w.shells && q in w.shells && LocksSound(w)
    requires PcSound(w.files, w.path, w.shells[p]) && PcSound(w.files, w.path, w.shells[q])
    requires Critical(w.shells[p].pc) && Critical(w.shells[q].pc)
    ensures p == q
  {
    LockHeld(w, p);
    LockHeld(w, q);
  }

  /** Whatever one shell does, the others still hold their locks. */
  predicate LocksKept(before: map<Inode, Pid>, after: map<Inode, Pid>, pid: Pid) {
    forall i <- before :: before[i] != pid ==> i in after && after[i] == before[i]
  }

  ghost predicate HoldsIn(locks: map<Inode, Pid>, pid: Pid, pc: Pc) {
    forall i: Inode :: Holds(pc, i) ==> i in locks && locks[i] == pid
  }

  lemma HeldBefore(w: World, pid: Pid)
    requires LocksSound(w) && pid in w.shells
    ensures HoldsIn(w.locks, pid, w.shells[pid].pc)
  {
  }

  predicate OneMoves(w: World, w': World, pid: Pid) {
    pid in w'.shells && w'.shells == w.shells[pid := w'.shells[pid]]
  }

  lemma LocksStaySound(w: World, w': World, pid: Pid)
    requires LocksSound(w) && LocksKept(w.locks, w'.locks, pid)
    requires OneMoves(w, w', pid) && HoldsIn(w'.locks, pid, w'.shells[pid].pc)
    ensures LocksSound(w')
  {
    forall p <- w'.shells, i: Inode | Holds(w'.shells[p].pc, i) ensures i in w'.locks && w'.locks[i] == p {
      if p != pid {
        assert Holds(w.shells[p].pc, i);
      }
    }
  }

  /** The others are not in the critical section, or nothing they rely on there changes. */
  lemma ShellsStaySound(initial: seq<Item>, w: World, w': World, pid: Pid)
    requires ShellsSound(initial, w) && FilesGrow(w.files, w'.files) && OneMoves(w, w', pid)
    requires w'.path == w.path || (w'.path.Some? && w'.path.value !in w.files)
    requires forall p <- w.shells :: p != pid && Critical(w.shells[p].pc) ==>
                                       && w'.path == w.path && w.shells[p].pc.ino in w.files
                                        && w'.files[w.shells[p].pc.ino] == w.files[w.shells[p].pc.ino]
    requires Saved(initial, w.log) <= Saved(initial, w'.log) && w.removed <= w'.removed && w.lost <= w'.lost
    requires PcSound(w'.files, w'.path, w'.shells[pid])
    requires SessionSound(Saved(initial, w'.log), w'.removed, w'.lost, w'.shells[pid])
    ensures ShellsSound(initial, w')
  {
    forall p <- w'.shells
      ensures PcSound(w'.files, w'.path, w'.shells[p]) && SessionSound(Saved(initial, w'.log), w'.removed, w'.lost, w'.shells[p])
    {
      if p != pid {
        PcStaysSound(w, w', w.shells[p]);
      }
    }
  }

  lemma OthersNotCritical(initial: seq<Item>, w: World, pid: Pid)
    requires ShellsSound(initial, w) && LocksSound(w) && pid in w.shells && Critical(w.shells[pid].pc)
    ensures forall p <- w.shells :: p != pid ==> !Critical(w.shells[p].pc)
  {
    forall p <- w.shells | p != pid && Critical(w.shells[p].pc) ensures false {
      OneCritical(w, pid, p);
    }
  }

  lemma SoundAt(initial: seq<Item>, w: World, pid: Pid)
    requires ShellsSound(initial, w) && pid in w.shells
    ensures PcSound(w.files, w.path, w.shells[pid])
    ensures SessionSound(Saved(initial, w.log), w.removed, w.lost, w.shells[pid])
  {
  }

  /** What a shell in the critical section does to the files is no matter to the others. */
  lemma CriticalStep(initial: seq<Item>, w: World, w': World, pid: Pid)
    requires ShellsSound(initial, w) && LocksSound(w) && pid in w.shells && Critical(w.shells[pid].pc)
    requires FilesGrow(w.files, w'.files) && OneMoves(w, w', pid)
    requires w'.path == w.path || (w'.path.Some? && w'.path.value !in w.files)
    requires Saved(initial, w.log) <= Saved(initial, w'.log) && w.removed <= w'.removed && w.lost <= w'.lost
    requires PcSound(w'.files, w'.path, w'.shells[pid])
    requires SessionSound(Saved(initial, w'.log), w'.removed, w'.lost, w'.shells[pid])
    ensures ShellsSound(initial, w')
  {
    OthersNotCritical(initial, w, pid);
    hide ShellsSound, LocksSound, SessionSound, PcSound, FilesGrow, Saved, Critical;
    ShellsStaySound(initial, w, w', pid);
  }

  /** A step of one shell that touches neither files nor path keeps the invariant, if its own state stays sound. */
  lemma QuietStep(initial: seq<Item>, w: World, w': World, pid: Pid)
    requires Inv(initial, w)
    requires w'.files == w.files && w'.path == w.path && w'.log == w.log
    requires w.removed <= w'.removed && w.lost <= w'.lost
    requires OneMoves(w, w', pid)
    requires PcSound(w.files, w.path, w'.shells[pid])
    requires SessionSound(Saved(initial, w.log), w'.removed, w'.lost, w'.shells[pid])
    requires LocksKept(w.locks, w'.locks, pid) && HoldsIn(w'.locks, pid, w'.shells[pid].pc)
    ensures Inv(initial, w')
  {
    forall p <- w.shells | Critical(w.shells[p].pc) ensures w.shells[p].pc.ino in w.files {
      assert PcSound(w.files, w.path, w.shells[p]);
    }
    ShellsStaySound(initial, w, w', pid);
    LocksStaySound(w, w', pid);
    assert CurrentItems(w') == CurrentItems(w);
  }

  // ---------------------------------------------------------------- the steps, one kind at a time

  /** A shell that is not writing only moves on, keeping its locks. */
  lemma MoveStep(initial: seq<Item>, w: World, pid: Pid, pc: Pc)
    requires Inv(initial, w) && pid in w.shells
    requires PcSound(w.files, w.path, w.shells[pid].(pc := pc)) && HoldsIn(w.locks, pid, pc)
    requires Buffer(pc) == Buffer(w.shells[pid].pc) == []
    ensures Inv(initial, At(w, pid, pc))
  {
    assert SessionSound(Saved(initial, w.log), w.removed, w.lost, w.shells[pid]);
    QuietStep(initial, w, At(w, pid, pc), pid);
  }

  lemma LockStep(initial: seq<Item>, w: World, pid: Pid, ino: Inode, pc: Pc)
    requires Inv(initial, w) && pid in w.shells && ino !in w.locks
    requires PcSound(w.files, w.path, w.shells[pid].(pc := pc)) && forall i: Inode :: Holds(pc, i) ==> i == ino
    requires Buffer(pc) == Buffer(w.shells[pid].pc) == []
    ensures Inv(initial, At(w.(locks := w.locks[ino := pid]), pid, pc))
  {
    assert SessionSound(Saved(initial, w.log), w.removed, w.lost, w.shells[pid]);
    QuietStep(initial, w, At(w.(locks := w.locks[ino := pid]), pid, pc), pid);
  }

  /** A shell that is not writing gives up its lock. */
  lemma UnlockStep(initial: seq<Item>, w: World, pid: Pid, pc: Pc)
    requires Inv(initial, w) && pid in w.shells && (pc.Idle? || pc.AppendStart? || pc.RewriteStart?)
    requires Buffer(w.shells[pid].pc) == []
    ensures Inv(initial, At(Unlocked(w, pid), pid, pc))
  {
    assert SessionSound(Saved(initial, w.log), w.removed, w.lost, w.shells[pid]);
    QuietStep(initial, w, At(Unlocked(w, pid), pid, pc), pid);
  }

  lemma FreshStep(initial: seq<Item>, w: World, w': World, pid: Pid, now: int)
    requires Inv(initial, w) && (w' == With(w, pid, NewShell(now)) || w' == With(Unlocked(w, pid), pid, NewShell(now)))
    ensures Inv(initial, w')
  {
    assert DiskTexts([]) == {};
    QuietStep(initial, w, w', pid);
  }

  /** A step inside the session of an idle shell. */
  lemma SessionStep(initial: seq<Item>, w: World, w': World, pid: Pid)
    requires Inv(initial, w) && pid in w.shells && w.shells[pid].pc.Idle?
    requires w' == w.(shells := w'.shells, removed := w'.removed) && w.removed <= w'.removed && OneMoves(w, w', pid)
    requires var pc := w'.shells[pid].pc; pc.Idle? || pc.AppendStart? || pc.RewriteStart?
    requires SessionSound(Saved(initial, w.log), w'.removed, w.lost, w'.shells[pid])
    ensures Inv(initial, w')
  {
    QuietStep(initial, w, w', pid);
  }

  lemma LastItem(items: seq<Item>)
    requires items != []
    ensures DiskTexts(items) == DiskTexts(items[..|items| - 1]) + DiskTexts([items[|items| - 1]])
  {
    assert items == items[..|items| - 1] + [items[|items| - 1]];
    DiskTextsConcat(items[..|items| - 1], [items[|items| - 1]]);
  }

  lemma OneDiskText(item: Item)
    ensures DiskTexts([item]) == if item.mode == Disk then {item.contents} else {}
  {
    assert [item][0] == item;
  }

  lemma MergedTexts(items: seq<Item>, item: Item)
    requires items != [] && Mergeable(items[|items| - 1], item)
    ensures DiskTexts(MergedIntoLast(items, item)) == DiskTexts(items)
    ensures item.mode == Disk ==> item.contents in DiskTexts(items)
    ensures NoEmpty(items) ==> NoEmpty(MergedIntoLast(items, item))
  {
    var merged := MergedIntoLast(items, item);
    LastItem(items);
    LastItem(merged);
    assert merged[..|merged| - 1] == items[..|items| - 1];
    OneDiskText(items[|items| - 1]);
    OneDiskText(merged[|merged| - 1]);
  }

  lemma AddedTexts(s: Session, item: Item)
    ensures DiskTexts(Added(s, item).written) == DiskTexts(s.written)
    ensures DiskTexts(Added(s, item).unwritten) >= DiskTexts(s.unwritten)
    ensures item.mode == Disk && item.contents != "" ==>
              item.contents in DiskTexts(Added(s, item).written) + DiskTexts(Added(s, item).unwritten)
    ensures NoEmpty(s.unwritten) ==> NoEmpty(Added(s, item).unwritten)
  {
    var items := s.Items();
    if item.contents != "" {
      if items != [] && Mergeable(items[|items| - 1], item) {
        if s.unwritten != [] {
          MergedTexts(s.unwritten, item);
        } else {
          MergedTexts(s.written, item);
        }
      } else {
        DiskTextsConcat(s.unwritten, [item]);
        OneDiskText(item);
      }
    }
  }

  lemma AddStep(initial: seq<Item>, w: World, pid: Pid, item: Item)
    requires Inv(initial, w) && Enabled(w, Event.AddItem(pid, item))
    ensures Inv(initial, Apply(w, Event.AddItem(pid, item)))
  {
    var w' := ItemAdded(w, pid, item);
    assert SessionSound(Saved(initial, w.log), w.removed, w.lost, w.shells[pid]);
    AddedTexts(w.shells[pid].session, item);
    SessionStep(initial, w, w', pid);
  }

  lemma {:induction false} WithoutNoEmpty(items: seq<Item>, text: string)
    ensures NoEmpty(items) ==> NoEmpty(Without(items, text))
  {
    if items != [] {
      WithoutNoEmpty(items[1..], text);
    }
  }

  lemma {:induction false} CompactNoEmpty(items: seq<Item>, later: set<string>)
    ensures NoEmpty(items) ==> NoEmpty(Compact(items, later))
  {
    if items != [] {
      CompactNoEmpty(items[1..], later);
    }
  }

  lemma RemoveStep(initial: seq<Item>, w: World, pid: Pid, text: string)
    requires Inv(initial, w) && Enabled(w, RemoveText(pid, text))
    ensures Inv(initial, Apply(w, RemoveText(pid, text)))
  {
    var s := w.shells[pid].session;
    assert SessionSound(Saved(initial, w.log), w.removed, w.lost, w.shells[pid]);
    WithoutDiskTexts(s.written, text);
    WithoutDiskTexts(s.unwritten, text);
    WithoutNoEmpty(s.unwritten, text);
    SessionStep(initial, w, Apply(w, RemoveText(pid, text)), pid);
  }

  lemma EphemeralStep(initial: seq<Item>, w: World, pid: Pid)
    requires Inv(initial, w) && Enabled(w, RemoveEphemeral(pid))
    ensures Inv(initial, Apply(w, RemoveEphemeral(pid)))
  {
    var s := w.shells[pid].session;
    assert SessionSound(Saved(initial, w.log), w.removed, w.lost, w.shells[pid]);
    DropEphemeralDiskTexts(s.written);
    DropEphemeralDiskTexts(s.unwritten);
    DropEphemeralPrefix(s.unwritten);
    SessionStep(initial, w, Apply(w, RemoveEphemeral(pid)), pid);
  }

  lemma DiskTextsOfAll(items: seq<Item>)
    ensures DiskTexts(items) <= AllTexts(items)
  {
  }

  lemma ClearStep(initial: seq<Item>, w: World, pid: Pid)
    requires Inv(initial, w) && Enabled(w, Event.ClearSession(pid))
    ensures Inv(initial, Apply(w, Event.ClearSession(pid)))
  {
    var s := w.shells[pid].session;
    assert SessionSound(Saved(initial, w.log), w.removed, w.lost, w.shells[pid]);
    AllTextsConcat(s.written, s.unwritten);
    DiskTextsOfAll(s.written);
    DiskTextsOfAll(s.unwritten);
    assert DiskTexts([]) == {};
    SessionStep(initial, w, Apply(w, Event.ClearSession(pid)), pid);
  }

  lemma CompactedTexts(s: Session)
    ensures var s' := Compacted(s);
            && DiskTexts(s'.written) <= DiskTexts(s.written)
            && DiskTexts(s'.written) + DiskTexts(s'.unwritten) == DiskTexts(s.written) + DiskTexts(s.unwritten)
            && (NoEmpty(s.unwritten) ==> NoEmpty(s'.unwritten))
            && s'.deleted == s.deleted
  {
    CompactDiskTexts(s.written, DiskTexts(s.unwritten));
    CompactUnique(s.written, DiskTexts(s.unwritten));
    CompactDiskTexts(s.unwritten, {});
    assert DiskTexts(Compact(s.unwritten, {})) == DiskTexts(s.unwritten);
    CompactNoEmpty(s.unwritten, {});
  }

  lemma BeginStep(initial: seq<Item>, w: World, pid: Pid, vacuum: bool)
    requires Inv(initial, w) && Enabled(w, BeginSave(pid, vacuum))
    ensures Inv(initial, Apply(w, BeginSave(pid, vacuum)))
  {
    assert SessionSound(Saved(initial, w.log), w.removed, w.lost, w.shells[pid]);
    CompactedTexts(w.shells[pid].session);
    SessionStep(initial, w, SaveBegun(w, pid, vacuum), pid);
  }

  // ---------------------------------------------------------------- appending

  /** The first unwritten item joins the written ones and, if it is for disk, the buffer. */
  lemma AdvancedTexts(s: Session, buffer: seq<Item>)
    requires s.unwritten != [] && NoEmpty(s.unwritten) && NoEmpty(buffer)
    ensures var s' := Advanced(s);
            var item := ForDisk([s.unwritten[0]]);
            && DiskTexts(s'.written) == DiskTexts(s.written) + AllTexts(item)
            && DiskTexts(s'.written) + DiskTexts(s'.unwritten) == DiskTexts(s.written) + DiskTexts(s.unwritten)
            && AllTexts(buffer + item) == AllTexts(buffer) + AllTexts(item)
            && NoEmpty(buffer + item) && NoEmpty(s'.unwritten)
  {
    var first := [s.unwritten[0]];
    DiskTextsConcat(s.written, first);
    assert s.unwritten == first + s.unwritten[1..];
    DiskTextsConcat(first, s.unwritten[1..]);
    ForDiskTexts(first);
    ForDiskNoEmpty(first);
    AllTextsConcat(buffer, ForDisk(first));
  }

  lemma BufferStep(initial: seq<Item>, w: World, pid: Pid)
    requires Inv(initial, w) && Enabled(w, BufferItem(pid))
    ensures Inv(initial, Apply(w, BufferItem(pid)))
  {
    var s := w.shells[pid];
    assert SessionSound(Saved(initial, w.log), w.removed, w.lost, s) && PcSound(w.files, w.path, s);
    AdvancedTexts(s.session, s.pc.buffer);
    HeldBefore(w, pid);
    assert Holds(s.pc, s.pc.ino);
    QuietStep(initial, w, Apply(w, BufferItem(pid)), pid);
  }

  lemma FoldStep(initial: seq<Item>, log: seq<Commit>, c: Commit)
    ensures var log' := log + [c];
            && Fold(initial, log') == (if c.Appended? then Fold(initial, log) + c.items else Rewritten(c.session, Fold(initial, log)))
            && Saved(initial, log') == Saved(initial, log) + (if c.Appended? then AllTexts(c.items) else DiskTexts(c.session.unwritten))
            && Deleted(log') == Deleted(log) + (if c.Appended? then {} else c.session.deleted.Keys)
  {
    assert (log + [c])[..|log|] == log;
  }

  /** A write to the file at the path, by the shell that holds its lock. */
  lemma WriteStep(initial: seq<Item>, w: World, w': World, pid: Pid, ino: Inode, buffer: seq<Item>)
    requires Inv(initial, w) && pid in w.shells && w.shells[pid].pc.Appending? && w.shells[pid].pc.ino == ino && ino in w.files
    requires NoEmpty(buffer) && w' == Written(w, ino, buffer).(shells := w'.shells) && OneMoves(w, w', pid)
    requires w'.shells[pid].pc == Appending(ino, []) || w'.shells[pid].pc == Closing(ino)
    requires SessionSound(Saved(initial, w.log) + AllTexts(buffer), w.removed, w.lost, w'.shells[pid])
    ensures Inv(initial, w')
  {
    hide ShellsSound, LocksSound, FileSound, Saved, SessionSound;
    SoundAt(initial, w, pid);
    WriteFile(initial, w, ino, buffer);
    WriteShells(initial, w, w', pid, ino, buffer);
    HeldBefore(w, pid);
    assert Holds(w.shells[pid].pc, ino);
    LocksStaySound(w, w', pid);
    SameFile(initial, Written(w, ino, buffer), w');
  }

  lemma SameFile(initial: seq<Item>, w: World, w': World)
    requires FileSound(initial, w) && w' == w.(shells := w'.shells)
    ensures FileSound(initial, w')
  {
    assert CurrentItems(w') == CurrentItems(w);
  }

  lemma WriteShells(initial: seq<Item>, w: World, w': World, pid: Pid, ino: Inode, buffer: seq<Item>)
    requires ShellsSound(initial, w) && LocksSound(w) && pid in w.shells && Critical(w.shells[pid].pc) && ino in w.files
    requires w' == Written(w, ino, buffer).(shells := w'.shells) && OneMoves(w, w', pid)
    requires PcSound(w'.files, w'.path, w'.shells[pid]) && FilesGrow(w.files, w'.files)
    requires Saved(initial, w'.log) == Saved(initial, w.log) + AllTexts(buffer)
    requires SessionSound(Saved(initial, w.log) + AllTexts(buffer), w.removed, w.lost, w'.shells[pid])
    ensures ShellsSound(initial, w')
  {
    hide ShellsSound, LocksSound, SessionSound, PcSound, FilesGrow, Saved, Critical, AllTexts;
    CriticalStep(initial, w, w', pid);
  }

  lemma WriteFile(initial: seq<Item>, w: World, ino: Inode, buffer: seq<Item>)
    requires FileSound(initial, w) && w.path == Some(ino) && NoEmpty(buffer)
    ensures var w' := Written(w, ino, buffer);
            FileSound(initial, w') && FilesGrow(w.files, w'.files) && Saved(initial, w'.log) == Saved(initial, w.log) + AllTexts(buffer)
  {
    FoldStep(initial, w.log, Appended(buffer));
    assert AllTexts([]) == {};
    assert Written(w, ino, buffer).path == w.path;
    assert buffer == [] ==> Written(w, ino, buffer) == w;
  }

  lemma WriteItemStep(initial: seq<Item>, w: World, pid: Pid)
    requires Inv(initial, w) && Enabled(w, WriteItem(pid))
    ensures Inv(initial, Apply(w, WriteItem(pid)))
  {
    var s := w.shells[pid];
    var buffer := s.pc.buffer + ForDisk([s.session.unwritten[0]]);
    assert SessionSound(Saved(initial, w.log), w.removed, w.lost, s);
    AdvancedTexts(s.session, s.pc.buffer);
    assert AllTexts([]) == {};
    WriteStep(initial, w, ItemWritten(w, pid), pid, s.pc.ino, buffer);
  }

  lemma WriteRestStep(initial: seq<Item>, w: World, pid: Pid)
    requires Inv(initial, w) && Enabled(w, WriteRest(pid))
    ensures Inv(initial, Apply(w, WriteRest(pid)))
  {
    var s := w.shells[pid];
    assert SessionSound(Saved(initial, w.log), w.removed, w.lost, s);
    assert AllTexts([]) == {};
    WriteStep(initial, w, Apply(w, WriteRest(pid)), pid, s.pc.ino, s.pc.buffer);
  }

  /** Some bytes are written to the file at the path, by the shell that holds its lock. */
  lemma TouchStep(initial: seq<Item>, w: World, pid: Pid, ino: Inode)
    requires Inv(initial, w) && pid in w.shells && w.shells[pid].pc == Appending(ino, []) && ino in w.files
    ensures Inv(initial, Touched(w, ino))
  {
    hide ShellsSound, LocksSound, SessionSound, FileSound, Saved;
    SoundAt(initial, w, pid);
    CriticalStep(initial, w, Touched(w, ino), pid);
    TouchedFile(initial, w, ino);
  }

  lemma TouchedFile(initial: seq<Item>, w: World, ino: Inode)
    requires ino in w.files
    ensures FileSound(initial, w) ==> FileSound(initial, Touched(w, ino))
    ensures LocksSound(w) ==> LocksSound(Touched(w, ino))
  {
    assert PathId(w).Some? ==> CurrentItems(Touched(w, ino)) == CurrentItems(w);
  }

  lemma FailToWriteStep(initial: seq<Item>, w: World, pid: Pid, done: nat, torn: bool)
    requires Inv(initial, w) && Enabled(w, FailToWrite(pid, done, torn))
    ensures Inv(initial, Apply(w, FailToWrite(pid, done, torn)))
  {
    hide Inv;
    // First the part is written, then the bytes that are no item; then the lock is given up.
    PartStep(initial, w, pid, done);
    FailedIs(w, pid, done, torn);
    var ino, w2 := w.shells[pid].pc.ino, PartWritten(w, pid, done);
    hide *;
    if torn {
      TouchStep(initial, w2, pid, ino);
    }
    UnlockStep(initial, if torn then Touched(w2, ino) else w2, pid, RewriteStart);
  }

  lemma FailedIs(w: World, pid: Pid, done: nat, torn: bool)
    requires Enabled(w, FailToWrite(pid, done, torn))
    ensures var w2 := PartWritten(w, pid, done);
            var ino := w.shells[pid].pc.ino;
            && pid in w2.shells && w2.shells[pid].pc == Appending(ino, []) && ino in w2.files
            && (var w3 := if torn then Touched(w2, ino) else w2;
                && pid in w3.shells && Buffer(w3.shells[pid].pc) == []
                && Apply(w, FailToWrite(pid, done, torn)) == At(Unlocked(w3, pid), pid, RewriteStart))
  {
    hide AllTexts, DiskTexts, ForDisk;
    var ino := w.shells[pid].pc.ino;
    var w2 := PartWritten(w, pid, done);
    var w3 := if torn then Touched(w2, ino) else w2;
    assert Unlocked(w3, pid).locks == Unlocked(w, pid).locks;
  }

  function PartWritten(w: World, pid: Pid, done: nat): World
    requires pid in w.shells && w.shells[pid].pc.Appending? && w.shells[pid].pc.ino in w.files && done <= |w.shells[pid].pc.buffer|
  {
    var s := w.shells[pid];
    With(Written(w.(lost := w.lost + AllTexts(s.pc.buffer[done..])), s.pc.ino, s.pc.buffer[..done]), pid,
         s.(pc := Appending(s.pc.ino, [])))
  }

  /** Some of the buffer is written, the rest is lost. */
  lemma PartStep(initial: seq<Item>, w: World, pid: Pid, done: nat)
    requires Inv(initial, w) && pid in w.shells && w.shells[pid].pc.Appending?
    requires w.shells[pid].pc.ino in w.files && done <= |w.shells[pid].pc.buffer|
    ensures Inv(initial, PartWritten(w, pid, done))
  {
    var s := w.shells[pid];
    var ino, part, rest := s.pc.ino, s.pc.buffer[..done], s.pc.buffer[done..];
    assert SessionSound(Saved(initial, w.log), w.removed, w.lost, s) && PcSound(w.files, w.path, s);
    assert s.pc.buffer == part + rest;
    AllTextsConcat(part, rest);
    assert AllTexts([]) == {};
    var w1 := w.(lost := w.lost + AllTexts(rest));
    HeldBefore(w, pid);
    QuietStep(initial, w, w1, pid);
    var s2 := s.(pc := Appending(ino, []));
    assert SessionSound(Saved(initial, w.log) + AllTexts(part), w.removed, w1.lost, s2);
    hide Inv, SessionSound, AllTexts, Saved;
    WriteStep(initial, w1, PartWritten(w, pid, done), pid, ino, part);
  }

  // ---------------------------------------------------------------- rewriting

  lemma CreateStep(initial: seq<Item>, w: World, pid: Pid, ino: Inode)
    requires Inv(initial, w) && Enabled(w, OpenToRewrite(pid, ino)) && w.path.None?
    ensures Inv(initial, Apply(w, OpenToRewrite(pid, ino)))
  {
    hide Fold, NoEmptyTexts, Deleted, Saved, NoEmpty, DiskTexts, AllTexts, Rewritten;
    var w' := Apply(w, OpenToRewrite(pid, ino));
    forall p <- w.shells ensures !Critical(w.shells[p].pc) {
      assert PcSound(w.files, w.path, w.shells[p]);
    }
    assert SessionSound(Saved(initial, w.log), w.removed, w.lost, w.shells[pid]);
    ShellsStaySound(initial, w, w', pid);
    LocksStaySound(w, w', pid);
    assert CurrentItems(w') == CurrentItems(w) == [];
  }

  lemma FlushedTexts(s: Session)
    ensures DiskTexts(Flushed(s).written) == DiskTexts(s.written) + DiskTexts(s.unwritten)
    ensures DiskTexts([]) == {} && AllTexts([]) == {}
  {
    DiskTextsConcat(s.written, s.unwritten);
  }

  lemma RenameStep(initial: seq<Item>, w: World, pid: Pid, ino: Inode)
    requires Inv(initial, w) && Enabled(w, Rename(pid, ino))
    ensures Inv(initial, Apply(w, Rename(pid, ino)))
  {
    assert PcSound(w.files, w.path, w.shells[pid]) && SessionSound(Saved(initial, w.log), w.removed, w.lost, w.shells[pid]);
    RenameShells(initial, w, pid, ino);
    RenameLocks(w, pid, ino);
    RenameFile(initial, w, pid, ino);
    hide ShellsSound, LocksSound, FileSound, Replaces;
    assert Apply(w, Rename(pid, ino)) == Replaces(w, pid, ino);
  }

  lemma RenameShells(initial: seq<Item>, w: World, pid: Pid, ino: Inode)
    requires ShellsSound(initial, w) && LocksSound(w) && Enabled(w, Rename(pid, ino))
    ensures ShellsSound(initial, Replaces(w, pid, ino))
  {
    hide ShellsSound, LocksSound, DiskTexts, AllTexts, Rewritten, Deleted, NoEmpty, SessionSound;
    SoundAt(initial, w, pid);
    FoldStep(initial, w.log, Replaced(w.shells[pid].session));
    hide Saved, Fold;
    var s := w.shells[pid];
    var s' := s.(session := Flushed(s.session), pc := Closing(s.pc.ino));
    RenamedSession(Saved(initial, w.log), w.removed, w.lost, s, s');
    CriticalStep(initial, w, Replaces(w, pid, ino), pid);
  }

  lemma RenamedSession(saved: set<string>, removed: set<string>, lost: set<string>, s: Shell, s': Shell)
    requires SessionSound(saved, removed, lost, s) && s.pc.RewriteChecked?
    requires s' == s.(session := Flushed(s.session), pc := Closing(s.pc.ino))
    ensures SessionSound(saved + DiskTexts(s.session.unwritten), removed, lost, s')
  {
    FlushedTexts(s.session);
  }

  lemma RenameLocks(w: World, pid: Pid, ino: Inode)
    requires LocksSound(w) && Enabled(w, Rename(pid, ino))
    ensures LocksSound(Replaces(w, pid, ino))
  {
    HeldBefore(w, pid);
    assert Holds(w.shells[pid].pc, w.shells[pid].pc.ino);
    LocksStaySound(w, Replaces(w, pid, ino), pid);
  }

  lemma RenameFile(initial: seq<Item>, w: World, pid: Pid, ino: Inode)
    requires FileSound(initial, w) && Enabled(w, Rename(pid, ino)) && PcSound(w.files, w.path, w.shells[pid])
    requires SessionSound(Saved(initial, w.log), w.removed, w.lost, w.shells[pid])
    ensures FileSound(initial, Replaces(w, pid, ino))
  {
    var s := w.shells[pid];
    FoldStep(initial, w.log, Replaced(s.session));
    assert CurrentItems(w) == w.files[s.pc.ino].items;
    assert CurrentItems(Replaces(w, pid, ino)) == s.pc.tmp;
  }

  lemma FailToRenameStep(initial: seq<Item>, w: World, pid: Pid)
    requires Inv(initial, w) && Enabled(w, FailToRename(pid))
    ensures Inv(initial, Apply(w, FailToRename(pid)))
  {
    var s := w.shells[pid];
    assert PcSound(w.files, w.path, s) && SessionSound(Saved(initial, w.log), w.removed, w.lost, s);
    FlushedTexts(s.session);
    HeldBefore(w, pid);
    assert Holds(s.pc, s.pc.ino);
    QuietStep(initial, w, Apply(w, FailToRename(pid)), pid);
  }

  /** Opening and giving up: steps of a shell that is not writing. */
  lemma OpenStep(initial: seq<Item>, w: World, e: Event)
    requires Inv(initial, w) && Enabled(w, e)
    requires e.OpenToAppend? || e.GiveUpAppending? || e.GiveUpRewriting? || (e.OpenToRewrite? && PathId(w).Some?)
    ensures Inv(initial, Apply(w, e))
  {
    hide SessionSound, Fold, NoEmptyTexts, Deleted, Saved, Rewritten;
    MoveStep(initial, w, e.pid, Apply(w, e).shells[e.pid].pc);
  }

  lemma ReadStep(initial: seq<Item>, w: World, e: Event)
    requires Inv(initial, w) && Enabled(w, e) && (e.ReadAndRewrite? || e.Reopen?)
    ensures Inv(initial, Apply(w, e))
  {
    hide SessionSound, Fold, NoEmptyTexts, Deleted, Saved, Rewritten;
    assert PcSound(w.files, w.path, w.shells[e.pid]);
    MoveStep(initial, w, e.pid, Apply(w, e).shells[e.pid].pc);
  }

  lemma CompareStep(initial: seq<Item>, w: World, e: Event)
    requires Inv(initial, w) && Enabled(w, e) && (e.CompareToAppend? || e.CompareToReplace?)
    ensures Inv(initial, Apply(w, e))
  {
    hide SessionSound, Fold, NoEmptyTexts, Deleted, Saved, Rewritten;
    var s := w.shells[e.pid];
    var same := if e.CompareToAppend? then PathId(w) == IdAt(w, s.pc.ino) else PathId(w) == Some(s.pc.orig);
    assert PcSound(w.files, w.path, s);
    if same {
      HeldBefore(w, e.pid);
      assert Holds(s.pc, s.pc.ino);
      MoveStep(initial, w, e.pid, Apply(w, e).shells[e.pid].pc);
    } else {
      UnlockStep(initial, w, e.pid, Apply(w, e).shells[e.pid].pc);
    }
  }

  lemma TakeLockStep(initial: seq<Item>, w: World, e: Event)
    requires Inv(initial, w) && Enabled(w, e) && (e.LockToAppend? || e.LockToReplace?)
    ensures Inv(initial, Apply(w, e))
  {
    hide SessionSound, Fold, NoEmptyTexts, Deleted, Saved, Rewritten;
    var s := w.shells[e.pid];
    assert PcSound(w.files, w.path, s);
    LockStep(initial, w, e.pid, s.pc.ino, Apply(w, e).shells[e.pid].pc);
  }

  /** A shell starts, crashes, or closes the file. */
  lemma StartOrCloseStep(initial: seq<Item>, w: World, e: Event)
    requires Inv(initial, w) && Enabled(w, e) && (e.Spawn? || e.Crash? || e.Close?)
    ensures Inv(initial, Apply(w, e))
  {
    hide Inv;
    match e
    case Spawn(pid, now) => FreshStep(initial, w, Apply(w, e), pid, now);
    case Crash(pid, now) => FreshStep(initial, w, Apply(w, e), pid, now);
    case Close(pid) => UnlockStep(initial, w, pid, Idle);
  }

  lemma OpenToRewriteStep(initial: seq<Item>, w: World, e: Event)
    requires Inv(initial, w) && Enabled(w, e) && e.OpenToRewrite?
    ensures Inv(initial, Apply(w, e))
  {
    assert w.path.Some? ==> PathId(w).Some?;
    hide Inv, Apply, Enabled;
    if w.path.None? {
      CreateStep(initial, w, e.pid, e.newInode);
    } else {
      OpenStep(initial, w, e);
    }
  }

  lemma StepKeepsInv(initial: seq<Item>, w: World, e: Event)
    requires Inv(initial, w) && Enabled(w, e)
    ensures Inv(initial, Apply(w, e))
  {
    hide *;
    match e
    case Spawn(_, _) => StartOrCloseStep(initial, w, e);
    case Crash(_, _) => StartOrCloseStep(initial, w, e);
    case Close(_) => StartOrCloseStep(initial, w, e);
    case AddItem(pid, item) => AddStep(initial, w, pid, item);
    case RemoveText(pid, text) => RemoveStep(initial, w, pid, text);
    case RemoveEphemeral(pid) => EphemeralStep(initial, w, pid);
    case ClearSession(pid) => ClearStep(initial, w, pid);
    case BeginSave(pid, vacuum) => BeginStep(initial, w, pid, vacuum);
    case OpenToAppend(_) => OpenStep(initial, w, e);
    case GiveUpAppending(_) => OpenStep(initial, w, e);
    case LockToAppend(_) => TakeLockStep(initial, w, e);
    case CompareToAppend(_) => CompareStep(initial, w, e);
    case BufferItem(pid) => BufferStep(initial, w, pid);
    case WriteItem(pid) => WriteItemStep(initial, w, pid);
    case WriteRest(pid) => WriteRestStep(initial, w, pid);
    case FailToWrite(pid, done, torn) => FailToWriteStep(initial, w, pid, done, torn);
    case OpenToRewrite(_, _) => OpenToRewriteStep(initial, w, e);
    case ReadAndRewrite(_) => ReadStep(initial, w, e);
    case Reopen(_) => ReadStep(initial, w, e);
    case LockToReplace(_) => TakeLockStep(initial, w, e);
    case CompareToReplace(_) => CompareStep(initial, w, e);
    case Rename(pid, ino) => RenameStep(initial, w, pid, ino);
    case FailToRename(pid) => FailToRenameStep(initial, w, pid);
    case GiveUpRewriting(_) => OpenStep(initial, w, e);
  }
}
