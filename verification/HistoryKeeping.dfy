/**
 What one step of HistoryProtocol does to one text: whether it stays where it is, and where it goes.

 A text that is in the file stays there, unless it is deleted by the session of a shell that rewrites the file. A text
 that a shell still has, unwritten or in its buffer, stays with it until it is written, unless it is removed, the shell
 crashes, or a write or rename fails. A text that is nowhere stays nowhere until some shell is given it. So each can be
 followed through a run without looking at where else it has been before.
 */
module HistoryKeeping {
  import opened Common
  import opened HistoryItems
  import opened HistoryProtocol
  import opened HistorySteps

  // ---------------------------------------------------------------- what a step does

  function SessionAfter(s: Shell, e: Event): Session
    requires e.BufferItem? || e.WriteItem? ==> s.session.unwritten != []
  {
    match e
    case Spawn(_, now) => NewSession(now)
    case Crash(_, now) => NewSession(now)
    case AddItem(_, item) => Added(s.session, item)
    case RemoveText(_, text) => Removed(s.session, text)
    case RemoveEphemeral(_) => EphemeralRemoved(s.session)
    case ClearSession(_) => SessionCleared(s.session)
    case BeginSave(_, _) => Compacted(s.session)
    case BufferItem(_) => Advanced(s.session)
    case WriteItem(_) => Advanced(s.session)
    case Rename(_, _) => Flushed(s.session)
    case FailToRename(_) => Flushed(s.session)
    case _ => s.session
  }

  function BufferAfter(s: Shell, e: Event): seq<Item>
    requires e.BufferItem? ==> s.session.unwritten != []
  {
    if e.BufferItem? then Buffer(s.pc) + ForDisk([s.session.unwritten[0]]) else []
  }

  function FileAfter(file: seq<Item>, s: Shell, e: Event): seq<Item>
    requires e.WriteItem? ==> s.session.unwritten != []
    requires e.FailToWrite? ==> e.done <= |Buffer(s.pc)|
  {
    match e
    case WriteItem(_) => file + (Buffer(s.pc) + ForDisk([s.session.unwritten[0]]))
    case WriteRest(_) => file + Buffer(s.pc)
    case FailToWrite(_, done, _) => file + Buffer(s.pc)[..done]
    case Rename(_, _) => Rewritten(s.session, file)
    case _ => file
  }

  predicate Effect(w: World, e: Event, w': World)
    requires e.pid in w.shells && Enabled(w, e)
  {
    var s := w.shells[e.pid];
    && e.pid in w'.shells && w'.shells == w.shells[e.pid := w'.shells[e.pid]]
    && w'.shells[e.pid].session == SessionAfter(s, e)
    && Buffer(w'.shells[e.pid].pc) == BufferAfter(s, e)
    && CurrentItems(w') == FileAfter(CurrentItems(w), s, e)
  }

  predicate Writes(e: Event) {
    e.WriteItem? || e.WriteRest? || e.FailToWrite? || e.Rename?
  }

  lemma QuietEffect(w: World, e: Event)
    requires e.pid in w.shells && Enabled(w, e) && !Writes(e)
    ensures Effect(w, e, Apply(w, e))
  {
    hide Rewritten, Added, Removed, EphemeralRemoved, SessionCleared, Compacted, ForDisk, DiskTexts, AllTexts;
  }

  lemma WriteEffect(initial: seq<Item>, w: World, e: Event)
    requires Inv(initial, w) && e.pid in w.shells && Enabled(w, e) && Writes(e)
    ensures Effect(w, e, Apply(w, e))
  {
    hide ShellsSound, LocksSound, FileSound, Rewritten, ForDisk, DiskTexts, AllTexts, SessionSound, Saved;
    SoundAt(initial, w, e.pid);
    assert CurrentItems(w) == w.files[w.shells[e.pid].pc.ino].items;
  }

  lemma StepEffect(initial: seq<Item>, w: World, e: Event)
    requires Inv(initial, w) && Enabled(w, e)
    ensures e.Spawn? ==> Apply(w, e) == With(w, e.pid, NewShell(e.now)) && e.pid !in w.shells
    ensures !e.Spawn? ==> e.pid in w.shells && Effect(w, e, Apply(w, e))
  {
    if !e.Spawn? {
      assert e.pid in w.shells;
      hide *;
      if Writes(e) {
        WriteEffect(initial, w, e);
      } else {
        QuietEffect(w, e);
      }
    }
  }

  // ---------------------------------------------------------------- what becomes of a text

  /** Only a shell that is appending has a buffer. */
  lemma NoBuffer(w: World, e: Event)
    requires e.pid in w.shells && Enabled(w, e)
    ensures Buffer(w.shells[e.pid].pc) != [] ==> e.Crash? || e.BufferItem? || e.WriteItem? || e.WriteRest? || e.FailToWrite?
    ensures e.WriteRest? ==> w.shells[e.pid].session.unwritten == []
  {
  }

  lemma SessionKeeps(s: Session, e: Event, text: string)
    requires e.AddItem? || e.RemoveText? || e.RemoveEphemeral? || e.BeginSave?
    requires text in DiskTexts(s.unwritten) && (e.RemoveText? ==> text != e.text)
    ensures text in DiskTexts(SessionAfter(Shell(Pc.Idle, s, {}), e).unwritten)
  {
    match e
    case AddItem(_, item) => AddedTexts(s, item);
    case RemoveText(_, t) => WithoutDiskTexts(s.unwritten, t);
    case RemoveEphemeral(_) => DropEphemeralDiskTexts(s.unwritten);
    case BeginSave(_, _) => CompactDiskTexts(s.unwritten, {});
  }

  /** What a shell has to write stays with it until it is in the file. */
  lemma HasStep(initial: seq<Item>, w: World, e: Event, text: string)
    requires Inv(initial, w) && Enabled(w, e) && !e.Spawn? && !e.Crash? && Has(w, e.pid, text)
    requires text !in Removals(w, e) && text !in Losses(w, e)
    requires e.Rename? ==> |AllTexts(RewriteInput(w.shells[e.pid].session, CurrentItems(w)))| <= HISTORY_SAVE_MAX
    ensures e.pid in Apply(w, e).shells && Kept(Apply(w, e), e.pid, text)
  {
    StepEffect(initial, w, e);
    NoBuffer(w, e);
    LossIs(w, e);
    var s := w.shells[e.pid];
    SoundAt(initial, w, e.pid);
    assert NoEmpty(s.session.unwritten) && NoEmpty(Buffer(s.pc)) by {
      hide *;
      SoundTexts(Saved(initial, w.log), w.removed, w.lost, s);
    }
    hide Inv, Apply, Enabled, Losses, CurrentItems, SessionAfter, BufferAfter, FileAfter, DiskTexts, AllTexts, NoEmpty, Buffer,
      SessionSound, PcSound, Rewritten;
    KeepsText(CurrentItems(w), s, e, text);
  }

  lemma SoundTexts(saved: set<string>, removed: set<string>, lost: set<string>, s: Shell)
    requires SessionSound(saved, removed, lost, s)
    ensures NoEmpty(s.session.unwritten) && NoEmpty(Buffer(s.pc))
  {
  }

  lemma KeepsText(file: seq<Item>, s: Shell, e: Event, text: string)
    requires !e.Spawn? && !e.Crash? && NoEmpty(s.session.unwritten) && NoEmpty(Buffer(s.pc))
    requires e.FailToRename? ==> text !in DiskTexts(s.session.unwritten)
    requires text in DiskTexts(s.session.unwritten) || text in AllTexts(Buffer(s.pc))
    requires Buffer(s.pc) != [] ==> e.BufferItem? || e.WriteItem? || e.WriteRest? || e.FailToWrite?
    requires e.BufferItem? || e.WriteItem? ==> s.session.unwritten != []
    requires e.WriteRest? ==> s.session.unwritten == []
    requires e.FailToWrite? ==> e.done <= |Buffer(s.pc)| && text !in AllTexts(Buffer(s.pc)[e.done..])
    requires e.RemoveText? ==> text != e.text
    requires e.ClearSession? ==> text !in AllTexts(s.session.Items())
    requires e.Rename? ==> |AllTexts(RewriteInput(s.session, file))| <= HISTORY_SAVE_MAX
    ensures || text in DiskTexts(SessionAfter(s, e).unwritten) || text in AllTexts(BufferAfter(s, e))
            || text in AllTexts(FileAfter(file, s, e))
  {
    assert AllTexts([]) == {} && DiskTexts([]) == {};
    hide Rewritten, DiskTexts, AllTexts, NoEmpty;
    if e.AddItem? || e.RemoveText? || e.RemoveEphemeral? || e.BeginSave? {
      SessionKeeps(s.session, e, text);
    } else if e.ClearSession? {
      AllTextsConcat(s.session.written, s.session.unwritten);
      DiskTextsOfAll(s.session.unwritten);
    } else if e.BufferItem? || e.WriteItem? {
      WritingKeeps(file, s, text);
    } else if e.WriteRest? {
      AllTextsConcat(file, Buffer(s.pc));
    } else if e.FailToWrite? {
      AllTextsConcat(file, Buffer(s.pc)[..e.done]);
      AllTextsConcat(Buffer(s.pc)[..e.done], Buffer(s.pc)[e.done..]);
      assert Buffer(s.pc) == Buffer(s.pc)[..e.done] + Buffer(s.pc)[e.done..];
    } else if e.Rename? {
      RewriteKeeps(s.session, file, 0);
    }
  }

  lemma LossIs(w: World, e: Event)
    requires Enabled(w, e) && !e.Spawn?
    ensures e.FailToWrite? ==>
              e.done <= |Buffer(w.shells[e.pid].pc)| && Losses(w, e) == AllTexts(Buffer(w.shells[e.pid].pc)[e.done..])
    ensures e.FailToRename? ==> Losses(w, e) == DiskTexts(w.shells[e.pid].session.unwritten)
  {
  }

  /** The first unwritten item goes to the buffer, or with the buffer to the file. */
  lemma WritingKeeps(file: seq<Item>, s: Shell, text: string)
    requires s.session.unwritten != [] && NoEmpty(s.session.unwritten) && NoEmpty(Buffer(s.pc))
    requires text in DiskTexts(s.session.unwritten) || text in AllTexts(Buffer(s.pc))
    ensures var next := Buffer(s.pc) + ForDisk([s.session.unwritten[0]]);
            && (text in DiskTexts(Advanced(s.session).unwritten) || text in AllTexts(next))
            && AllTexts(file + next) == AllTexts(file) + AllTexts(next)
  {
    var first := [s.session.unwritten[0]];
    assert s.session.unwritten == first + s.session.unwritten[1..];
    DiskTextsConcat(first, s.session.unwritten[1..]);
    ForDiskTexts(first);
    AllTextsConcat(Buffer(s.pc), ForDisk(first));
    AllTextsConcat(file, Buffer(s.pc) + ForDisk(first));
  }

  /** A text in the file stays there, but for a rewrite that deletes it. */
  lemma FileStep(initial: seq<Item>, w: World, e: Event, text: string)
    requires Inv(initial, w) && Enabled(w, e) && InFile(w, text) && text != ""
    requires e.Rename? ==> text !in w.shells[e.pid].session.deleted
    requires e.Rename? ==> |AllTexts(RewriteInput(w.shells[e.pid].session, CurrentItems(w)))| <= HISTORY_SAVE_MAX
    ensures InFile(Apply(w, e), text)
  {
    StepEffect(initial, w, e);
    if !e.Spawn? {
      var s, file := w.shells[e.pid], CurrentItems(w);
      assert NoEmpty(s.session.unwritten) by {
        SoundAt(initial, w, e.pid);
      }
      LossIs(w, e);
      hide Inv, Apply, Enabled, Rewritten, DiskTexts, AllTexts, NoEmpty, CurrentItems;
      if e.WriteItem? {
        AllTextsConcat(file, Buffer(s.pc) + ForDisk([s.session.unwritten[0]]));
      } else if e.WriteRest? {
        AllTextsConcat(file, Buffer(s.pc));
      } else if e.FailToWrite? {
        AllTextsConcat(file, Buffer(s.pc)[..e.done]);
      } else if e.Rename? {
        RewriteKeeps(s.session, file, 0);
        SurvivingText(s.session, file, text);
      }
    } else {
      assert CurrentItems(Apply(w, e)) == CurrentItems(w);
    }
  }

  /** Nothing is pending that is not removed. */
  lemma PendingStep(initial: seq<Item>, w: World, e: Event, text: string)
    requires Inv(initial, w) && Enabled(w, e) && !Pending(w, text) && text !in Removals(w, e)
    ensures !Pending(Apply(w, e), text)
  {
    StepEffect(initial, w, e);
    var w' := Apply(w, e);
    hide Inv, Apply, Enabled, Effect, SessionAfter;
    forall p <- w'.shells ensures text !in w'.shells[p].session.deleted {
      if p == e.pid {
        DeletedStep(w, e, w', text);
      } else {
        OthersSame(w, e, w', p);
        assert text !in w.shells[p].session.deleted;
      }
    }
  }

  lemma OthersSame(w: World, e: Event, w': World, p: Pid)
    requires if e.Spawn? then w' == With(w, e.pid, NewShell(e.now)) else e.pid in w.shells && Enabled(w, e) && Effect(w, e, w')
    requires p != e.pid
    ensures p in w'.shells <==> p in w.shells
    ensures p in w.shells ==> w'.shells[p] == w.shells[p]
  {
  }

  lemma DeletedStep(w: World, e: Event, w': World, text: string)
    requires Enabled(w, e) && text !in Removals(w, e)
    requires if e.Spawn? then w' == With(w, e.pid, NewShell(e.now)) else e.pid in w.shells && Effect(w, e, w')
    requires e.pid in w.shells ==> text !in w.shells[e.pid].session.deleted
    ensures e.pid in w'.shells && text !in w'.shells[e.pid].session.deleted
  {
    if !e.Spawn? {
      assert e.RemoveText? ==> text != e.text;
      assert e.ClearSession? ==> text !in AllTexts(w.shells[e.pid].session.Items());
      assert e.BufferItem? || e.WriteItem? ==> w.shells[e.pid].session.unwritten != [];
      hide Enabled, Removals, BufferAfter, FileAfter, CurrentItems, SessionAfter;
      DeletedAfter(w.shells[e.pid], e, text);
    }
  }

  lemma DeletedAfter(s: Shell, e: Event, text: string)
    requires text !in s.session.deleted && (e.BufferItem? || e.WriteItem? ==> s.session.unwritten != [])
    requires e.RemoveText? ==> text != e.text
    requires e.ClearSession? ==> text !in AllTexts(s.session.Items())
    ensures text !in SessionAfter(s, e).deleted
  {
  }

  /** What a shell does not have it does not get, except by being given it. */
  lemma HasNotStep(initial: seq<Item>, w: World, e: Event, p: Pid, text: string)
    requires Inv(initial, w) && Enabled(w, e) && (p in w.shells ==> !Has(w, p, text))
    requires !(e.AddItem? && e.item.contents == text && e.pid == p)
    ensures p in Apply(w, e).shells ==> !Has(Apply(w, e), p, text)
  {
    StepEffect(initial, w, e);
    var w' := Apply(w, e);
    assert AllTexts([]) == {} && DiskTexts([]) == {};
    if p != e.pid {
      OthersSame(w, e, w', p);
    } else if !e.Spawn? {
      var s := w.shells[p];
      hide Inv, Apply, Enabled, DiskTexts, AllTexts, Rewritten, CurrentItems, FileAfter;
      GainsNot(s, e, text);
    }
  }

  lemma GainsNot(s: Shell, e: Event, text: string)
    requires e.BufferItem? || e.WriteItem? ==> s.session.unwritten != []
    requires text !in DiskTexts(s.session.unwritten) && text !in AllTexts(Buffer(s.pc))
    requires e.AddItem? ==> e.item.contents != text
    ensures text !in DiskTexts(SessionAfter(s, e).unwritten) && text !in AllTexts(BufferAfter(s, e))
  {
    assert AllTexts([]) == {} && DiskTexts([]) == {};
    var unwritten := s.session.unwritten;
    hide DiskTexts, AllTexts;
    match e
    case AddItem(_, item) => AddedNot(s.session, item, text);
    case RemoveText(_, t) => WithoutDiskTexts(unwritten, t);
    case RemoveEphemeral(_) => DropEphemeralDiskTexts(unwritten);
    case BeginSave(_, _) => CompactDiskTexts(unwritten, {});
    case BufferItem(_) => AdvancedNot(unwritten, Buffer(s.pc), text);
    case WriteItem(_) => AdvancedNot(unwritten, Buffer(s.pc), text);
    case _ =>
  }

  lemma AddedNot(s: Session, item: Item, text: string)
    requires text !in DiskTexts(s.unwritten) && item.contents != text
    ensures text !in DiskTexts(Added(s, item).unwritten)
  {
    var items := s.Items();
    if item.contents != "" {
      if items != [] && Mergeable(items[|items| - 1], item) {
        if s.unwritten != [] {
          MergedTexts(s.unwritten, item);
        }
      } else {
        DiskTextsConcat(s.unwritten, [item]);
        OneDiskText(item);
      }
    }
  }

  lemma AdvancedNot(unwritten: seq<Item>, buffer: seq<Item>, text: string)
    requires unwritten != [] && text !in DiskTexts(unwritten) && text !in AllTexts(buffer)
    ensures text !in DiskTexts(unwritten[1..]) && text !in AllTexts(buffer + ForDisk([unwritten[0]]))
  {
    var first := [unwritten[0]];
    assert unwritten == first + unwritten[1..];
    DiskTextsConcat(first, unwritten[1..]);
    ForDiskTexts(first);
    AllTextsConcat(buffer, ForDisk(first));
  }

  /** The file gets only what the shell that writes has. */
  lemma FileNotStep(initial: seq<Item>, w: World, e: Event, text: string)
    requires Inv(initial, w) && Enabled(w, e) && !InFile(w, text) && (!e.Spawn? ==> !Has(w, e.pid, text))
    ensures !InFile(Apply(w, e), text)
  {
    StepEffect(initial, w, e);
    if !e.Spawn? {
      var s, file := w.shells[e.pid], CurrentItems(w);
      LossIs(w, e);
      hide Inv, Apply, Enabled, Rewritten, DiskTexts, AllTexts, CurrentItems;
      if e.WriteItem? {
        AdvancedNot(s.session.unwritten, Buffer(s.pc), text);
        AllTextsConcat(file, Buffer(s.pc) + ForDisk([s.session.unwritten[0]]));
      } else if e.WriteRest? {
        AllTextsConcat(file, Buffer(s.pc));
      } else if e.FailToWrite? {
        AllTextsConcat(file, Buffer(s.pc)[..e.done]);
        AllTextsConcat(Buffer(s.pc)[..e.done], Buffer(s.pc)[e.done..]);
        assert Buffer(s.pc) == Buffer(s.pc)[..e.done] + Buffer(s.pc)[e.done..];
      } else if e.Rename? {
        RewrittenTexts(s.session, file);
      }
    } else {
      assert CurrentItems(Apply(w, e)) == CurrentItems(w);
    }
  }
}
