module HistoryDeletion {
  /** What deleting history deletes, in every run of HistoryProtocol. */

  import opened Common
  import opened HistoryItems
  import opened HistoryProtocol
  import opened HistorySteps
  import opened HistoryKeeping
  import opened HistoryFile

  predicate Lacks(items: seq<Item>, text: string) {
    forall item <- items :: item.contents != text
  }

  /** The session is to delete the text everywhere, and has no item with it. */
  predicate Deleting(s: Session, text: string) {
    text in s.deleted && !s.deleted[text] && Lacks(s.written, text) && Lacks(s.unwritten, text)
  }

  lemma {:induction false} WithoutLacks(items: seq<Item>, text: string, t: string)
    ensures text == t || Lacks(items, text) ==> Lacks(Without(items, t), text)
  {
    if items != [] {
      WithoutLacks(items[1..], text, t);
    }
  }

  lemma {:induction false} CompactLacks(items: seq<Item>, later: set<string>, text: string)
    requires Lacks(items, text)
    ensures Lacks(Compact(items, later), text)
  {
    if items != [] {
      CompactLacks(items[1..], later, text);
    }
  }

  lemma DeletingStays(s: Shell, e: Event, text: string)
    requires Deleting(s.session, text) && (e.BufferItem? || e.WriteItem? ==> s.session.unwritten != [])
    requires !e.Spawn? && !e.Crash? && !e.Rename? && !e.FailToRename? && (e.AddItem? ==> e.item.contents != text)
    ensures Deleting(SessionAfter(s, e), text)
  {
    var session := s.session;
    match e
    case AddItem(_, item) => AddingLacks(session, item, text);
    case RemoveText(_, t) =>
      WithoutLacks(session.written, text, t);
      WithoutLacks(session.unwritten, text, t);
    case RemoveEphemeral(_) =>
      DropEphemeralPrefix(session.written);
      DropEphemeralPrefix(session.unwritten);
    case ClearSession(_) => assert text !in AllTexts(session.Items());
    case BeginSave(_, _) =>
      CompactLacks(session.written, DiskTexts(session.unwritten), text);
      CompactLacks(session.unwritten, {}, text);
    case _ =>
  }

  lemma AddingLacks(s: Session, item: Item, text: string)
    requires Deleting(s, text) && item.contents != text
    ensures Deleting(Added(s, item), text)
  {
  }

  lemma {:induction false} DeletingRun(initial: seq<Item>, w: World, events: seq<Event>, pid: Pid, text: string)
    requires Inv(initial, w) && Possible(w, events) && pid in w.shells && Deleting(w.shells[pid].session, text)
    requires NeverGivenTo(events, pid, text) && NeverCrashes(events, pid) && NeverRewrites(events, pid)
    ensures var w' := After(w, events); pid in w'.shells && Deleting(w'.shells[pid].session, text)
    decreases |events|
  {
    if events != [] {
      assert events[0] in events;
      DeletingStep(initial, w, events[0], pid, text);
      hide Inv, Apply, Enabled, Deleting;
      StepKeepsInv(initial, w, events[0]);
      DeletingRun(initial, Apply(w, events[0]), events[1..], pid, text);
    }
  }

  lemma DeletingStep(initial: seq<Item>, w: World, e: Event, pid: Pid, text: string)
    requires Inv(initial, w) && Enabled(w, e) && pid in w.shells && Deleting(w.shells[pid].session, text)
    requires e.pid == pid ==> !e.Crash? && !e.Rename? && !e.FailToRename? && (e.AddItem? ==> e.item.contents != text)
    ensures pid in Apply(w, e).shells && Deleting(Apply(w, e).shells[pid].session, text)
  {
    StepEffect(initial, w, e);
    assert e.pid == pid && (e.BufferItem? || e.WriteItem?) ==> w.shells[pid].session.unwritten != [];
    assert e.Spawn? ==> e.pid != pid;
    hide Inv, Apply, Enabled, Deleting, SessionAfter, BufferAfter, FileAfter, CurrentItems;
    if e.pid == pid {
      DeletingStays(w.shells[pid], e, text);
    } else {
      OthersSame(w, e, Apply(w, e), pid);
    }
  }

  predicate NeverRewrites(events: seq<Event>, pid: Pid) {
    forall e <- events :: !((e.Rename? || e.FailToRename?) && e.pid == pid)
  }

  /** Deleting a text takes it out of the file with the next rewrite of the shell that was told to, whoever has put it there
      and whenever, unless that shell is given the text again before. */
  lemma DeletedIsGone(initial: seq<Item>, w: World, before: seq<Event>, pid: Pid, text: string, later: seq<Event>, newInode: Inode)
    requires Init(initial, w) && Possible(w, before)
    requires var w1 := After(w, before);
             Enabled(w1, RemoveText(pid, text)) && Possible(Apply(w1, RemoveText(pid, text)), later)
    requires NeverGivenTo(later, pid, text) && NeverCrashes(later, pid) && NeverRewrites(later, pid)
    requires Enabled(After(Apply(After(w, before), RemoveText(pid, text)), later), Rename(pid, newInode))
    ensures var w2 := After(Apply(After(w, before), RemoveText(pid, text)), later);
            !InFile(Apply(w2, Rename(pid, newInode)), text)
  {
    InitSound(initial, w);
    RunKeepsInv(initial, w, before);
    var w1 := After(w, before);
    var w1' := Apply(w1, RemoveText(pid, text));
    StepKeepsInv(initial, w1, RemoveText(pid, text));
    WithoutLacks(w1.shells[pid].session.written, text, text);
    WithoutLacks(w1.shells[pid].session.unwritten, text, text);
    assert pid in w1'.shells && w1'.shells[pid].session == Removed(w1.shells[pid].session, text);
    assert Deleting(w1'.shells[pid].session, text);
    hide Inv, Apply, Enabled, Deleting, InFile;
    DeletingRun(initial, w1', later, pid, text);
    RunKeepsInv(initial, w1', later);
    RewriteDeletes(initial, After(w1', later), pid, text, newInode);
  }

  lemma RewriteDeletes(initial: seq<Item>, w: World, pid: Pid, text: string, newInode: Inode)
    requires Inv(initial, w) && Enabled(w, Rename(pid, newInode)) && Deleting(w.shells[pid].session, text)
    ensures !InFile(Apply(w, Rename(pid, newInode)), text)
  {
    StepEffect(initial, w, Rename(pid, newInode));
    SoundAt(initial, w, pid);
    var s := w.shells[pid].session;
    assert NoEmpty(s.unwritten) && text !in DiskTexts(s.unwritten);
    hide Inv, Apply, Enabled, Rewritten, AllTexts, DiskTexts, CurrentItems;
    RewrittenHasIff(s, CurrentItems(w), text);
  }

  /** And it never comes back, unless some shell still has it or is given it again. */
  lemma DeletedStaysGone(initial: seq<Item>, w: World, before: seq<Event>, later: seq<Event>, text: string)
    requires Init(initial, w) && Possible(w, before) && Possible(After(w, before), later)
    requires !InFile(After(w, before), text) && NeverGiven(later, text)
    requires forall p <- After(w, before).shells :: !Has(After(w, before), p, text)
    ensures !InFile(After(After(w, before), later), text)
  {
    InitSound(initial, w);
    RunKeepsInv(initial, w, before);
    NowhereStays(initial, After(w, before), later, text);
  }

  /** But if the rename fails, the deletion is forgotten: a text in the file then stays there, unless another shell has a
      deletion of it pending or it is removed once more. */
  lemma FailedRenameForgetsDeletion(initial: seq<Item>, w: World, before: seq<Event>, pid: Pid, later: seq<Event>, text: string)
    requires Init(initial, w) && Possible(w, before)
    requires var w1 := After(w, before);
             && Enabled(w1, FailToRename(pid)) && InFile(w1, text) && text != ""
             && (forall p <- w1.shells :: p != pid ==> text !in w1.shells[p].session.deleted)
             && Possible(Apply(w1, FailToRename(pid)), later) && NeverRemoved(Apply(w1, FailToRename(pid)), later, text)
             && Roomy(initial, After(Apply(w1, FailToRename(pid)), later).log)
    ensures InFile(After(Apply(After(w, before), FailToRename(pid)), later), text)
  {
    InitSound(initial, w);
    RunKeepsInv(initial, w, before);
    var w1 := After(w, before);
    StepKeepsInv(initial, w1, FailToRename(pid));
    FailedRenameForgets(initial, w1, pid, text);
    FileStays(initial, Apply(w1, FailToRename(pid)), later, text);
  }

  lemma FailedRenameForgets(initial: seq<Item>, w: World, pid: Pid, text: string)
    requires Inv(initial, w) && Enabled(w, FailToRename(pid)) && InFile(w, text)
    requires forall p <- w.shells :: p != pid ==> text !in w.shells[p].session.deleted
    ensures InFile(Apply(w, FailToRename(pid)), text) && !Pending(Apply(w, FailToRename(pid)), text)
  {
    StepEffect(initial, w, FailToRename(pid));
    var w' := Apply(w, FailToRename(pid));
    hide Inv, Apply, Enabled;
    forall p <- w'.shells ensures text !in w'.shells[p].session.deleted {
      if p != pid {
        OthersSame(w, FailToRename(pid), w', p);
      }
    }
  }
}
