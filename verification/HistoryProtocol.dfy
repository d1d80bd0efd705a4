module HistoryProtocol {
  /**
   Any number of shells saving their history to one file: some append under a lock, some rewrite the file
   without a lock, then take it, and rename the new file into place if the old one has not changed
   (src/history.rs:633-881, 934-964), as interleaved steps on inodes, locks and one path; what the file
   should hold, and the invariant.

   `World.log` records, in order, what each write added and which rewrite each rename put in place.
   */

  import opened Common
  import opened HistoryItems

  /** An inode and a version that changes with every write; never reused. */
  datatype FileId = FileId(inode: Inode, version: nat)

  datatype File = File(items: seq<Item>, version: nat)

  /** Where a shell is in save. */
  datatype Pc =
    | Idle
    | AppendStart
    | AppendOpened(ino: Inode)
    | AppendLocked(ino: Inode)
    | Appending(ino: Inode, buffer: seq<Item>)
    | RewriteStart
    | RewriteOpened(orig: FileId)
    | RewriteRead(orig: FileId, tmp: seq<Item>)
    | RewriteReopened(orig: FileId, tmp: seq<Item>, ino: Inode)
    | RewriteLocked(orig: FileId, tmp: seq<Item>, ino: Inode)
    | RewriteChecked(orig: FileId, tmp: seq<Item>, ino: Inode)
    | Closing(ino: Inode)

  /** `added` are the texts of all items for disk that the shell was given. */
  datatype Shell = Shell(pc: Pc, session: Session, added: set<string>)

  function NewShell(boundary: int): Shell {
    Shell(Idle, NewSession(boundary), {})
  }

  datatype Commit =
    | Appended(items: seq<Item>)
    | Replaced(session: Session)

  /** `removed` are the texts any shell was told to delete, `lost` those in writes and renames that failed. */
  datatype World = World(
    files: map<Inode, File>,
    path: Option<Inode>,
    locks: map<Inode, Pid>,
    shells: map<Pid, Shell>,
    log: seq<Commit>,
    removed: set<string>,
    lost: set<string>)

  datatype Event =
    | Spawn(pid: Pid, now: int)
    | Crash(pid: Pid, now: int)
    | AddItem(pid: Pid, item: Item)
    | RemoveText(pid: Pid, text: string)
    | RemoveEphemeral(pid: Pid)
    | ClearSession(pid: Pid)
    | BeginSave(pid: Pid, vacuum: bool)
    // Appending.
    | OpenToAppend(pid: Pid)
    | GiveUpAppending(pid: Pid)
    | LockToAppend(pid: Pid)
    | CompareToAppend(pid: Pid)
    | BufferItem(pid: Pid)
    | WriteItem(pid: Pid)
    | WriteRest(pid: Pid)
    | FailToWrite(pid: Pid, done: nat, torn: bool)
    // Rewriting.
    | OpenToRewrite(pid: Pid, newInode: Inode)
    | ReadAndRewrite(pid: Pid)
    | Reopen(pid: Pid)
    | LockToReplace(pid: Pid)
    | CompareToReplace(pid: Pid)
    | Rename(pid: Pid, newInode: Inode)
    | FailToRename(pid: Pid)
    | GiveUpRewriting(pid: Pid)
    | Close(pid: Pid)

  function With(w: World, pid: Pid, s: Shell): World {
    w.(shells := w.shells[pid := s])
  }

  function At(w: World, pid: Pid, pc: Pc): World
    requires pid in w.shells
  {
    With(w, pid, w.shells[pid].(pc := pc))
  }

  predicate Holds(pc: Pc, ino: Inode) {
    (pc.AppendLocked? || pc.Appending? || pc.RewriteLocked? || pc.RewriteChecked? || pc.Closing?) && pc.ino == ino
  }

  function Unlocked(w: World, pid: Pid): World {
    w.(locks := Released(w.locks, pid))
  }

  function IdAt(w: World, ino: Inode): Option<FileId> {
    if ino in w.files then Some(FileId(ino, w.files[ino].version)) else None
  }

  function PathId(w: World): Option<FileId> {
    if w.path.Some? then IdAt(w, w.path.value) else None
  }

  predicate Enabled(w: World, e: Event) {
    if e.Spawn? then e.pid !in w.shells
    else
      && e.pid in w.shells
      && var s := w.shells[e.pid];
      match e
      case Crash(_, _) => true
      case AddItem(_, _) => s.pc.Idle?
      case RemoveText(_, _) => s.pc.Idle?
      case RemoveEphemeral(_) => s.pc.Idle?
      case ClearSession(_) => s.pc.Idle?
      case BeginSave(_, _) => s.pc.Idle? && (s.session.unwritten != [] || s.session.deleted != map[])
      case OpenToAppend(_) => s.pc.AppendStart? && w.path.Some?
      case GiveUpAppending(_) => s.pc.AppendStart?
      case LockToAppend(_) => s.pc.AppendOpened? && s.pc.ino !in w.locks
      case CompareToAppend(_) => s.pc.AppendLocked?
      case BufferItem(_) => s.pc.Appending? && s.session.unwritten != []
      case WriteItem(_) =>
        s.pc.Appending? && s.session.unwritten != [] && s.session.unwritten[0].mode == Disk && s.pc.ino in w.files
      case WriteRest(_) => s.pc.Appending? && s.session.unwritten == [] && s.pc.ino in w.files
      case FailToWrite(_, done, _) =>
        // At least the last item of the buffer, or the one to be added to it, does not get to the file.
        && s.pc.Appending? && s.pc.ino in w.files
        && if s.session.unwritten == [] then done < |s.pc.buffer|
           else done <= |s.pc.buffer| && s.session.unwritten[0].mode == Disk
      case OpenToRewrite(_, ino) => s.pc.RewriteStart? && (PathId(w).Some? || (w.path.None? && ino !in w.files))
      case ReadAndRewrite(_) => s.pc.RewriteOpened? && s.pc.orig.inode in w.files
      case Reopen(_) => s.pc.RewriteRead? && w.path.Some?
      case LockToReplace(_) => s.pc.RewriteReopened? && s.pc.ino !in w.locks
      case CompareToReplace(_) => s.pc.RewriteLocked?
      case Rename(_, ino) => s.pc.RewriteChecked? && ino !in w.files
      case FailToRename(_) => s.pc.RewriteChecked?
      case GiveUpRewriting(_) => s.pc.RewriteStart? || s.pc.RewriteOpened?
      case Close(_) => s.pc.Closing?
      case _ => false
  }

  function SetSession(w: World, pid: Pid, session: Session): World
    requires pid in w.shells
  {
    With(w, pid, w.shells[pid].(session := session))
  }

  function ItemAdded(w: World, pid: Pid, item: Item): World
    requires pid in w.shells
  {
    var s := w.shells[pid];
    With(w, pid, s.(session := Added(s.session, item),
         added := s.added + if item.mode == Disk && item.contents != "" then {item.contents} else {}))
  }

  function SaveBegun(w: World, pid: Pid, vacuum: bool): World
    requires pid in w.shells
  {
    var s := w.shells[pid];
    With(w, pid, s.(session := Compacted(s.session),
         pc := if !vacuum && s.session.deleted == map[] then AppendStart else RewriteStart))
  }

  /** The buffer goes to the end of the file. An empty one is not written. */
  function Written(w: World, ino: Inode, buffer: seq<Item>): World
    requires ino in w.files
  {
    if buffer == [] then w
    else w.(files := w.files[ino := File(w.files[ino].items + buffer, w.files[ino].version + 1)], log := w.log + [Appended(buffer)])
  }

  function ItemWritten(w: World, pid: Pid): World
    requires Enabled(w, WriteItem(pid))
  {
    var s := w.shells[pid];
    With(Written(w, s.pc.ino, s.pc.buffer + ForDisk([s.session.unwritten[0]])), pid,
         s.(session := Advanced(s.session), pc := Appending(s.pc.ino, [])))
  }

  /** Some bytes of an item are written, so the id of the file changes. They are no item. */
  function Touched(w: World, ino: Inode): World
    requires ino in w.files
  {
    w.(files := w.files[ino := w.files[ino].(version := w.files[ino].version + 1)])
  }

  /** The first `done` items of the buffer get to the file before the write fails. */
  function WriteFailed(w: World, pid: Pid, done: nat, torn: bool): World
    requires Enabled(w, FailToWrite(pid, done, torn))
  {
    var s := w.shells[pid];
    var w' := Written(w, s.pc.ino, s.pc.buffer[..done]);
    var w'' := if torn then Touched(w', s.pc.ino) else w';
    At(Unlocked(w'', pid).(lost := w.lost + AllTexts(s.pc.buffer[done..])), pid, RewriteStart)
  }

  function Replaces(w: World, pid: Pid, newInode: Inode): World
    requires Enabled(w, Rename(pid, newInode))
  {
    var s := w.shells[pid];
    With(w.(files := w.files[newInode := File(s.pc.tmp, 0)], path := Some(newInode), log := w.log + [Replaced(s.session)]), pid,
         s.(session := Flushed(s.session), pc := Closing(s.pc.ino)))
  }

  function Apply(w: World, e: Event): World
    requires Enabled(w, e)
  {
    if e.Spawn? then With(w, e.pid, NewShell(e.now))
    else
      var s := w.shells[e.pid];
      match e
      case Crash(pid, now) => With(Unlocked(w, pid), pid, NewShell(now))
      case AddItem(pid, item) => ItemAdded(w, pid, item)
      case RemoveText(pid, text) => SetSession(w, pid, Removed(s.session, text)).(removed := w.removed + {text})
      case RemoveEphemeral(pid) => SetSession(w, pid, EphemeralRemoved(s.session))
      case ClearSession(pid) =>
        SetSession(w, pid, SessionCleared(s.session)).(removed := w.removed + AllTexts(s.session.Items()))
      case BeginSave(pid, vacuum) => SaveBegun(w, pid, vacuum)
      case OpenToAppend(pid) => At(w, pid, AppendOpened(w.path.value))
      case GiveUpAppending(pid) => At(w, pid, RewriteStart)
      case LockToAppend(pid) => At(w.(locks := w.locks[s.pc.ino := pid]), pid, AppendLocked(s.pc.ino))
      case CompareToAppend(pid) =>
        // The id of the open file against the id of the path.
        if PathId(w) == IdAt(w, s.pc.ino) then At(w, pid, Appending(s.pc.ino, [])) else At(Unlocked(w, pid), pid, AppendStart)
      case BufferItem(pid) =>
        With(w, pid, s.(session := Advanced(s.session),
             pc := Appending(s.pc.ino, s.pc.buffer + ForDisk([s.session.unwritten[0]]))))
      case WriteItem(pid) => ItemWritten(w, pid)
      case WriteRest(pid) => At(Written(w, s.pc.ino, s.pc.buffer), pid, Closing(s.pc.ino))
      case FailToWrite(pid, done, torn) => WriteFailed(w, pid, done, torn)
      case OpenToRewrite(pid, ino) =>
        if PathId(w).Some? then At(w, pid, RewriteOpened(PathId(w).value))
        else At(w.(files := w.files[ino := File([], 0)], path := Some(ino)), pid, RewriteOpened(FileId(ino, 0)))
      case ReadAndRewrite(pid) =>
        At(w, pid, RewriteRead(s.pc.orig, Rewritten(s.session, w.files[s.pc.orig.inode].items)))
      case Reopen(pid) => At(w, pid, RewriteReopened(s.pc.orig, s.pc.tmp, w.path.value))
      case LockToReplace(pid) =>
        At(w.(locks := w.locks[s.pc.ino := pid]), pid, RewriteLocked(s.pc.orig, s.pc.tmp, s.pc.ino))
      case CompareToReplace(pid) =>
        if PathId(w) == Some(s.pc.orig) then At(w, pid, RewriteChecked(s.pc.orig, s.pc.tmp, s.pc.ino))
        else At(Unlocked(w, pid), pid, RewriteStart)
      case Rename(pid, ino) => Replaces(w, pid, ino)
      case FailToRename(pid) =>
        // The session is marked as saved all the same.
        With(w.(lost := w.lost + DiskTexts(s.session.unwritten)), pid,
             s.(session := Flushed(s.session), pc := Closing(s.pc.ino)))
      case GiveUpRewriting(pid) => At(w, pid, Idle)
      case Close(pid) => At(Unlocked(w, pid), pid, Idle)
      case _ => w
  }

  // ---------------------------------------------------------------- what the file should hold

  function CurrentItems(w: World): seq<Item> {
    if PathId(w).Some? then w.files[w.path.value].items else []
  }

  /** All writes and rewrites in order, as if nobody else were around. */
  function Fold(initial: seq<Item>, log: seq<Commit>): seq<Item> {
    if log == [] then initial
    else
      var before := Fold(initial, log[..|log| - 1]);
      match log[|log| - 1]
      case Appended(items) => before + items
      case Replaced(session) => Rewritten(session, before)
  }

  /** The texts that were ever in the file, or went into it. */
  function Saved(initial: seq<Item>, log: seq<Commit>): set<string> {
    if log == [] then AllTexts(initial)
    else
      var before := Saved(initial, log[..|log| - 1]);
      match log[|log| - 1]
      case Appended(items) => before + AllTexts(items)
      case Replaced(session) => before + DiskTexts(session.unwritten)
  }

  function Deleted(log: seq<Commit>): set<string> {
    if log == [] then {}
    else
      match log[|log| - 1]
      case Appended(_) => Deleted(log[..|log| - 1])
      case Replaced(session) => Deleted(log[..|log| - 1]) + session.deleted.Keys
  }

  /** Every rewrite found room in its cache. */
  predicate Roomy(initial: seq<Item>, log: seq<Commit>) {
    log == []
    || var n := |log| - 1;
       && Roomy(initial, log[..n])
       && (log[n].Replaced? ==> |AllTexts(RewriteInput(log[n].session, Fold(initial, log[..n])))| <= HISTORY_SAVE_MAX)
  }

  predicate NoEmptyTexts(log: seq<Commit>) {
    forall c <- log :: if c.Appended? then NoEmpty(c.items) else NoEmpty(c.session.unwritten)
  }

  /** Below the capacity, a text once saved stays in the file unless a rewrite deletes it. */
  lemma {:induction false} SavedStays(initial: seq<Item>, log: seq<Commit>, text: string)
    requires Roomy(initial, log) && NoEmptyTexts(log)
    requires text in Saved(initial, log) && text != "" && text !in Deleted(log)
    ensures text in AllTexts(Fold(initial, log))
    decreases |log|
  {
    if log != [] {
      var n := |log| - 1;
      var before := Fold(initial, log[..n]);
      match log[n]
      case Appended(items) =>
        AllTextsConcat(before, items);
        if text !in AllTexts(items) {
          SavedStays(initial, log[..n], text);
        }
      case Replaced(session) =>
        assert log[n] in log;
        RewriteKeeps(session, before, 0);
        if text !in DiskTexts(session.unwritten) {
          SavedStays(initial, log[..n], text);
          SurvivingText(session, before, text);
        }
    }
  }

  // ---------------------------------------------------------------- invariant

  /** From its check of the path to its last write or its rename. */
  predicate Critical(pc: Pc) {
    pc.Appending? || pc.RewriteChecked?
  }

  predicate OrigSound(files: map<Inode, File>, orig: FileId) {
    orig.inode in files && orig.version <= files[orig.inode].version
  }

  /** If the file has not changed since, `tmp` is its rewrite. */
  predicate TmpSound(files: map<Inode, File>, orig: FileId, tmp: seq<Item>, s: Session) {
    && OrigSound(files, orig)
    && (files[orig.inode].version == orig.version ==> tmp == Rewritten(s, files[orig.inode].items))
  }

  predicate PcSound(files: map<Inode, File>, path: Option<Inode>, s: Shell) {
    match s.pc
    case Idle => true
    case AppendStart => true
    case AppendOpened(ino) => ino in files
    case AppendLocked(ino) => ino in files
    case Appending(ino, _) => ino in files && path == Some(ino)
    case RewriteStart => true
    case RewriteOpened(orig) => OrigSound(files, orig)
    case RewriteRead(orig, tmp) => TmpSound(files, orig, tmp, s.session)
    case RewriteReopened(orig, tmp, ino) =>
      TmpSound(files, orig, tmp, s.session) && ino in files && (path == Some(orig.inode) ==> ino == orig.inode)
    case RewriteLocked(orig, tmp, ino) =>
      TmpSound(files, orig, tmp, s.session) && ino in files && (path == Some(orig.inode) ==> ino == orig.inode)
    case RewriteChecked(orig, tmp, ino) =>
      && TmpSound(files, orig, tmp, s.session) && ino == orig.inode && path == Some(ino)
      && files[ino].version == orig.version
    case Closing(ino) => ino in files
  }

  function Buffer(pc: Pc): seq<Item> {
    if pc.Appending? then pc.buffer else []
  }

  /** Nothing the shell was given is missing: what it has not written is still in the session, and what
      counts as written was saved, is in its buffer, or was in a failed write. */
  predicate SessionSound(saved: set<string>, removed: set<string>, lost: set<string>, s: Shell) {
    && NoEmpty(s.session.unwritten)
    && NoEmpty(Buffer(s.pc))
    && s.session.deleted.Keys <= removed
    && s.added <= DiskTexts(s.session.written) + DiskTexts(s.session.unwritten) + removed
    && DiskTexts(s.session.written) <= saved + AllTexts(Buffer(s.pc)) + lost
  }

  predicate ShellsSound(initial: seq<Item>, w: World) {
    forall p <- w.shells ::
      && PcSound(w.files, w.path, w.shells[p])
      && SessionSound(Saved(initial, w.log), w.removed, w.lost, w.shells[p])
  }

  ghost predicate LocksSound(w: World) {
    forall p <- w.shells, i: Inode :: Holds(w.shells[p].pc, i) ==> i in w.locks && w.locks[i] == p
  }

  predicate FileSound(initial: seq<Item>, w: World) {
    && (w.path.Some? ==> w.path.value in w.files)
    && (w.path.None? ==> w.log == [] && initial == [])
    && CurrentItems(w) == Fold(initial, w.log)
    && NoEmptyTexts(w.log)
    && Deleted(w.log) <= w.removed
  }

  ghost predicate Inv(initial: seq<Item>, w: World) {
    ShellsSound(initial, w) && LocksSound(w) && FileSound(initial, w)
  }

  /** No shell yet; the path is free, or names a file with the initial items. */
  predicate Init(initial: seq<Item>, w: World) {
    && w.shells == map[] && w.locks == map[] && w.log == [] && w.removed == {} && w.lost == {}
    && ((w.path.None? && w.files == map[] && initial == [])
        || (w.path.Some? && w.path.value in w.files && w.files == map[w.path.value := File(initial, 0)]))
  }

  // ---------------------------------------------------------------- where a text is

  /** A shell is still to write a text, or is just writing it. */
  predicate Has(w: World, pid: Pid, text: string)
    requires pid in w.shells
  {
    text in DiskTexts(w.shells[pid].session.unwritten) || text in AllTexts(Buffer(w.shells[pid].pc))
  }

  predicate InFile(w: World, text: string) {
    text in AllTexts(CurrentItems(w))
  }

  predicate Kept(w: World, pid: Pid, text: string)
    requires pid in w.shells
  {
    Has(w, pid, text) || InFile(w, text)
  }

  /** Some shell has deleted a text, and its next rewrite will take it out of the file. */
  predicate Pending(w: World, text: string) {
    exists p <- w.shells :: text in w.shells[p].session.deleted
  }

  /** What a step deletes. */
  function Removals(w: World, e: Event): set<string>
    requires Enabled(w, e)
  {
    match e
    case RemoveText(_, text) => {text}
    case ClearSession(pid) => AllTexts(w.shells[pid].session.Items())
    case _ => {}
  }

  /** What a failing step takes for written that is not. */
  function Losses(w: World, e: Event): set<string>
    requires Enabled(w, e)
  {
    match e
    case FailToWrite(pid, done, _) => AllTexts(w.shells[pid].pc.buffer[done..])
    case FailToRename(pid) => DiskTexts(w.shells[pid].session.unwritten)
    case _ => {}
  }
}
