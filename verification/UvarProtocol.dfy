module UvarProtocol {
  /**
   Any number of shells synchronising their universal variables through one file: the open, flock,
   re-stat, read, merge, write, rename loop of `EnvUniversal::sync` (src/env_universal_common.rs:181-241,
   371-482, 525-568, 753-824), as interleaved steps on inodes, locks and one path; what the file should
   hold, and the invariant.

   The file at the path is text; it is read and written with UvarFormat, and all that is assumed about the
   values the shells store is that no character stands for an undecodable byte. `World.log` records, in
   order, the changes each successful rename put in place.
   */

  import opened Common
  import opened Wide
  import opened UvarFormat
  import opened EnvUniversal

  /** Where a shell is in its sync. */
  datatype Pc =
    | Idle
    | ReadOpened(ino: Inode)
    | SyncStart
    | SyncOpened(ino: Inode)
    | SyncLocked(ino: Inode)
    | SyncCurrent(ino: Inode)
    | SyncLoaded(ino: Inode)
    | SyncWritten(ino: Inode, tmp: Inode)
    | SyncClosing(ino: Inode)

  datatype Shell = Shell(pc: Pc, uvars: Uvars)

  const NEW_SHELL := Shell(Idle, NEW_UVARS)

  datatype File = File(text: string, version: nat)

  datatype World = World(
    files: map<Inode, File>,
    path: Option<Inode>,
    locks: map<Inode, Pid>,
    shells: map<Pid, Shell>,
    log: seq<Delta>)

  datatype Event =
    | Spawn(pid: Pid)
    | Crash(pid: Pid)
    | SetVar(pid: Pid, key: string, v: EnvVar)
    | EraseVar(pid: Pid, key: string)
    // Reading only: initialize, or sync without changes.
    | OpenForReading(pid: Pid)
    | ReadAndClose(pid: Pid)
    // sync with changes.
    | BeginSync(pid: Pid)
    | OpenOrCreate(pid: Pid, newInode: Inode)
    | FailToOpen(pid: Pid)
    | TakeLock(pid: Pid)
    | CompareWithPath(pid: Pid)
    | LoadLocked(pid: Pid)
    | WriteTemporary(pid: Pid, newInode: Inode)
    | FailToWrite(pid: Pid)
    | TouchTemporary(pid: Pid)
    | Rename(pid: Pid)
    | FailToRename(pid: Pid)
    | Close(pid: Pid)

  function IdOf(w: World, ino: Inode): FileId
    requires ino in w.files
  {
    FileId(ino, w.files[ino].version)
  }

  function With(w: World, pid: Pid, s: Shell): World {
    w.(shells := w.shells[pid := s])
  }

  function At(w: World, pid: Pid, pc: Pc): World
    requires pid in w.shells
  {
    With(w, pid, w.shells[pid].(pc := pc))
  }

  /** The inode whose lock a shell holds. */
  predicate Holds(pc: Pc, ino: Inode) {
    match pc
    case SyncLocked(i) => i == ino
    case SyncCurrent(i) => i == ino
    case SyncLoaded(i) => i == ino
    case SyncWritten(i, _) => i == ino
    case SyncClosing(i) => i == ino
    case _ => false
  }

  function Unlocked(w: World, pid: Pid): World {
    w.(locks := Released(w.locks, pid))
  }

  /** Inode numbers are never used twice. */
  predicate IsFresh(w: World, ino: Inode) {
    ino !in w.files
  }

  predicate Enabled(w: World, e: Event) {
    if e.Spawn? then e.pid !in w.shells
    else
      && e.pid in w.shells
      && var s := w.shells[e.pid];
      match e
      case Crash(_) => true
      case SetVar(_, _, v) => s.pc.Idle? && FreeOfBytes(EncodeSerialized(v.values))
      case EraseVar(_, _) => s.pc.Idle?
      case OpenForReading(_) => s.pc.Idle? && s.uvars.modified == {} && w.path.Some? && w.path.value in w.files
      case ReadAndClose(_) => s.pc.ReadOpened? && s.pc.ino in w.files
      case BeginSync(_) => s.pc.Idle? && s.uvars.modified != {}
      case OpenOrCreate(_, ino) => s.pc.SyncStart? && (w.path.Some? || IsFresh(w, ino))
      case FailToOpen(_) => s.pc.SyncStart?
      case TakeLock(_) => s.pc.SyncOpened? && s.pc.ino !in w.locks
      case CompareWithPath(_) => s.pc.SyncLocked?
      case LoadLocked(_) => s.pc.SyncCurrent? && s.pc.ino in w.files
      case WriteTemporary(_, tmp) => s.pc.SyncLoaded? && s.uvars.okToSave && IsFresh(w, tmp)
      case FailToWrite(_) => s.pc.SyncLoaded? && s.uvars.okToSave
      case TouchTemporary(_) => s.pc.SyncWritten? && s.pc.tmp in w.files
      case Rename(_) => s.pc.SyncWritten?
      case FailToRename(_) => s.pc.SyncWritten?
      case Close(_) => s.pc.SyncClosing? || (s.pc.SyncLoaded? && !s.uvars.okToSave)
      case _ => false
  }

  ghost function TemporaryWritten(loc: Locale, w: World, pid: Pid, tmp: Inode): World
    requires Enabled(w, WriteTemporary(pid, tmp))
  {
    var s := w.shells[pid];
    With(w.(files := w.files[tmp := File(Serialize(loc, s.uvars.vars), 0)]), pid,
         Shell(SyncWritten(s.pc.ino, tmp), s.uvars.(lastRead := Some(FileId(tmp, 0)))))
  }

  /** The owner and mode of the temporary file are set, so its id changes. */
  function TemporaryTouched(w: World, tmp: Inode): World
    requires tmp in w.files
  {
    w.(files := w.files[tmp := w.files[tmp].(version := w.files[tmp].version + 1)])
  }

  function Renamed(w: World, pid: Pid): World
    requires Enabled(w, Rename(pid))
  {
    var s := w.shells[pid];
    With(w.(path := Some(s.pc.tmp), log := w.log + [Pending(s.uvars)]), pid,
         Shell(SyncClosing(s.pc.ino), s.uvars.(modified := {})))
  }

  ghost function Apply(loc: Locale, w: World, e: Event): World
    requires Enabled(w, e)
  {
    if e.Spawn? then With(w, e.pid, NEW_SHELL)
    else
      var s := w.shells[e.pid];
      match e
      case Crash(pid) => With(Unlocked(w, pid), pid, NEW_SHELL)
      case SetVar(pid, key, v) => With(w, pid, s.(uvars := WithVar(s.uvars, key, v)))
      case EraseVar(pid, key) => With(w, pid, s.(uvars := WithoutVar(s.uvars, key)))
      case OpenForReading(pid) =>
        // The file is not opened at all if its id is the one last read.
        if s.uvars.lastRead == Some(IdOf(w, w.path.value)) then w else At(w, pid, ReadOpened(w.path.value))
      case ReadAndClose(pid) =>
        With(w, pid, Shell(Idle, Loaded(loc, s.uvars, IdOf(w, s.pc.ino), w.files[s.pc.ino].text)))
      case BeginSync(pid) => At(w, pid, SyncStart)
      case OpenOrCreate(pid, ino) =>
        if w.path.Some? then At(w, pid, SyncOpened(w.path.value))
        else At(w.(files := w.files[ino := File("", 0)], path := Some(ino)), pid, SyncOpened(ino))
      case FailToOpen(pid) => At(w, pid, Idle)
      case TakeLock(pid) => At(w.(locks := w.locks[s.pc.ino := pid]), pid, SyncLocked(s.pc.ino))
      case CompareWithPath(pid) =>
        if w.path == Some(s.pc.ino) then At(w, pid, SyncCurrent(s.pc.ino)) else At(Unlocked(w, pid), pid, SyncStart)
      case LoadLocked(pid) =>
        With(w, pid, Shell(SyncLoaded(s.pc.ino), Loaded(loc, s.uvars, IdOf(w, s.pc.ino), w.files[s.pc.ino].text)))
      case WriteTemporary(pid, tmp) => TemporaryWritten(loc, w, pid, tmp)
      case FailToWrite(pid) => At(w, pid, SyncClosing(s.pc.ino))
      case TouchTemporary(pid) => TemporaryTouched(w, s.pc.tmp)
      case Rename(pid) => Renamed(w, pid)
      case FailToRename(pid) => At(w, pid, SyncClosing(s.pc.ino))
      case Close(pid) => At(Unlocked(w, pid), pid, Idle)
      case _ => w
  }

  // ---------------------------------------------------------------- what the file should hold

  /** The text at the path; a missing file counts as empty. */
  function CurrentText(w: World): string {
    if w.path.Some? && w.path.value in w.files then w.files[w.path.value].text else ""
  }

  function CurrentTable(loc: Locale, w: World): VarTable {
    Populate(loc, CurrentText(w))
  }

  /** One save, as if nobody else were around: the changes on top of the table, as written. */
  function Committed(loc: Locale, t: VarTable, d: Delta): VarTable {
    OnWire(loc, Patched(t, d))
  }

  /** All saves in order. */
  function Fold(loc: Locale, t: VarTable, log: seq<Delta>): VarTable {
    if log == [] then t else Committed(loc, Fold(loc, t, log[..|log| - 1]), log[|log| - 1])
  }

  // ---------------------------------------------------------------- invariant

  /** On keys the shell has not changed itself, its table is what is written in the file it last read. */
  ghost predicate Agrees(loc: Locale, u: Uvars, t: VarTable) {
    forall k :: k !in u.modified ==> Lookup(OnWire(loc, u.vars), k) == Lookup(OnWire(loc, t), k)
  }

  /** Between the check that the locked file is still at the path and the rename. */
  predicate Critical(pc: Pc) {
    pc.SyncCurrent? || pc.SyncLoaded? || pc.SyncWritten?
  }

  ghost predicate ReadSound(loc: Locale, files: map<Inode, File>, u: Uvars) {
    u.lastRead.Some? ==>
      var ino := u.lastRead.value.inode;
      && ino in files
      && Agrees(loc, u, Populate(loc, files[ino].text))
      && (FormatForContents(files[ino].text) == Future ==> !u.okToSave)
  }

  predicate FilesExist(files: map<Inode, File>, pc: Pc) {
    match pc
    case Idle => true
    case SyncStart => true
    case SyncWritten(ino, tmp) => ino in files && tmp in files
    case _ => pc.ino in files
  }

  ghost predicate ReadyToRename(loc: Locale, current: string, tmp: string, u: Uvars) {
    && FormatForContents(current) != Future
    && tmp == Serialize(loc, u.vars)
    && OnWire(loc, u.vars) == Committed(loc, Populate(loc, current), Pending(u))
  }

  ghost predicate PcSound(loc: Locale, w: World, s: Shell) {
    && FilesExist(w.files, s.pc)
    && (Critical(s.pc) ==> w.path == Some(s.pc.ino))
    && (s.pc.SyncLoaded? ==> s.uvars.lastRead.Some? && s.uvars.lastRead.value.inode == s.pc.ino)
    && (s.pc.SyncWritten? ==> s.uvars.lastRead.Some? && s.uvars.lastRead.value.inode == s.pc.tmp)
    && (s.pc.SyncWritten? ==> ReadyToRename(loc, w.files[s.pc.ino].text, w.files[s.pc.tmp].text, s.uvars))
  }

  ghost predicate ShellSound(loc: Locale, w: World, s: Shell) {
    Textual(s.uvars.vars) && ReadSound(loc, w.files, s.uvars) && PcSound(loc, w, s)
  }

  ghost predicate FilesSound(loc: Locale, files: map<Inode, File>) {
    forall i <- files :: Textual(Populate(loc, files[i].text))
  }

  predicate PathSound(initial: string, w: World) {
    && (w.path.Some? ==> w.path.value in w.files)
    && (w.path.None? ==> w.log == [] && initial == "")
    && (FormatForContents(initial) == Future ==> CurrentText(w) == initial && w.log == [])
  }

  ghost predicate ShellsSound(loc: Locale, w: World) {
    forall p <- w.shells :: ShellSound(loc, w, w.shells[p])
  }

  ghost predicate LocksSound(w: World) {
    forall p <- w.shells, i: Inode :: Holds(w.shells[p].pc, i) ==> i in w.locks && w.locks[i] == p
  }

  ghost predicate Inv(loc: Locale, initial: string, w: World) {
    && PathSound(initial, w)
    && FilesSound(loc, w.files)
    && ShellsSound(loc, w)
    && LocksSound(w)
    && CurrentTable(loc, w) == Fold(loc, Populate(loc, initial), w.log)
  }

  /** No shell yet; the path is free, or names a file with the initial text. */
  ghost predicate Init(loc: Locale, initial: string, w: World) {
    && w.shells == map[] && w.locks == map[] && w.log == []
    && Textual(Populate(loc, initial))
    && ((w.path.None? && w.files == map[] && initial == "")
        || (w.path.Some? && w.files == map[w.path.value := File(initial, 0)]))
  }
}
