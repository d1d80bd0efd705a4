/**
 Every step of UvarProtocol keeps its invariant.

 A shell that has read the file at the path agrees with it on all variables but those it has changed itself, so
 what it writes is the file with its changes; the lock keeps the file in place until the rename. Most steps
 leave the path alone (`QuietStep`), and then only the shell that moves has to be looked at. The others are the
 creation of the file, when nobody can be in the critical section, and the rename, when nobody else can be.
 */
module UvarSteps {
  import opened Common
  import opened Wide
  import opened UvarFormat
  import opened EnvUniversal
  import opened UvarProtocol

  lemma InitSound(loc: Locale, initial: string, w: World)
    requires Init(loc, initial, w)
    ensures Inv(loc, initial, w)
  {
  }

  // ---------------------------------------------------------------- one step

  /** No file is lost, none changes its text. */
  predicate SameTexts(before: map<Inode, File>, after: map<Inode, File>) {
    forall i <- before :: i in after && after[i].text == before[i].text
  }

  lemma ShellStaysSound(loc: Locale, w: World, w': World, s: Shell)
    requires ShellSound(loc, w, s) && SameTexts(w.files, w'.files)
    requires w'.path == w.path || !Critical(s.pc)
    ensures ShellSound(loc, w', s)
  {
  }

  lemma CriticalHoldsLock(loc: Locale, w: World, pid: Pid)
    requires pid in w.shells && LocksSound(w) && ShellSound(loc, w, w.shells[pid]) && Critical(w.shells[pid].pc)
    ensures w.path == Some(w.shells[pid].pc.ino)
    ensures w.shells[pid].pc.ino in w.locks && w.locks[w.shells[pid].pc.ino] == pid
  {
    assert Holds(w.shells[pid].pc, w.shells[pid].pc.ino);
  }

  /** The lock makes the critical section exclusive. */
  lemma OneCritical(loc: Locale, w: World, p: Pid, q: Pid)
    requires p in w.shells && q in w.shells && LocksSound(w)
    requires ShellSound(loc, w, w.shells[p]) && ShellSound(loc, w, w.shells[q])
    requires Critical(w.shells[p].pc) && Critical(w.shells[q].pc)
    ensures p == q
  {
    CriticalHoldsLock(loc, w, p);
    CriticalHoldsLock(loc, w, q);
  }

  /** Whatever one shell does, the others still hold their locks. */
  predicate LocksKept(before: map<Inode, Pid>, after: map<Inode, Pid>, pid: Pid) {
    forall i <- before :: before[i] != pid ==> i in after && after[i] == before[i]
  }

  lemma LocksStaySound(w: World, w': World, pid: Pid)
    requires LocksSound(w) && LocksKept(w.locks, w'.locks, pid)
    requires pid in w'.shells && w'.shells == w.shells[pid := w'.shells[pid]]
    requires forall i: Inode :: Holds(w'.shells[pid].pc, i) ==> i in w'.locks && w'.locks[i] == pid
    ensures LocksSound(w')
  {
    forall p <- w'.shells, i: Inode | Holds(w'.shells[p].pc, i) ensures i in w'.locks && w'.locks[i] == p {
      if p != pid {
        assert Holds(w.shells[p].pc, i);
      }
    }
  }

  lemma ShellsStaySound(loc: Locale, w: World, w': World, pid: Pid)
    requires ShellsSound(loc, w) && SameTexts(w.files, w'.files)
    requires pid in w'.shells && w'.shells == w.shells[pid := w'.shells[pid]]
    requires ShellSound(loc, w', w'.shells[pid])
    requires w'.path == w.path || forall p <- w.shells :: p != pid ==> !Critical(w.shells[p].pc)
    ensures ShellsSound(loc, w')
  {
    forall p <- w'.shells ensures ShellSound(loc, w', w'.shells[p]) {
      if p != pid {
        ShellStaysSound(loc, w, w', w.shells[p]);
      }
    }
  }

  /** A step of one shell that leaves the path alone and its own state sound keeps the invariant. */
  lemma QuietStep(loc: Locale, initial: string, w: World, w': World, pid: Pid)
    requires Inv(loc, initial, w)
    requires w'.path == w.path && w'.log == w.log
    requires SameTexts(w.files, w'.files) && FilesSound(loc, w'.files)
    requires pid in w'.shells && w'.shells == w.shells[pid := w'.shells[pid]]
    requires ShellSound(loc, w', w'.shells[pid])
    requires LocksKept(w.locks, w'.locks, pid)
    requires forall i: Inode :: Holds(w'.shells[pid].pc, i) ==> i in w'.locks && w'.locks[i] == pid
    ensures Inv(loc, initial, w')
  {
    ShellsStaySound(loc, w, w', pid);
    LocksStaySound(w, w', pid);
    assert CurrentText(w') == CurrentText(w);
  }

  /** The text of the file read, or the skipped read of an unchanged one, leaves the table in agreement with it. */
  lemma LoadSound(loc: Locale, files: map<Inode, File>, u: Uvars, ino: Inode)
    requires Textual(u.vars) && ReadSound(loc, files, u) && FilesSound(loc, files) && ino in files
    ensures var u' := Loaded(loc, u, FileId(ino, files[ino].version), files[ino].text);
            && Textual(u'.vars) && ReadSound(loc, files, u')
            && u'.lastRead == Some(FileId(ino, files[ino].version))
  {
    var u' := Loaded(loc, u, FileId(ino, files[ino].version), files[ino].text);
    var incoming := Populate(loc, files[ino].text);
    if u' != u {
      forall k | k !in u.modified ensures Lookup(OnWire(loc, u'.vars), k) == Lookup(OnWire(loc, incoming), k) {
        PatchedLookup(incoming, Pending(u), k);
      }
      forall k <- u'.vars ensures FreeOfBytes(EncodeSerialized(u'.vars[k].values)) {
        PatchedLookup(incoming, Pending(u), k);
        if k in u.modified {
          assert Pending(u)[k] == Lookup(u.vars, k);
        }
      }
    }
  }

  lemma SetSound(loc: Locale, files: map<Inode, File>, u: Uvars, key: string, v: EnvVar)
    requires Textual(u.vars) && ReadSound(loc, files, u) && FreeOfBytes(EncodeSerialized(v.values))
    ensures Textual(WithVar(u, key, v).vars) && ReadSound(loc, files, WithVar(u, key, v))
  {
    var u' := WithVar(u, key, v);
    forall k | k !in u'.modified ensures Lookup(OnWire(loc, u'.vars), k) == Lookup(OnWire(loc, u.vars), k) {
    }
  }

  lemma EraseSound(loc: Locale, files: map<Inode, File>, u: Uvars, key: string)
    requires Textual(u.vars) && ReadSound(loc, files, u)
    ensures Textual(WithoutVar(u, key).vars) && ReadSound(loc, files, WithoutVar(u, key))
  {
    var u' := WithoutVar(u, key);
    forall k | k !in u'.modified ensures Lookup(OnWire(loc, u'.vars), k) == Lookup(OnWire(loc, u.vars), k) {
    }
  }

  /** A table that agrees with the file outside its own changes is, once written, the file with those changes. */
  lemma AgreementIsEnough(loc: Locale, u: Uvars, t: VarTable)
    requires Agrees(loc, u, t)
    ensures OnWire(loc, u.vars) == Committed(loc, t, Pending(u))
  {
    forall k ensures Lookup(OnWire(loc, u.vars), k) == Lookup(Committed(loc, t, Pending(u)), k) {
      PatchedLookup(t, Pending(u), k);
      if k in u.modified {
        assert Pending(u)[k] == Lookup(u.vars, k);
      } else {
        assert Lookup(OnWire(loc, u.vars), k) == Lookup(OnWire(loc, t), k);
      }
    }
    LookupExtensional(OnWire(loc, u.vars), Committed(loc, t, Pending(u)));
  }

  lemma WriteSound(loc: Locale, w: World, pid: Pid, tmp: Inode)
    requires AsciiTransparent(loc) && FilesSound(loc, w.files)
    requires Enabled(w, WriteTemporary(pid, tmp)) && ShellSound(loc, w, w.shells[pid])
    ensures var w' := TemporaryWritten(loc, w, pid, tmp);
            SameTexts(w.files, w'.files) && FilesSound(loc, w'.files) && ShellSound(loc, w', w'.shells[pid])
  {
    var u := w.shells[pid].uvars;
    var w' := TemporaryWritten(loc, w, pid, tmp);
    var t := Populate(loc, w.files[w.shells[pid].pc.ino].text);
    FileRoundTrip(loc, u.vars);
    OnWireIdempotent(loc, u.vars);
    AgreementIsEnough(loc, u, t);
    var u' := w'.shells[pid].uvars;
    assert u'.vars == u.vars && Pending(u') == Pending(u);
    assert ReadSound(loc, w'.files, u');
  }

  lemma RenameSound(loc: Locale, w: World, pid: Pid)
    requires AsciiTransparent(loc)
    requires Enabled(w, Rename(pid)) && ShellSound(loc, w, w.shells[pid])
    ensures var w' := Renamed(w, pid);
            && ShellSound(loc, w', w'.shells[pid])
            && CurrentTable(loc, w') == Committed(loc, CurrentTable(loc, w), Pending(w.shells[pid].uvars))
  {
    var s := w.shells[pid];
    FileRoundTrip(loc, s.uvars.vars);
    OnWireIdempotent(loc, s.uvars.vars);
    assert CurrentText(w) == w.files[s.pc.ino].text;
  }

  ghost predicate HoldsIn(locks: map<Inode, Pid>, pid: Pid, pc: Pc) {
    forall i: Inode :: Holds(pc, i) ==> i in locks && locks[i] == pid
  }

  lemma HeldBefore(w: World, pid: Pid)
    requires LocksSound(w) && pid in w.shells
    ensures HoldsIn(w.locks, pid, w.shells[pid].pc)
  {
  }

  /** A shell only moves on, keeping its lock or not. */
  lemma MoveStep(loc: Locale, initial: string, w: World, pid: Pid, pc: Pc)
    requires Inv(loc, initial, w) && pid in w.shells
    requires PcSound(loc, w, w.shells[pid].(pc := pc)) && HoldsIn(w.locks, pid, pc)
    ensures Inv(loc, initial, At(w, pid, pc))
  {
    assert ShellSound(loc, w, w.shells[pid]);
    QuietStep(loc, initial, w, At(w, pid, pc), pid);
  }

  /** A shell gives up its lock. */
  lemma UnlockStep(loc: Locale, initial: string, w: World, pid: Pid, s: Shell)
    requires Inv(loc, initial, w) && pid in w.shells
    requires s == NEW_SHELL || (s.uvars == w.shells[pid].uvars && (s.pc.Idle? || s.pc.SyncStart?))
    ensures Inv(loc, initial, With(Unlocked(w, pid), pid, s))
  {
    assert ShellSound(loc, w, w.shells[pid]);
    QuietStep(loc, initial, w, With(Unlocked(w, pid), pid, s), pid);
  }

  lemma LockStep(loc: Locale, initial: string, w: World, pid: Pid)
    requires Inv(loc, initial, w) && Enabled(w, TakeLock(pid))
    ensures Inv(loc, initial, Apply(loc, w, TakeLock(pid)))
  {
    assert ShellSound(loc, w, w.shells[pid]);
    QuietStep(loc, initial, w, Apply(loc, w, TakeLock(pid)), pid);
  }

  lemma SpawnStep(loc: Locale, initial: string, w: World, pid: Pid)
    requires Inv(loc, initial, w) && pid !in w.shells
    ensures Inv(loc, initial, With(w, pid, NEW_SHELL))
  {
    QuietStep(loc, initial, w, With(w, pid, NEW_SHELL), pid);
  }

  lemma MovesStep(loc: Locale, initial: string, w: World, e: Event)
    requires Inv(loc, initial, w) && Enabled(w, e)
    requires e.OpenForReading? || e.BeginSync? || e.FailToOpen? || e.FailToWrite? || e.FailToRename?
             || (e.CompareWithPath? && w.path == Some(w.shells[e.pid].pc.ino)) || (e.OpenOrCreate? && w.path.Some?)
    ensures Inv(loc, initial, Apply(loc, w, e))
  {
    assert ShellSound(loc, w, w.shells[e.pid]);
    HeldBefore(w, e.pid);
    var pc := w.shells[e.pid].pc;
    var pc' := Apply(loc, w, e).shells[e.pid].pc;
    forall i: Inode | Holds(pc', i) ensures i in w.locks && w.locks[i] == e.pid {
      assert Holds(pc, i);
    }
    if Apply(loc, w, e) != w {
      MoveStep(loc, initial, w, e.pid, pc');
    }
  }

  lemma SetStep(loc: Locale, initial: string, w: World, e: Event)
    requires Inv(loc, initial, w) && Enabled(w, e) && (e.SetVar? || e.EraseVar?)
    ensures Inv(loc, initial, Apply(loc, w, e))
  {
    var u := w.shells[e.pid].uvars;
    assert ShellSound(loc, w, w.shells[e.pid]);
    if e.SetVar? {
      SetSound(loc, w.files, u, e.key, e.v);
    } else {
      EraseSound(loc, w.files, u, e.key);
    }
    QuietStep(loc, initial, w, Apply(loc, w, e), e.pid);
  }

  lemma LoadStep(loc: Locale, initial: string, w: World, e: Event)
    requires Inv(loc, initial, w) && Enabled(w, e) && (e.ReadAndClose? || e.LoadLocked?)
    ensures Inv(loc, initial, Apply(loc, w, e))
  {
    var s := w.shells[e.pid];
    assert ShellSound(loc, w, s);
    LoadSound(loc, w.files, s.uvars, s.pc.ino);
    assert e.LoadLocked? ==> Holds(s.pc, s.pc.ino);
    QuietStep(loc, initial, w, Apply(loc, w, e), e.pid);
  }

  lemma WriteMoves(loc: Locale, w: World, pid: Pid, tmp: Inode)
    requires Enabled(w, WriteTemporary(pid, tmp))
    ensures var w' := TemporaryWritten(loc, w, pid, tmp);
            && w'.path == w.path && w'.log == w.log && w'.locks == w.locks
            && pid in w'.shells && w'.shells == w.shells[pid := w'.shells[pid]]
            && w'.shells[pid].pc.SyncWritten? && w'.shells[pid].pc.ino == w.shells[pid].pc.ino
  {
  }

  lemma HeldThrough(w: World, w': World, pid: Pid)
    requires LocksSound(w) && w'.locks == w.locks && pid in w.shells && pid in w'.shells
    requires Critical(w.shells[pid].pc) && Critical(w'.shells[pid].pc) && w.shells[pid].pc.ino == w'.shells[pid].pc.ino
    ensures HoldsIn(w'.locks, pid, w'.shells[pid].pc)
  {
    assert Holds(w.shells[pid].pc, w.shells[pid].pc.ino);
  }

  lemma WriteStep(loc: Locale, initial: string, w: World, pid: Pid, tmp: Inode)
    requires AsciiTransparent(loc) && Inv(loc, initial, w) && Enabled(w, WriteTemporary(pid, tmp))
    ensures Inv(loc, initial, TemporaryWritten(loc, w, pid, tmp))
  {
    assert ShellSound(loc, w, w.shells[pid]);
    WriteSound(loc, w, pid, tmp);
    WriteMoves(loc, w, pid, tmp);
    var w' := TemporaryWritten(loc, w, pid, tmp);
    HeldThrough(w, w', pid);
    QuietStep(loc, initial, w, w', pid);
  }

  lemma TouchStep(loc: Locale, initial: string, w: World, pid: Pid, tmp: Inode)
    requires Inv(loc, initial, w) && pid in w.shells && tmp in w.files
    ensures Inv(loc, initial, TemporaryTouched(w, tmp))
  {
    var w' := TemporaryTouched(w, tmp);
    assert w'.shells == w.shells[pid := w.shells[pid]];
    assert ShellSound(loc, w, w.shells[pid]);
    HeldBefore(w, pid);
    ShellStaysSound(loc, w, w', w.shells[pid]);
    QuietStep(loc, initial, w, w', pid);
  }

  /** The path was free, so nobody was in the critical section. */
  lemma CreateStep(loc: Locale, initial: string, w: World, pid: Pid, ino: Inode)
    requires Inv(loc, initial, w) && Enabled(w, OpenOrCreate(pid, ino)) && w.path.None?
    ensures Inv(loc, initial, Apply(loc, w, OpenOrCreate(pid, ino)))
  {
    var w' := Apply(loc, w, OpenOrCreate(pid, ino));
    assert ShellSound(loc, w, w.shells[pid]);
    forall p <- w.shells ensures !Critical(w.shells[p].pc) {
      assert ShellSound(loc, w, w.shells[p]);
    }
    ShellsStaySound(loc, w, w', pid);
    LocksStaySound(w, w', pid);
    assert CurrentText(w') == CurrentText(w) == "";
  }

  lemma FoldStep(loc: Locale, t: VarTable, log: seq<Delta>, d: Delta)
    ensures Fold(loc, t, log + [d]) == Committed(loc, Fold(loc, t, log), d)
  {
    assert (log + [d])[..|log|] == log;
  }

  lemma OthersNotCritical(loc: Locale, w: World, pid: Pid)
    requires ShellsSound(loc, w) && LocksSound(w) && pid in w.shells && Critical(w.shells[pid].pc)
    ensures forall p <- w.shells :: p != pid ==> !Critical(w.shells[p].pc)
  {
    forall p <- w.shells | p != pid && Critical(w.shells[p].pc) ensures false {
      OneCritical(loc, w, pid, p);
    }
  }

  lemma RenameStep(loc: Locale, initial: string, w: World, pid: Pid)
    requires AsciiTransparent(loc) && Inv(loc, initial, w) && Enabled(w, Rename(pid))
    ensures Inv(loc, initial, Renamed(w, pid))
  {
    var w' := Renamed(w, pid);
    var s := w.shells[pid];
    assert ShellSound(loc, w, s);
    RenameSound(loc, w, pid);
    OthersNotCritical(loc, w, pid);
    ShellsStaySound(loc, w, w', pid);
    HeldBefore(w, pid);
    assert Holds(s.pc, s.pc.ino);
    LocksStaySound(w, w', pid);
    FoldStep(loc, Populate(loc, initial), w.log, Pending(s.uvars));
    assert CurrentText(w) == w.files[s.pc.ino].text;
  }

  lemma StepKeepsInv(loc: Locale, initial: string, w: World, e: Event)
    requires AsciiTransparent(loc) && Inv(loc, initial, w) && Enabled(w, e)
    ensures Inv(loc, initial, Apply(loc, w, e))
  {
    hide Inv, TemporaryWritten, Renamed, TemporaryTouched, Loaded, WithVar, WithoutVar, IdOf;
    match e
    case Spawn(pid) => SpawnStep(loc, initial, w, pid);
    case Crash(pid) => UnlockStep(loc, initial, w, pid, NEW_SHELL);
    case SetVar(_, _, _) => SetStep(loc, initial, w, e);
    case EraseVar(_, _) => SetStep(loc, initial, w, e);
    case ReadAndClose(_) => LoadStep(loc, initial, w, e);
    case LoadLocked(_) => LoadStep(loc, initial, w, e);
    case TakeLock(pid) => LockStep(loc, initial, w, pid);
    case WriteTemporary(pid, tmp) => WriteStep(loc, initial, w, pid, tmp);
    case TouchTemporary(pid) => TouchStep(loc, initial, w, pid, w.shells[pid].pc.tmp);
    case Rename(pid) => RenameStep(loc, initial, w, pid);
    case Close(pid) => UnlockStep(loc, initial, w, pid, w.shells[pid].(pc := Idle));
    case OpenOrCreate(pid, ino) =>
      if w.path.None? {
        CreateStep(loc, initial, w, pid, ino);
      } else {
        MovesStep(loc, initial, w, e);
      }
    case CompareWithPath(pid) =>
      if w.path != Some(w.shells[pid].pc.ino) {
        UnlockStep(loc, initial, w, pid, w.shells[pid].(pc := SyncStart));
      } else {
        MovesStep(loc, initial, w, e);
      }
    case _ => MovesStep(loc, initial, w, e);
  }
}
