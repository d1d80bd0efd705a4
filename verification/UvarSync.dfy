module UvarSync {
  /** What holds after every run of UvarProtocol: no update is lost. */

  import opened Common
  import opened Wide
  import opened UvarFormat
  import opened EnvUniversal
  import opened UvarProtocol
  import opened UvarSteps

  ghost predicate Possible(loc: Locale, w: World, events: seq<Event>)
    decreases |events|
  {
    events == [] || (Enabled(w, events[0]) && Possible(loc, Apply(loc, w, events[0]), events[1..]))
  }

  ghost function After(loc: Locale, w: World, events: seq<Event>): World
    requires Possible(loc, w, events)
    decreases |events|
  {
    if events == [] then w else After(loc, Apply(loc, w, events[0]), events[1..])
  }

  lemma {:induction false} RunKeepsInv(loc: Locale, initial: string, w: World, events: seq<Event>)
    requires AsciiTransparent(loc) && Inv(loc, initial, w) && Possible(loc, w, events)
    ensures Inv(loc, initial, After(loc, w, events))
    decreases |events|
  {
    if events != [] {
      StepKeepsInv(loc, initial, w, events[0]);
      RunKeepsInv(loc, initial, Apply(loc, w, events[0]), events[1..]);
    }
  }

  // ---------------------------------------------------------------- what the shells were told

  /** The changes `pid` was told to make and has not saved yet: a change of nothing is none, and a save ends them all. */
  ghost function NextUnsaved(w: World, e: Event, pid: Pid, d: Delta): Delta
    requires Enabled(w, e)
  {
    if e.pid != pid then d
    else
      match e
      case SetVar(_, key, v) => if Lookup(w.shells[pid].uvars.vars, key) == Some(v) then d else d[key := Some(v)]
      case EraseVar(_, key) => if key in w.shells[pid].uvars.vars then d[key := None] else d
      case Spawn(_) => map[]
      case Crash(_) => map[]
      case Rename(_) => map[]
      case _ => d
  }

  lemma {:induction false} AfterSnoc(loc: Locale, w: World, events: seq<Event>, e: Event)
    ensures Possible(loc, w, events + [e]) <==> Possible(loc, w, events) && Enabled(After(loc, w, events), e)
    ensures Possible(loc, w, events + [e]) ==> After(loc, w, events + [e]) == Apply(loc, After(loc, w, events), e)
    decreases |events|
  {
    if events == [] {
      assert events + [e] == [e] && [e][1..] == [];
      if Enabled(w, e) {
        assert Possible(loc, Apply(loc, w, e), []);
      }
    } else {
      assert (events + [e])[1..] == events[1..] + [e] && (events + [e])[0] == events[0];
      if Enabled(w, events[0]) {
        AfterSnoc(loc, Apply(loc, w, events[0]), events[1..], e);
      }
    }
  }

  lemma Front(loc: Locale, w: World, events: seq<Event>)
    requires Possible(loc, w, events) && events != []
    ensures var n := |events| - 1;
            && Possible(loc, w, events[..n]) && Enabled(After(loc, w, events[..n]), events[n])
            && After(loc, w, events) == Apply(loc, After(loc, w, events[..n]), events[n])
  {
    var n := |events| - 1;
    assert events == events[..n] + [events[n]];
    AfterSnoc(loc, w, events[..n], events[n]);
  }

  /** What `pid` is told in a run and has not saved at its end. */
  ghost function Unsaved(loc: Locale, w: World, events: seq<Event>, pid: Pid): Delta
    requires Possible(loc, w, events)
    decreases |events|
  {
    if events == [] then map[]
    else
      var n := |events| - 1;
      Front(loc, w, events);
      NextUnsaved(After(loc, w, events[..n]), events[n], pid, Unsaved(loc, w, events[..n], pid))
  }

  /** The saves of a run, in order: at each rename, what that shell has been told since its last one. */
  ghost function Saves(loc: Locale, w: World, events: seq<Event>): seq<Delta>
    requires Possible(loc, w, events)
    decreases |events|
  {
    if events == [] then []
    else
      var n := |events| - 1;
      Front(loc, w, events);
      Saves(loc, w, events[..n]) + if events[n].Rename? then [Unsaved(loc, w, events[..n], events[n].pid)] else []
  }

  /** What a shell has pending. */
  ghost function PendingOf(w: World, pid: Pid): Delta {
    if pid in w.shells then Pending(w.shells[pid].uvars) else map[]
  }

  lemma StepPending(loc: Locale, w: World, e: Event, pid: Pid)
    requires Enabled(w, e)
    ensures PendingOf(Apply(loc, w, e), pid) == NextUnsaved(w, e, pid, PendingOf(w, pid))
  {
    hide Serialize, Populate, FormatForContents, ErasedExports, ChangedExports;
    if e.pid == pid {
      match e
      case SetVar(_, key, v) => SetPending(w.shells[pid].uvars, key, v);
      case EraseVar(_, key) => ErasePending(w.shells[pid].uvars, key);
      case ReadAndClose(_) => LoadPending(loc, w.shells[pid].uvars, w.files[w.shells[pid].pc.ino].text, IdOf(w, w.shells[pid].pc.ino));
      case LoadLocked(_) => LoadPending(loc, w.shells[pid].uvars, w.files[w.shells[pid].pc.ino].text, IdOf(w, w.shells[pid].pc.ino));
      case _ =>
    }
  }

  lemma SetPending(u: Uvars, key: string, v: EnvVar)
    ensures Pending(WithVar(u, key, v)) == if Lookup(u.vars, key) == Some(v) then Pending(u) else Pending(u)[key := Some(v)]
  {
  }

  lemma ErasePending(u: Uvars, key: string)
    ensures Pending(WithoutVar(u, key)) == if key in u.vars then Pending(u)[key := None] else Pending(u)
  {
  }

  lemma LoadPending(loc: Locale, u: Uvars, text: string, id: FileId)
    ensures Pending(Loaded(loc, u, id, text)) == Pending(u)
  {
    hide Populate, FormatForContents, ErasedExports, ChangedExports, Patched;
    var incoming := Populate(loc, text);
    forall k <- u.modified ensures Lookup(Merged(u, incoming), k) == Lookup(u.vars, k) {
      PatchedLookup(incoming, Pending(u), k);
    }
  }

  lemma {:induction false} PendingIsUnsaved(loc: Locale, w: World, events: seq<Event>, pid: Pid)
    requires Possible(loc, w, events) && w.shells == map[]
    ensures PendingOf(After(loc, w, events), pid) == Unsaved(loc, w, events, pid)
    decreases |events|
  {
    if events != [] {
      var n := |events| - 1;
      Front(loc, w, events);
      PendingIsUnsaved(loc, w, events[..n], pid);
      StepPending(loc, After(loc, w, events[..n]), events[n], pid);
    }
  }

  lemma StepLogs(loc: Locale, w: World, e: Event)
    requires Enabled(w, e)
    ensures Apply(loc, w, e).log == w.log + if e.Rename? then [PendingOf(w, e.pid)] else []
  {
    hide Serialize, Loaded, Pending, WithVar, WithoutVar;
  }

  /** What the renames put in place is what the shells were told. */
  lemma {:induction false} LogIsSaves(loc: Locale, w: World, events: seq<Event>)
    requires Possible(loc, w, events) && w.shells == map[] && w.log == []
    ensures After(loc, w, events).log == Saves(loc, w, events)
    decreases |events|
  {
    if events != [] {
      var n := |events| - 1;
      Front(loc, w, events);
      LogIsSaves(loc, w, events[..n]);
      PendingIsUnsaved(loc, w, events[..n], events[n].pid);
      StepLogs(loc, After(loc, w, events[..n]), events[n]);
    }
  }

  /** No update is lost and none is made up: however the shells interleave, the file at the path is the initial table
      with every successful save applied in the order of the renames, each being what its shell was told since
      its last one. */
  lemma {:induction false} NoLostUpdate(loc: Locale, initial: string, w: World, events: seq<Event>)
    requires AsciiTransparent(loc) && Init(loc, initial, w) && Possible(loc, w, events)
    ensures var w' := After(loc, w, events);
            && w'.log == Saves(loc, w, events)
            && CurrentTable(loc, w') == Fold(loc, Populate(loc, initial), Saves(loc, w, events))
  {
    InitSound(loc, initial, w);
    RunKeepsInv(loc, initial, w, events);
    LogIsSaves(loc, w, events);
  }

  /** What the saves in a log leave for one key: the last one that changed it, as written. */
  function LastWrite(loc: Locale, t: VarTable, log: seq<Delta>, key: string): Option<EnvVar> {
    if log == [] then Lookup(t, key)
    else
      var last := log[|log| - 1];
      if key in last then (if last[key].Some? then WireEntry(loc, key, last[key].value) else None)
      else LastWrite(loc, OnWire(loc, t), log[..|log| - 1], key)
  }

  lemma WireLookup(loc: Locale, t: VarTable, key: string)
    ensures Lookup(OnWire(loc, t), key) == (if key in t then WireEntry(loc, key, t[key]) else None)
  {
  }

  lemma {:induction false} FoldIsOnWire(loc: Locale, t: VarTable, log: seq<Delta>)
    ensures log != [] ==> OnWire(loc, Fold(loc, t, log)) == Fold(loc, t, log)
    ensures Fold(loc, OnWire(loc, t), log) == OnWire(loc, Fold(loc, t, log))
  {
    OnWireIdempotent(loc, t);
    if log != [] {
      var before := log[..|log| - 1];
      var d := log[|log| - 1];
      FoldIsOnWire(loc, t, before);
      OnWireIdempotent(loc, Patched(Fold(loc, t, before), d));
      CommittedOnWire(loc, Fold(loc, t, before), d);
    }
  }

  lemma CommittedOnWire(loc: Locale, t: VarTable, d: Delta)
    ensures Committed(loc, OnWire(loc, t), d) == Committed(loc, t, d)
  {
    forall k ensures Lookup(Committed(loc, OnWire(loc, t), d), k) == Lookup(Committed(loc, t, d), k) {
      PatchedLookup(t, d, k);
      PatchedLookup(OnWire(loc, t), d, k);
      OnWireIdempotent(loc, t);
      WireLookup(loc, OnWire(loc, t), k);
      WireLookup(loc, t, k);
      WireLookup(loc, Patched(t, d), k);
      WireLookup(loc, Patched(OnWire(loc, t), d), k);
    }
    LookupExtensional(Committed(loc, OnWire(loc, t), d), Committed(loc, t, d));
  }

  lemma {:induction false} FoldIsLastWrite(loc: Locale, t: VarTable, log: seq<Delta>, key: string)
    ensures Lookup(Fold(loc, t, log), key) == LastWrite(loc, t, log, key)
    decreases |log|
  {
    if log != [] {
      var before := log[..|log| - 1];
      var d := log[|log| - 1];
      PatchedLookup(Fold(loc, t, before), d, key);
      WireLookup(loc, Patched(Fold(loc, t, before), d), key);
      FoldIsLastWrite(loc, OnWire(loc, t), before, key);
      FoldIsOnWire(loc, t, before);
      WireLookup(loc, Fold(loc, t, before), key);
    }
  }

  /** Variable by variable: the file holds what the last save that touched the variable wrote, or still
      has the variable erased if that save erased it. */
  lemma LastSaveWins(loc: Locale, initial: string, w: World, events: seq<Event>, key: string)
    requires AsciiTransparent(loc) && Init(loc, initial, w) && Possible(loc, w, events)
    ensures var w' := After(loc, w, events);
            Lookup(CurrentTable(loc, w'), key) == LastWrite(loc, Populate(loc, initial), Saves(loc, w, events), key)
  {
    NoLostUpdate(loc, initial, w, events);
    FoldIsLastWrite(loc, Populate(loc, initial), Saves(loc, w, events), key);
  }

  /** The shell is told nothing about the variable. */
  predicate NeverTold(events: seq<Event>, pid: Pid, key: string) {
    forall e <- events :: !((e.SetVar? || e.EraseVar?) && e.pid == pid && e.key == key)
  }

  lemma {:induction false} NotPendingStays(loc: Locale, w: World, events: seq<Event>, pid: Pid, key: string)
    requires Possible(loc, w, events) && key !in PendingOf(w, pid) && NeverTold(events, pid, key)
    ensures key !in PendingOf(After(loc, w, events), pid)
    decreases |events|
  {
    if events != [] {
      assert events[0] in events;
      StepPending(loc, w, events[0], pid);
      NotPendingStays(loc, Apply(loc, w, events[0]), events[1..], pid, key);
    }
  }

  lemma {:induction false} LogGrows(loc: Locale, w: World, events: seq<Event>)
    requires Possible(loc, w, events)
    ensures w.log <= After(loc, w, events).log
    decreases |events|
  {
    if events != [] {
      StepLogs(loc, w, events[0]);
      LogGrows(loc, Apply(loc, w, events[0]), events[1..]);
    }
  }

  /** A rename by a shell that has nothing pending for a variable leaves the variable alone, once anything was saved. */
  lemma RenameLeavesAlone(loc: Locale, initial: string, w: World, pid: Pid, key: string)
    requires AsciiTransparent(loc) && Inv(loc, initial, w) && Enabled(w, Rename(pid)) && key !in PendingOf(w, pid) && w.log != []
    ensures Lookup(CurrentTable(loc, Apply(loc, w, Rename(pid))), key) == Lookup(CurrentTable(loc, w), key)
  {
    var t := Populate(loc, initial);
    StepKeepsInv(loc, initial, w, Rename(pid));
    StepLogs(loc, w, Rename(pid));
    assert CurrentTable(loc, w) == Fold(loc, t, w.log);
    hide Inv, Apply, Populate, PendingOf, CurrentTable, OnWire, Fold, Patched;
    SavedKey(loc, Fold(loc, t, w.log), PendingOf(w, pid), key);
    FoldIsOnWire(loc, t, w.log);
    FoldSnoc(loc, t, w.log, PendingOf(w, pid));
    CurrentIsFold(loc, initial, Apply(loc, w, Rename(pid)));
  }

  lemma CurrentIsFold(loc: Locale, initial: string, w: World)
    requires Inv(loc, initial, w)
    ensures CurrentTable(loc, w) == Fold(loc, Populate(loc, initial), w.log)
  {
  }

  lemma FoldSnoc(loc: Locale, t: VarTable, log: seq<Delta>, d: Delta)
    ensures Fold(loc, t, log + [d]) == Committed(loc, Fold(loc, t, log), d)
  {
    assert (log + [d])[..|log|] == log;
  }

  lemma SavedKey(loc: Locale, t: VarTable, d: Delta, key: string)
    requires key !in d
    ensures Lookup(Committed(loc, t, d), key) == Lookup(OnWire(loc, t), key)
  {
    PatchedLookup(t, d, key);
    WireLookup(loc, Patched(t, d), key);
    WireLookup(loc, t, key);
  }

  /** A shell that has saved a variable and is told nothing more about it never changes it in the file again,
      whatever it saves and whatever others have made of the variable. */
  lemma SavedVariableIsLeftAlone(loc: Locale, initial: string, w: World, before: seq<Event>, pid: Pid, later: seq<Event>, key: string)
    requires AsciiTransparent(loc) && Init(loc, initial, w) && Possible(loc, w, before)
    requires var w1 := After(loc, w, before); Enabled(w1, Rename(pid)) && Possible(loc, Apply(loc, w1, Rename(pid)), later)
    requires NeverTold(later, pid, key)
    ensures var w2 := After(loc, Apply(loc, After(loc, w, before), Rename(pid)), later);
            && key !in PendingOf(w2, pid)
            && (Enabled(w2, Rename(pid)) ==>
                  Lookup(CurrentTable(loc, Apply(loc, w2, Rename(pid))), key) == Lookup(CurrentTable(loc, w2), key))
  {
    InitSound(loc, initial, w);
    RunKeepsInv(loc, initial, w, before);
    var w1 := After(loc, w, before);
    var w1' := Apply(loc, w1, Rename(pid));
    StepKeepsInv(loc, initial, w1, Rename(pid));
    StepPending(loc, w1, Rename(pid), pid);
    StepLogs(loc, w1, Rename(pid));
    hide Inv, Apply, Enabled, PendingOf;
    NotPendingStays(loc, w1', later, pid, key);
    LogGrows(loc, w1', later);
    RunKeepsInv(loc, initial, w1', later);
    if Enabled(After(loc, w1', later), Rename(pid)) {
      RenameLeavesAlone(loc, initial, After(loc, w1', later), pid, key);
    }
  }

  predicate NeverSavesOrCrashes(events: seq<Event>, pid: Pid) {
    forall e <- events :: !((e.Rename? || e.Crash?) && e.pid == pid)
  }

  lemma {:induction false} ToldStaysPending(loc: Locale, w: World, events: seq<Event>, pid: Pid, key: string, v: Option<EnvVar>)
    requires Possible(loc, w, events) && pid in w.shells && key in PendingOf(w, pid) && PendingOf(w, pid)[key] == v
    requires NeverTold(events, pid, key) && NeverSavesOrCrashes(events, pid)
    ensures key in PendingOf(After(loc, w, events), pid) && PendingOf(After(loc, w, events), pid)[key] == v
    decreases |events|
  {
    if events != [] {
      assert events[0] in events;
      StepPending(loc, w, events[0], pid);
      assert Enabled(w, events[0]) && pid in Apply(loc, w, events[0]).shells;
      ToldStaysPending(loc, Apply(loc, w, events[0]), events[1..], pid, key, v);
    }
  }

  /** What a shell is told is in the file once it saves: the new value as it is written, or nothing for an erased variable. */
  lemma ToldIsSaved(loc: Locale, initial: string, w: World, before: seq<Event>, e: Event, later: seq<Event>)
    requires AsciiTransparent(loc) && Init(loc, initial, w) && Possible(loc, w, before) && (e.SetVar? || e.EraseVar?)
    requires var w1 := After(loc, w, before);
             && Enabled(w1, e) && Possible(loc, Apply(loc, w1, e), later)
             && (if e.SetVar? then Lookup(w1.shells[e.pid].uvars.vars, e.key) != Some(e.v) else e.key in w1.shells[e.pid].uvars.vars)
    requires NeverTold(later, e.pid, e.key) && NeverSavesOrCrashes(later, e.pid)
    requires Enabled(After(loc, Apply(loc, After(loc, w, before), e), later), Rename(e.pid))
    ensures var w2 := After(loc, Apply(loc, After(loc, w, before), e), later);
            Lookup(CurrentTable(loc, Apply(loc, w2, Rename(e.pid))), e.key) == if e.SetVar? then WireEntry(loc, e.key, e.v) else None
  {
    InitSound(loc, initial, w);
    RunKeepsInv(loc, initial, w, before);
    var w1 := After(loc, w, before);
    StepKeepsInv(loc, initial, w1, e);
    StepPending(loc, w1, e, e.pid);
    var v := if e.SetVar? then Some(e.v) else None;
    assert e.pid in Apply(loc, w1, e).shells;
    hide Inv, Apply, Enabled, PendingOf;
    RunKeepsInv(loc, initial, Apply(loc, w1, e), later);
    ToldStaysPending(loc, Apply(loc, w1, e), later, e.pid, e.key, v);
    RenameSaves(loc, initial, After(loc, Apply(loc, w1, e), later), e.pid, e.key);
  }

  lemma RenameSaves(loc: Locale, initial: string, w: World, pid: Pid, key: string)
    requires AsciiTransparent(loc) && Inv(loc, initial, w) && Enabled(w, Rename(pid)) && key in PendingOf(w, pid)
    ensures var v := PendingOf(w, pid)[key];
            Lookup(CurrentTable(loc, Apply(loc, w, Rename(pid))), key) == if v.Some? then WireEntry(loc, key, v.value) else None
  {
    var t, d := Populate(loc, initial), PendingOf(w, pid);
    StepKeepsInv(loc, initial, w, Rename(pid));
    StepLogs(loc, w, Rename(pid));
    hide Inv, Apply, Populate, PendingOf, CurrentTable, OnWire, Fold, Patched;
    CurrentIsFold(loc, initial, Apply(loc, w, Rename(pid)));
    FoldSnoc(loc, t, w.log, d);
    PatchedLookup(Fold(loc, t, w.log), d, key);
    WireLookup(loc, Patched(Fold(loc, t, w.log), d), key);
  }

  /** At most one shell at a time is between its check of the path and its rename. */
  lemma MutualExclusion(loc: Locale, initial: string, w: World, events: seq<Event>, p: Pid, q: Pid)
    requires AsciiTransparent(loc) && Init(loc, initial, w) && Possible(loc, w, events)
    requires var shells := After(loc, w, events).shells;
             p in shells && q in shells && Critical(shells[p].pc) && Critical(shells[q].pc)
    ensures p == q
  {
    InitSound(loc, initial, w);
    RunKeepsInv(loc, initial, w, events);
    OneCritical(loc, After(loc, w, events), p, q);
  }

  /** A shell that skips reading because the file id has not changed knows everything in the file,
      except for what it has changed itself. */
  lemma SkippedReadIsSound(loc: Locale, initial: string, w: World, events: seq<Event>, pid: Pid, key: string)
    requires AsciiTransparent(loc) && Init(loc, initial, w) && Possible(loc, w, events)
    requires var w' := After(loc, w, events);
             && pid in w'.shells && w'.path.Some? && w'.path.value in w'.files
             && w'.shells[pid].uvars.lastRead == Some(IdOf(w', w'.path.value))
             && key !in w'.shells[pid].uvars.modified
    ensures var w' := After(loc, w, events);
            Lookup(OnWire(loc, w'.shells[pid].uvars.vars), key) == Lookup(OnWire(loc, CurrentTable(loc, w')), key)
  {
    InitSound(loc, initial, w);
    RunKeepsInv(loc, initial, w, events);
    var w' := After(loc, w, events);
    assert ShellSound(loc, w', w'.shells[pid]);
  }

  /** A file of a later format is never replaced. */
  lemma FutureFileIsKept(loc: Locale, initial: string, w: World, events: seq<Event>)
    requires AsciiTransparent(loc) && Init(loc, initial, w) && Possible(loc, w, events)
    requires FormatForContents(initial) == Future
    ensures CurrentText(After(loc, w, events)) == initial
  {
    InitSound(loc, initial, w);
    RunKeepsInv(loc, initial, w, events);
  }
}
