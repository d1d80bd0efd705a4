/**
 The autoloader and its file cache (src/autoload.rs:69-329). The disk is a function from paths to file
 ids, a different one at each access; time is in nanoseconds and never goes back.
 */
module Autoload {
  import opened Common

  type FileId = nat

  /** The id of the file at a path, if there is one. */
  type Disk = string -> Option<FileId>

  datatype AutoloadableFile = AutoloadableFile(path: string, fileId: FileId)

  datatype KnownFile = KnownFile(file: AutoloadableFile, lastChecked: int)

  datatype Miss = Miss(cmd: string, lastChecked: int)

  /** The misses are in the order of their last use, the oldest first. */
  datatype Cache = Cache(dirs: seq<string>, known: map<string, KnownFile>, misses: seq<Miss>)

  const MISSES_CAPACITY: nat := 1024
  const SECOND := 1_000_000_000
  const AUTOLOAD_STALENESS_INTERVAL := 15

  /** The times at which one check looks at the clock: for a hit, for a miss, and when it is done. */
  datatype Moment = Moment(hit: int, miss: int, done: int)

  predicate InOrder(t: Moment) {
    t.hit <= t.miss <= t.done
  }

  function WithDirs(dirs: seq<string>): Cache {
    Cache(dirs, map[], [])
  }

  predicate IsFresh(then_: int, now: int) {
    now < then_ || (now - then_) / SECOND < AUTOLOAD_STALENESS_INTERVAL
  }

  function PathIn(dir: string, cmd: string): string {
    dir + "/" + cmd + ".fish"
  }

  function LocateIn(dirs: seq<string>, cmd: string, disk: Disk): Option<AutoloadableFile> {
    if dirs == [] then None
    else if disk(PathIn(dirs[0], cmd)).Some? then Some(AutoloadableFile(PathIn(dirs[0], cmd), disk(PathIn(dirs[0], cmd)).value))
    else LocateIn(dirs[1..], cmd, disk)
  }

  /** locate_file */
  function Locate(dirs: seq<string>, cmd: string, disk: Disk): Option<AutoloadableFile> {
    if cmd == "" || cmd[0] == '\0' then None else LocateIn(dirs, cmd, disk)
  }

  /** It is the file in the first directory that has one. */
  lemma {:induction false} LocateFindsFirst(dirs: seq<string>, cmd: string, disk: Disk)
    ensures LocateIn(dirs, cmd, disk).Some? <==> exists i :: 0 <= i < |dirs| && disk(PathIn(dirs[i], cmd)).Some?
    ensures LocateIn(dirs, cmd, disk).Some? ==>
              exists i :: 0 <= i < |dirs| && disk(PathIn(dirs[i], cmd)) == Some(LocateIn(dirs, cmd, disk).value.fileId)
                          && LocateIn(dirs, cmd, disk).value.path == PathIn(dirs[i], cmd)
                          && forall j :: 0 <= j < i ==> disk(PathIn(dirs[j], cmd)).None?
  {
    if dirs != [] {
      LocateFindsFirst(dirs[1..], cmd, disk);
      if disk(PathIn(dirs[0], cmd)).None? {
        assert forall i :: 0 < i < |dirs| ==> dirs[1..][i - 1] == dirs[i];
        if LocateIn(dirs, cmd, disk).Some? {
          var r := LocateIn(dirs[1..], cmd, disk).value;
          var i :| 0 <= i < |dirs[1..]| && disk(PathIn(dirs[1..][i], cmd)) == Some(r.fileId) && r.path == PathIn(dirs[1..][i], cmd)
                   && forall j :: 0 <= j < i ==> disk(PathIn(dirs[1..][j], cmd)).None?;
          assert dirs[i + 1] == dirs[1..][i];
          forall j | 0 <= j < i + 1 ensures disk(PathIn(dirs[j], cmd)).None? {
            if j > 0 {
              assert dirs[j] == dirs[1..][j - 1];
            }
          }
        }
      }
    }
  }

  function IndexOfMiss(misses: seq<Miss>, cmd: string): (n: nat)
    ensures n <= |misses| && (n < |misses| ==> misses[n].cmd == cmd)
    ensures forall i :: 0 <= i < n ==> misses[i].cmd != cmd
  {
    if misses == [] || misses[0].cmd == cmd then 0 else 1 + IndexOfMiss(misses[1..], cmd)
  }

  function MissAt(misses: seq<Miss>, cmd: string): Option<int> {
    var n := IndexOfMiss(misses, cmd);
    if n < |misses| then Some(misses[n].lastChecked) else None
  }

  function Popped(misses: seq<Miss>, cmd: string): seq<Miss> {
    var n := IndexOfMiss(misses, cmd);
    if n < |misses| then misses[..n] + misses[n + 1..] else misses
  }

  /** A lookup makes the miss the latest. */
  function Promoted(misses: seq<Miss>, cmd: string): seq<Miss> {
    var n := IndexOfMiss(misses, cmd);
    if n < |misses| then Popped(misses, cmd) + [misses[n]] else misses
  }

  function Put(misses: seq<Miss>, miss: Miss): seq<Miss> {
    var rest := Popped(misses, miss.cmd);
    (if |rest| >= MISSES_CAPACITY then rest[1..] else rest) + [miss]
  }

  datatype Answer = Answer(cache: Cache, file: Option<AutoloadableFile>, located: bool)

  /** The check of the disk, once the cache has nothing. */
  function CheckedDisk(c: Cache, cmd: string, t: Moment, disk: Disk): Answer {
    var file := Locate(c.dirs, cmd, disk);
    Answer(if file.Some? then c.(known := c.known[cmd := KnownFile(file.value, t.done)])
           else c.(misses := Put(c.misses, Miss(cmd, t.done))), file, true)
  }

  function CheckedMisses(c: Cache, cmd: string, allowStale: bool, t: Moment, disk: Disk): Answer {
    var miss := MissAt(c.misses, cmd);
    if miss.None? then CheckedDisk(c, cmd, t, disk)
    else if allowStale || IsFresh(miss.value, t.miss) then Answer(c.(misses := Promoted(c.misses, cmd)), None, false)
    else CheckedDisk(c.(misses := Popped(c.misses, cmd)), cmd, t, disk)
  }

  /** check */
  function Checked(c: Cache, cmd: string, allowStale: bool, t: Moment, disk: Disk): Answer {
    if cmd !in c.known then CheckedMisses(c, cmd, allowStale, t, disk)
    else if allowStale || IsFresh(c.known[cmd].lastChecked, t.hit) then Answer(c, Some(c.known[cmd].file), false)
    else CheckedMisses(c.(known := c.known - {cmd}), cmd, allowStale, t, disk)
  }

  datatype State = State(autoloaded: map<string, FileId>, current: set<string>, cache: Cache)

  const NEW_AUTOLOAD := State(map[], {}, WithDirs([]))

  datatype Resolution = Resolution(state: State, file: Option<AutoloadableFile>, located: bool)

  /** resolve_command_impl; its result is the path of the file. */
  function Resolved(s: State, cmd: string, paths: seq<string>, t: Moment, disk: Disk): Resolution {
    if cmd in s.current then Resolution(s, None, false)
    else
      var cache := if paths != s.cache.dirs then WithDirs(paths) else s.cache;
      var answer := Checked(cache, cmd, false, t, disk);
      var s' := s.(cache := answer.cache);
      if answer.file.None? || (cmd in s.autoloaded && s.autoloaded[cmd] == answer.file.value.fileId) then
        Resolution(s', None, answer.located)
      else
        Resolution(s'.(current := s.current + {cmd}, autoloaded := s.autoloaded[cmd := answer.file.value.fileId]),
                   answer.file, answer.located)
  }

  // ---------------------------------------------------------------- runs

  /** One look at the disk, which ended at a time. */
  datatype Look = Look(cmd: string, dirs: seq<string>, disk: Disk, at: int)

  datatype Returned = Returned(cmd: string, file: AutoloadableFile)

  /** The looks at the disk so far, and the files returned since the last clear. */
  datatype Trace = Trace(state: State, looks: seq<Look>, returned: seq<Returned>)

  const START := Trace(NEW_AUTOLOAD, [], [])

  datatype Event =
    | Resolve(cmd: string, paths: seq<string>, t: Moment, disk: Disk)
    | MarkFinished(cmd: string)
    | CanAutoload(cmd: string, t: Moment, disk: Disk)
    | Clear

  predicate Enabled(tr: Trace, e: Event) {
    match e
    case Resolve(_, _, t, _) => InOrder(t)
    case MarkFinished(cmd) => cmd in tr.state.current
    case CanAutoload(_, t, _) => InOrder(t)
    case Clear => true
  }

  function Looked(looks: seq<Look>, located: bool, look: Look): seq<Look> {
    if located then looks + [look] else looks
  }

  function Apply(tr: Trace, e: Event): Trace {
    match e
    case Resolve(cmd, paths, t, disk) =>
      var r := Resolved(tr.state, cmd, paths, t, disk);
      Trace(r.state, Looked(tr.looks, r.located, Look(cmd, paths, disk, t.done)),
            if r.file.Some? then tr.returned + [Returned(cmd, r.file.value)] else tr.returned)
    case MarkFinished(cmd) => tr.(state := tr.state.(current := tr.state.current - {cmd}))
    case CanAutoload(cmd, t, disk) =>
      var a := Checked(tr.state.cache, cmd, true, t, disk);
      tr.(state := tr.state.(cache := a.cache),
      looks := Looked(tr.looks, a.located, Look(cmd, tr.state.cache.dirs, disk, t.done)))
    case Clear => tr.(state := tr.state.(autoloaded := map[]), returned := [])
  }

  /** This answer for a command is what a look at the disk gave, in these directories and at this time. */
  predicate Seen(looks: seq<Look>, cmd: string, dirs: seq<string>, file: Option<AutoloadableFile>, at: int) {
    exists i :: 0 <= i < |looks| && looks[i].cmd == cmd && looks[i].dirs == dirs && looks[i].at == at
                && Locate(dirs, cmd, looks[i].disk) == file
  }

  predicate UniqueMisses(misses: seq<Miss>) {
    forall i, j :: 0 <= i < j < |misses| ==> misses[i].cmd != misses[j].cmd
  }

  /** No command is both a hit and a miss. */
  predicate Disjoint(known: map<string, KnownFile>, misses: seq<Miss>) {
    |misses| <= MISSES_CAPACITY && UniqueMisses(misses) && forall i :: 0 <= i < |misses| ==> misses[i].cmd !in known
  }

  /** Hits and misses are what was seen. */
  predicate CacheSound(c: Cache, looks: seq<Look>) {
    && Disjoint(c.known, c.misses)
    && (forall i :: 0 <= i < |c.misses| ==> Seen(looks, c.misses[i].cmd, c.dirs, None, c.misses[i].lastChecked))
    && (forall cmd <- c.known :: Seen(looks, cmd, c.dirs, Some(c.known[cmd].file), c.known[cmd].lastChecked))
  }

  function LastReturned(returned: seq<Returned>, cmd: string): Option<FileId> {
    if returned == [] then None
    else
      var last := returned[|returned| - 1];
      if last.cmd == cmd then Some(last.file.fileId) else LastReturned(returned[..|returned| - 1], cmd)
  }

  /** No file is returned twice in a row for a command. */
  predicate NoRepeats(returned: seq<Returned>) {
    forall i :: 0 <= i < |returned| ==> LastReturned(returned[..i], returned[i].cmd) != Some(returned[i].file.fileId)
  }

  ghost predicate Inv(tr: Trace) {
    && CacheSound(tr.state.cache, tr.looks)
    && (forall cmd :: cmd in tr.state.autoloaded <==> LastReturned(tr.returned, cmd).Some?)
    && (forall cmd <- tr.state.autoloaded :: LastReturned(tr.returned, cmd) == Some(tr.state.autoloaded[cmd]))
    && NoRepeats(tr.returned)
  }

  lemma SeenStill(looks: seq<Look>, look: Look, cmd: string, dirs: seq<string>, file: Option<AutoloadableFile>, at: int)
    requires Seen(looks, cmd, dirs, file, at)
    ensures Seen(looks + [look], cmd, dirs, file, at)
  {
    var i :| 0 <= i < |looks| && looks[i].cmd == cmd && looks[i].dirs == dirs && looks[i].at == at
             && Locate(dirs, cmd, looks[i].disk) == file;
    assert (looks + [look])[i] == looks[i];
  }

  lemma SeenNow(looks: seq<Look>, look: Look)
    ensures Seen(looks + [look], look.cmd, look.dirs, Locate(look.dirs, look.cmd, look.disk), look.at)
  {
    assert (looks + [look])[|looks|] == look;
  }

  lemma CacheSoundStill(c: Cache, looks: seq<Look>, look: Look)
    requires CacheSound(c, looks)
    ensures CacheSound(c, looks + [look])
  {
    hide Seen;
    forall i | 0 <= i < |c.misses| ensures Seen(looks + [look], c.misses[i].cmd, c.dirs, None, c.misses[i].lastChecked) {
      SeenStill(looks, look, c.misses[i].cmd, c.dirs, None, c.misses[i].lastChecked);
    }
    forall cmd <- c.known ensures Seen(looks + [look], cmd, c.dirs, Some(c.known[cmd].file), c.known[cmd].lastChecked) {
      SeenStill(looks, look, cmd, c.dirs, Some(c.known[cmd].file), c.known[cmd].lastChecked);
    }
  }

  /** Without the miss of a command the rest is as it was. */
  lemma PoppedIs(known: map<string, KnownFile>, misses: seq<Miss>, cmd: string)
    requires Disjoint(known, misses)
    ensures Disjoint(known, Popped(misses, cmd)) && MissAt(Popped(misses, cmd), cmd).None?
    ensures forall miss <- Popped(misses, cmd) :: miss in misses && miss.cmd != cmd
  {
    var n := IndexOfMiss(misses, cmd);
    var rest := Popped(misses, cmd);
    forall i | 0 <= i < |rest| ensures rest[i].cmd != cmd && rest[i] == misses[if i < n then i else i + 1] {
    }
  }

  lemma PromotedIs(known: map<string, KnownFile>, misses: seq<Miss>, cmd: string)
    requires Disjoint(known, misses)
    ensures Disjoint(known, Promoted(misses, cmd))
    ensures forall miss <- Promoted(misses, cmd) :: miss in misses
  {
    PoppedIs(known, misses, cmd);
    var n := IndexOfMiss(misses, cmd);
    if n < |misses| {
      var rest := Popped(misses, cmd);
      var promoted := rest + [misses[n]];
      forall i | 0 <= i < |promoted| ensures promoted[i] in misses && (i < |rest| ==> promoted[i].cmd != cmd) {
        if i < |rest| {
          assert promoted[i] in rest;
        }
      }
    }
  }

  lemma PutIs(known: map<string, KnownFile>, misses: seq<Miss>, miss: Miss)
    requires Disjoint(known, misses) && miss.cmd !in known
    ensures Disjoint(known, Put(misses, miss))
    ensures forall m <- Put(misses, miss) :: m == miss || m in misses
  {
    PoppedIs(known, misses, miss.cmd);
    var rest := Popped(misses, miss.cmd);
    var kept := if |rest| >= MISSES_CAPACITY then rest[1..] else rest;
    assert Put(misses, miss) == kept + [miss];
    hide Popped, Put;
    KeptIs(known, rest, kept, miss);
  }

  lemma KeptIs(known: map<string, KnownFile>, rest: seq<Miss>, kept: seq<Miss>, miss: Miss)
    requires Disjoint(known, rest) && miss.cmd !in known && forall m <- rest :: m.cmd != miss.cmd
    requires kept == if |rest| >= MISSES_CAPACITY then rest[1..] else rest
    ensures Disjoint(known, kept + [miss]) && forall m <- kept :: m in rest
  {
    forall i | 0 <= i < |kept| ensures kept[i] in rest && kept[i] == rest[if |rest| >= MISSES_CAPACITY then i + 1 else i] {
    }
  }

  lemma SameMisses(c: Cache, looks: seq<Look>, misses: seq<Miss>)
    requires CacheSound(c, looks) && Disjoint(c.known, misses)
    requires forall miss <- misses :: miss in c.misses || Seen(looks, miss.cmd, c.dirs, None, miss.lastChecked)
    ensures CacheSound(c.(misses := misses), looks)
  {
    hide Seen;
    forall i | 0 <= i < |misses| ensures Seen(looks, misses[i].cmd, c.dirs, None, misses[i].lastChecked) {
      assert misses[i] in misses;
    }
  }

  lemma PoppedSound(c: Cache, looks: seq<Look>, cmd: string)
    requires CacheSound(c, looks)
    ensures CacheSound(c.(misses := Popped(c.misses, cmd)), looks) && MissAt(Popped(c.misses, cmd), cmd).None?
  {
    PoppedIs(c.known, c.misses, cmd);
    SameMisses(c, looks, Popped(c.misses, cmd));
  }

  lemma PromotedSound(c: Cache, looks: seq<Look>, cmd: string)
    requires CacheSound(c, looks)
    ensures CacheSound(c.(misses := Promoted(c.misses, cmd)), looks)
  {
    PromotedIs(c.known, c.misses, cmd);
    SameMisses(c, looks, Promoted(c.misses, cmd));
  }

  lemma PutSound(c: Cache, looks: seq<Look>, miss: Miss)
    requires CacheSound(c, looks) && miss.cmd !in c.known && Seen(looks, miss.cmd, c.dirs, None, miss.lastChecked)
    ensures CacheSound(c.(misses := Put(c.misses, miss)), looks)
  {
    PutIs(c.known, c.misses, miss);
    SameMisses(c, looks, Put(c.misses, miss));
  }

  /** An answer is what a look at the disk gave less than 15 seconds before the call, or during it. */
  predicate Recent(looks: seq<Look>, cmd: string, dirs: seq<string>, file: Option<AutoloadableFile>, now: int) {
    exists i :: 0 <= i < |looks| && looks[i].cmd == cmd && looks[i].dirs == dirs
                && Locate(dirs, cmd, looks[i].disk) == file && now - looks[i].at < AUTOLOAD_STALENESS_INTERVAL * SECOND
  }

  lemma SeenRecently(looks: seq<Look>, cmd: string, dirs: seq<string>, file: Option<AutoloadableFile>, at: int, now: int)
    requires Seen(looks, cmd, dirs, file, at) && now - at < AUTOLOAD_STALENESS_INTERVAL * SECOND
    ensures Recent(looks, cmd, dirs, file, now)
  {
    var i :| 0 <= i < |looks| && looks[i].cmd == cmd && looks[i].dirs == dirs && looks[i].at == at
             && Locate(dirs, cmd, looks[i].disk) == file;
  }

  /** What a check leaves and answers. */
  ghost predicate CheckSound(c: Cache, looks: seq<Look>, cmd: string, allowStale: bool, t: Moment, disk: Disk, a: Answer) {
    var looks' := Looked(looks, a.located, Look(cmd, c.dirs, disk, t.done));
    && a.cache.dirs == c.dirs && CacheSound(a.cache, looks')
    && (!allowStale ==> Recent(looks', cmd, c.dirs, a.file, t.hit))
  }

  lemma CheckedDiskSound(c: Cache, looks: seq<Look>, cmd: string, allowStale: bool, t: Moment, disk: Disk)
    requires CacheSound(c, looks) && InOrder(t) && cmd !in c.known && MissAt(c.misses, cmd).None?
    ensures CheckSound(c, looks, cmd, allowStale, t, disk, CheckedDisk(c, cmd, t, disk))
  {
    hide Seen, Recent, Locate;
    var look := Look(cmd, c.dirs, disk, t.done);
    var looks' := looks + [look];
    var file := Locate(c.dirs, cmd, disk);
    CacheSoundStill(c, looks, look);
    SeenNow(looks, look);
    SeenRecently(looks', cmd, c.dirs, file, t.done, t.hit);
    if file.None? {
      PutSound(c, looks', Miss(cmd, t.done));
    } else {
      var known := KnownFile(file.value, t.done);
      assert forall other <- c.known[cmd := known] :: other == cmd || other in c.known;
    }
  }

  lemma CheckedMissesSound(c: Cache, looks: seq<Look>, cmd: string, allowStale: bool, t: Moment, disk: Disk)
    requires CacheSound(c, looks) && InOrder(t) && cmd !in c.known
    ensures CheckSound(c, looks, cmd, allowStale, t, disk, CheckedMisses(c, cmd, allowStale, t, disk))
  {
    hide Seen, Recent, CheckedDisk;
    var miss := MissAt(c.misses, cmd);
    if miss.None? {
      CheckedDiskSound(c, looks, cmd, allowStale, t, disk);
    } else if allowStale || IsFresh(miss.value, t.miss) {
      PromotedSound(c, looks, cmd);
      if !allowStale {
        SeenRecently(looks, cmd, c.dirs, None, miss.value, t.hit);
      }
    } else {
      PoppedSound(c, looks, cmd);
      CheckedDiskSound(c.(misses := Popped(c.misses, cmd)), looks, cmd, allowStale, t, disk);
    }
  }

  /** A check keeps the cache sound, and its answer agrees with the disk. */
  lemma CheckedSound(c: Cache, looks: seq<Look>, cmd: string, allowStale: bool, t: Moment, disk: Disk)
    requires CacheSound(c, looks) && InOrder(t)
    ensures CheckSound(c, looks, cmd, allowStale, t, disk, Checked(c, cmd, allowStale, t, disk))
  {
    hide Seen, Recent, CheckedMisses;
    if cmd !in c.known {
      CheckedMissesSound(c, looks, cmd, allowStale, t, disk);
    } else if allowStale || IsFresh(c.known[cmd].lastChecked, t.hit) {
      if !allowStale {
        SeenRecently(looks, cmd, c.dirs, Some(c.known[cmd].file), c.known[cmd].lastChecked, t.hit);
      }
    } else {
      CheckedMissesSound(c.(known := c.known - {cmd}), looks, cmd, allowStale, t, disk);
    }
  }

  lemma ReturnedStep(returned: seq<Returned>, r: Returned)
    requires NoRepeats(returned) && LastReturned(returned, r.cmd) != Some(r.file.fileId)
    ensures NoRepeats(returned + [r])
    ensures forall cmd :: LastReturned(returned + [r], cmd) == if cmd == r.cmd then Some(r.file.fileId) else LastReturned(returned, cmd)
  {
    var more := returned + [r];
    assert more[..|returned|] == returned;
    forall i | 0 <= i < |more| ensures LastReturned(more[..i], more[i].cmd) != Some(more[i].file.fileId) {
      if i < |returned| {
        assert more[..i] == returned[..i];
      }
    }
  }

  lemma StepKeepsInv(tr: Trace, e: Event)
    requires Inv(tr) && Enabled(tr, e)
    ensures Inv(Apply(tr, e))
  {
    match e
    case Resolve(cmd, paths, t, disk) => ResolveStep(tr, cmd, paths, t, disk);
    case CanAutoload(cmd, t, disk) => CheckedSound(tr.state.cache, tr.looks, cmd, true, t, disk);
    case MarkFinished(_) =>
    case Clear =>
  }

  lemma ResolveStep(tr: Trace, cmd: string, paths: seq<string>, t: Moment, disk: Disk)
    requires Inv(tr) && InOrder(t)
    ensures Inv(Apply(tr, Resolve(cmd, paths, t, disk)))
  {
    hide CacheSound, NoRepeats, LastReturned, Checked, Recent;
    if cmd !in tr.state.current {
      var cache := if paths != tr.state.cache.dirs then WithDirs(paths) else tr.state.cache;
      NewCacheSound(paths, tr.looks);
      CheckedSound(cache, tr.looks, cmd, false, t, disk);
      var r := Resolved(tr.state, cmd, paths, t, disk);
      if r.file.Some? {
        ReturnedStep(tr.returned, Returned(cmd, r.file.value));
      }
    }
  }

  lemma NewCacheSound(dirs: seq<string>, looks: seq<Look>)
    ensures CacheSound(WithDirs(dirs), looks)
  {
  }

  predicate Possible(tr: Trace, events: seq<Event>)
    decreases |events|
  {
    events == [] || (Enabled(tr, events[0]) && Possible(Apply(tr, events[0]), events[1..]))
  }

  function After(tr: Trace, events: seq<Event>): Trace
    requires Possible(tr, events)
    decreases |events|
  {
    if events == [] then tr else After(Apply(tr, events[0]), events[1..])
  }

  lemma {:induction false} RunKeepsInv(tr: Trace, events: seq<Event>)
    requires Inv(tr) && Possible(tr, events)
    ensures Inv(After(tr, events))
    decreases |events|
  {
    if events != [] {
      StepKeepsInv(tr, events[0]);
      RunKeepsInv(Apply(tr, events[0]), events[1..]);
    }
  }

  /** In every run, a check that does not allow stale entries answers what locate_file gave, for the current
      directories, less than 15 seconds ago. */
  lemma CheckAgreesWithDisk(events: seq<Event>, cmd: string, t: Moment, disk: Disk)
    requires Possible(START, events) && InOrder(t)
    ensures var tr := After(START, events);
            var a := Checked(tr.state.cache, cmd, false, t, disk);
            Recent(Looked(tr.looks, a.located, Look(cmd, tr.state.cache.dirs, disk, t.done)), cmd, tr.state.cache.dirs, a.file, t.hit)
  {
    RunKeepsInv(START, events);
    var tr := After(START, events);
    CheckedSound(tr.state.cache, tr.looks, cmd, false, t, disk);
  }

  /** In every run, what resolve_command_impl returns is the file a look at the disk found, in the directories it was
      given, less than 15 seconds ago. */
  lemma ResolvedAgreesWithDisk(events: seq<Event>, cmd: string, paths: seq<string>, t: Moment, disk: Disk)
    requires Possible(START, events) && InOrder(t)
    ensures var tr := After(START, events);
            var r := Resolved(tr.state, cmd, paths, t, disk);
            r.file.Some? ==>
              Recent(Looked(tr.looks, r.located, Look(cmd, paths, disk, t.done)), cmd, paths, r.file, t.hit)
  {
    RunKeepsInv(START, events);
    var tr := After(START, events);
    NewCacheSound(paths, tr.looks);
    CheckedSound(if paths != tr.state.cache.dirs then WithDirs(paths) else tr.state.cache, tr.looks, cmd, false, t, disk);
  }

  /** In every run, two paths returned one after the other for a command, with no clear in between, are of
      different files; and what is being autoloaded is not returned again. */
  lemma ConsecutivePathsDiffer(events: seq<Event>, cmd: string, paths: seq<string>, t: Moment, disk: Disk)
    requires Possible(START, events)
    ensures var tr := After(START, events);
            && NoRepeats(tr.returned)
            && (Resolved(tr.state, cmd, paths, t, disk).file.Some? ==>
                  && cmd !in tr.state.current
                  && LastReturned(tr.returned, cmd) != Some(Resolved(tr.state, cmd, paths, t, disk).file.value.fileId))
  {
    RunKeepsInv(START, events);
  }

  /** In every run, a path is returned exactly if the command is not being autoloaded, a look at the disk less than 15
      seconds ago found a file, and that file is not the one last returned for the command since the last clear. */
  lemma PathIsReturnedIff(events: seq<Event>, cmd: string, paths: seq<string>, t: Moment, disk: Disk)
    returns (found: Option<AutoloadableFile>)
    requires Possible(START, events) && InOrder(t)
    ensures var tr := After(START, events);
            var r := Resolved(tr.state, cmd, paths, t, disk);
            && (r.file == if cmd !in tr.state.current && found.Some? && LastReturned(tr.returned, cmd) != Some(found.value.fileId)
                          then found else None)
            && (cmd !in tr.state.current ==>
                  Recent(Looked(tr.looks, r.located, Look(cmd, paths, disk, t.done)), cmd, paths, found, t.hit))
  {
    RunKeepsInv(START, events);
    var tr := After(START, events);
    var cache := if paths != tr.state.cache.dirs then WithDirs(paths) else tr.state.cache;
    NewCacheSound(paths, tr.looks);
    CheckedSound(cache, tr.looks, cmd, false, t, disk);
    found := Checked(cache, cmd, false, t, disk).file;
    hide Checked, Recent, LastReturned, NoRepeats;
    assert cmd in tr.state.autoloaded <==> LastReturned(tr.returned, cmd).Some?;
  }

  /** Hits and misses stay disjoint, so the cache never has an entry where one is inserted. */
  lemma HitsAndMissesDisjoint(events: seq<Event>, cmd: string)
    requires Possible(START, events)
    ensures var c := After(START, events).state.cache;
            !(cmd in c.known && MissAt(c.misses, cmd).Some?) && |c.misses| <= MISSES_CAPACITY
  {
    RunKeepsInv(START, events);
  }

  // ---------------------------------------------------------------- the objects

  class AutoloadFileCache {
    const dirs: seq<string>
    var knownFiles: map<string, KnownFile>
    var missesCache: seq<Miss>

    function View(): Cache
      reads this
    {
      Cache(dirs, knownFiles, missesCache)
    }

    predicate Valid()
      reads this
    {
      Disjoint(knownFiles, missesCache)
    }

    constructor (dirs: seq<string>)
      ensures Valid() && View() == WithDirs(dirs)
    {
      this.dirs := dirs;
      knownFiles, missesCache := map[], [];
    }

    method Check(cmd: string, allowStale: bool, t: Moment, disk: Disk) returns (file: Option<AutoloadableFile>, ghost located: bool)
      requires Valid()
      modifies this
      ensures Valid()
      ensures Answer(View(), file, located) == Checked(old(View()), cmd, allowStale, t, disk)
    {
      located := false;
      if cmd in knownFiles {
        var value := knownFiles[cmd];
        if allowStale || IsFresh(value.lastChecked, t.hit) {
          return Some(value.file), false;
        }
        knownFiles := knownFiles - {cmd};
      }
      var miss := MissAt(missesCache, cmd);
      if miss.Some? {
        if allowStale || IsFresh(miss.value, t.miss) {
          PromotedIs(knownFiles, missesCache, cmd);
          missesCache := Promoted(missesCache, cmd);
          return None, false;
        }
        PoppedIs(knownFiles, missesCache, cmd);
        missesCache := Popped(missesCache, cmd);
      }
      file := LocateFile(cmd, disk);
      located := true;
      if file.Some? {
        assert cmd !in knownFiles;
        knownFiles := knownFiles[cmd := KnownFile(file.value, t.done)];
      } else {
        assert MissAt(missesCache, cmd).None?;
        PutIs(knownFiles, missesCache, Miss(cmd, t.done));
        missesCache := Put(missesCache, Miss(cmd, t.done));
      }
    }

    method LocateFile(cmd: string, disk: Disk) returns (file: Option<AutoloadableFile>)
      ensures file == Locate(dirs, cmd, disk)
    {
      if cmd == "" {
        return None;
      }
      if cmd[0] == '\0' {
        return None;
      }
      assert dirs[0..] == dirs;
      for i := 0 to |dirs|
        invariant LocateIn(dirs, cmd, disk) == LocateIn(dirs[i..], cmd, disk)
      {
        assert dirs[i..][1..] == dirs[i + 1..];
        var path := dirs[i] + "/" + cmd + ".fish";
        var fileId := disk(path);
        if fileId.Some? {
          return Some(AutoloadableFile(path, fileId.value));
        }
      }
      return None;
    }
  }

  class Autoload {
    var autoloadedFiles: map<string, FileId>
    var currentAutoloading: set<string>
    var cache: AutoloadFileCache

    function View(): State
      reads this, cache
    {
      State(autoloadedFiles, currentAutoloading, cache.View())
    }

    predicate Valid()
      reads this, cache
    {
      cache.Valid()
    }

    constructor ()
      ensures Valid() && View() == NEW_AUTOLOAD && fresh(cache)
    {
      autoloadedFiles, currentAutoloading := map[], {};
      cache := new AutoloadFileCache([]);
    }

    method ResolveCommandImpl(cmd: string, paths: seq<string>, t: Moment, disk: Disk) returns (path: Option<string>)
      requires Valid()
      modifies this, cache
      ensures Valid()
      ensures var r := Resolved(old(View()), cmd, paths, t, disk);
              View() == r.state && path == if r.file.Some? then Some(r.file.value.path) else None
    {
      if cmd in currentAutoloading {
        return None;
      }
      if paths != cache.dirs {
        cache := new AutoloadFileCache(paths);
      }
      var file, _ := cache.Check(cmd, false, t, disk);
      if file.None? {
        return None;
      }
      if cmd in autoloadedFiles && autoloadedFiles[cmd] == file.value.fileId {
        return None;
      }
      currentAutoloading := currentAutoloading + {cmd};
      autoloadedFiles := autoloadedFiles[cmd := file.value.fileId];
      return Some(file.value.path);
    }

    method MarkAutoloadFinished(cmd: string)
      requires Valid() && cmd in currentAutoloading
      modifies this`currentAutoloading
      ensures Valid() && View() == old(View()).(current := old(currentAutoloading) - {cmd})
    {
      currentAutoloading := currentAutoloading - {cmd};
    }

    method ClearLoaded()
      requires Valid()
      modifies this`autoloadedFiles
      ensures Valid() && View() == old(View()).(autoloaded := map[])
    {
      autoloadedFiles := map[];
    }
  }
}
