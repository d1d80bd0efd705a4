module EnvUniversal {
  /**
   The in-memory half of universal variables: the `EnvUniversal` object of
   src/env_universal_common.rs:58-136, 391-416 and 569-640.

   `Uvars` is the value of such an object. The functions on it say what its methods do; the
   class at the end is proved against them, and UvarProtocol runs them in many shells at once.
   */

  import opened Common
  import opened Wide
  import opened UvarFormat

  /** An inode, and a version that changes with its metadata; never reused. */
  datatype FileId = FileId(inode: nat, version: nat)

  datatype Uvars = Uvars(
    vars: VarTable,
    modified: set<string>,
    exportGeneration: nat,
    okToSave: bool,
    lastRead: Option<FileId>)

  const NEW_UVARS := Uvars(map[], {}, 1, true, None)

  function Lookup(t: VarTable, key: string): Option<EnvVar> {
    if key in t then Some(t[key]) else None
  }

  function WithVar(u: Uvars, key: string, v: EnvVar): Uvars {
    if Lookup(u.vars, key) == Some(v) then u
    else u.(vars := u.vars[key := v],
         modified := u.modified + {key},
         exportGeneration := u.exportGeneration + if v.flags.exported then 1 else 0)
  }

  function WithoutVar(u: Uvars, key: string): Uvars {
    if key !in u.vars then u
    else u.(vars := u.vars - {key},
         modified := u.modified + {key},
         exportGeneration := u.exportGeneration + if u.vars[key].flags.exported then 1 else 0)
  }

  // ---------------------------------------------------------------- merging

  /** Changes to a table: the new value of each key, None for an erased one. */
  type Delta = map<string, Option<EnvVar>>

  /** The changes a shell made since its last save. */
  function Pending(u: Uvars): Delta {
    map k | k in u.modified :: Lookup(u.vars, k)
  }

  function Patched(t: VarTable, d: Delta): VarTable {
    map k | k in t.Keys + d.Keys && (if k in d then d[k].Some? else true) :: if k in d then d[k].value else t[k]
  }

  /** acquire_variables: the incoming table with the shell's own changes on top. */
  function Merged(u: Uvars, incoming: VarTable): VarTable {
    Patched(incoming, Pending(u))
  }

  lemma PatchedLookup(t: VarTable, d: Delta, key: string)
    ensures Lookup(Patched(t, d), key) == if key in d then d[key] else Lookup(t, key)
  {
  }

  /** What the callbacks of a load announce. */
  function Announced(u: Uvars, incoming: VarTable): Delta {
    map k | k in u.vars.Keys + incoming.Keys && k !in u.modified && Lookup(u.vars, k) != Lookup(incoming, k)
      :: Lookup(incoming, k)
  }

  function ErasedExports(u: Uvars, incoming: VarTable): set<string> {
    set k | k in u.vars && k !in u.modified && k !in incoming && u.vars[k].flags.exported
  }

  /** Loaded keys that are new and exported, or have changed. */
  function ChangedExports(u: Uvars, incoming: VarTable): set<string> {
    set k | k in incoming && k !in u.modified && BumpsGeneration(Lookup(u.vars, k), incoming[k])
  }

  predicate BumpsGeneration(existing: Option<EnvVar>, entry: EnvVar) {
    var oldExports := existing.Some? && existing.value.flags.exported;
    oldExports != entry.flags.exported || (existing.Some? && existing.value != entry)
  }

  /** load_from_fd on a file of the given id and text. */
  function Loaded(loc: Locale, u: Uvars, id: FileId, text: string): Uvars {
    if u.lastRead == Some(id) then u
    else
      var incoming := Populate(loc, text);
      u.(vars := Merged(u, incoming),
      exportGeneration := u.exportGeneration + |ErasedExports(u, incoming)| + |ChangedExports(u, incoming)|,
      okToSave := u.okToSave && FormatForContents(text) != Future,
      lastRead := Some(id))
  }

  // ---------------------------------------------------------------- callbacks

  datatype Callback = Callback(key: string, val: Option<EnvVar>)

  predicate DistinctKeys(callbacks: seq<Callback>) {
    forall i, j :: 0 <= i < j < |callbacks| ==> callbacks[i].key != callbacks[j].key
  }

  /** The callbacks are exactly `d`, each key once, in any order. */
  predicate Lists(callbacks: seq<Callback>, d: Delta) {
    && DistinctKeys(callbacks)
    && (forall c <- callbacks :: c.key in d && d[c.key] == c.val)
    && (forall k <- d :: Callback(k, d[k]) in callbacks)
  }

  /** The part of `d` outside `rest`. */
  function ButFor(d: Delta, rest: set<string>): Delta {
    if rest == {} then d else d - rest
  }

  function Outside(exports: set<string>, rest: set<string>): set<string> {
    if rest == {} then exports else exports - rest
  }

  lemma NothingYet(d: Delta, exports: set<string>, rest: set<string>)
    requires d.Keys <= rest && exports <= rest
    ensures Lists([], ButFor(d, rest)) && |Outside(exports, rest)| == 0
  {
    assert d - rest == map[] && exports - rest == {};
  }

  lemma ListsConcat(a: seq<Callback>, da: Delta, b: seq<Callback>, db: Delta)
    requires Lists(a, da) && Lists(b, db) && da.Keys !! db.Keys
    ensures Lists(a + b, da + db)
  {
    forall i, j | 0 <= i < j < |a + b| ensures (a + b)[i].key != (a + b)[j].key {
      if i < |a| <= j {
        assert a[i] in a && b[j - |a|] in b;
      }
    }
    forall k <- da + db ensures Callback(k, (da + db)[k]) in a + b {
      if k !in db {
        assert Callback(k, da[k]) in a;
      } else {
        assert Callback(k, db[k]) in b;
      }
    }
  }

  /** The callbacks for all keys but `rest`, once `key` has been handled too. */
  lemma ListsStep(callbacks: seq<Callback>, d: Delta, rest: set<string>, key: string)
    requires Lists(callbacks, d - rest) && key in rest
    ensures Lists(if key in d then callbacks + [Callback(key, d[key])] else callbacks, d - (rest - {key}))
  {
    if key in d {
      ListsConcat(callbacks, d - rest, [Callback(key, d[key])], map[key := d[key]]);
      assert (d - rest) + map[key := d[key]] == d - (rest - {key});
    } else {
      assert d - rest == d - (rest - {key});
    }
  }

  lemma CountStep(s: set<string>, rest: set<string>, key: string)
    requires key in rest
    ensures |s - (rest - {key})| == |s - rest| + if key in s then 1 else 0
  {
    if key in s {
      assert s - (rest - {key}) == (s - rest) + {key};
    } else {
      assert s - (rest - {key}) == s - rest;
    }
  }

  lemma ButForNothing(d: Delta, exports: set<string>)
    ensures ButFor(d, {}) == d && Outside(exports, {}) == exports
  {
  }

  /** What handling one more key does to the callbacks and to the count of changed exports. */
  lemma GenerationStep(callbacks: seq<Callback>, d: Delta, exports: set<string>, rest: set<string>, key: string)
    requires Lists(callbacks, ButFor(d, rest)) && key in rest
    ensures Lists(if key in d then callbacks + [Callback(key, d[key])] else callbacks, ButFor(d, rest - {key}))
    ensures |Outside(exports, rest - {key})| == |Outside(exports, rest)| + if key in exports then 1 else 0
  {
    ButForIs(d, exports, rest);
    ButForIs(d, exports, rest - {key});
    hide Lists, ButFor, Outside;
    ListsStep(callbacks, d, rest, key);
    CountStep(exports, rest, key);
  }

  lemma ButForIs(d: Delta, exports: set<string>, rest: set<string>)
    ensures ButFor(d, rest) == d - rest && Outside(exports, rest) == exports - rest
  {
  }

  function ErasedDelta(u: Uvars, incoming: VarTable): Delta {
    map k | k in u.vars && k !in u.modified && k !in incoming :: None
  }

  function ChangedDelta(u: Uvars, incoming: VarTable): Delta {
    map k | k in incoming && k !in u.modified && Lookup(u.vars, k) != Some(incoming[k]) :: Some(incoming[k])
  }

  /** Whether `delta` and `exports` say of one key of the old table what the first loop does for it. */
  predicate ErasedAt(vars: VarTable, modified: set<string>, incoming: VarTable, delta: Delta, exports: set<string>, key: string)
    requires key in vars
  {
    && (key in delta <==> key !in modified && key !in incoming)
    && (key in delta ==> delta[key] == None)
    && (key in exports <==> key !in modified && key !in incoming && vars[key].flags.exported)
  }

  /** Whether `delta` and `exports` say of one incoming key what the second loop does for it. */
  predicate ChangedAt(vars: VarTable, modified: set<string>, incoming: VarTable, delta: Delta, exports: set<string>, key: string)
    requires key in incoming
  {
    && (key in delta <==> key !in modified && Lookup(vars, key) != Some(incoming[key]))
    && (key in delta ==> delta[key] == Some(incoming[key]))
    && (key in exports <==> key !in modified && BumpsGeneration(Lookup(vars, key), incoming[key]))
  }

  lemma AnnouncedInTwoParts(u: Uvars, incoming: VarTable, erased: seq<Callback>, changed: seq<Callback>)
    requires Lists(erased, ErasedDelta(u, incoming)) && Lists(changed, ChangedDelta(u, incoming))
    ensures Lists(erased + changed, Announced(u, incoming))
  {
    var a, b := ErasedDelta(u, incoming), ChangedDelta(u, incoming);
    ListsConcat(erased, a, changed, b);
    assert Announced(u, incoming) == a + b;
  }

  function Called(t: VarTable, c: Callback): VarTable {
    if c.val.Some? then t[c.key := c.val.value] else t - {c.key}
  }

  function Replayed(t: VarTable, callbacks: seq<Callback>): VarTable {
    if callbacks == [] then t else Called(Replayed(t, callbacks[..|callbacks| - 1]), callbacks[|callbacks| - 1])
  }

  lemma CalledLookup(t: VarTable, c: Callback, key: string)
    ensures Lookup(Called(t, c), key) == if c.key == key then c.val else Lookup(t, key)
  {
  }

  lemma ReplayedSnoc(t: VarTable, front: seq<Callback>, last: Callback, key: string)
    requires DistinctKeys(front + [last])
    ensures Lookup(Replayed(t, front + [last]), key) == if last.key == key then last.val else Lookup(Replayed(t, front), key)
    ensures forall c <- front :: c.key != last.key
  {
    assert (front + [last])[..|front|] == front;
    CalledLookup(Replayed(t, front), last, key);
    forall c <- front ensures c.key != last.key {
      var i :| 0 <= i < |front| && front[i] == c;
      assert (front + [last])[i] == c && (front + [last])[|front|] == last;
    }
  }

  lemma {:induction false} ReplayedLookup(t: VarTable, callbacks: seq<Callback>, key: string)
    requires DistinctKeys(callbacks)
    ensures (forall c <- callbacks :: c.key != key) ==> Lookup(Replayed(t, callbacks), key) == Lookup(t, key)
    ensures forall c <- callbacks :: c.key == key ==> Lookup(Replayed(t, callbacks), key) == c.val
    decreases |callbacks|
  {
    if callbacks != [] {
      var front, last := callbacks[..|callbacks| - 1], callbacks[|callbacks| - 1];
      ReplayedLookup(t, front, key);
      assert callbacks == front + [last];
      hide Called, Replayed, Lookup;
      ReplayedSnoc(t, front, last, key);
      assert forall c <- callbacks :: c in front || c == last;
    }
  }

  lemma LookupExtensional(a: VarTable, b: VarTable)
    requires forall k :: Lookup(a, k) == Lookup(b, k)
    ensures a == b
  {
    forall k ensures k in a <==> k in b {
      assert Lookup(a, k) == Lookup(b, k);
    }
    forall k <- a ensures a[k] == b[k] {
      assert Lookup(a, k) == Lookup(b, k);
    }
  }

  /** Replaying the callbacks of a load on the old table gives the table acquired, and no callback
      names a key the shell has modified itself. */
  lemma CallbacksDescribeLoad(u: Uvars, incoming: VarTable, callbacks: seq<Callback>)
    requires Lists(callbacks, Announced(u, incoming))
    ensures Replayed(u.vars, callbacks) == Merged(u, incoming)
    ensures forall c <- callbacks :: c.key !in u.modified
  {
    var d := Announced(u, incoming);
    forall k ensures Lookup(Replayed(u.vars, callbacks), k) == Lookup(Merged(u, incoming), k) {
      ReplayedLookup(u.vars, callbacks, k);
      PatchedLookup(incoming, Pending(u), k);
      if k in d {
        assert Callback(k, d[k]) in callbacks;
      } else {
        assert forall c <- callbacks :: c.key != k;
      }
    }
    LookupExtensional(Replayed(u.vars, callbacks), Merged(u, incoming));
  }

  function Exported(t: VarTable): VarTable {
    map k | k in t && t[k].flags.exported :: t[k]
  }

  /** If a load changes the exported variables, the export generation grows. */
  lemma ExportChangeIsNoticed(loc: Locale, u: Uvars, id: FileId, text: string)
    requires Exported(Loaded(loc, u, id, text).vars) != Exported(u.vars)
    ensures Loaded(loc, u, id, text).exportGeneration > u.exportGeneration
  {
    var incoming := Populate(loc, text);
    var after := Merged(u, incoming);
    var key := DifferentKey(Exported(after), Exported(u.vars));
    PatchedLookup(incoming, Pending(u), key);
    if key in u.vars && key !in incoming {
      assert key in ErasedExports(u, incoming);
    } else {
      assert key in ChangedExports(u, incoming);
    }
  }

  lemma DifferentKey(a: VarTable, b: VarTable) returns (key: string)
    requires a != b
    ensures Lookup(a, key) != Lookup(b, key)
  {
    if forall k :: Lookup(a, k) == Lookup(b, k) {
      LookupExtensional(a, b);
    }
    key :| Lookup(a, key) != Lookup(b, key);
  }

  /** The shell's own changes survive a load. */
  lemma LoadKeepsPending(loc: Locale, u: Uvars, id: FileId, text: string)
    ensures Pending(Loaded(loc, u, id, text)) == Pending(u)
  {
    forall k | k in u.modified
      ensures Lookup(Loaded(loc, u, id, text).vars, k) == Lookup(u.vars, k)
    {
      PatchedLookup(Populate(loc, text), Pending(u), k);
    }
  }

  // ---------------------------------------------------------------- the object

  class EnvUniversal {
    var vars: VarTable
    var modified: set<string>
    var exportGeneration: nat
    var okToSave: bool
    var lastRead: Option<FileId>

    function View(): Uvars
      reads this
    {
      Uvars(vars, modified, exportGeneration, okToSave, lastRead)
    }

    constructor ()
      ensures View() == NEW_UVARS
    {
      vars, modified, exportGeneration, okToSave, lastRead := map[], {}, 1, true, None;
    }

    method Set(key: string, v: EnvVar)
      modifies this
      ensures View() == WithVar(old(View()), key, v)
    {
      if key in vars && vars[key] == v {
        return;
      }
      vars := vars[key := v];
      modified := modified + {key};
      if v.flags.exported {
        exportGeneration := exportGeneration + 1;
      }
    }

    method Remove(key: string) returns (found: bool)
      modifies this
      ensures View() == WithoutVar(old(View()), key)
      ensures found <==> key in old(vars)
    {
      found := key in vars;
      if found {
        if vars[key].flags.exported {
          exportGeneration := exportGeneration + 1;
        }
        vars := vars - {key};
        modified := modified + {key};
      }
    }

    /** generate_callbacks_and_update_exports */
    method GenerateCallbacksAndUpdateExports(newVars: VarTable) returns (callbacks: seq<Callback>)
      modifies this`exportGeneration
      ensures Lists(callbacks, Announced(old(View()), newVars))
      ensures exportGeneration == old(exportGeneration)
                                  + |ErasedExports(old(View()), newVars)| + |ChangedExports(old(View()), newVars)|
    {
      ghost var u := View();
      var erased := GenerateErased(newVars, ErasedDelta(u, newVars), ErasedExports(u, newVars));
      var changed := GenerateChanged(newVars, ChangedDelta(u, newVars), ChangedExports(u, newVars));
      AnnouncedInTwoParts(u, newVars, erased, changed);
      callbacks := erased + changed;
    }

    /** Its first loop: callbacks for erased values, collected in `delta`; `exports` are the keys that
        bump the generation. */
    method GenerateErased(newVars: VarTable, ghost delta: Delta, ghost exports: set<string>) returns (callbacks: seq<Callback>)
      requires delta.Keys <= vars.Keys && exports <= vars.Keys
      requires forall k <- vars :: ErasedAt(vars, modified, newVars, delta, exports, k)
      modifies this`exportGeneration
      ensures Lists(callbacks, delta)
      ensures exportGeneration == old(exportGeneration) + |exports|
    {
      callbacks := [];
      var rest := vars.Keys;
      NothingYet(delta, exports, rest);
      hide Lists, ErasedAt, ChangedAt, ButFor, Outside;
      while rest != {}
        invariant exportGeneration == old(exportGeneration) + |Outside(exports, rest)|
        invariant Lists(callbacks, ButFor(delta, rest))
        invariant rest <= vars.Keys
        decreases |rest|
      {
        var key :| key in rest;
        GenerationStep(callbacks, delta, exports, rest, key);
        rest := rest - {key};
        callbacks := AnnounceIfErased(key, newVars, callbacks, delta, exports);
      }
      assert rest == {};
      ButForNothing(delta, exports);
    }

    /** What the first loop does for one key. */
    method AnnounceIfErased(key: string, newVars: VarTable, callbacks: seq<Callback>, ghost delta: Delta, ghost exports: set<string>)
      returns (r: seq<Callback>)
      requires key in vars && ErasedAt(vars, modified, newVars, delta, exports, key)
      modifies this`exportGeneration
      ensures r == if key in delta then callbacks + [Callback(key, delta[key])] else callbacks
      ensures exportGeneration == old(exportGeneration) + if key in exports then 1 else 0
    {
      r := callbacks;
      if key !in modified && key !in newVars {
        r := callbacks + [Callback(key, None)];
        if vars[key].flags.exported {
          exportGeneration := exportGeneration + 1;
        }
      }
    }

    /** Its second loop: callbacks for newly inserted or changed values, collected in `delta`;
        `exports` are the keys that bump the generation. */
    method GenerateChanged(newVars: VarTable, ghost delta: Delta, ghost exports: set<string>) returns (callbacks: seq<Callback>)
      requires delta.Keys <= newVars.Keys && exports <= newVars.Keys
      requires forall k <- newVars :: ChangedAt(vars, modified, newVars, delta, exports, k)
      modifies this`exportGeneration
      ensures Lists(callbacks, delta)
      ensures exportGeneration == old(exportGeneration) + |exports|
    {
      callbacks := [];
      var rest := newVars.Keys;
      NothingYet(delta, exports, rest);
      hide Lists, ErasedAt, ChangedAt, ButFor, Outside;
      while rest != {}
        invariant exportGeneration == old(exportGeneration) + |Outside(exports, rest)|
        invariant Lists(callbacks, ButFor(delta, rest))
        invariant rest <= newVars.Keys
        decreases |rest|
      {
        var key :| key in rest;
        GenerationStep(callbacks, delta, exports, rest, key);
        rest := rest - {key};
        callbacks := AnnounceIfChanged(key, newVars, callbacks, delta, exports);
      }
      assert rest == {};
      ButForNothing(delta, exports);
    }

    /** What the second loop does for one key. */
    method AnnounceIfChanged(key: string, newVars: VarTable, callbacks: seq<Callback>, ghost delta: Delta, ghost exports: set<string>)
      returns (r: seq<Callback>)
      requires key in newVars && ChangedAt(vars, modified, newVars, delta, exports, key)
      modifies this`exportGeneration
      ensures r == if key in delta then callbacks + [Callback(key, delta[key])] else callbacks
      ensures exportGeneration == old(exportGeneration) + if key in exports then 1 else 0
    {
      r := callbacks;
      if key in modified {
        return;
      }
      var existing, entry := Lookup(vars, key), newVars[key];
      var exportChanged := (existing.Some? && existing.value.flags.exported) != entry.flags.exported;
      var valueChanged := existing.Some? && existing.value != entry;
      if exportChanged || valueChanged {
        exportGeneration := exportGeneration + 1;
      }
      if existing.None? || exportChanged || valueChanged {
        r := callbacks + [Callback(key, Some(entry))];
      }
    }

    method AcquireVariables(varsToAcquire: VarTable)
      modifies this`vars
      ensures vars == Merged(old(View()), varsToAcquire)
    {
      var acquired := varsToAcquire;
      var rest := modified;
      while rest != {}
        invariant rest <= modified
        invariant forall k :: Lookup(acquired, k) ==
                              if k in modified && k !in rest then Lookup(vars, k) else Lookup(varsToAcquire, k)
        decreases |rest|
      {
        var key :| key in rest;
        rest := rest - {key};
        if key !in vars {
          acquired := acquired - {key};
        } else {
          acquired := acquired[key := vars[key]];
        }
      }
      forall k ensures Lookup(acquired, k) == Lookup(Merged(View(), varsToAcquire), k) {
        PatchedLookup(varsToAcquire, Pending(View()), k);
      }
      LookupExtensional(acquired, Merged(View(), varsToAcquire));
      vars := acquired;
    }

    /** load_from_fd */
    method LoadFromFd(loc: Locale, currentFile: FileId, text: string) returns (callbacks: seq<Callback>)
      modifies this
      ensures View() == Loaded(loc, old(View()), currentFile, text)
      ensures Replayed(old(vars), callbacks) == vars
      ensures forall c <- callbacks :: c.key !in modified
    {
      callbacks := [];
      if lastRead != Some(currentFile) {
        var newVars, format := PopulateVariables(loc, text);
        if format == Future {
          okToSave := false;
        }
        hide Lists, Announced, Merged, ErasedExports, ChangedExports, Populate, FormatForContents, Replayed;
        ghost var u := View();
        callbacks := GenerateCallbacksAndUpdateExports(newVars);
        CallbacksDescribeLoad(u, newVars, callbacks);
        AcquireVariables(newVars);
        lastRead := Some(currentFile);
      }
    }
  }
}
