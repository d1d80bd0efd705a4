module HistoryItems {
  /**
   The in-memory half of command history: the new items of `HistoryImpl`, the index of the first one
   not yet written, and the items a rewrite puts in the file (src/history.rs:186-205, 246-440, 531-630,
   884-926, 1056-1110).

   A `Session` splits the new items at that index, so "written" and "unwritten" are two lists, and what each
   operation does to the index is what it does to the two lists. The object itself is in HistoryObject. The file holds a list of items; its
   bytes (src/history/file.rs) are not part of this model.
   */

  import opened Common

  datatype PersistenceMode = Disk | Memory | Ephemeral

  datatype Item = Item(
    contents: string,
    timestamp: int,
    requiredPaths: seq<string>,
    identifier: nat,
    mode: PersistenceMode)

  /** `deleted` maps a text to whether it is only deleted in this session. */
  datatype Session = Session(
    written: seq<Item>,
    unwritten: seq<Item>,
    deleted: map<string, bool>,
    boundary: int)
  {
    function Items(): seq<Item> {
      written + unwritten
    }
  }

  function NewSession(boundary: int): Session {
    Session([], [], map[], boundary)
  }

  function Max(a: int, b: int): (m: int)
    ensures m >= a && m >= b && (m == a || m == b)
  {
    if a < b then b else a
  }

  predicate Mergeable(a: Item, b: Item) {
    a.contents == b.contents && a.mode == b.mode
  }

  function Merged(a: Item, b: Item): Item {
    a.(timestamp := Max(a.timestamp, b.timestamp),
    requiredPaths := if |a.requiredPaths| < |b.requiredPaths| then b.requiredPaths else a.requiredPaths,
    identifier := if a.identifier < b.identifier then b.identifier else a.identifier)
  }

  function MergedIntoLast(items: seq<Item>, item: Item): seq<Item>
    requires items != []
  {
    items[|items| - 1 := Merged(items[|items| - 1], item)]
  }

  /** add */
  function Added(s: Session, item: Item): Session {
    if item.contents == "" then s
    else if s.Items() != [] && Mergeable(s.Items()[|s.Items()| - 1], item) then
      if s.unwritten != [] then s.(unwritten := MergedIntoLast(s.unwritten, item))
      else s.(written := MergedIntoLast(s.written, item))
    else s.(unwritten := s.unwritten + [item])
  }

  // ---------------------------------------------------------------- compaction

  function DiskTexts(items: seq<Item>): set<string> {
    set i | 0 <= i < |items| && items[i].mode == Disk :: items[i].contents
  }

  /** A copy that goes to disk follows, in the same list or among `later` texts. */
  predicate Superseded(item: Item, rest: seq<Item>, later: set<string>) {
    item.mode == Disk && (item.contents in DiskTexts(rest) || item.contents in later)
  }

  /** The list without superseded items. */
  function Compact(items: seq<Item>, later: set<string>): seq<Item> {
    if items == [] then []
    else if Superseded(items[0], items[1..], later) then Compact(items[1..], later)
    else [items[0]] + Compact(items[1..], later)
  }

  /** compact_new_items */
  function Compacted(s: Session): Session {
    s.(written := Compact(s.written, DiskTexts(s.unwritten)), unwritten := Compact(s.unwritten, {}))
  }

  lemma DiskTextsConcat(a: seq<Item>, b: seq<Item>)
    ensures DiskTexts(a + b) == DiskTexts(a) + DiskTexts(b)
  {
    forall t ensures t in DiskTexts(a + b) <==> t in DiskTexts(a) || t in DiskTexts(b) {
      if t in DiskTexts(a) {
        var i :| 0 <= i < |a| && a[i].mode == Disk && a[i].contents == t;
        assert (a + b)[i] == a[i];
      }
      if t in DiskTexts(b) {
        var i :| 0 <= i < |b| && b[i].mode == Disk && b[i].contents == t;
        assert (a + b)[|a| + i] == b[i];
      }
    }
  }

  /** Compacting the two parts is compacting the whole: items keep their order, and the frontier its place. */
  lemma {:induction false} CompactConcat(a: seq<Item>, b: seq<Item>, later: set<string>)
    ensures Compact(a + b, later) == Compact(a, DiskTexts(b) + later) + Compact(b, later)
  {
    if a == [] {
      assert a + b == b;
    } else {
      assert (a + b)[1..] == a[1..] + b;
      DiskTextsConcat(a[1..], b);
      CompactConcat(a[1..], b, later);
    }
  }

  /** Compaction loses no text that should go to disk. */
  lemma {:induction false} CompactDiskTexts(items: seq<Item>, later: set<string>)
    ensures DiskTexts(Compact(items, later)) + later == DiskTexts(items) + later
  {
    if items != [] {
      CompactDiskTexts(items[1..], later);
      assert items == [items[0]] + items[1..];
      DiskTextsConcat([items[0]], items[1..]);
      DiskTextsConcat([items[0]], Compact(items[1..], later));
      if Superseded(items[0], items[1..], later) {
        assert DiskTexts([items[0]]) <= DiskTexts(items[1..]) + later;
      }
    }
  }

  predicate UniqueDiskTexts(items: seq<Item>) {
    forall i, j :: 0 <= i < j < |items| && items[i].mode == items[j].mode == Disk ==> items[i].contents != items[j].contents
  }

  lemma {:induction false} CompactUnique(items: seq<Item>, later: set<string>)
    ensures UniqueDiskTexts(Compact(items, later))
    ensures DiskTexts(Compact(items, later)) !! later
  {
    if items != [] {
      CompactUnique(items[1..], later);
      CompactDiskTexts(items[1..], later);
      var kept := Compact(items[1..], later);
      DiskTextsConcat([items[0]], kept);
      if !Superseded(items[0], items[1..], later) && items[0].mode == Disk {
        forall j | 0 <= j < |kept| && kept[j].mode == Disk ensures kept[j].contents != items[0].contents {
          assert kept[j].contents in DiskTexts(kept);
        }
      }
    }
  }

  /** What is kept: the items that never go to disk, and the newest copy of each that does. */
  function NotForDisk(items: seq<Item>): seq<Item> {
    if items == [] then [] else (if items[0].mode != Disk then [items[0]] else []) + NotForDisk(items[1..])
  }

  function Newest(items: seq<Item>, text: string): Option<Item> {
    if items == [] then None
    else if Newest(items[1..], text).Some? then Newest(items[1..], text)
    else if items[0].mode == Disk && items[0].contents == text then Some(items[0]) else None
  }

  lemma {:induction false} NewestIfAny(items: seq<Item>, text: string)
    ensures Newest(items, text).Some? <==> text in DiskTexts(items)
  {
    if items != [] {
      NewestIfAny(items[1..], text);
      assert items == [items[0]] + items[1..];
      DiskTextsConcat([items[0]], items[1..]);
    }
  }

  lemma {:induction false} CompactKeeps(items: seq<Item>, later: set<string>, text: string)
    ensures NotForDisk(Compact(items, later)) == NotForDisk(items)
    ensures text !in later ==> Newest(Compact(items, later), text) == Newest(items, text)
  {
    if items != [] {
      CompactKeeps(items[1..], later, text);
      NewestIfAny(items[1..], text);
    }
  }

  // ---------------------------------------------------------------- removal

  function Without(items: seq<Item>, text: string): seq<Item> {
    if items == [] then []
    else if items[0].contents == text then Without(items[1..], text)
    else [items[0]] + Without(items[1..], text)
  }

  lemma {:induction false} WithoutConcat(a: seq<Item>, b: seq<Item>, text: string)
    ensures Without(a + b, text) == Without(a, text) + Without(b, text)
  {
    if a == [] {
      assert a + b == b;
    } else {
      assert (a + b)[1..] == a[1..] + b;
      WithoutConcat(a[1..], b, text);
    }
  }

  lemma {:induction false} WithoutDiskTexts(items: seq<Item>, text: string)
    ensures DiskTexts(Without(items, text)) == DiskTexts(items) - {text}
  {
    if items != [] {
      WithoutDiskTexts(items[1..], text);
      assert items == [items[0]] + items[1..];
      DiskTextsConcat([items[0]], items[1..]);
      DiskTextsConcat([items[0]], Without(items[1..], text));
    }
  }

  /** remove */
  function Removed(s: Session, text: string): Session {
    s.(deleted := s.deleted[text := false], written := Without(s.written, text), unwritten := Without(s.unwritten, text))
  }

  function DropEphemeral(items: seq<Item>): seq<Item> {
    if items != [] && items[|items| - 1].mode == Ephemeral then DropEphemeral(items[..|items| - 1]) else items
  }

  /** remove_ephemeral_items */
  function EphemeralRemoved(s: Session): Session {
    var unwritten := DropEphemeral(s.unwritten);
    s.(unwritten := unwritten, written := if unwritten == [] then DropEphemeral(s.written) else s.written)
  }

  lemma {:induction false} DropEphemeralDiskTexts(items: seq<Item>)
    ensures DiskTexts(DropEphemeral(items)) == DiskTexts(items)
  {
    if items != [] && items[|items| - 1].mode == Ephemeral {
      var n := |items| - 1;
      DropEphemeralDiskTexts(items[..n]);
      assert items == items[..n] + [items[n]];
      DiskTextsConcat(items[..n], [items[n]]);
    }
  }

  lemma {:induction false} DropEphemeralConcat(a: seq<Item>, b: seq<Item>)
    ensures DropEphemeral(a + b) == if DropEphemeral(b) == [] then DropEphemeral(a) else a + DropEphemeral(b)
    decreases |b|
  {
    if b == [] {
      assert a + b == a;
    } else {
      var n := |b| - 1;
      assert (a + b)[..|a + b| - 1] == a + b[..n];
      if b[n].mode == Ephemeral {
        DropEphemeralConcat(a, b[..n]);
      }
    }
  }

  lemma {:induction false} DropEphemeralPrefix(items: seq<Item>)
    ensures DropEphemeral(items) <= items
  {
    if items != [] && items[|items| - 1].mode == Ephemeral {
      DropEphemeralPrefix(items[..|items| - 1]);
    }
  }

  function OnlyHere(texts: set<string>): map<string, bool> {
    map t | t in texts :: true
  }

  /** clear_session */
  function SessionCleared(s: Session): Session {
    s.(deleted := s.deleted + OnlyHere(AllTexts(s.Items())), written := [], unwritten := [])
  }

  function AllTexts(items: seq<Item>): set<string> {
    set i | 0 <= i < |items| :: items[i].contents
  }

  // ---------------------------------------------------------------- appending

  /** An item as it is read back from the file. */
  function Stored(item: Item): Item {
    item.(identifier := 0, mode := Disk)
  }

  /** The items of a list that go to the file, in order. */
  function ForDisk(items: seq<Item>): seq<Item> {
    if items == [] then []
    else (if items[0].mode == Disk then [Stored(items[0])] else []) + ForDisk(items[1..])
  }

  lemma ForDiskCons(item: Item, rest: seq<Item>)
    ensures ForDisk([item] + rest) == (if item.mode == Disk then [Stored(item)] else []) + ForDisk(rest)
  {
    assert ([item] + rest)[1..] == rest;
  }

  lemma ForDiskNothing(b: seq<Item>)
    ensures [] + b == b && ForDisk([]) == [] && [] + ForDisk(b) == ForDisk(b)
  {
  }

  lemma {:induction false} ForDiskConcat(a: seq<Item>, b: seq<Item>)
    ensures ForDisk(a + b) == ForDisk(a) + ForDisk(b)
  {
    hide ForDisk, Stored;
    if a == [] {
      ForDiskNothing(b);
    } else {
      var first, rest := a[0], a[1..];
      ForDiskConcat(rest, b);
      ForDiskCons(first, rest);
      ForDiskCons(first, rest + b);
      assert [first] + rest == a && [first] + (rest + b) == a + b;
    }
  }

  lemma {:induction false} ForDiskTexts(items: seq<Item>)
    ensures AllTexts(ForDisk(items)) == DiskTexts(items)
  {
    if items != [] {
      ForDiskTexts(items[1..]);
      assert items == [items[0]] + items[1..];
      DiskTextsConcat([items[0]], items[1..]);
      var first := if items[0].mode == Disk then [Stored(items[0])] else [];
      AllTextsConcat(first, ForDisk(items[1..]));
      assert AllTexts(first) == DiskTexts([items[0]]) by {
        if items[0].mode == Disk {
          assert AllTexts(first) == {items[0].contents};
        }
      }
    }
  }

  lemma AllTextsConcat(a: seq<Item>, b: seq<Item>)
    ensures AllTexts(a + b) == AllTexts(a) + AllTexts(b)
  {
    forall t ensures t in AllTexts(a + b) <==> t in AllTexts(a) || t in AllTexts(b) {
      if t in AllTexts(a) {
        var i :| 0 <= i < |a| && a[i].contents == t;
        assert (a + b)[i] == a[i];
      }
      if t in AllTexts(b) {
        var i :| 0 <= i < |b| && b[i].contents == t;
        assert (a + b)[|a| + i] == b[i];
      }
    }
  }

  /** The first unwritten item has been written or skipped. */
  function Advanced(s: Session): Session
    requires s.unwritten != []
  {
    s.(written := s.written + [s.unwritten[0]], unwritten := s.unwritten[1..])
  }

  // ---------------------------------------------------------------- rewriting

  const HISTORY_SAVE_MAX: nat := 1024 * 256

  function IndexOfText(items: seq<Item>, text: string): (n: nat)
    ensures n <= |items| && (n < |items| ==> items[n].contents == text)
    ensures forall i :: 0 <= i < n ==> items[i].contents != text
  {
    if items == [] || items[0].contents == text then 0 else 1 + IndexOfText(items[1..], text)
  }

  /** LruCacheExt::add_item. The cache is the list of its items, the least recently used first. */
  function AddItem(lru: seq<Item>, item: Item): seq<Item> {
    if item.contents == "" then lru
    else
      var n := IndexOfText(lru, item.contents);
      if n < |lru| then lru[..n] + lru[n + 1..] + [lru[n].(timestamp := Max(lru[n].timestamp, item.timestamp))]
      else if |lru| >= HISTORY_SAVE_MAX then lru[1..] + [item]
      else lru + [item]
  }

  /** A rewrite leaves out an item of the file: deleted, and not only in this session unless it is newer. */
  predicate Dropped(s: Session, item: Item) {
    || item.contents == ""
    || (if item.timestamp > s.boundary then item.contents in s.deleted
        else item.contents in s.deleted && !s.deleted[item.contents])
  }

  function Surviving(s: Session, existing: seq<Item>): seq<Item> {
    if existing == [] then []
    else if Dropped(s, existing[0]) then Surviving(s, existing[1..])
    else [existing[0]] + Surviving(s, existing[1..])
  }

  function AddAll(lru: seq<Item>, items: seq<Item>): seq<Item>
    decreases |items|
  {
    if items == [] then lru else AddAll(AddItem(lru, items[0]), items[1..])
  }

  function InsertByTime(sorted: seq<Item>, item: Item): seq<Item> {
    if sorted != [] && sorted[|sorted| - 1].timestamp > item.timestamp then
      InsertByTime(sorted[..|sorted| - 1], item) + [sorted[|sorted| - 1]]
    else sorted + [item]
  }

  /** sort_by_key: a stable sort. */
  function SortByTime(items: seq<Item>): seq<Item> {
    if items == [] then [] else InsertByTime(SortByTime(items[..|items| - 1]), items[|items| - 1])
  }

  /** The items that go through the cache, in order. */
  function RewriteInput(s: Session, existing: seq<Item>): seq<Item> {
    Surviving(s, existing) + ForDisk(s.unwritten)
  }

  /** rewrite_to_temporary_file: the new contents of a file that holds `existing`. */
  function Rewritten(s: Session, existing: seq<Item>): seq<Item> {
    SortByTime(AddAll([], RewriteInput(s, existing)))
  }

  /** After a successful rewrite everything is written and nothing is left to delete. */
  function Flushed(s: Session): Session {
    s.(written := s.Items(), unwritten := [], deleted := map[])
  }

  predicate UniqueTexts(items: seq<Item>) {
    forall i, j :: 0 <= i < j < |items| ==> items[i].contents != items[j].contents
  }

  lemma AddItemUnique(lru: seq<Item>, item: Item)
    requires UniqueTexts(lru)
    ensures UniqueTexts(AddItem(lru, item))
    ensures |lru| <= HISTORY_SAVE_MAX ==> |AddItem(lru, item)| <= HISTORY_SAVE_MAX
  {
    var n := IndexOfText(lru, item.contents);
    if n < |lru| {
      var rest := lru[..n] + lru[n + 1..];
      forall i | 0 <= i < |rest| ensures rest[i] == lru[if i < n then i else i + 1] {
      }
      assert UniqueTexts(rest);
      hide IndexOfText;
      UniqueAtEnd(rest, lru[n].(timestamp := Max(lru[n].timestamp, item.timestamp)));
    } else {
      UniqueAtEnd(lru, item);
      if |lru| >= HISTORY_SAVE_MAX {
        UniqueAtEnd(lru[1..], item);
      }
    }
  }

  lemma UniqueAtEnd(rest: seq<Item>, item: Item)
    requires UniqueTexts(rest) && forall i :: 0 <= i < |rest| ==> rest[i].contents != item.contents
    ensures UniqueTexts(rest + [item])
  {
  }

  /** The latest time of an item with this text. */
  function LatestTime(items: seq<Item>, text: string): Option<int> {
    if items == [] then None
    else
      var rest := LatestTime(items[1..], text);
      if items[0].contents != text then rest
      else if rest.Some? then Some(Max(items[0].timestamp, rest.value))
      else Some(items[0].timestamp)
  }

  function Later(a: Option<int>, b: Option<int>): Option<int> {
    if a.None? then b else if b.None? then a else Some(Max(a.value, b.value))
  }

  lemma {:induction false} LatestTimeConcat(a: seq<Item>, b: seq<Item>, text: string)
    ensures LatestTime(a + b, text) == Later(LatestTime(a, text), LatestTime(b, text))
  {
    if a == [] {
      assert a + b == b;
    } else {
      assert (a + b)[1..] == a[1..] + b;
      LatestTimeConcat(a[1..], b, text);
    }
  }

  lemma {:induction false} LatestTimeIfAny(items: seq<Item>, text: string)
    ensures LatestTime(items, text).Some? <==> text in AllTexts(items)
  {
    if items != [] {
      LatestTimeIfAny(items[1..], text);
      assert items == [items[0]] + items[1..];
      AllTextsConcat([items[0]], items[1..]);
      assert AllTexts([items[0]]) == {items[0].contents};
    }
  }

  lemma {:induction false} UniqueLatest(items: seq<Item>, k: nat)
    requires UniqueTexts(items) && k < |items|
    ensures LatestTime(items, items[k].contents) == Some(items[k].timestamp)
  {
    LatestTimeIfAny(items[1..], items[k].contents);
    if k > 0 {
      UniqueLatest(items[1..], k - 1);
    }
  }

  lemma OneText(item: Item)
    ensures AllTexts([item]) == {item.contents}
  {
    assert [item][0] == item;
    assert item.contents in AllTexts([item]);
  }

  lemma PulledOut(lru: seq<Item>, n: nat, text: string)
    requires n < |lru|
    ensures AllTexts(lru) == AllTexts(lru[..n] + lru[n + 1..]) + {lru[n].contents}
    ensures LatestTime(lru, text) == Later(LatestTime(lru[..n] + lru[n + 1..], text), LatestTime([lru[n]], text))
  {
    assert lru == lru[..n] + ([lru[n]] + lru[n + 1..]);
    OneText(lru[n]);
    AllTextsConcat(lru[..n], [lru[n]] + lru[n + 1..]);
    AllTextsConcat([lru[n]], lru[n + 1..]);
    AllTextsConcat(lru[..n], lru[n + 1..]);
    LatestTimeConcat(lru[..n], [lru[n]] + lru[n + 1..], text);
    LatestTimeConcat([lru[n]], lru[n + 1..], text);
    LatestTimeConcat(lru[..n], lru[n + 1..], text);
  }

  lemma PutAtEnd(rest: seq<Item>, item: Item, text: string)
    ensures AllTexts(rest + [item]) == AllTexts(rest) + {item.contents}
    ensures LatestTime(rest + [item], text) == Later(LatestTime(rest, text), LatestTime([item], text))
  {
    OneText(item);
    AllTextsConcat(rest, [item]);
    LatestTimeConcat(rest, [item], text);
  }

  predicate NoEmpty(items: seq<Item>) {
    forall i :: 0 <= i < |items| ==> items[i].contents != ""
  }

  lemma {:induction false} UniqueCount(items: seq<Item>)
    requires UniqueTexts(items)
    ensures |AllTexts(items)| == |items|
  {
    if items == [] {
      assert AllTexts(items) == {};
    } else {
      UniqueCount(items[1..]);
      assert items == [items[0]] + items[1..];
      AllTextsConcat([items[0]], items[1..]);
      assert AllTexts([items[0]]) == {items[0].contents};
    }
  }

  lemma SubsetCount(a: set<string>, b: set<string>)
    requires a <= b
    ensures |a| <= |b|
    ensures a != b ==> |a| < |b|
  {
    assert b == a + (b - a);
    if a != b {
      var x :| x in b - a;
      assert |b - a| > 0;
    }
  }

  /** Below its capacity the cache forgets nothing: each text once, with the latest time. */
  lemma {:induction false} AddAllKeeps(lru: seq<Item>, items: seq<Item>, text: string)
    requires UniqueTexts(lru) && NoEmpty(items)
    requires |AllTexts(lru) + AllTexts(items)| <= HISTORY_SAVE_MAX
    ensures UniqueTexts(AddAll(lru, items))
    ensures AllTexts(AddAll(lru, items)) == AllTexts(lru) + AllTexts(items)
    ensures LatestTime(AddAll(lru, items), text) == Later(LatestTime(lru, text), LatestTime(items, text))
    decreases |items|
  {
    if items == [] {
      NothingAdded(lru, text);
    } else {
      hide AllTexts, LatestTime, Later, AddItem, UniqueTexts;
      AddStep(lru, items, text);
      AddAllKeeps(AddItem(lru, items[0]), items[1..], text);
    }
  }

  lemma NothingAdded(lru: seq<Item>, text: string)
    ensures AllTexts(lru) + AllTexts([]) == AllTexts(lru) && Later(LatestTime(lru, text), LatestTime([], text)) == LatestTime(lru, text)
  {
    assert AllTexts([]) == {};
  }

  lemma AddStep(lru: seq<Item>, items: seq<Item>, text: string)
    requires UniqueTexts(lru) && NoEmpty(items) && items != []
    requires |AllTexts(lru) + AllTexts(items)| <= HISTORY_SAVE_MAX
    ensures var lru' := AddItem(lru, items[0]);
            && UniqueTexts(lru')
            && AllTexts(lru') + AllTexts(items[1..]) == AllTexts(lru) + AllTexts(items)
            && Later(LatestTime(lru', text), LatestTime(items[1..], text)) == Later(LatestTime(lru, text), LatestTime(items, text))
  {
    hide LatestTime, AddItem, AllTexts;
    AddItemUnique(lru, items[0]);
    assert items == [items[0]] + items[1..];
    AllTextsConcat([items[0]], items[1..]);
    LatestTimeConcat([items[0]], items[1..], text);
    OneText(items[0]);
    AddItemBelow(lru, items[0], AllTexts(lru) + AllTexts(items), text);
  }

  lemma AddItemBelow(lru: seq<Item>, item: Item, all: set<string>, text: string)
    requires UniqueTexts(lru) && item.contents != "" && item.contents in all && AllTexts(lru) <= all
    requires |all| <= HISTORY_SAVE_MAX
    ensures AllTexts(AddItem(lru, item)) == AllTexts(lru) + {item.contents}
    ensures LatestTime(AddItem(lru, item), text) == Later(LatestTime(lru, text), LatestTime([item], text))
  {
    var n := IndexOfText(lru, item.contents);
    if n < |lru| {
      AddItemHit(lru, item, n, text);
    } else {
      UniqueCount(lru);
      SubsetCount(AllTexts(lru) + {item.contents}, all);
      assert item.contents !in AllTexts(lru);
      hide LatestTime, AllTexts;
      PutAtEnd(lru, item, text);
    }
  }

  lemma {:induction false} AddItemHit(lru: seq<Item>, item: Item, n: nat, text: string)
    requires n == IndexOfText(lru, item.contents) < |lru| && item.contents != ""
    ensures AllTexts(AddItem(lru, item)) == AllTexts(lru) + {item.contents}
    ensures LatestTime(AddItem(lru, item), text) == Later(LatestTime(lru, text), LatestTime([item], text))
  {
    var updated := lru[n].(timestamp := Max(lru[n].timestamp, item.timestamp));
    OneLatest(lru[n], text);
    OneLatest(item, text);
    OneLatest(updated, text);
    var rest := lru[..n] + lru[n + 1..];
    assert AddItem(lru, item) == rest + [updated];
    hide LatestTime, AllTexts, AddItem, Later;
    PulledOut(lru, n, text);
    PutAtEnd(rest, updated, text);
    if item.contents == text {
      LaterMerge(LatestTime(rest, text), lru[n].timestamp, item.timestamp);
    } else {
      LaterNone(LatestTime(rest, text));
    }
  }

  lemma LaterMerge(r: Option<int>, a: int, b: int)
    ensures Later(Later(r, Some(a)), Some(b)) == Later(r, Some(Max(a, b)))
  {
  }

  lemma LaterNone(r: Option<int>)
    ensures Later(Later(r, None), None) == Later(r, None) == r
  {
  }

  lemma OneLatest(item: Item, text: string)
    ensures LatestTime([item], text) == if item.contents == text then Some(item.timestamp) else None
  {
    assert [item][1..] == [];
  }

  // ---------------------------------------------------------------- the sort

  predicate Sorted(items: seq<Item>) {
    forall i, j :: 0 <= i < j < |items| ==> items[i].timestamp <= items[j].timestamp
  }

  function AtTime(items: seq<Item>, timestamp: int): seq<Item> {
    if items == [] then []
    else AtTime(items[..|items| - 1], timestamp)
         + if items[|items| - 1].timestamp == timestamp then [items[|items| - 1]] else []
  }

  lemma {:induction false} InsertSorted(sorted: seq<Item>, item: Item)
    requires Sorted(sorted)
    ensures Sorted(InsertByTime(sorted, item))
    ensures multiset(InsertByTime(sorted, item)) == multiset(sorted) + multiset{item}
  {
    if sorted != [] && sorted[|sorted| - 1].timestamp > item.timestamp {
      var front, last := sorted[..|sorted| - 1], sorted[|sorted| - 1];
      InsertSorted(front, item);
      assert sorted == front + [last];
      assert InsertByTime(sorted, item) == InsertByTime(front, item) + [last];
      hide InsertByTime;
      SortedSnoc(InsertByTime(front, item), front, item, last);
    }
  }

  lemma SortedSnoc(inserted: seq<Item>, front: seq<Item>, item: Item, last: Item)
    requires Sorted(inserted) && multiset(inserted) == multiset(front) + multiset{item}
    requires Sorted(front + [last]) && item.timestamp <= last.timestamp
    ensures Sorted(inserted + [last])
  {
    forall i | 0 <= i < |inserted| ensures inserted[i].timestamp <= last.timestamp {
      assert inserted[i] in multiset(inserted);
      if inserted[i] != item {
        assert inserted[i] in front;
        var j :| 0 <= j < |front| && front[j] == inserted[i];
        assert (front + [last])[j] == front[j] && (front + [last])[|front|] == last;
      }
    }
  }

  lemma {:induction false} InsertStable(sorted: seq<Item>, item: Item, timestamp: int)
    requires Sorted(sorted)
    ensures AtTime(InsertByTime(sorted, item), timestamp)
            == AtTime(sorted, timestamp) + if item.timestamp == timestamp then [item] else []
  {
    if sorted != [] && sorted[|sorted| - 1].timestamp > item.timestamp {
      var front, last := sorted[..|sorted| - 1], sorted[|sorted| - 1];
      InsertStable(front, item, timestamp);
      assert sorted == front + [last];
      assert InsertByTime(sorted, item) == InsertByTime(front, item) + [last];
      hide InsertByTime, Sorted;
      AtTimeSnoc(InsertByTime(front, item), last, timestamp);
      AtTimeSnoc(front, last, timestamp);
    } else {
      AtTimeSnoc(sorted, item, timestamp);
    }
  }

  lemma AtTimeSnoc(items: seq<Item>, last: Item, timestamp: int)
    ensures AtTime(items + [last], timestamp) == AtTime(items, timestamp) + if last.timestamp == timestamp then [last] else []
  {
    assert (items + [last])[..|items|] == items;
  }

  /** The sort is a sort. */
  lemma {:induction false} SortByTimeSorts(items: seq<Item>)
    ensures Sorted(SortByTime(items))
    ensures multiset(SortByTime(items)) == multiset(items)
  {
    if items != [] {
      var n := |items| - 1;
      SortByTimeSorts(items[..n]);
      assert items == items[..n] + [items[n]];
      InsertSorted(SortByTime(items[..n]), items[n]);
    }
  }

  /** It is stable: items of one time keep their order. */
  lemma {:induction false} SortByTimeStable(items: seq<Item>, timestamp: int)
    ensures AtTime(SortByTime(items), timestamp) == AtTime(items, timestamp)
  {
    if items != [] {
      var n := |items| - 1;
      SortByTimeSorts(items[..n]);
      SortByTimeStable(items[..n], timestamp);
      InsertStable(SortByTime(items[..n]), items[n], timestamp);
    }
  }

  lemma PermutationTexts(a: seq<Item>, b: seq<Item>)
    requires multiset(a) == multiset(b)
    ensures AllTexts(a) <= AllTexts(b)
  {
    forall t | t in AllTexts(a) ensures t in AllTexts(b) {
      var i :| 0 <= i < |a| && a[i].contents == t;
      assert a[i] in multiset(b);
      assert a[i] in b;
    }
  }

  lemma PermutationUnique(a: seq<Item>, b: seq<Item>)
    requires multiset(a) == multiset(b) && UniqueTexts(a)
    ensures UniqueTexts(b)
  {
    UniqueCount(a);
    PermutationTexts(a, b);
    PermutationTexts(b, a);
    assert AllTexts(a) == AllTexts(b);
    assert |a| == |multiset(a)| == |multiset(b)| == |b|;
    CountUnique(b);
  }

  lemma {:induction false} AtMostOnePerItem(items: seq<Item>)
    ensures |AllTexts(items)| <= |items|
  {
    if items != [] {
      AtMostOnePerItem(items[1..]);
      assert items == [items[0]] + items[1..];
      AllTextsConcat([items[0]], items[1..]);
      OneText(items[0]);
    } else {
      assert AllTexts(items) == {};
    }
  }

  lemma {:induction false} CountUnique(items: seq<Item>)
    requires |AllTexts(items)| == |items|
    ensures UniqueTexts(items)
  {
    if items != [] {
      assert items == [items[0]] + items[1..];
      AllTextsConcat([items[0]], items[1..]);
      OneText(items[0]);
      AtMostOnePerItem(items[1..]);
      CountUnique(items[1..]);
      forall j | 0 < j < |items| ensures items[j].contents != items[0].contents {
        assert items[j] == items[1..][j - 1];
        assert items[j].contents in AllTexts(items[1..]);
      }
    }
  }

  lemma {:induction false} SurvivingNoEmpty(s: Session, existing: seq<Item>)
    ensures NoEmpty(Surviving(s, existing))
  {
    if existing != [] {
      SurvivingNoEmpty(s, existing[1..]);
    }
  }

  lemma {:induction false} ForDiskNoEmpty(items: seq<Item>)
    requires NoEmpty(items)
    ensures NoEmpty(ForDisk(items))
  {
    if items != [] {
      ForDiskNoEmpty(items[1..]);
    }
  }

  /** A rewritten file is sorted, has each text once with the latest of its times, and below the capacity
      it holds every text of the old file that is not to be deleted and every unwritten one. */
  lemma RewriteKeeps(s: Session, existing: seq<Item>, k: nat)
    requires NoEmpty(s.unwritten)
    requires |AllTexts(RewriteInput(s, existing))| <= HISTORY_SAVE_MAX
    ensures Sorted(Rewritten(s, existing)) && UniqueTexts(Rewritten(s, existing))
    ensures AllTexts(Rewritten(s, existing)) == AllTexts(Surviving(s, existing)) + DiskTexts(s.unwritten)
    ensures k < |Rewritten(s, existing)| ==>
              var item := Rewritten(s, existing)[k];
              LatestTime(RewriteInput(s, existing), item.contents) == Some(item.timestamp)
  {
    var input := RewriteInput(s, existing);
    SurvivingNoEmpty(s, existing);
    ForDiskNoEmpty(s.unwritten);
    var cache := AddAll([], input);
    assert AllTexts([]) == {};
    assert {} + AllTexts(input) == AllTexts(input);
    AddAllKeeps([], input, "");
    RewriteSorts(cache);
    AllTextsConcat(Surviving(s, existing), ForDisk(s.unwritten));
    ForDiskTexts(s.unwritten);
    var file := Rewritten(s, existing);
    if k < |file| {
      AddAllKeeps([], input, file[k].contents);
      var i := InCache(cache, file[k]);
      UniqueLatest(cache, i);
    }
  }

  lemma RewriteSorts(cache: seq<Item>)
    requires UniqueTexts(cache)
    ensures var file := SortByTime(cache);
            Sorted(file) && UniqueTexts(file) && AllTexts(file) == AllTexts(cache)
  {
    SortByTimeSorts(cache);
    PermutationUnique(cache, SortByTime(cache));
    PermutationTexts(cache, SortByTime(cache));
    PermutationTexts(SortByTime(cache), cache);
  }

  lemma InCache(cache: seq<Item>, item: Item) returns (i: nat)
    requires item in SortByTime(cache)
    ensures i < |cache| && cache[i] == item
  {
    SortByTimeSorts(cache);
    assert item in multiset(cache);
    i :| i < |cache| && cache[i] == item;
  }

  /** Which texts survive. */
  lemma {:induction false} SurvivingText(s: Session, existing: seq<Item>, text: string)
    ensures text in AllTexts(existing) && text != "" && text !in s.deleted ==> text in AllTexts(Surviving(s, existing))
    ensures text in AllTexts(Surviving(s, existing)) ==> text in AllTexts(existing)
  {
    if existing != [] {
      SurvivingText(s, existing[1..], text);
      assert existing == [existing[0]] + existing[1..];
      AllTextsConcat([existing[0]], existing[1..]);
      OneText(existing[0]);
      AllTextsConcat([existing[0]], Surviving(s, existing[1..]));
    }
  }

  lemma {:induction false} AddAllTexts(lru: seq<Item>, items: seq<Item>)
    ensures AllTexts(AddAll(lru, items)) <= AllTexts(lru) + AllTexts(items)
    decreases |items|
  {
    if items == [] {
      assert AllTexts(lru) <= AllTexts(lru) + AllTexts([]);
    } else {
      AddAllTexts(AddItem(lru, items[0]), items[1..]);
      hide AllTexts, AddItem;
      AddItemTexts(lru, items[0]);
      assert items == [items[0]] + items[1..];
      AllTextsConcat([items[0]], items[1..]);
      OneText(items[0]);
    }
  }

  lemma AddItemTexts(lru: seq<Item>, item: Item)
    ensures AllTexts(AddItem(lru, item)) <= AllTexts(lru) + {item.contents}
  {
    var n := IndexOfText(lru, item.contents);
    if n < |lru| {
      PulledOut(lru, n, "");
      PutAtEnd(lru[..n] + lru[n + 1..], lru[n].(timestamp := Max(lru[n].timestamp, item.timestamp)), "");
    } else if |lru| >= HISTORY_SAVE_MAX {
      PulledOut(lru, 0, "");
      assert lru[..0] + lru[1..] == lru[1..];
      PutAtEnd(lru[1..], item, "");
    } else {
      PutAtEnd(lru, item, "");
    }
  }

  lemma {:induction false} SurvivingSubset(s: Session, existing: seq<Item>)
    ensures AllTexts(Surviving(s, existing)) <= AllTexts(existing)
  {
    forall t | t in AllTexts(Surviving(s, existing)) ensures t in AllTexts(existing) {
      SurvivingText(s, existing, t);
    }
  }

  /** A rewrite makes nothing up. */
  lemma RewrittenTexts(s: Session, existing: seq<Item>)
    ensures AllTexts(Rewritten(s, existing)) <= AllTexts(existing) + DiskTexts(s.unwritten)
  {
    RewrittenFromInput(s, existing);
    SurvivingSubset(s, existing);
  }

  // ---------------------------------------------------------------- what a rewrite deletes

  /** Whether an old item is kept, as the user would have it: a deleted text goes, but the history of earlier sessions
      is spared if only this session was cleared. */
  predicate Spared(s: Session, item: Item) {
    && item.contents != ""
    && (item.contents !in s.deleted || (s.deleted[item.contents] && item.timestamp <= s.boundary))
  }

  lemma {:induction false} OldItemStaysIff(s: Session, existing: seq<Item>, item: Item)
    ensures item in Surviving(s, existing) <==> item in existing && Spared(s, item)
  {
    if existing != [] {
      OldItemStaysIff(s, existing[1..], item);
      assert existing == [existing[0]] + existing[1..];
    }
  }

  /** Which texts a rewritten file has: the unwritten ones, and those of old items that are spared; below the capacity
      all of them. */
  lemma RewrittenHasIff(s: Session, existing: seq<Item>, text: string)
    requires NoEmpty(s.unwritten)
    ensures text in AllTexts(Rewritten(s, existing)) ==>
              text in DiskTexts(s.unwritten) || exists item <- existing :: item.contents == text && Spared(s, item)
    ensures |AllTexts(RewriteInput(s, existing))| <= HISTORY_SAVE_MAX ==>
              (text in AllTexts(Rewritten(s, existing)) <==>
                 text in DiskTexts(s.unwritten) || exists item <- existing :: item.contents == text && Spared(s, item))
  {
    RewrittenFromInput(s, existing);
    SurvivingHasIff(s, existing, text);
    hide Rewritten, AllTexts, DiskTexts, Surviving, RewriteInput, Spared;
    if |AllTexts(RewriteInput(s, existing))| <= HISTORY_SAVE_MAX {
      RewriteKeeps(s, existing, 0);
    }
  }

  lemma RewrittenFromInput(s: Session, existing: seq<Item>)
    ensures AllTexts(Rewritten(s, existing)) <= AllTexts(Surviving(s, existing)) + DiskTexts(s.unwritten)
  {
    var input := RewriteInput(s, existing);
    AddAllTexts([], input);
    assert AllTexts([]) == {};
    SortByTimeSorts(AddAll([], input));
    PermutationTexts(SortByTime(AddAll([], input)), AddAll([], input));
    AllTextsConcat(Surviving(s, existing), ForDisk(s.unwritten));
    ForDiskTexts(s.unwritten);
  }

  lemma SurvivingHasIff(s: Session, existing: seq<Item>, text: string)
    ensures text in AllTexts(Surviving(s, existing)) <==> exists item <- existing :: item.contents == text && Spared(s, item)
  {
    var kept := Surviving(s, existing);
    hide Surviving, Spared;
    if text in AllTexts(kept) {
      var i :| 0 <= i < |kept| && kept[i].contents == text;
      OldItemStaysIff(s, existing, kept[i]);
    }
    if item :| item in existing && item.contents == text && Spared(s, item) {
      OldItemStaysIff(s, existing, item);
      var i :| 0 <= i < |kept| && kept[i] == item;
    }
  }
}
