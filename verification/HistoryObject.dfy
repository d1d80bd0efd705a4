module HistoryObject {
  /**
   The `HistoryImpl` object of src/history.rs (366-440, 531-630, 800-811, 884-926, 1056-1111), its methods proved
   against the functions of HistoryItems.
   */

  import opened Common
  import opened HistoryItems
  import opened HistoryLoops

  class HistoryImpl {
    var newItems: seq<Item>
    var firstUnwrittenNewItemIndex: nat
    var hasPendingItem: bool
    var deletedItems: map<string, bool>
    const boundaryTimestamp: int

    predicate Valid()
      reads this
    {
      firstUnwrittenNewItemIndex <= |newItems|
    }

    function View(): Session
      requires Valid()
      reads this
    {
      Session(newItems[..firstUnwrittenNewItemIndex], newItems[firstUnwrittenNewItemIndex..], deletedItems, boundaryTimestamp)
    }

    constructor (now: int)
      ensures Valid() && View() == NewSession(now) && !hasPendingItem
    {
      newItems, firstUnwrittenNewItemIndex, hasPendingItem, deletedItems, boundaryTimestamp := [], 0, false, map[], now;
    }

    /** add: whether the item was new, so that saving is due. */
    method Add(item: Item, pending: bool) returns (isNew: bool)
      requires Valid()
      modifies this
      ensures Valid() && View() == Added(old(View()), item)
      ensures isNew <==> |newItems| > |old(newItems)|
      ensures hasPendingItem == if item.contents == "" then old(hasPendingItem) else isNew && pending
    {
      if item.contents == "" {
        return false;
      }
      ghost var s := View();
      assert s.Items() == newItems;
      if newItems != [] {
        var last := newItems[|newItems| - 1];
        if Mergeable(last, item) {
          newItems := newItems[|newItems| - 1 := Merged(last, item)];
          hasPendingItem := false;
          return false;
        }
      }
      newItems := newItems + [item];
      hasPendingItem := pending;
      return true;
    }

    method CompactNewItems()
      requires Valid()
      modifies this`newItems, this`firstUnwrittenNewItemIndex
      ensures Valid() && View() == Compacted(old(View()))
    {
      ghost var items, f := newItems, firstUnwrittenNewItemIndex;
      CompactedStart(items, f);
      var seen := {};
      var idx: nat := |newItems|;
      while idx > 0
        invariant CompactedTo(items, f, idx, newItems, firstUnwrittenNewItemIndex, seen)
      {
        idx := idx - 1;
        CompactedNext(items, f, idx, newItems, firstUnwrittenNewItemIndex, seen);
        var item := newItems[idx];
        if item.mode != Disk {
          continue;
        }
        if item.contents in seen {
          newItems := newItems[..idx] + newItems[idx + 1..];
          if idx < firstUnwrittenNewItemIndex {
            firstUnwrittenNewItemIndex := firstUnwrittenNewItemIndex - 1;
          }
        } else {
          seen := seen + {item.contents};
        }
      }
      CompactedEnd(items, f, newItems, firstUnwrittenNewItemIndex, seen);
    }

    method RemoveEphemeralItems()
      requires Valid()
      modifies this`newItems, this`firstUnwrittenNewItemIndex
      ensures Valid() && View() == EphemeralRemoved(old(View()))
    {
      ghost var s := View();
      assert newItems == s.written + s.unwritten;
      while newItems != [] && newItems[|newItems| - 1].mode == Ephemeral
        invariant firstUnwrittenNewItemIndex == old(firstUnwrittenNewItemIndex)
        invariant DropEphemeral(newItems) == DropEphemeral(s.written + s.unwritten)
      {
        newItems := newItems[..|newItems| - 1];
      }
      EphemeralEnd(s, newItems);
      if firstUnwrittenNewItemIndex > |newItems| {
        firstUnwrittenNewItemIndex := |newItems|;
      }
    }

    method Remove(strToRemove: string)
      requires Valid()
      modifies this`newItems, this`firstUnwrittenNewItemIndex, this`deletedItems
      ensures Valid() && View() == Removed(old(View()), strToRemove)
    {
      ghost var items, f := newItems, firstUnwrittenNewItemIndex;
      RemovedStart(items, f, strToRemove);
      deletedItems := deletedItems[strToRemove := false];
      var idx: nat := |newItems|;
      while idx > 0
        invariant deletedItems == old(deletedItems)[strToRemove := false]
        invariant RemovedTo(items, f, strToRemove, idx, newItems, firstUnwrittenNewItemIndex)
      {
        idx := idx - 1;
        RemovedNext(items, f, strToRemove, idx, newItems, firstUnwrittenNewItemIndex);
        if newItems[idx].contents == strToRemove {
          newItems := newItems[..idx] + newItems[idx + 1..];
          if idx < firstUnwrittenNewItemIndex {
            firstUnwrittenNewItemIndex := firstUnwrittenNewItemIndex - 1;
          }
        }
      }
      RemovedEnd(items, f, strToRemove, newItems, firstUnwrittenNewItemIndex);
    }

    method ClearSession()
      requires Valid()
      modifies this
      ensures Valid() && View() == SessionCleared(old(View()))
    {
      ghost var s := View();
      assert s.Items() == newItems;
      assert AllTexts(newItems[..0]) == {} && OnlyHere({}) == map[];
      for i := 0 to |newItems|
        invariant newItems == old(newItems)
        invariant deletedItems == old(deletedItems) + OnlyHere(AllTexts(newItems[..i]))
      {
        hide AllTexts, OnlyHere;
        assert newItems[..i + 1] == newItems[..i] + [newItems[i]];
        PutAtEnd(newItems[..i], newItems[i], "");
        OneMoreHere(old(deletedItems), AllTexts(newItems[..i]), newItems[i].contents);
        deletedItems := deletedItems[newItems[i].contents := true];
      }
      assert newItems[..|newItems|] == newItems;
      newItems := [];
      firstUnwrittenNewItemIndex := 0;
    }

    /** The write loop of save_internal_via_appending. `full` says after which items the buffer is written
        out, `fails` which of these writes fail, `lastFails` whether the last one does; a write that fails
        has written `done` items, but not all. What was advanced past is what was written plus what was lost. */
    method AppendNewItems(full: nat -> bool, fails: nat -> bool, lastFails: bool, done: nat)
      returns (file: seq<Item>, ok: bool, ghost lost: seq<Item>)
      requires Valid()
      modifies this`firstUnwrittenNewItemIndex
      ensures Valid() && newItems == old(newItems) && firstUnwrittenNewItemIndex >= old(firstUnwrittenNewItemIndex)
      ensures file + lost == ForDisk(newItems[old(firstUnwrittenNewItemIndex)..firstUnwrittenNewItemIndex])
      ensures ok ==> firstUnwrittenNewItemIndex == |newItems| && lost == []
    {
      var first := firstUnwrittenNewItemIndex;
      var buffer := [];
      file, ok, lost := [], true, [];
      assert newItems[first..first] == [];
      while firstUnwrittenNewItemIndex < |newItems|
        invariant first <= firstUnwrittenNewItemIndex <= |newItems|
        invariant file + buffer == ForDisk(newItems[first..firstUnwrittenNewItemIndex])
      {
        var i := firstUnwrittenNewItemIndex;
        var item := newItems[i];
        ForDiskOneMore(newItems, first, i);
        if item.mode == Disk {
          lost := buffer;
          buffer := buffer + [Stored(item)];
          assert file + buffer == file + lost + [Stored(item)];
          if full(i) {
            if fails(i) {
              var n := if done < |buffer| then done else |buffer| - 1;
              assert buffer[..n] == lost[..n] && file + lost[..n] + lost[n..] == file + lost;
              file, ok, lost := file + buffer[..n], false, lost[n..];
              return;
            }
            file := file + buffer;
            buffer := [];
          }
        }
        firstUnwrittenNewItemIndex := i + 1;
      }
      lost := [];
      if buffer != [] {
        if lastFails {
          var n := if done < |buffer| then done else |buffer| - 1;
          assert file + buffer[..n] + buffer[n..] == file + buffer;
          file, ok, lost := file + buffer[..n], false, buffer[n..];
        } else {
          file := file + buffer;
        }
      }
    }

    /** rewrite_to_temporary_file */
    method RewriteToTemporaryFile(existing: seq<Item>) returns (file: seq<Item>)
      requires Valid()
      ensures file == Rewritten(View(), existing)
    {
      ghost var s := View();
      AddAllConcat([], Surviving(s, existing), ForDisk(s.unwritten));
      var lru := AddOldItems(existing);
      for i := firstUnwrittenNewItemIndex to |newItems|
        invariant AddAll([], RewriteInput(s, existing)) == AddAll(lru, ForDisk(newItems[i..]))
      {
        assert newItems[i..][1..] == newItems[i + 1..];
        assert newItems[i].mode != Disk ==> ForDisk(newItems[i..]) == ForDisk(newItems[i + 1..]);
        if newItems[i].mode == Disk {
          AddFirst(lru, Stored(newItems[i]), ForDisk(newItems[i + 1..]));
          lru := AddItem(lru, Stored(newItems[i]));
        }
      }
      file := SortByTime(lru);
    }

    /** Its loop over the old file. */
    method AddOldItems(existing: seq<Item>) returns (lru: seq<Item>)
      requires Valid()
      ensures lru == AddAll([], Surviving(View(), existing))
    {
      lru := [];
      ghost var s := View();
      for i := 0 to |existing|
        invariant AddAll([], Surviving(s, existing)) == AddAll(lru, Surviving(s, existing[i..]))
      {
        assert existing[i..][1..] == existing[i + 1..];
        var oldItem := existing[i];
        AddFirst(lru, oldItem, Surviving(s, existing[i + 1..]));
        // If the old item is newer than the session, always erase it if deleted.
        if oldItem.timestamp > boundaryTimestamp {
          if oldItem.contents == "" || oldItem.contents in deletedItems {
            continue;
          }
          lru := AddItem(lru, oldItem);
        } else {
          if oldItem.contents == "" || (oldItem.contents in deletedItems && !deletedItems[oldItem.contents]) {
            continue;
          }
          lru := AddItem(lru, oldItem);
        }
      }
    }

    /** The end of save_internal_via_rewrite. */
    method MarkRewritten()
      requires Valid()
      modifies this`firstUnwrittenNewItemIndex, this`deletedItems
      ensures Valid() && View() == Flushed(old(View()))
    {
      ghost var s := View();
      assert s.Items() == newItems;
      firstUnwrittenNewItemIndex := |newItems|;
      deletedItems := map[];
    }
  }
}
