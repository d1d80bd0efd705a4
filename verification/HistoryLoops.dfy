/**
 What the loops of HistoryObject have done part of the way.

 Compaction and removal go through the new items from the end to the start, take some out in place and move the index of
 the first unwritten item along. So in front of the loop's position nothing has changed, and behind it are the items
 that were kept; where the index points is where the kept written items meet the kept unwritten ones. The loops of a
 save go forward, and what they have dealt with is a prefix of the items, or of the lines of the file.
 */
module HistoryLoops {
  import opened Common
  import opened HistoryItems

  lemma CompactStep(items: seq<Item>, idx: nat, f: nat)
    requires idx < |items| && f <= |items|
    ensures var superseded := items[idx].mode == Disk && items[idx].contents in DiskTexts(items[idx + 1..]);
            && Compact(items[idx..], {})
               == (if superseded then Compact(items[idx + 1..], {}) else [items[idx]] + Compact(items[idx + 1..], {}))
            && (idx < f ==>
                  Compact(items[idx..f], DiskTexts(items[f..]))
                  == (if superseded then Compact(items[idx + 1..f], DiskTexts(items[f..]))
                      else [items[idx]] + Compact(items[idx + 1..f], DiskTexts(items[f..]))))
    ensures DiskTexts(items[idx..]) == DiskTexts(items[idx + 1..]) + if items[idx].mode == Disk then {items[idx].contents} else {}
  {
    assert items[idx..] == [items[idx]] + items[idx + 1..];
    DiskTextsConcat([items[idx]], items[idx + 1..]);
    assert items[idx..][1..] == items[idx + 1..];
    assert [items[idx]][0] == items[idx];
    if idx < f {
      assert items[idx..f][1..] == items[idx + 1..f];
      assert items[idx + 1..] == items[idx + 1..f] + items[f..];
      DiskTextsConcat(items[idx + 1..f], items[f..]);
    }
  }

  lemma WithoutStep(items: seq<Item>, idx: nat, f: nat, text: string)
    requires idx < |items| && f <= |items|
    ensures Without(items[idx..], text)
            == if items[idx].contents == text then Without(items[idx + 1..], text) else [items[idx]] + Without(items[idx + 1..], text)
    ensures idx < f ==>
              Without(items[idx..f], text)
              == if items[idx].contents == text then Without(items[idx + 1..f], text) else [items[idx]] + Without(items[idx + 1..f], text)
  {
    assert items[idx..][1..] == items[idx + 1..];
    if idx < f {
      assert items[idx..f][1..] == items[idx + 1..f];
    }
  }

  lemma {:induction false} CompactedWhole(items: seq<Item>, f: nat)
    requires f <= |items|
    ensures Compact(items, {}) == Compact(items[..f], DiskTexts(items[f..])) + Compact(items[f..], {})
  {
    assert items == items[..f] + items[f..];
    CompactConcat(items[..f], items[f..], {});
    assert DiskTexts(items[f..]) + {} == DiskTexts(items[f..]);
  }

  /** Items still in place in front of the loop's index, and the ones behind it that were kept. */
  lemma DropAt(front: seq<Item>, item: Item, kept: seq<Item>, items: seq<Item>)
    requires items == front + [item] + kept
    ensures |front| < |items| && items[|front|] == item
    ensures items[..|front|] + items[|front| + 1..] == front + kept
    ensures items == front + ([item] + kept)
  {
  }

  /** The loop of compact_new_items has gone back to `idx`. */
  ghost predicate CompactedTo(items: seq<Item>, f: nat, idx: nat, now: seq<Item>, first: nat, seen: set<string>) {
    && idx <= |items| && f <= |items|
    && now == items[..idx] + Compact(items[idx..], {})
    && seen == DiskTexts(items[idx..])
    && first == if idx >= f then f else idx + |Compact(items[idx..f], DiskTexts(items[f..]))|
  }

  lemma CompactedNext(items: seq<Item>, f: nat, idx: nat, now: seq<Item>, first: nat, seen: set<string>)
    requires CompactedTo(items, f, idx + 1, now, first, seen)
    ensures idx < |now| && now[idx] == items[idx]
    ensures now[idx].mode == Disk && now[idx].contents in seen ==>
              && (idx < first ==> first > 0)
              && CompactedTo(items, f, idx, now[..idx] + now[idx + 1..], if idx < first then first - 1 else first, seen)
    ensures now[idx].mode == Disk && now[idx].contents !in seen ==>
              CompactedTo(items, f, idx, now, first, seen + {now[idx].contents})
    ensures now[idx].mode != Disk ==> CompactedTo(items, f, idx, now, first, seen)
  {
    CompactStep(items, idx, f);
    assert items[..idx + 1] == items[..idx] + [items[idx]];
    DropAt(items[..idx], items[idx], Compact(items[idx + 1..], {}), now);
    assert items[f..f] == [];
  }

  lemma CompactedStart(items: seq<Item>, f: nat)
    requires f <= |items|
    ensures CompactedTo(items, f, |items|, items, f, {})
  {
    assert items[|items|..] == [] && DiskTexts([]) == {};
    assert items == items[..|items|] + [];
  }

  lemma CompactedEnd(items: seq<Item>, f: nat, now: seq<Item>, first: nat, seen: set<string>)
    requires CompactedTo(items, f, 0, now, first, seen)
    ensures first <= |now| && now[..first] == Compact(items[..f], DiskTexts(items[f..])) && now[first..] == Compact(items[f..], {})
  {
    assert items[0..f] == items[..f] && items[0..] == items;
    CompactedWhole(items, f);
  }

  /** The loop of remove has gone back to `idx`. */
  ghost predicate RemovedTo(items: seq<Item>, f: nat, text: string, idx: nat, now: seq<Item>, first: nat) {
    && idx <= |items| && f <= |items|
    && now == items[..idx] + Without(items[idx..], text)
    && first == if idx >= f then f else idx + |Without(items[idx..f], text)|
  }

  lemma RemovedNext(items: seq<Item>, f: nat, text: string, idx: nat, now: seq<Item>, first: nat)
    requires RemovedTo(items, f, text, idx + 1, now, first)
    ensures idx < |now| && now[idx] == items[idx]
    ensures now[idx].contents == text ==>
              && (idx < first ==> first > 0)
              && RemovedTo(items, f, text, idx, now[..idx] + now[idx + 1..], if idx < first then first - 1 else first)
    ensures now[idx].contents != text ==> RemovedTo(items, f, text, idx, now, first)
  {
    WithoutStep(items, idx, f, text);
    assert items[..idx + 1] == items[..idx] + [items[idx]];
    DropAt(items[..idx], items[idx], Without(items[idx + 1..], text), now);
    assert items[f..f] == [];
  }

  lemma RemovedStart(items: seq<Item>, f: nat, text: string)
    requires f <= |items|
    ensures RemovedTo(items, f, text, |items|, items, f)
  {
    assert items[|items|..] == [];
    assert items == items[..|items|] + [];
  }

  lemma RemovedEnd(items: seq<Item>, f: nat, text: string, now: seq<Item>, first: nat)
    requires RemovedTo(items, f, text, 0, now, first)
    ensures first <= |now| && now[..first] == Without(items[..f], text) && now[first..] == Without(items[f..], text)
  {
    assert items[0..f] == items[..f] && items[0..] == items == items[..f] + items[f..];
    WithoutConcat(items[..f], items[f..], text);
  }

  lemma EphemeralEnd(s: Session, now: seq<Item>)
    requires now == DropEphemeral(s.written + s.unwritten)
    ensures var first := if |s.written| > |now| then |now| else |s.written|;
            now[..first] == EphemeralRemoved(s).written && now[first..] == EphemeralRemoved(s).unwritten
  {
    DropEphemeralConcat(s.written, s.unwritten);
    DropEphemeralPrefix(s.written);
    if DropEphemeral(s.unwritten) == [] {
      assert |now| <= |s.written|;
    }
  }

  lemma OneMoreHere(deleted: map<string, bool>, texts: set<string>, text: string)
    ensures (deleted + OnlyHere(texts))[text := true] == deleted + OnlyHere(texts + {text})
  {
  }

  lemma ForDiskOneMore(items: seq<Item>, first: nat, i: nat)
    requires first <= i < |items|
    ensures ForDisk(items[first..i + 1]) == ForDisk(items[first..i]) + if items[i].mode == Disk then [Stored(items[i])] else []
  {
    assert items[first..i + 1] == items[first..i] + [items[i]];
    ForDiskConcat(items[first..i], [items[i]]);
    assert ForDisk([items[i]][1..]) == [];
  }

  lemma AddFirst(lru: seq<Item>, item: Item, rest: seq<Item>)
    ensures AddAll(lru, [item] + rest) == AddAll(AddItem(lru, item), rest)
  {
    assert ([item] + rest)[1..] == rest;
  }

  lemma {:induction false} AddAllConcat(lru: seq<Item>, a: seq<Item>, b: seq<Item>)
    ensures AddAll(lru, a + b) == AddAll(AddAll(lru, a), b)
    decreases |a|
  {
    if a == [] {
      assert a + b == b;
    } else {
      assert (a + b)[1..] == a[1..] + b;
      AddAllConcat(AddItem(lru, a[0]), a[1..], b);
    }
  }
}
