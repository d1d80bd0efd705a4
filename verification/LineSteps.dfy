/**
 Every operation on a line keeps its invariant.

 The heart of it is a chain of texts, one before each recorded edit and one after the last, such that each edit leads
 from one to the next and holds what it removed; the text of the line is the one after the last edit applied. Undo and
 redo move along the chain, recording cuts it and adds to it, and coalescing changes its last text. Besides, groups are
 whole: undo and redo stop only at their ends, and a redo finds the cursor where the undo left it.
 */
module LineSteps {
  import opened Common
  import opened LineEdits

  // ---------------------------------------------------------------- recording edits

  /** Inserting at the end of an insertion is one longer insertion. */
  lemma CoalesceSplices(a: string, last: Edit, b: string, more: string)
    requires Link(a, last, b) && IsInsertion(last)
    ensures var end := last.range.start + |last.replacement|;
            && end <= |b|
            && Splice(b, Range(end, end), more) == Splice(a, last.range, last.replacement + more)
  {
    var at := last.range.start;
    assert b == a[..at] + last.replacement + a[at..];
  }

  lemma CoalescedChain(l: Line, e: Edit, texts: seq<string>)
    requires Chain(l, texts) && CoalescingSound(l) && WantsToCoalesce(l, e.replacement) && l.position <= |l.text|
    requires IsInsertion(e) && e.range.start == l.position
    ensures Chain(Coalesced(l, e), texts[|l.edits| := Coalesced(l, e).text])
  {
    hide Splice;
    var n := |l.edits| - 1;
    var r := Coalesced(l, e);
    var after := texts[|l.edits| := r.text];
    assert Link(texts[n], l.edits[n], texts[n + 1]);
    CoalesceSplices(texts[n], l.edits[n], texts[n + 1], e.replacement);
    assert e.range == Range(l.position, l.position) && l.position == l.edits[n].range.start + |l.edits[n].replacement|;
    assert r.text == Splice(texts[n], l.edits[n].range, r.edits[n].replacement);
    SpliceLength(texts[n], l.edits[n].range, r.edits[n].replacement);
    SpliceLength(texts[n], l.edits[n].range, l.edits[n].replacement);
    forall i | 0 <= i < |r.edits| ensures Link(after[i], r.edits[i], after[i + 1]) {
      assert Link(texts[i], l.edits[i], texts[i + 1]);
    }
  }

  lemma SpliceLength<T>(s: seq<T>, range: Range, replacement: seq<T>)
    requires Fits(range, |s|)
    ensures |Splice(s, range, replacement)| == |s| - (range.end - range.start) + |replacement|
  {
  }

  lemma CoalescedSound(l: Line, e: Edit)
    requires Sound(l) && Fits(e.range, |l.text|) && IsInsertion(e) && e.range.start == l.position
    requires WantsToCoalesce(l, e.replacement)
    ensures Sound(Coalesced(l, e))
    ensures forall texts :: Chain(l, texts) ==> Chain(Coalesced(l, e), texts[|l.edits| := Coalesced(l, e).text])
  {
    var r := Coalesced(l, e);
    CoalescedChain(l, e, Texts(l));
    assert Linked(r) && r.position <= |r.text|;
    forall texts | Chain(l, texts) ensures Chain(r, texts[|l.edits| := r.text]) {
      CoalescedChain(l, e, texts);
    }
    hide Chain, Linked, Splice;
    assert forall i :: 0 <= i < |l.edits| ==> r.edits[i].groupId == l.edits[i].groupId;
  }

  lemma RecordedLinked(l: Line, e: Edit, texts: seq<string>)
    requires Chain(l, texts) && Fits(e.range, |l.text|) && e.cursorBeforeUndo.None? && l.position <= |l.text|
    ensures Chain(Recorded(l, e), texts[..l.applied + 1] + [Recorded(l, e).text])
  {
    var r := Recorded(l, e);
    var after := texts[..l.applied + 1] + [r.text];
    assert Link(after[l.applied], r.edits[l.applied], after[l.applied + 1]);
    forall i | 0 <= i < l.applied
      ensures Link(after[i], r.edits[i], after[i + 1])
    {
      assert Link(texts[i], l.edits[i], texts[i + 1]);
    }
  }

  lemma RecordedGroups(l: Line, e: Edit)
    requires GroupsWhole(l) && Fits(e.range, |l.text|) && |l.colors| == |l.text| && e.groupId.None?
    ensures GroupsWhole(Recorded(l, e))
  {
    var r := Recorded(l, e);
    var n := l.applied;
    forall i, j, k | 0 <= i < j < k < |r.edits| && r.edits[i].groupId.Some? && r.edits[i].groupId == r.edits[k].groupId
      ensures r.edits[j].groupId == r.edits[i].groupId
    {
      if k == n {
        assert l.edits[i].groupId == Some(l.groupId);
        assert l.edits[|l.edits| - 1].groupId == Some(l.groupId);
      }
    }
  }

  lemma RecordedSound(l: Line, e: Edit)
    requires Sound(l) && Fits(e.range, |l.text|) && e.cursorBeforeUndo.None? && e.groupId.None?
    requires IsInsertion(e) ==> e.range.start == l.position
    ensures Sound(Recorded(l, e))
  {
    RecordedLinked(l, e, Texts(l));
    RecordedGroups(l, e);
  }

  // ---------------------------------------------------------------- undo and redo

  lemma UndoLoopNext(l: Line, going: bool, last: Option<nat>)
    requires Linked(l) && 0 < l.applied && !(going && !SameGroup(l.edits[l.applied - 1], last))
    ensures var e := l.edits[l.applied - 1]; |l.colors| == |l.text| && e.range.start + |e.replacement| <= |l.text|
    ensures Linked(UndoneOnce(l)) && UndoLoop(l, going, last) == UndoLoop(UndoneOnce(l), true, l.edits[l.applied - 1].groupId)
  {
    UndoLinked(l);
  }

  lemma ChainLinked(l: Line, texts: seq<string>)
    requires Chain(l, texts)
    ensures Linked(l) && l.applied <= |l.edits| && |l.colors| == |l.text|
  {
  }

  lemma {:induction false} LoopsKeepChain(l: Line, going: bool, last: Option<nat>, texts: seq<string>)
    requires Chain(l, texts)
    ensures Linked(l) && Chain(UndoLoop(l, going, last), texts)
    decreases l.applied
  {
    hide Linked, Chain, UndoneOnce;
    ChainLinked(l, texts);
    if !(l.applied == 0 || (going && !SameGroup(l.edits[l.applied - 1], last))) {
      UndoLoopNext(l, going, last);
      UndoChain(l, texts);
      UndoneOnceIs(l);
      LoopsKeepChain(UndoneOnce(l), true, l.edits[l.applied - 1].groupId, texts);
    }
  }

  lemma {:induction false} RedoKeepsChain(l: Line, going: bool, last: Option<nat>, texts: seq<string>)
    requires Chain(l, texts)
    ensures Linked(l) && Chain(RedoLoop(l, going, last), texts)
    decreases |l.edits| - l.applied
  {
    if l.applied == |l.edits| || (going && !SameGroup(l.edits[l.applied], last)) {
    } else {
      RedoLinked(l);
      assert Linked(l) && Linked(RedoneOnce(l));
      hide Linked, Chain, Applied;
      RedoKeepsChain(RedoneOnce(l), true, l.edits[l.applied].groupId, texts);
    }
  }

  lemma UndoneChain(l: Line, texts: seq<string>)
    requires Chain(l, texts) && l.position <= |l.text|
    ensures Linked(l) && Chain(Undone(l), texts)
  {
    LoopsKeepChain(l, false, None, texts);
    assert texts[l.applied] == l.text && l.applied <= |l.edits|;
    hide Chain, Linked, UndoLoop, GroupEnded;
    var r := UndoLoop(l, false, None);
    MarkedChain(r, texts, l);
    FlagsKeepChain(if r.applied < l.applied
                   then r.(edits := r.edits[l.applied - 1 := r.edits[l.applied - 1].(cursorBeforeUndo := Some(l.position))])
                   else r, texts);
  }

  lemma FlagsKeepChain(l: Line, texts: seq<string>)
    requires Chain(l, texts)
    ensures Chain(GroupEnded(l).(mayCoalesce := false), texts)
  {
  }

  /** Remembering the cursor in the last undone edit. */
  lemma MarkedChain(r: Line, texts: seq<string>, l: Line)
    requires Chain(r, texts) && r.edits == l.edits && r.applied <= l.applied <= |l.edits|
    requires texts[l.applied] == l.text && l.position <= |l.text|
    ensures r.applied < l.applied ==>
              Chain(r.(edits := r.edits[l.applied - 1 := r.edits[l.applied - 1].(cursorBeforeUndo := Some(l.position))]), texts)
  {
    if r.applied < l.applied {
      var edits := r.edits[l.applied - 1 := r.edits[l.applied - 1].(cursorBeforeUndo := Some(l.position))];
      forall i | 0 <= i < |edits| ensures Link(texts[i], edits[i], texts[i + 1]) {
        assert Link(texts[i], r.edits[i], texts[i + 1]);
      }
    }
  }

  /** Moving the boundary of applied edits to the end of a run keeps groups whole. */
  lemma BoundaryKeepsGroups(edits: seq<Edit>, applied: nat)
    requires GroupsContiguous(edits) && applied <= |edits|
    requires 0 < applied < |edits| ==> !SameGroup(edits[applied - 1], edits[applied].groupId)
    ensures GroupsNotSplit(edits, applied)
  {
    forall i, k | 0 <= i < applied <= k < |edits| && edits[i].groupId.Some?
      ensures edits[i].groupId != edits[k].groupId
    {
    }
  }

  /** What undo does to everything but the text, the colors and the cursor. */
  ghost predicate UndoShape(l: Line, r: Line) {
    && l.applied <= |l.edits|
    && r.applied == UndoStop(l.edits, l.applied, false, None)
    && r.edits == (if r.applied < l.applied
                   then l.edits[l.applied - 1 := l.edits[l.applied - 1].(cursorBeforeUndo := Some(l.position))]
                   else l.edits)
    && r.groupId == l.groupId
    && (r.groupLevel.Some? ==> l.groupLevel.Some? && l.groupLevel.value > 1)
    && !r.mayCoalesce
  }

  lemma UndoneShape(l: Line)
    requires Linked(l)
    ensures UndoShape(l, Undone(l))
  {
  }

  lemma UndoneGroups(l: Line, r: Line)
    requires UndoShape(l, r) && GroupsWhole(l)
    ensures GroupsWhole(r)
  {
    UndoStopBoundary(l.edits, l.applied, false, None);
    BoundaryKeepsGroups(l.edits, r.applied);
    assert forall i :: 0 <= i < |l.edits| ==> r.edits[i].groupId == l.edits[i].groupId;
  }

  lemma UndoneReady(l: Line, r: Line)
    requires UndoShape(l, r) && RedoReady(l)
    ensures RedoReady(r)
  {
    UndoStopBoundary(l.edits, l.applied, false, None);
    forall i | r.applied <= i < |r.edits| && EndsRun(r.edits, i)
      ensures r.edits[i].cursorBeforeUndo.Some?
    {
      assert EndsRun(l.edits, i);
    }
  }

  lemma UndoneSound(l: Line)
    requires Sound(l)
    ensures Sound(Undone(l))
  {
    UndoneChain(l, Texts(l));
    UndoneShape(l);
    UndoneGroups(l, Undone(l));
    UndoneReady(l, Undone(l));
  }

  /** A redo leaves the cursor where it was when its last edit was undone. */
  lemma {:induction false} RedoPositionRestored(edits: seq<Edit>, applied: nat, position: nat, going: bool, last: Option<nat>)
    requires applied <= |edits|
    ensures var stop := RedoStop(edits, applied, going, last);
            && (applied < stop && edits[stop - 1].cursorBeforeUndo.Some? ==>
                  RedoPosition(edits, applied, position, going, last) == edits[stop - 1].cursorBeforeUndo.value)
            && (applied == stop ==> RedoPosition(edits, applied, position, going, last) == position)
    decreases |edits| - applied
  {
    if applied == |edits| || (going && !SameGroup(edits[applied], last)) {
    } else {
      var e := edits[applied];
      var next := if e.cursorBeforeUndo.Some? then e.cursorBeforeUndo.value else position;
      RedoPositionRestored(edits, applied + 1, next, true, e.groupId);
    }
  }

  ghost predicate RedoShape(l: Line, r: Line) {
    && l.applied <= |l.edits|
    && r.edits == l.edits
    && r.applied == RedoStop(l.edits, l.applied, false, None)
    && r.position == RedoPosition(l.edits, l.applied, l.position, false, None)
    && r.groupId == l.groupId
    && (r.groupLevel.Some? ==> l.groupLevel.Some? && l.groupLevel.value > 1)
    && (r.mayCoalesce ==> l.mayCoalesce)
  }

  lemma RedoneShape(l: Line)
    requires Linked(l)
    ensures RedoShape(l, Redone(l))
  {
  }

  lemma RedoneGroups(l: Line, r: Line)
    requires RedoShape(l, r) && GroupsWhole(l)
    ensures GroupsWhole(r)
  {
    RedoStopBoundary(l.edits, l.applied, false, None);
    BoundaryKeepsGroups(l.edits, r.applied);
  }

  lemma RedoneCursor(l: Line, r: Line, texts: seq<string>)
    requires RedoShape(l, r) && RedoReady(l) && Chain(r, texts)
    ensures if l.applied < |l.edits| then
              l.edits[r.applied - 1].cursorBeforeUndo == Some(r.position) && r.position <= |r.text|
            else r.position == l.position
  {
    RedoStopBoundary(l.edits, l.applied, false, None);
    RedoPositionRestored(l.edits, l.applied, l.position, false, None);
    if l.applied < |l.edits| {
      assert EndsRun(l.edits, r.applied - 1);
      assert Link(texts[r.applied - 1], l.edits[r.applied - 1], texts[r.applied]);
    }
  }

  lemma RedoneSound(l: Line)
    requires Sound(l)
    ensures Sound(Redone(l))
  {
    var r := Redone(l);
    var texts := Texts(l);
    RedoKeepsChain(l, false, None, texts);
    assert Chain(r, texts);
    RedoneShape(l);
    RedoneGroups(l, r);
    RedoneCursor(l, r, texts);
  }

  lemma PushSound(l: Line, e: Edit, allow: bool, texts: seq<string>)
    requires Sound(l) && Chain(l, texts) && Fits(e.range, |l.text|) && e.cursorBeforeUndo.None? && e.groupId.None?
    requires IsInsertion(e) ==> e.range.start == l.position
    ensures Sound(Pushed(l, e, allow)) && Begins(Pushed(l, e, allow), texts[0])
  {
    hide Coalesced, Recorded, IsInsertion, Linked;
    if allow && IsInsertion(e) && WantsToCoalesce(l, e.replacement) {
      CoalescedSound(l, e);
      assert Chain(Coalesced(l, e), texts[|l.edits| := Coalesced(l, e).text]);
      LastEdit(l);
    } else if IsInsertion(e) && e.replacement == "" {
      assert Begins(l, texts[0]);
    } else {
      RecordedSound(l, e);
      RecordedLinked(l, e, texts);
      assert Chain(Recorded(l, e), texts[..l.applied + 1] + [Recorded(l, e).text]);
    }
  }

  lemma LastEdit(l: Line)
    requires Sound(l) && l.mayCoalesce
    ensures |l.edits| > 0
  {
  }

  lemma UndoRedoSound(l: Line, first: string)
    requires Sound(l) && Begins(l, first)
    ensures Sound(Undone(l)) && Begins(Undone(l), first)
    ensures Sound(Redone(l)) && Begins(Redone(l), first)
  {
    var texts :| Chain(l, texts) && texts[0] == first;
    UndoneSound(l);
    UndoneChain(l, texts);
    RedoneSound(l);
    RedoKeepsChain(l, false, None, texts);
    assert Chain(Redone(l), texts);
  }
}
