module LineEdits {
  /**
   The editable command line of src/editable_line.rs: text, colors, cursor and a linear
   undo history with coalescing and edit groups.

   `Line` is the value of an `EditableLine` object; the functions on it say what each
   method does, and `Sound` is what every operation keeps.
   */

  import opened Common

  type HighlightSpec = nat

  const DEFAULT_HIGHLIGHT: HighlightSpec := 0

  datatype Range = Range(start: nat, end: nat)

  datatype Edit = Edit(
    cursorBeforeEdit: nat,
    cursorBeforeUndo: Option<nat>,
    range: Range,
    removed: string,
    replacement: string,
    groupId: Option<nat>)

  function NewEdit(range: Range, replacement: string): Edit {
    Edit(0, None, range, "", replacement, None)
  }

  predicate Fits(range: Range, length: nat) {
    range.start <= range.end <= length
  }

  function Splice<T>(s: seq<T>, range: Range, insert: seq<T>): seq<T>
    requires Fits(range, |s|)
  {
    s[..range.start] + insert + s[range.end..]
  }

  function LastColor(colors: seq<HighlightSpec>, range: Range): HighlightSpec
    requires Fits(range, |colors|)
  {
    if range.start == 0 then DEFAULT_HIGHLIGHT else colors[range.start - 1]
  }

  function Repeat(color: HighlightSpec, n: nat): seq<HighlightSpec> {
    seq(n, _ => color)
  }

  datatype Line = Line(
    text: string,
    colors: seq<HighlightSpec>,
    position: nat,
    edits: seq<Edit>,
    applied: nat,
    mayCoalesce: bool,
    tryCoalesce: bool,
    groupLevel: Option<nat>,
    groupId: nat)

  const EMPTY_LINE := Line("", [], 0, [], 0, false, false, None, 0)

  /** apply_edit on the line's text and colors. */
  function Applied(l: Line, range: Range, replacement: string): (r: Line)
    requires Fits(range, |l.text|) && |l.colors| == |l.text|
    ensures |r.colors| == |r.text|
  {
    l.(text := Splice(l.text, range, replacement),
    colors := Splice(l.colors, range, Repeat(LastColor(l.colors, range), |replacement|)))
  }

  function CharsDeletedLeftOfCursor(e: Edit): nat
    requires e.range.start <= e.range.end
  {
    if e.cursorBeforeEdit > e.range.start then
      var length := e.range.end - e.range.start;
      var left := e.cursorBeforeEdit - e.range.start;
      if length < left then length else left
    else 0
  }

  function CursorAfterEdit(e: Edit): nat
    requires e.range.start <= e.range.end
  {
    var cursor := e.cursorBeforeEdit + |e.replacement|;
    var removed := CharsDeletedLeftOfCursor(e);
    if cursor < removed then 0 else cursor - removed
  }

  // ---------------------------------------------------------------- operations

  predicate IsInsertion(e: Edit) {
    e.range.start == e.range.end
  }

  predicate WantsToCoalesce(l: Line, s: string)
    requires l.mayCoalesce ==> l.edits != [] && l.edits[|l.edits| - 1].range.start <= l.edits[|l.edits| - 1].range.end
  {
    && l.mayCoalesce
    && |s| == 1
    && (s[0] == ' ' ==> l.tryCoalesce)
    && var last := l.edits[|l.edits| - 1];
    && IsInsertion(last)
    && CursorAfterEdit(last) == l.position
  }

  function Coalesced(l: Line, e: Edit): Line
    requires l.edits != [] && IsInsertion(e) && Fits(e.range, |l.text|) && |l.colors| == |l.text|
  {
    var n := |l.edits| - 1;
    var last := l.edits[n];
    Applied(l, e.range, e.replacement).(
    edits := l.edits[n := last.(replacement := last.replacement + e.replacement)],
    position := l.position + |e.replacement|)
  }

  function Recorded(l: Line, e: Edit): Line
    requires Fits(e.range, |l.text|) && |l.colors| == |l.text| && l.applied <= |l.edits|
  {
    var recorded := e.(
      groupId := if l.groupLevel.Some? then Some(l.groupId) else e.groupId,
      cursorBeforeEdit := l.position,
      removed := l.text[e.range.start..e.range.end]);
    Applied(l, e.range, e.replacement).(
    edits := l.edits[..l.applied] + [recorded],
    applied := l.applied + 1,
    position := CursorAfterEdit(recorded),
    mayCoalesce := IsInsertion(e) && (l.tryCoalesce || |e.replacement| == 1))
  }

  function Pushed(l: Line, e: Edit, allowCoalesce: bool): Line
    requires Sound(l) && Fits(e.range, |l.text|)
  {
    if allowCoalesce && IsInsertion(e) && WantsToCoalesce(l, e.replacement) then
      Coalesced(l, e)
    else if IsInsertion(e) && e.replacement == "" then
      l
    else
      Recorded(l, e)
  }

  function UndoneOnce(l: Line): Line
    requires 0 < l.applied <= |l.edits| && |l.colors| == |l.text|
    requires var e := l.edits[l.applied - 1]; e.range.start + |e.replacement| <= |l.text|
  {
    var e := l.edits[l.applied - 1];
    Applied(l, Range(e.range.start, e.range.start + |e.replacement|), e.removed).(
    applied := l.applied - 1,
    position := e.cursorBeforeEdit)
  }

  /** Whether undo or redo, having just handled an edit of group `last`, goes on with `e`. */
  predicate SameGroup(e: Edit, last: Option<nat>) {
    e.groupId.Some? && e.groupId == last
  }

  /** Undoing and redoing leave the flags and the groups of the line alone. */
  predicate SameBut(l: Line, r: Line) {
    && l.mayCoalesce == r.mayCoalesce && l.tryCoalesce == r.tryCoalesce
    && l.groupLevel == r.groupLevel && l.groupId == r.groupId
  }

  /** How many edits are still applied once the undo loop stops. */
  function UndoStop(edits: seq<Edit>, applied: nat, didUndo: bool, lastGroup: Option<nat>): (r: nat)
    requires applied <= |edits|
    ensures r <= applied
  {
    if applied == 0 || (didUndo && !SameGroup(edits[applied - 1], lastGroup)) then applied
    else UndoStop(edits, applied - 1, true, edits[applied - 1].groupId)
  }

  /** How many edits are applied once the redo loop stops. */
  function RedoStop(edits: seq<Edit>, applied: nat, didRedo: bool, lastGroup: Option<nat>): (r: nat)
    requires applied <= |edits|
    ensures applied <= r <= |edits|
    decreases |edits| - applied
  {
    if applied == |edits| || (didRedo && !SameGroup(edits[applied], lastGroup)) then applied
    else RedoStop(edits, applied + 1, true, edits[applied].groupId)
  }

  lemma UndoneOnceIs(l: Line)
    requires 0 < l.applied <= |l.edits| && |l.colors| == |l.text|
    requires var e := l.edits[l.applied - 1]; e.range.start + |e.replacement| <= |l.text|
    ensures var r := UndoneOnce(l); SameBut(l, r) && r.edits == l.edits && r.applied == l.applied - 1
  {
  }

  function UndoLoop(l: Line, didUndo: bool, lastGroup: Option<nat>): (r: Line)
    requires Linked(l)
    ensures Linked(r) && r.edits == l.edits && r.applied == UndoStop(l.edits, l.applied, didUndo, lastGroup)
    ensures SameBut(l, r)
    ensures if r.applied < l.applied then r.position <= |r.text| else r == l
    decreases l.applied
  {
    if l.applied == 0 || (didUndo && !SameGroup(l.edits[l.applied - 1], lastGroup)) then
      l
    else
      UndoLinked(l);
      UndoneOnceIs(l);
      hide Linked, Chain, UndoneOnce;
      UndoLoop(UndoneOnce(l), true, l.edits[l.applied - 1].groupId)
  }

  function GroupEnded(l: Line): Line {
    if l.groupLevel.Some? && l.groupLevel.value <= 1 then
      l.(groupLevel := None, tryCoalesce := false, mayCoalesce := false)
    else if l.groupLevel.Some? then
      l.(groupLevel := Some(l.groupLevel.value - 1))
    else l
  }

  function Undone(l: Line): Line
    requires Linked(l)
  {
    var r := UndoLoop(l, false, None);
    var marked :=
      if r.applied < l.applied then
        r.(edits := r.edits[l.applied - 1 := r.edits[l.applied - 1].(cursorBeforeUndo := Some(l.position))])
      else r;
    GroupEnded(marked).(mayCoalesce := false)
  }

  function RedoneOnce(l: Line): Line
    requires l.applied < |l.edits| && |l.colors| == |l.text| && Fits(l.edits[l.applied].range, |l.text|)
  {
    var e := l.edits[l.applied];
    var r := Applied(l, e.range, e.replacement).(applied := l.applied + 1);
    if e.cursorBeforeUndo.Some? then r.(position := e.cursorBeforeUndo.value) else r
  }

  /** The cursor position once the redo loop stops. */
  function RedoPosition(edits: seq<Edit>, applied: nat, position: nat, didRedo: bool, lastGroup: Option<nat>): nat
    requires applied <= |edits|
    decreases |edits| - applied
  {
    if applied == |edits| || (didRedo && !SameGroup(edits[applied], lastGroup)) then position
    else
      var e := edits[applied];
      RedoPosition(edits, applied + 1, if e.cursorBeforeUndo.Some? then e.cursorBeforeUndo.value else position, true, e.groupId)
  }

  function RedoLoop(l: Line, didRedo: bool, lastGroup: Option<nat>): (r: Line)
    requires Linked(l)
    ensures Linked(r) && r.edits == l.edits && r.applied == RedoStop(l.edits, l.applied, didRedo, lastGroup)
    ensures r.position == RedoPosition(l.edits, l.applied, l.position, didRedo, lastGroup)
    ensures SameBut(l, r)
    decreases |l.edits| - l.applied
  {
    if l.applied == |l.edits| || (didRedo && !SameGroup(l.edits[l.applied], lastGroup)) then
      l
    else
      RedoLinked(l);
      hide Linked, Applied;
      RedoLoop(RedoneOnce(l), true, l.edits[l.applied].groupId)
  }

  function Redone(l: Line): Line
    requires Linked(l)
  {
    GroupEnded(RedoLoop(l, false, None))
  }

  function GroupBegun(l: Line): Line {
    if l.groupLevel.Some? then l
    else l.(groupLevel := Some(1), mayCoalesce := false, tryCoalesce := true, groupId := l.groupId + 1)
  }

  // ---------------------------------------------------------------- invariant

  /** The edit `e` turns the text `a` into `b`, and stores exactly what it removed from `a`. */
  ghost predicate Link(a: string, e: Edit, b: string) {
    && Fits(e.range, |a|)
    && e.removed == a[e.range.start..e.range.end]
    && b == Splice(a, e.range, e.replacement)
    && e.cursorBeforeEdit <= |a|
    && (e.cursorBeforeUndo.Some? ==> e.cursorBeforeUndo.value <= |b|)
  }

  /** `texts` lists every text of the history, the initial one first. */
  ghost predicate Chain(l: Line, texts: seq<string>) {
    && |texts| == |l.edits| + 1
    && l.applied <= |l.edits|
    && texts[l.applied] == l.text
    && |l.colors| == |l.text|
    && forall i :: 0 <= i < |l.edits| ==> Link(texts[i], l.edits[i], texts[i + 1])
  }

  ghost predicate Linked(l: Line) {
    exists texts :: Chain(l, texts)
  }

  /** Edits of one group stand next to each other. */
  ghost predicate GroupsContiguous(edits: seq<Edit>) {
    forall i, j, k :: 0 <= i < j < k < |edits| && edits[i].groupId.Some? && edits[i].groupId == edits[k].groupId
                      ==> edits[j].groupId == edits[i].groupId
  }

  /** No group is split by the boundary between applied and undone edits. */
  ghost predicate GroupsNotSplit(edits: seq<Edit>, applied: nat) {
    forall i, k :: 0 <= i < applied <= k < |edits| && edits[i].groupId.Some? ==> edits[i].groupId != edits[k].groupId
  }

  ghost predicate GroupIdsUsed(edits: seq<Edit>, groupId: nat) {
    forall i :: 0 <= i < |edits| && edits[i].groupId.Some? ==> edits[i].groupId.value <= groupId
  }

  /** The edits of the open group, if there are any, are the last ones and all applied. */
  ghost predicate OpenGroupIsLast(l: Line) {
    l.groupLevel.Some? ==>
      && l.groupLevel.value == 1
      && forall i :: 0 <= i < |l.edits| && l.edits[i].groupId == Some(l.groupId) ==>
                       l.applied == |l.edits| && l.edits[|l.edits| - 1].groupId == Some(l.groupId)
  }

  ghost predicate GroupsWhole(l: Line) {
    && l.applied <= |l.edits|
    && GroupsContiguous(l.edits)
    && GroupsNotSplit(l.edits, l.applied)
    && GroupIdsUsed(l.edits, l.groupId)
    && OpenGroupIsLast(l)
  }

  /** What the last edit looks like while the next insertion may still join it. */
  ghost predicate CoalescingSound(l: Line) {
    l.mayCoalesce ==>
      && l.applied == |l.edits| > 0
      && var last := l.edits[|l.edits| - 1];
      && last.range.start == last.range.end == last.cursorBeforeEdit
  }

  /** Every position an undo run can start from remembers, once undone, where the cursor was. */
  ghost predicate RedoReady(l: Line) {
    forall i :: l.applied <= i < |l.edits| && EndsRun(l.edits, i) ==> l.edits[i].cursorBeforeUndo.Some?
  }

  predicate EndsRun(edits: seq<Edit>, i: nat)
    requires i < |edits|
  {
    i == |edits| - 1 || !SameGroup(edits[i + 1], edits[i].groupId)
  }

  ghost predicate Sound(l: Line) {
    && Linked(l)
    && l.position <= |l.text|
    && GroupsWhole(l)
    && CoalescingSound(l)
    && RedoReady(l)
  }

  ghost function Texts(l: Line): (texts: seq<string>)
    requires Linked(l)
    ensures Chain(l, texts)
  {
    var texts :| Chain(l, texts); texts
  }

  /** Putting back what an edit removed in place of what it put there. */
  lemma UndoSplices(a: string, e: Edit, b: string)
    requires Link(a, e, b)
    ensures e.range.start + |e.replacement| <= |b| && e.cursorBeforeEdit <= |a|
    ensures Splice(b, Range(e.range.start, e.range.start + |e.replacement|), e.removed) == a
  {
  }

  lemma UndoChain(l: Line, texts: seq<string>)
    requires Chain(l, texts) && 0 < l.applied
    ensures var e := l.edits[l.applied - 1]; e.range.start + |e.replacement| <= |l.text|
    ensures Chain(UndoneOnce(l), texts) && UndoneOnce(l).position <= |UndoneOnce(l).text|
  {
    hide Link, Splice;
    UndoSplices(texts[l.applied - 1], l.edits[l.applied - 1], texts[l.applied]);
  }

  lemma UndoLinked(l: Line)
    requires Linked(l) && 0 < l.applied
    ensures l.applied <= |l.edits| && |l.colors| == |l.text|
    ensures var e := l.edits[l.applied - 1]; e.range.start + |e.replacement| <= |l.text|
    ensures var r := UndoneOnce(l); Linked(r) && r.position <= |r.text|
  {
    UndoChain(l, Texts(l));
  }

  lemma RedoLinked(l: Line)
    requires Linked(l) && l.applied < |l.edits|
    ensures Fits(l.edits[l.applied].range, |l.text|)
    ensures Linked(RedoneOnce(l))
    ensures forall texts :: Chain(l, texts) ==> Chain(RedoneOnce(l), texts)
    ensures l.edits[l.applied].cursorBeforeUndo.Some? ==> RedoneOnce(l).position <= |RedoneOnce(l).text|
  {
    forall texts | Chain(l, texts)
      ensures Fits(l.edits[l.applied].range, |l.text|)
      ensures Chain(RedoneOnce(l), texts)
      ensures l.edits[l.applied].cursorBeforeUndo.Some? ==> RedoneOnce(l).position <= |RedoneOnce(l).text|
    {
      assert Link(texts[l.applied], l.edits[l.applied], texts[l.applied + 1]);
    }
  }

  /** The history of `l` starts with the text `first`. */
  ghost predicate Begins(l: Line, first: string) {
    exists texts :: Chain(l, texts) && texts[0] == first
  }

  // ---------------------------------------------------------------- where undo and redo stop

  lemma {:induction false} UndoStopBoundary(edits: seq<Edit>, applied: nat, didUndo: bool, last: Option<nat>)
    requires applied <= |edits|
    ensures var r := UndoStop(edits, applied, didUndo, last);
            && (forall i :: r <= i < applied - 1 ==> SameGroup(edits[i], edits[i + 1].groupId))
            && (didUndo && r < applied ==> SameGroup(edits[applied - 1], last))
            && (0 < r < applied ==> !SameGroup(edits[r - 1], edits[r].groupId))
            && (!didUndo && 0 < applied ==> r < applied)
  {
    if applied == 0 || (didUndo && !SameGroup(edits[applied - 1], last)) {
    } else {
      UndoStopBoundary(edits, applied - 1, true, edits[applied - 1].groupId);
    }
  }

  lemma {:induction false} RedoStopBoundary(edits: seq<Edit>, applied: nat, didRedo: bool, last: Option<nat>)
    requires applied <= |edits|
    ensures var r := RedoStop(edits, applied, didRedo, last);
            && (forall i :: applied <= i < r - 1 ==> SameGroup(edits[i + 1], edits[i].groupId))
            && (didRedo && applied < r ==> SameGroup(edits[applied], last))
            && (applied < r < |edits| ==> !SameGroup(edits[r], edits[r - 1].groupId))
            && (!didRedo && applied < |edits| ==> applied < r)
    decreases |edits| - applied
  {
    if applied == |edits| || (didRedo && !SameGroup(edits[applied], last)) {
    } else {
      RedoStopBoundary(edits, applied + 1, true, edits[applied].groupId);
    }
  }

  // ---------------------------------------------------------------- commands

  datatype Command =
    | SetPosition(position: nat)
    | SetColors(colors: seq<HighlightSpec>)
    | PushEdit(range: Range, replacement: string, allowCoalesce: bool)
    | Undo
    | Redo
    | BeginEditGroup
    | EndEditGroup

  /** What the code asserts of its callers, and that a pure insertion is made at the cursor. */
  predicate Admissible(l: Line, c: Command) {
    match c
    case SetPosition(p) => p <= |l.text|
    case SetColors(colors) => |colors| == |l.text|
    case PushEdit(range, replacement, _) =>
      Fits(range, |l.text|) && (range.start == range.end ==> range.start == l.position)
    case _ => true
  }

  function Execute(l: Line, c: Command): Line
    requires Sound(l) && Admissible(l, c)
  {
    match c
    case SetPosition(p) => l.(position := p)
    case SetColors(colors) => l.(colors := colors)
    case PushEdit(range, replacement, allow) => Pushed(l, NewEdit(range, replacement), allow)
    case Undo => Undone(l)
    case Redo => Redone(l)
    case BeginEditGroup => GroupBegun(l)
    case EndEditGroup => GroupEnded(l)
  }
}
