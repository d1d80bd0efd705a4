module EditableLine {
  /**
   What holds of the editable line after every sequence of operations, and the object itself, its methods
   proved against the functions of LineEdits.
   */

  import opened Common
  import opened LineEdits
  import opened LineSteps

  lemma ExecuteSound(l: Line, c: Command, first: string)
    requires Sound(l) && Admissible(l, c) && Begins(l, first)
    ensures Sound(Execute(l, c)) && Begins(Execute(l, c), first)
  {
    hide Undone, Redone, Pushed;
    var texts :| Chain(l, texts) && texts[0] == first;
    match c
    case PushEdit(range, replacement, allow) => PushSound(l, NewEdit(range, replacement), allow, texts);
    case Undo => UndoRedoSound(l, first);
    case Redo => UndoRedoSound(l, first);
    case _ => assert Chain(Execute(l, c), texts);
  }

  // ---------------------------------------------------------------- undo and redo are inverse

  lemma {:induction false} RedoStopIs(edits: seq<Edit>, applied: nat, end: nat, going: bool, last: Option<nat>)
    requires applied < end <= |edits|
    requires forall i :: applied <= i < end - 1 ==> SameGroup(edits[i + 1], edits[i].groupId)
    requires EndsRun(edits, end - 1)
    requires going ==> SameGroup(edits[applied], last)
    ensures RedoStop(edits, applied, going, last) == end
    decreases end - applied
  {
    if applied + 1 < end {
      RedoStopIs(edits, applied + 1, end, true, edits[applied].groupId);
    }
  }

  lemma RedoReturnsToStart(l: Line, u: Line, r: Line, texts: seq<string>)
    requires UndoShape(l, u) && RedoReady(l) && GroupsWhole(l) && 0 < l.applied
    requires RedoShape(u, r) && RedoReady(u) && Chain(r, texts)
    ensures u.applied < l.applied && r.applied == l.applied && r.position == l.position
  {
    UndoStopBoundary(l.edits, l.applied, false, None);
    assert EndsRun(u.edits, l.applied - 1);
    assert forall i :: 0 <= i < |l.edits| ==> u.edits[i].groupId == l.edits[i].groupId;
    RedoStopIs(u.edits, u.applied, l.applied, false, None);
    RedoneCursor(u, r, texts);
  }

  /** Redo after undo gives back the text, the cursor and the number of applied edits, whole groups included. */
  lemma RedoUndoesUndo(l: Line)
    requires Sound(l) && 0 < l.applied
    ensures Undone(l).applied < l.applied
    ensures Linked(Undone(l))
    ensures var r := Redone(Undone(l));
            r.text == l.text && r.position == l.position && r.applied == l.applied
  {
    var u := Undone(l);
    var texts := Texts(l);
    UndoneShape(l);
    UndoneChain(l, texts);
    UndoneReady(l, u);
    var r := Redone(u);
    RedoneShape(u);
    RedoKeepsChain(u, false, None, texts);
    assert Chain(r, texts);
    RedoReturnsToStart(l, u, r, texts);
  }

  function UndoneAll(l: Line): Line
    requires Sound(l)
    decreases l.applied
  {
    if l.applied == 0 then l
    else
      UndoneSound(l);
      UndoneShape(l);
      UndoStopBoundary(l.edits, l.applied, false, None);
      UndoneAll(Undone(l))
  }

  lemma {:induction false} UndoneAllIsFirst(l: Line, first: string)
    requires Sound(l) && Begins(l, first)
    ensures UndoneAll(l).text == first && UndoneAll(l).applied == 0
    decreases l.applied
  {
    if l.applied > 0 {
      var texts :| Chain(l, texts) && texts[0] == first;
      UndoneSound(l);
      UndoneChain(l, texts);
      UndoneShape(l);
      UndoStopBoundary(l.edits, l.applied, false, None);
      UndoneAllIsFirst(Undone(l), first);
    }
  }

  lemma AdmissibleKeepsSound(l: Line, c: Command)
    requires Sound(l) && Admissible(l, c)
    ensures Sound(Execute(l, c))
  {
    assert Begins(l, Texts(l)[0]);
    ExecuteSound(l, c, Texts(l)[0]);
  }

  /** Commands one after the other, each made as the code asks of its callers. */
  ghost predicate Run(l: Line, commands: seq<Command>)
    requires Sound(l)
    decreases |commands|
  {
    || commands == []
    || (Admissible(l, commands[0]) && (AdmissibleKeepsSound(l, commands[0]); Run(Execute(l, commands[0]), commands[1..])))
  }

  function After(l: Line, commands: seq<Command>): Line
    requires Sound(l) && Run(l, commands)
    decreases |commands|
  {
    if commands == [] then l
    else
      AdmissibleKeepsSound(l, commands[0]);
      After(Execute(l, commands[0]), commands[1..])
  }

  lemma {:induction false} RunSound(l: Line, commands: seq<Command>, first: string)
    requires Sound(l) && Begins(l, first) && Run(l, commands)
    ensures Sound(After(l, commands)) && Begins(After(l, commands), first)
    decreases |commands|
  {
    if commands != [] {
      ExecuteSound(l, commands[0], first);
      RunSound(Execute(l, commands[0]), commands[1..], first);
    }
  }

  /** From every editor state, undoing until nothing is left to undo restores the empty line;
      the cursor and the colors always fit the text. */
  lemma {:induction false} EveryRunCanBeUndone(commands: seq<Command>)
    ensures Sound(EMPTY_LINE)
    ensures Run(EMPTY_LINE, commands) ==>
              var l := After(EMPTY_LINE, commands);
            && Sound(l)
            && l.position <= |l.text| == |l.colors|
            && UndoneAll(l).text == ""
  {
    assert Chain(EMPTY_LINE, [""]);
    if Run(EMPTY_LINE, commands) {
      RunSound(EMPTY_LINE, commands, "");
      UndoneAllIsFirst(After(EMPTY_LINE, commands), "");
    }
  }

  // ---------------------------------------------------------------- where an edit puts the cursor

  /** A cursor behind the range edited keeps the text behind it; one within or at its ends comes to stand right behind the
      replacement; one in front moves on by its length. */
  lemma CursorFollowsEdit(l: Line, e: Edit)
    requires Fits(e.range, |l.text|) && |l.colors| == |l.text| && l.applied <= |l.edits| && l.position <= |l.text|
    ensures var r := Recorded(l, e);
            && (e.range.end <= l.position ==> |r.text| - r.position == |l.text| - l.position)
            && (e.range.start <= l.position <= e.range.end ==> r.position == e.range.start + |e.replacement|)
            && (l.position < e.range.start ==> r.position == l.position + |e.replacement|)
  {
    SpliceLength(l.text, e.range, e.replacement);
    hide Splice;
  }

  // ---------------------------------------------------------------- why insertions must be at the cursor

  predicate AllAre(s: string, c: char) {
    forall i :: 0 <= i < |s| ==> s[i] == c
  }

  lemma {:induction false} ShiftIsRepeat(middle: string, c: char)
    ensures [c] + middle == middle + [c] <==> AllAre(middle, c)
  {
    if [c] + middle == middle + [c] && middle != [] {
      assert ([c] + middle)[0] == (middle + [c])[0];
      assert ([c] + middle)[1..] == middle;
      assert (middle + [c])[1..] == middle[1..] + [c];
      assert middle == [c] + middle[1..];
      ShiftIsRepeat(middle[1..], c);
      forall i | 0 <= i < |middle| ensures middle[i] == c {
        if i > 0 {
          assert middle[i] == middle[1..][i - 1];
        }
      }
    } else if AllAre(middle, c) {
      assert [c] + middle == middle + [c];
    }
  }

  /** The stretch of text between two positions, in either order. */
  function Between(text: string, a: nat, b: nat): string
    requires a <= |text| && b <= |text|
  {
    if a <= b then text[a..b] else text[b..a]
  }

  /** Extending an insertion at its end is inserting at `p` exactly if only the character lies between. */
  lemma ExtendingIsInserting(before: string, at: nat, inserted: string, p: nat, c: char)
    requires at <= |before| && p <= |before| + |inserted|
    ensures var text := before[..at] + inserted + before[at..];
            before[..at] + (inserted + [c]) + before[at..] == text[..p] + [c] + text[p..]
            <==> AllAre(Between(text, at + |inserted|, p), c)
  {
    var text := before[..at] + inserted + before[at..];
    var end := at + |inserted|;
    var gap := Between(text, end, p);
    var extended := before[..at] + (inserted + [c]) + before[at..];
    assert extended == text[..end] + [c] + text[end..];
    ShiftIsRepeat(gap, c);
    if end <= p {
      assert text[end..] == gap + text[p..] && text[..p] == text[..end] + gap;
      assert extended == text[..end] + ([c] + gap) + text[p..];
      assert text[..p] + [c] + text[p..] == text[..end] + (gap + [c]) + text[p..];
      MiddleDecides(text[..end], [c] + gap, gap + [c], text[p..]);
    } else {
      assert text[..end] == text[..p] + gap && text[p..] == gap + text[end..];
      assert extended == text[..p] + (gap + [c]) + text[end..];
      assert text[..p] + [c] + text[p..] == text[..p] + ([c] + gap) + text[end..];
      MiddleDecides(text[..p], [c] + gap, gap + [c], text[end..]);
    }
  }

  /** All that lies between the end of the last insertion and the cursor are copies of `c`. */
  predicate OnlyRepeats(l: Line, last: Edit, c: char) {
    var end := last.range.start + |last.replacement|;
    end <= |l.text| && l.position <= |l.text| && AllAre(Between(l.text, end, l.position), c)
  }

  /** Coalescing records what really happened exactly if the text between the end of the last
      insertion and the cursor repeats the inserted character; an insertion at the cursor leaves none. */
  lemma CoalescingIsRecordedIff(l: Line, e: Edit, texts: seq<string>)
    requires Chain(l, texts) && l.position <= |l.text| && l.applied == |l.edits| > 0 && l.mayCoalesce
    requires IsInsertion(l.edits[|l.edits| - 1]) && WantsToCoalesce(l, e.replacement)
    requires IsInsertion(e) && e.range.start == l.position
    ensures var n := |l.edits| - 1;
            var r := Coalesced(l, e);
            Link(texts[n], r.edits[n], r.text) <==> OnlyRepeats(l, l.edits[n], e.replacement[0])
  {
    var n := |l.edits| - 1;
    assert Link(texts[n], l.edits[n], texts[n + 1]) && texts[n + 1] == l.text;
    assert e.range == Range(l.position, l.position);
    ExtendedIff(texts[n], l.edits[n], l, e);
  }

  lemma ExtendedIff(a: string, last: Edit, l: Line, e: Edit)
    requires Link(a, last, l.text) && IsInsertion(last) && l.position <= |l.text| && |e.replacement| == 1
    requires e.range == Range(l.position, l.position) && |l.colors| == |l.text| && l.edits != [] && last == l.edits[|l.edits| - 1]
    ensures Link(a, Coalesced(l, e).edits[|l.edits| - 1], Coalesced(l, e).text) <==> OnlyRepeats(l, last, e.replacement[0])
  {
    hide AllAre, Between, Splice, Link;
    var c := e.replacement[0];
    assert e.replacement == [c];
    ExtendingSplice(a, last, l.text, l.position, c);
    SpliceLength(l.text, e.range, e.replacement);
    OtherReplacement(a, last, l.text, last.replacement + [c], Coalesced(l, e).text);
  }

  lemma OtherReplacement(a: string, e: Edit, b: string, replacement: string, b': string)
    requires Link(a, e, b) && |b| <= |b'|
    ensures Link(a, e.(replacement := replacement), b') <==> b' == Splice(a, e.range, replacement)
  {
    hide Splice;
  }

  lemma ExtendingSplice(a: string, last: Edit, b: string, p: nat, c: char)
    requires Link(a, last, b) && IsInsertion(last) && p <= |b|
    ensures last.range.start + |last.replacement| <= |b|
    ensures Splice(b, Range(p, p), [c]) == Splice(a, last.range, last.replacement + [c])
            <==> AllAre(Between(b, last.range.start + |last.replacement|, p), c)
  {
    hide AllAre, Between;
    ExtendingIsInserting(a, last.range.start, last.replacement, p, c);
  }

  lemma MiddleDecides(head: string, a: string, b: string, tail: string)
    requires |a| == |b|
    ensures head + a + tail == head + b + tail <==> a == b
  {
    if head + a + tail == head + b + tail {
      assert a == (head + a + tail)[|head|..|head| + |a|];
      assert b == (head + b + tail)[|head|..|head| + |b|];
    }
  }

  function Colored(n: nat): (colors: seq<HighlightSpec>)
    ensures |colors| == n
  {
    seq(n, _ => DEFAULT_HIGHLIGHT)
  }

  /** The line after typing "abc". */
  const TYPED := Line("abc", Colored(3), 3, [NewEdit(Range(0, 0), "abc")], 1, false, false, None, 0)

  /** Then "x" is put in front of it, while the cursor is behind it. */
  const MISPLACED := TYPED.(text := "xabc", colors := Colored(4), position := 4, applied := 2, mayCoalesce := true,
                            edits := TYPED.edits + [NewEdit(Range(0, 0), "x").(cursorBeforeEdit := 3)])

  /** Then "y" is typed. */
  const JOINED := MISPLACED.(text := "xabcy", colors := Colored(5), position := 5,
                             edits := TYPED.edits + [NewEdit(Range(0, 0), "xy").(cursorBeforeEdit := 3)])

  lemma TypedIsReached()
    ensures Sound(EMPTY_LINE) && Admissible(EMPTY_LINE, PushEdit(Range(0, 0), "abc", true))
    ensures Execute(EMPTY_LINE, PushEdit(Range(0, 0), "abc", true)) == TYPED
  {
    assert Chain(EMPTY_LINE, [""]);
    var r := Recorded(EMPTY_LINE, NewEdit(Range(0, 0), "abc"));
    assert r.colors == TYPED.colors;
    assert r.text == TYPED.text;
  }

  lemma MisplacedIsReached()
    ensures Recorded(TYPED, NewEdit(Range(0, 0), "x")) == MISPLACED
  {
    var r := Recorded(TYPED, NewEdit(Range(0, 0), "x"));
    assert r.text == MISPLACED.text;
    assert r.colors == MISPLACED.colors;
  }

  lemma JoinedIsReached()
    ensures Coalesced(MISPLACED, NewEdit(Range(4, 4), "y")) == JOINED
  {
    var r := Coalesced(MISPLACED, NewEdit(Range(4, 4), "y"));
    assert r.text == JOINED.text;
    assert r.colors == JOINED.colors;
    assert MISPLACED.edits[1].replacement + "y" == "xy";
    assert r.edits == JOINED.edits;
  }

  /** Typing "abc", then x in front of it while the cursor is behind it, then y at the cursor, which the
      code joins to the x: undo yields "bcy". */
  lemma MisplacedInsertionIsNotUndone()
    ensures Sound(EMPTY_LINE) && Admissible(EMPTY_LINE, PushEdit(Range(0, 0), "abc", true))
    ensures Execute(EMPTY_LINE, PushEdit(Range(0, 0), "abc", true)) == TYPED
    ensures Recorded(TYPED, NewEdit(Range(0, 0), "x")) == MISPLACED && WantsToCoalesce(MISPLACED, "y")
    ensures Coalesced(MISPLACED, NewEdit(Range(4, 4), "y")) == JOINED
    ensures UndoneOnce(JOINED).text == "bcy"
  {
    TypedIsReached();
    MisplacedIsReached();
    JoinedIsReached();
    hide Coalesced, Recorded, Execute, Sound;
    assert UndoneOnce(JOINED).text == "" + "" + "bcy";
  }

  // ---------------------------------------------------------------- the object

  class EditableLine {
    var text: string
    var colors: seq<HighlightSpec>
    var position: nat
    var edits: seq<Edit>
    var applied: nat
    var mayCoalesce: bool
    var tryCoalesce: bool
    var groupLevel: Option<nat>
    var groupId: nat

    function View(): Line
      reads this
    {
      Line(text, colors, position, edits, applied, mayCoalesce, tryCoalesce, groupLevel, groupId)
    }

    ghost predicate Valid()
      reads this
    {
      Sound(View())
    }

    constructor ()
      ensures Valid() && View() == EMPTY_LINE
    {
      text, colors, position := "", [], 0;
      edits, applied := [], 0;
      mayCoalesce, tryCoalesce, groupLevel, groupId := false, false, None, 0;
      new;
      assert Chain(View(), [""]);
    }

    method SetPosition(p: nat)
      requires Valid() && p <= |text|
      modifies this`position
      ensures Valid() && View() == old(View()).(position := p)
    {
      ExecuteSound(View(), Command.SetPosition(p), Texts(View())[0]);
      position := p;
    }

    method SetColors(newColors: seq<HighlightSpec>)
      requires Valid() && |newColors| == |text|
      modifies this`colors
      ensures Valid() && View() == old(View()).(colors := newColors)
    {
      ExecuteSound(View(), Command.SetColors(newColors), Texts(View())[0]);
      colors := newColors;
    }

    method ApplyEdit(range: Range, replacement: string)
      requires Fits(range, |text|) && |colors| == |text|
      modifies this`text, this`colors
      ensures View() == Applied(old(View()), range, replacement)
    {
      text := text[..range.start] + replacement + text[range.end..];
      var lastColor := if range.start == 0 then DEFAULT_HIGHLIGHT else colors[range.start - 1];
      colors := colors[..range.start] + Repeat(lastColor, |replacement|) + colors[range.end..];
    }

    method PushEdit(range: Range, replacement: string, allowCoalesce: bool)
      requires Valid() && Fits(range, |text|)
      requires range.start == range.end ==> range.start == position
      modifies this
      ensures Valid() && View() == Pushed(old(View()), NewEdit(range, replacement), allowCoalesce)
    {
      ExecuteSound(View(), Command.PushEdit(range, replacement, allowCoalesce), Texts(View())[0]);
      var edit := NewEdit(range, replacement);
      var isInsertion := range.start == range.end;
      if allowCoalesce && isInsertion && WantsToCoalesce(View(), replacement) {
        ExtendLastEdit(edit);
      } else if !isInsertion || replacement != "" {
        RecordEdit(edit);
      }
    }

    /** The coalescing half of push_edit. */
    method ExtendLastEdit(edit: Edit)
      requires edits != [] && |colors| == |text| && IsInsertion(edit) && Fits(edit.range, |text|)
      modifies this`text, this`colors, this`edits, this`position
      ensures View() == Coalesced(old(View()), edit)
    {
      var last := edits[|edits| - 1];
      edits := edits[|edits| - 1 := last.(replacement := last.replacement + edit.replacement)];
      ApplyEdit(edit.range, edit.replacement);
      position := position + |edit.replacement|;
    }

    /** The half of push_edit that adds to the history. */
    method RecordEdit(edit: Edit)
      requires applied <= |edits| && |colors| == |text| && Fits(edit.range, |text|)
      modifies this
      ensures View() == Recorded(old(View()), edit)
    {
      var recorded := edit;
      if groupLevel.Some? {
        recorded := recorded.(groupId := Some(groupId));
      }
      if applied != |edits| {
        edits := edits[..applied];
      }
      assert edits == old(edits)[..applied];
      recorded := recorded.(cursorBeforeEdit := position, removed := text[edit.range.start..edit.range.end]);
      ApplyEdit(edit.range, edit.replacement);
      position := CursorAfterEdit(recorded);
      assert applied == |edits|;
      mayCoalesce := IsInsertion(edit) && (tryCoalesce || |edit.replacement| == 1);
      applied := applied + 1;
      edits := edits + [recorded];
    }

    method EndEditGroup()
      modifies this`groupLevel, this`tryCoalesce, this`mayCoalesce
      ensures View() == GroupEnded(old(View()))
      ensures old(Valid()) ==> Valid()
    {
      if Valid() {
        ExecuteSound(View(), Command.EndEditGroup, Texts(View())[0]);
      }
      if groupLevel.None? {
        return;
      }
      if groupLevel.value > 1 {
        groupLevel := Some(groupLevel.value - 1);
        return;
      }
      groupLevel := None;
      tryCoalesce := false;
      mayCoalesce := false;
    }

    method BeginEditGroup()
      requires Valid()
      modifies this
      ensures Valid() && View() == GroupBegun(old(View()))
    {
      ExecuteSound(View(), Command.BeginEditGroup, Texts(View())[0]);
      if groupLevel.Some? {
        return;
      }
      groupLevel := Some(1);
      mayCoalesce := false;
      tryCoalesce := true;
      groupId := groupId + 1;
    }

    method Undo() returns (didUndo: bool)
      requires Valid()
      modifies this
      ensures Valid() && View() == Undone(old(View()))
      ensures didUndo <==> old(applied) > 0
    {
      ghost var l := View();
      UndoneSound(l);
      UndoStopBoundary(edits, applied, false, None);
      assert Linked(l) && applied <= |edits|;
      hide Sound, Linked, Chain, UndoLoop, UndoStop;
      var positionBeforeUndo := position;
      var end := applied;
      didUndo := UndoEdits();
      FinishUndo(didUndo, end, positionBeforeUndo);
      assert View() == Undone(l);
    }

    /** What undo does after its loop. */
    method FinishUndo(didUndo: bool, end: nat, positionBeforeUndo: nat)
      requires didUndo ==> 0 < end <= |edits|
      modifies this`edits, this`groupLevel, this`tryCoalesce, this`mayCoalesce
      ensures var l := old(View());
              var marked := if didUndo then
                             l.(edits := l.edits[end - 1 := l.edits[end - 1].(cursorBeforeUndo := Some(positionBeforeUndo))])
                           else l;
              View() == GroupEnded(marked).(mayCoalesce := false)
    {
      if didUndo {
        edits := edits[end - 1 := edits[end - 1].(cursorBeforeUndo := Some(positionBeforeUndo))];
      }
      EndEditGroup();
      mayCoalesce := false;
    }

    /** The loop of undo. */
    method UndoEdits() returns (didUndo: bool)
      requires Linked(View())
      modifies this`text, this`colors, this`position, this`applied
      ensures View() == UndoLoop(old(View()), false, None)
      ensures didUndo <==> applied < old(applied)
    {
      ghost var l := View();
      didUndo := false;
      var lastGroup := None;
      while applied != 0
        invariant Linked(View()) && applied <= l.applied
        invariant UndoLoop(l, false, None) == UndoLoop(View(), didUndo, lastGroup)
        invariant didUndo <==> applied < l.applied
        decreases applied
      {
        var edit := edits[applied - 1];
        if didUndo && !SameGroup(edit, lastGroup) {
          break;
        }
        UndoLinked(View());
        lastGroup := edit.groupId;
        UndoEdit(edit);
        didUndo := true;
      }
    }

    method UndoEdit(edit: Edit)
      requires 0 < applied <= |edits| && |colors| == |text| && edit == edits[applied - 1]
      requires edit.range.start + |edit.replacement| <= |text|
      modifies this`text, this`colors, this`position, this`applied
      ensures View() == UndoneOnce(old(View()))
    {
      applied := applied - 1;
      ApplyEdit(Range(edit.range.start, edit.range.start + |edit.replacement|), edit.removed);
      position := edit.cursorBeforeEdit;
    }

    method Redo() returns (didRedo: bool)
      requires Valid()
      modifies this
      ensures Valid() && View() == Redone(old(View()))
      ensures didRedo <==> old(applied) < old(|edits|)
    {
      RedoneSound(View());
      RedoStopBoundary(edits, applied, false, None);
      didRedo := RedoEdits();
      EndEditGroup();
    }

    /** The loop of redo. */
    method RedoEdits() returns (didRedo: bool)
      requires Linked(View())
      modifies this`text, this`colors, this`position, this`applied
      ensures View() == RedoLoop(old(View()), false, None)
      ensures didRedo <==> old(applied) < applied
    {
      ghost var l := View();
      didRedo := false;
      var lastGroup := None;
      while applied < |edits|
        invariant Linked(View()) && l.applied <= applied
        invariant RedoLoop(l, false, None) == RedoLoop(View(), didRedo, lastGroup)
        invariant didRedo <==> l.applied < applied
        decreases |edits| - applied
      {
        var edit := edits[applied];
        if didRedo && !SameGroup(edit, lastGroup) {
          break;
        }
        RedoLinked(View());
        lastGroup := edit.groupId;
        RedoEdit(edit);
        didRedo := true;
      }
    }

    method RedoEdit(edit: Edit)
      requires applied < |edits| && |colors| == |text| && edit == edits[applied] && Fits(edit.range, |text|)
      requires edit.cursorBeforeUndo.Some? ==> edit.cursorBeforeUndo.value <= |Splice(text, edit.range, edit.replacement)|
      modifies this`text, this`colors, this`position, this`applied
      ensures View() == RedoneOnce(old(View()))
    {
      applied := applied + 1;
      ApplyEdit(edit.range, edit.replacement);
      if edit.cursorBeforeUndo.Some? {
        assert edit.cursorBeforeUndo.value <= |text|;
        position := edit.cursorBeforeUndo.value;
      }
    }
  }
}
