module UndoneEdits {
  /** What one undo takes back: a whole group, a word as it was typed, or one edit; and where it leaves the cursor. */

  import opened Common
  import opened LineEdits
  import opened LineSteps
  import opened EditableLine

  // ---------------------------------------------------------------- where undo stops

  lemma {:induction false} UndoLoopCursor(l: Line, going: bool, last: Option<nat>)
    requires Linked(l)
    ensures var r := UndoLoop(l, going, last);
            && r.applied <= l.applied <= |l.edits|
            && r.position == if r.applied < l.applied then l.edits[r.applied].cursorBeforeEdit else l.position
    decreases l.applied
  {
    hide Chain, Applied;
    ChainLinked(l, Texts(l));
    if !(l.applied == 0 || (going && !SameGroup(l.edits[l.applied - 1], last))) {
      UndoLoopNext(l, going, last);
      UndoLoopCursor(UndoneOnce(l), true, l.edits[l.applied - 1].groupId);
    }
  }

  lemma {:induction false} UndoStopIs(edits: seq<Edit>, applied: nat, start: nat, going: bool, last: Option<nat>)
    requires start < applied <= |edits|
    requires forall i :: start < i < applied ==> SameGroup(edits[i - 1], edits[i].groupId)
    requires 0 < start ==> !SameGroup(edits[start - 1], edits[start].groupId)
    requires going ==> SameGroup(edits[applied - 1], last)
    ensures UndoStop(edits, applied, going, last) == start
    decreases applied
  {
    if start + 1 < applied {
      UndoStopIs(edits, applied - 1, start, true, edits[applied - 1].groupId);
    }
  }

  /** An undo that stops at an edit gives back the text and the cursor from before it. */
  lemma UndoneTo(l: Line, start: nat, texts: seq<string>)
    requires Sound(l) && Chain(l, texts) && start < l.applied
    requires forall i :: start < i < l.applied ==> SameGroup(l.edits[i - 1], l.edits[i].groupId)
    requires 0 < start ==> !SameGroup(l.edits[start - 1], l.edits[start].groupId)
    ensures l.applied <= |l.edits| && |texts| == |l.edits| + 1
    ensures var u := Undone(l); u.text == texts[start] && u.position == l.edits[start].cursorBeforeEdit && u.applied == start
  {
    ChainLinked(l, texts);
    UndoStopIs(l.edits, l.applied, start, false, None);
    UndoLoopCursor(l, false, None);
    UndoneChain(l, texts);
  }

  // ---------------------------------------------------------------- groups

  predicate Changes(c: Command) {
    c.PushEdit? && (c.range.start < c.range.end || c.replacement != "")
  }

  /** What may happen within a group. */
  predicate Edits(c: Command) {
    c.PushEdit? || c.SetPosition? || c.SetColors?
  }

  /** The cursor before the first change. */
  function FirstCursor(position: nat, commands: seq<Command>): nat
    decreases |commands|
  {
    if commands == [] || Changes(commands[0]) then position
    else FirstCursor(if commands[0].SetPosition? then commands[0].position else position, commands[1..])
  }

  ghost predicate HasBefore(m: Line, n: nat, text: string) {
    exists texts :: Chain(m, texts) && n < |texts| && texts[n] == text
  }

  /** The edits of `m` are those of `l` and then some of a group begun there. */
  ghost predicate GroupShape(l: Line, m: Line) {
    && m.groupLevel == Some(1) && m.groupId == l.groupId + 1
    && l.applied <= m.applied
    && if m.applied == l.applied then m.edits == l.edits && !m.mayCoalesce
       else
         && m.applied == |m.edits| && l.applied <= |l.edits| && m.edits[..l.applied] == l.edits[..l.applied]
         && forall i :: l.applied <= i < |m.edits| ==> m.edits[i].groupId == Some(m.groupId)
  }

  /** `m` is reached from `l` within such a group. */
  ghost predicate InGroup(l: Line, m: Line) {
    Sound(m) && GroupShape(l, m) && HasBefore(m, l.applied, l.text)
  }

  function GroupCursor(l: Line, m: Line): nat {
    if l.applied < m.applied && l.applied < |m.edits| then m.edits[l.applied].cursorBeforeEdit else m.position
  }

  lemma BegunInGroup(l: Line)
    requires Sound(l) && l.groupLevel.None?
    ensures InGroup(l, GroupBegun(l)) && GroupCursor(l, GroupBegun(l)) == l.position
  {
    assert Chain(GroupBegun(l), Texts(l));
  }

  lemma RecordedShape(l: Line, m: Line, e: Edit)
    requires GroupShape(l, m) && m.applied <= |m.edits| && Fits(e.range, |m.text|) && |m.colors| == |m.text|
    ensures GroupShape(l, Recorded(m, e)) && l.applied < Recorded(m, e).applied
    ensures GroupCursor(l, Recorded(m, e)) == GroupCursor(l, m)
  {
    hide Splice, CursorAfterEdit;
    var r := Recorded(m, e);
    assert r.edits[..m.applied] == m.edits[..m.applied];
    assert r.edits[..l.applied] == r.edits[..m.applied][..l.applied] && m.edits[..l.applied] == m.edits[..m.applied][..l.applied];
  }

  lemma RecordedHasBefore(m: Line, e: Edit, n: nat, text: string)
    requires HasBefore(m, n, text) && n <= m.applied && m.position <= |m.text|
    requires Fits(e.range, |m.text|) && e.cursorBeforeUndo.None? && |m.colors| == |m.text| && m.applied <= |m.edits|
    ensures HasBefore(Recorded(m, e), n, text)
  {
    var texts :| Chain(m, texts) && n < |texts| && texts[n] == text;
    RecordedLinked(m, e, texts);
    var after := texts[..m.applied + 1] + [Recorded(m, e).text];
    assert Chain(Recorded(m, e), after);
    hide Chain, Recorded;
    assert after[n] == text;
  }

  lemma RecordedInGroup(l: Line, m: Line, e: Edit)
    requires InGroup(l, m) && Fits(e.range, |m.text|) && e.cursorBeforeUndo.None? && e.groupId.None?
    requires IsInsertion(e) ==> e.range.start == m.position
    ensures |m.colors| == |m.text| && m.applied <= |m.edits|
    ensures InGroup(l, Recorded(m, e)) && l.applied < Recorded(m, e).applied
    ensures GroupCursor(l, Recorded(m, e)) == GroupCursor(l, m)
  {
    ChainLinked(m, Texts(m));
    assert m.position <= |m.text| && l.applied <= m.applied;
    RecordedSound(m, e);
    hide Sound, Recorded, GroupShape, HasBefore, GroupCursor;
    RecordedShape(l, m, e);
    RecordedHasBefore(m, e, l.applied, l.text);
  }

  lemma CoalescedShape(l: Line, m: Line, e: Edit)
    requires GroupShape(l, m) && m.edits != [] && m.applied == |m.edits| && m.mayCoalesce
    requires IsInsertion(e) && Fits(e.range, |m.text|) && |m.colors| == |m.text|
    ensures GroupShape(l, Coalesced(m, e)) && l.applied < m.applied == Coalesced(m, e).applied
    ensures GroupCursor(l, Coalesced(m, e)) == GroupCursor(l, m)
  {
    hide Splice;
    assert Coalesced(m, e).edits[..l.applied] == m.edits[..l.applied];
  }

  lemma CoalescedHasBefore(m: Line, e: Edit, n: nat, text: string)
    requires Sound(m) && HasBefore(m, n, text) && n < |m.edits| && IsInsertion(e) && Fits(e.range, |m.text|)
    requires e.range.start == m.position && WantsToCoalesce(m, e.replacement) && |m.colors| == |m.text|
    ensures HasBefore(Coalesced(m, e), n, text)
  {
    CoalescedSound(m, e);
    var texts :| Chain(m, texts) && n < |texts| && texts[n] == text;
    var after := texts[|m.edits| := Coalesced(m, e).text];
    assert Chain(Coalesced(m, e), after);
    hide Chain, Coalesced, Sound;
    assert after[n] == text;
  }

  lemma CoalescedInGroup(l: Line, m: Line, e: Edit)
    requires InGroup(l, m) && Fits(e.range, |m.text|) && IsInsertion(e) && e.range.start == m.position
    requires WantsToCoalesce(m, e.replacement)
    ensures m.edits != [] && |m.colors| == |m.text|
    ensures InGroup(l, Coalesced(m, e)) && l.applied < m.applied == Coalesced(m, e).applied
    ensures GroupCursor(l, Coalesced(m, e)) == GroupCursor(l, m)
  {
    ChainLinked(m, Texts(m));
    assert m.applied == |m.edits| > 0 && m.mayCoalesce;
    assert l.applied < |m.edits|;
    CoalescedSound(m, e);
    hide Sound, Coalesced, GroupShape, HasBefore, GroupCursor, WantsToCoalesce;
    CoalescedShape(l, m, e);
    CoalescedHasBefore(m, e, l.applied, l.text);
  }

  lemma PositionInGroup(l: Line, m: Line, m': Line)
    requires InGroup(l, m) && |m'.colors| == |m.colors| && m'.position <= |m.text|
    requires m' == m.(position := m'.position, colors := m'.colors)
    ensures InGroup(l, m')
  {
    forall texts ensures Chain(m, texts) ==> Chain(m', texts) {
      SameHistory(m, m', texts);
    }
    assert Chain(m', Texts(m));
    hide Chain;
  }

  lemma SameHistory(m: Line, m': Line, texts: seq<string>)
    requires m'.edits == m.edits && m'.applied == m.applied && m'.text == m.text && |m'.colors| == |m.colors|
    ensures Chain(m, texts) ==> Chain(m', texts)
  {
  }

  lemma GroupStep(l: Line, m: Line, c: Command)
    requires InGroup(l, m) && Edits(c) && Admissible(m, c)
    ensures var m' := Execute(m, c);
            && InGroup(l, m') && l.applied <= m.applied && l.applied <= m'.applied
            && (l.applied < m.applied || Changes(c) ==> l.applied < m'.applied)
            && (l.applied < m.applied ==> GroupCursor(l, m') == GroupCursor(l, m))
            && (l.applied == m.applied && l.applied < m'.applied ==> Changes(c) && GroupCursor(l, m') == m.position)
            && (l.applied == m'.applied ==> m'.position == if c.SetPosition? then c.position else m.position)
  {
    if c.PushEdit? {
      var e := NewEdit(c.range, c.replacement);
      assert IsInsertion(e) ==> e.range.start == m.position;
      if c.allowCoalesce && IsInsertion(e) && WantsToCoalesce(m, e.replacement) {
        CoalescedInGroup(l, m, e);
      } else if !(IsInsertion(e) && e.replacement == "") {
        RecordedInGroup(l, m, e);
      }
      hide InGroup, Recorded, Coalesced;
    } else {
      PositionInGroup(l, m, Execute(m, c));
    }
  }

  lemma {:induction false} GroupRun(l: Line, m: Line, commands: seq<Command>)
    requires Sound(m) && InGroup(l, m) && Run(m, commands) && forall c <- commands :: Edits(c)
    ensures var m' := After(m, commands);
            && InGroup(l, m')
            && (l.applied < m.applied || (exists c <- commands :: Changes(c)) ==> l.applied < m'.applied)
            && (l.applied < m.applied ==> GroupCursor(l, m') == GroupCursor(l, m))
            && (l.applied == m.applied && l.applied < m'.applied ==> GroupCursor(l, m') == FirstCursor(m.position, commands))
    decreases |commands|
  {
    hide *;
    if commands == [] {
      NothingRun(m);
    } else {
      FirstRun(m, commands);
      FirstEdit(commands, m.position);
      GroupStep(l, m, commands[0]);
      GroupRun(l, Execute(m, commands[0]), commands[1..]);
    }
  }

  lemma NothingRun(l: Line)
    requires Sound(l)
    ensures Run(l, []) && After(l, []) == l
  {
  }

  lemma FirstRun(l: Line, commands: seq<Command>)
    requires Sound(l) && Run(l, commands) && commands != []
    ensures Admissible(l, commands[0]) && Sound(Execute(l, commands[0])) && Run(Execute(l, commands[0]), commands[1..])
    ensures After(l, commands) == After(Execute(l, commands[0]), commands[1..])
  {
    hide Sound, Execute, Admissible;
    AdmissibleKeepsSound(l, commands[0]);
  }

  lemma FirstEdit(commands: seq<Command>, position: nat)
    requires commands != [] && forall c <- commands :: Edits(c)
    ensures Edits(commands[0]) && forall c <- commands[1..] :: Edits(c)
    ensures (exists c <- commands :: Changes(c)) <==> Changes(commands[0]) || exists c <- commands[1..] :: Changes(c)
    ensures Changes(commands[0]) ==> FirstCursor(position, commands) == position
    ensures !Changes(commands[0]) ==>
              FirstCursor(position, commands)
              == FirstCursor(if commands[0].SetPosition? then commands[0].position else position, commands[1..])
  {
    assert commands == [commands[0]] + commands[1..];
    assert commands[0] in commands;
    hide Changes, Edits;
  }

  lemma EndedSound(m: Line)
    requires Sound(m)
    ensures Sound(GroupEnded(m)) && forall texts :: Chain(m, texts) ==> Chain(GroupEnded(m), texts)
  {
    assert forall texts :: Chain(m, texts) ==> Chain(GroupEnded(m), texts);
    assert Chain(GroupEnded(m), Texts(m));
  }

  /** A group is undone as one, whatever was edited in it and wherever: the text is back, and the cursor is where it was
      before the first change. */
  lemma GroupIsUndoneAsOne(l: Line, commands: seq<Command>)
    requires Sound(l) && l.groupLevel.None?
    ensures Sound(GroupBegun(l))
    ensures Run(GroupBegun(l), commands) && (forall c <- commands :: Edits(c)) && (exists c <- commands :: Changes(c)) ==>
              var ended := GroupEnded(After(GroupBegun(l), commands));
              && Sound(ended)
              && Undone(ended).text == l.text
              && Undone(ended).position == FirstCursor(l.position, commands)
              && Undone(ended).applied == l.applied
  {
    BegunInGroup(l);
    if Run(GroupBegun(l), commands) && (forall c <- commands :: Edits(c)) && (exists c <- commands :: Changes(c)) {
      GroupRun(l, GroupBegun(l), commands);
      EndedIsUndone(l, After(GroupBegun(l), commands));
    }
  }

  /** So if the cursor is not moved but by the edits, everything is as it was before the group. */
  lemma GroupRestoresLine(l: Line, commands: seq<Command>)
    requires Sound(l) && l.groupLevel.None?
    requires Sound(GroupBegun(l)) && Run(GroupBegun(l), commands)
    requires (forall c <- commands :: Edits(c) && !c.SetPosition?) && (exists c <- commands :: Changes(c))
    ensures var ended := GroupEnded(After(GroupBegun(l), commands));
            && Sound(ended)
            && Undone(ended).text == l.text && Undone(ended).position == l.position && Undone(ended).applied == l.applied
  {
    hide Sound, Run, After, GroupBegun, GroupEnded, Undone, Changes;
    GroupIsUndoneAsOne(l, commands);
    CursorNotMoved(l.position, commands);
  }

  lemma {:induction false} CursorNotMoved(position: nat, commands: seq<Command>)
    requires forall c <- commands :: !c.SetPosition?
    ensures FirstCursor(position, commands) == position
    decreases |commands|
  {
    if commands != [] {
      assert commands[0] in commands;
      CursorNotMoved(position, commands[1..]);
    }
  }

  lemma EndedIsUndone(l: Line, m: Line)
    requires Sound(l) && InGroup(l, m) && l.applied < m.applied
    ensures Sound(GroupEnded(m))
    ensures var u := Undone(GroupEnded(m));
            u.text == l.text && u.position == GroupCursor(l, m) && u.applied == l.applied
  {
    var texts :| Chain(m, texts) && l.applied < |texts| && texts[l.applied] == l.text;
    EndedSound(m);
    OutsideGroup(l, m);
    hide Sound, Chain;
    UndoneTo(GroupEnded(m), l.applied, texts);
  }

  /** What was there before the group does not belong to it. */
  lemma OutsideGroup(l: Line, m: Line)
    requires Sound(l) && GroupShape(l, m) && l.applied < m.applied
    ensures m.applied <= |m.edits|
    ensures forall i :: l.applied < i < m.applied ==> SameGroup(m.edits[i - 1], m.edits[i].groupId)
    ensures 0 < l.applied ==> !SameGroup(m.edits[l.applied - 1], m.edits[l.applied].groupId)
  {
    if 0 < l.applied {
      assert m.edits[l.applied - 1] == m.edits[..l.applied][l.applied - 1] == l.edits[l.applied - 1];
      assert GroupIdsUsed(l.edits, l.groupId);
    }
  }

  // ---------------------------------------------------------------- one edit, and typing

  /** An edit outside of a group that is not merged into the last one is undone on its own. */
  lemma EditIsUndone(l: Line, c: Command)
    requires Sound(l) && l.groupLevel.None? && Changes(c) && Admissible(l, c)
    requires !(c.allowCoalesce && c.range.start == c.range.end && WantsToCoalesce(l, c.replacement))
    ensures var r := Execute(l, c);
            && Sound(r) && r.applied == l.applied + 1
            && Undone(r).text == l.text && Undone(r).position == l.position && Undone(r).applied == l.applied
  {
    AdmissibleKeepsSound(l, c);
    var r := Execute(l, c);
    var texts := Texts(l);
    RecordedLinked(l, NewEdit(c.range, c.replacement), texts);
    var after := texts[..l.applied + 1] + [r.text];
    assert r == Recorded(l, NewEdit(c.range, c.replacement)) && Chain(r, after);
    assert after[l.applied] == l.text && r.edits[l.applied].cursorBeforeEdit == l.position && r.edits[l.applied].groupId.None?;
    hide Sound, Chain, Recorded, Execute;
    UndoneTo(r, l.applied, after);
  }

  /** One that is merged is undone with the edit it is merged into. */
  lemma MergedIsUndoneToo(l: Line, c: Command)
    requires Sound(l) && l.groupLevel.None? && c.PushEdit? && Admissible(l, c)
    requires c.allowCoalesce && c.range.start == c.range.end && WantsToCoalesce(l, c.replacement)
    requires 0 < l.applied <= |l.edits| && l.edits[l.applied - 1].groupId.None?
    ensures var r := Execute(l, c);
            && Sound(r) && r.applied == l.applied && r.edits != [] && r.edits[r.applied - 1].groupId.None?
            && Undone(r).text == Undone(l).text && Undone(r).position == Undone(l).position
            && Undone(r).applied == Undone(l).applied == l.applied - 1
  {
    AdmissibleKeepsSound(l, c);
    var e, r := NewEdit(c.range, c.replacement), Execute(l, c);
    var texts := Texts(l);
    CoalescedSound(l, e);
    var after := texts[|l.edits| := r.text];
    assert r == Coalesced(l, e) && Chain(r, after) && l.applied == |l.edits|;
    assert r.edits[l.applied - 1].cursorBeforeEdit == l.edits[l.applied - 1].cursorBeforeEdit;
    hide Sound, Chain, Coalesced, Execute;
    UndoneTo(l, l.applied - 1, texts);
    UndoneTo(r, l.applied - 1, after);
  }

  /** Characters typed one after the other at the cursor. */
  function Typing(position: nat, s: string): seq<Command>
    decreases |s|
  {
    if s == "" then [] else [PushEdit(Range(position, position), [s[0]], true)] + Typing(position + 1, s[1..])
  }

  predicate NoSpaces(s: string) {
    forall i :: 0 <= i < |s| ==> s[i] != ' '
  }

  /** The last edit goes on as long as something other than a space is typed. */
  ghost predicate GoesOn(l: Line) {
    && Sound(l) && l.groupLevel.None? && l.mayCoalesce && 0 < l.applied == |l.edits|
    && var last := l.edits[|l.edits| - 1];
    && IsInsertion(last) && last.groupId.None? && CursorAfterEdit(last) == l.position
  }

  /** The text typed is there, and one undo takes it back together with what it goes on from. */
  ghost predicate Typed(l: Line, s: string, r: Line) {
    && Sound(l) && Sound(r) && l.position <= |l.text| && r.applied == l.applied && r.position == l.position + |s|
    && r.text == l.text[..l.position] + s + l.text[l.position..]
    && Undone(r).text == Undone(l).text && Undone(r).position == Undone(l).position
  }

  lemma GoesOnTyping(l: Line, c: char)
    requires GoesOn(l) && c != ' '
    ensures Sound(l)
    ensures var command := PushEdit(Range(l.position, l.position), [c], true);
            && Admissible(l, command) && WantsToCoalesce(l, [c])
            && var r := Execute(l, command);
            GoesOn(r) && Sound(r) && r.position == l.position + 1 && Typed(l, [c], r)
  {
    MergedIsUndoneToo(l, PushEdit(Range(l.position, l.position), [c], true));
    assert l.position <= |l.text|;
    hide Sound, Undone;
  }

  lemma OneThen(l: Line, c: Command, rest: seq<Command>)
    requires Sound(l) && Admissible(l, c)
    ensures Sound(Execute(l, c))
    ensures Run(Execute(l, c), rest) ==>
              Run(l, [c] + rest) && After(l, [c] + rest) == After(Execute(l, c), rest)
  {
    AdmissibleKeepsSound(l, c);
    assert ([c] + rest)[1..] == rest;
    hide Sound, Execute, Admissible;
  }

  lemma {:induction false} TypingRun(l: Line, s: string)
    requires Sound(l) && GoesOn(l) && NoSpaces(s)
    ensures Run(l, Typing(l.position, s)) && Typed(l, s, After(l, Typing(l.position, s)))
    decreases |s|
  {
    hide *;
    if s == "" {
      NothingTyped(l);
    } else {
      OneTyped(l, s);
      var r := Execute(l, PushEdit(Range(l.position, l.position), [s[0]], true));
      TypingRun(r, s[1..]);
      OneThen(l, PushEdit(Range(l.position, l.position), [s[0]], true), Typing(l.position + 1, s[1..]));
      TypedThen(l, s, r, After(r, Typing(l.position + 1, s[1..])));
    }
  }

  lemma NothingTyped(l: Line)
    requires Sound(l)
    ensures Run(l, Typing(l.position, "")) && Typed(l, "", After(l, Typing(l.position, "")))
  {
    assert l.position <= |l.text|;
    hide Sound, Undone;
    assert l.text[..l.position] + "" + l.text[l.position..] == l.text;
  }

  lemma OneTyped(l: Line, s: string)
    requires GoesOn(l) && NoSpaces(s) && s != ""
    ensures var c := PushEdit(Range(l.position, l.position), [s[0]], true);
            && Admissible(l, c) && GoesOn(Execute(l, c)) && Sound(Execute(l, c)) && Typed(l, [s[0]], Execute(l, c))
            && Execute(l, c).position == l.position + 1
            && Typing(l.position, s) == [c] + Typing(l.position + 1, s[1..])
    ensures NoSpaces(s[1..])
  {
    GoesOnTyping(l, s[0]);
    hide Sound, GoesOn, Execute, WantsToCoalesce, Typed, Admissible;
  }

  lemma TypedThen(l: Line, s: string, m: Line, r: Line)
    requires s != "" && Typed(l, [s[0]], m) && Typed(m, s[1..], r)
    ensures Typed(l, s, r)
  {
    hide Sound, Undone;
    Interleave(l.text, l.position, s, m.text);
  }

  lemma Interleave(text: string, p: nat, s: string, next: string)
    requires p <= |text| && s != "" && next == text[..p] + [s[0]] + text[p..]
    ensures next[..p + 1] + s[1..] + next[p + 1..] == text[..p] + s + text[p..]
  {
    assert next[..p + 1] == text[..p] + [s[0]] && next[p + 1..] == text[p..];
    assert [s[0]] + s[1..] == s;
  }

  /** A word, or a space and a word, that is typed character by character is undone as one. */
  lemma TypingIsUndoneAsOne(l: Line, s: string)
    requires Sound(l) && l.groupLevel.None? && s != "" && NoSpaces(s[1..]) && !WantsToCoalesce(l, [s[0]])
    ensures Run(l, Typing(l.position, s))
    ensures var r := After(l, Typing(l.position, s));
            && Sound(r) && r.text == l.text[..l.position] + s + l.text[l.position..] && r.applied == l.applied + 1
            && Undone(r).text == l.text && Undone(r).position == l.position
  {
    var p := l.position;
    assert p <= |l.text|;
    var c := PushEdit(Range(p, p), [s[0]], true);
    EditIsUndone(l, c);
    FirstTyped(l, s[0]);
    var r := Execute(l, c);
    OneThen(l, c, Typing(p + 1, s[1..]));
    assert Typing(p, s) == [c] + Typing(p + 1, s[1..]);
    assert forall m: Line :: Sound(m) ==> Linked(m);
    hide Sound, Linked, Undone, Execute, GoesOn, Typing, NoSpaces, WantsToCoalesce, Run, After;
    TypingRun(r, s[1..]);
    assert Typed(r, s[1..], After(r, Typing(p + 1, s[1..])));
    Interleave(l.text, p, s, r.text);
  }

  lemma FirstTyped(l: Line, c: char)
    requires Sound(l) && l.groupLevel.None? && !WantsToCoalesce(l, [c])
    ensures var command := PushEdit(Range(l.position, l.position), [c], true);
            && Admissible(l, command)
            && var r := Execute(l, command);
            GoesOn(r) && r.position == l.position + 1 && r.text == l.text[..l.position] + [c] + l.text[l.position..]
  {
    AdmissibleKeepsSound(l, PushEdit(Range(l.position, l.position), [c], true));
    hide Sound;
  }
}
