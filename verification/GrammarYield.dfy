/**
 What a tree that Grammar reads says about the tokens it is read from.

 Each node takes up the tokens between where it starts and what it leaves: these are its leaves, in order, with
 newlines and semicolons in between that belong to no node; and each undecorated command in it is where a command
 can be. There is one lemma for each kind of node, which puts together those of its fields.
 */
module GrammarYield {
  import opened Common
  import opened TokenStream
  import opened Ast
  import opened Grammar

  /** This string is the name of a command: not a keyword of the grammar, unless it stands alone or before an option. */
  predicate NamesCommand(t: Token, next: Token) {
    && t.typ == String && !t.mayBeVariableAssignment
    && (InvokesHelp(t, next) || t.keyword !in {KwNot, KwExclam, KwFor, KwWhile, KwFunction, KwBegin, KwIf, KwSwitch, KwEnd})
  }

  predicate CommandAt(toks: seq<Token>, leaf: Leaf) {
    exists i :: 0 <= i < |toks| && leaf == Sourced(toks[i]) && NamesCommand(toks[i], TokenAt(toks, i + 1))
  }

  predicate CommandsIn(toks: seq<Token>, slots: seq<Slot>) {
    forall slot <- slots :: slot.kind == CommandName ==> CommandAt(toks, slot.leaf)
  }

  predicate Took(rest: seq<Token>, r: seq<Token>, slots: seq<Slot>) {
    && |r| <= |rest| && rest[|rest| - |r|..] == r
    && Covers(rest[..|rest| - |r|], slots)
    && CommandsIn(rest, slots)
  }

  lemma CommandStays(rest: seq<Token>, r: seq<Token>, leaf: Leaf)
    requires |r| <= |rest| && rest[|rest| - |r|..] == r && CommandAt(r, leaf)
    ensures CommandAt(rest, leaf)
  {
    hide NamesCommand;
    var i :| 0 <= i < |r| && leaf == Sourced(r[i]) && NamesCommand(r[i], TokenAt(r, i + 1));
    var j := |rest| - |r| + i;
    assert rest[j] == r[i] && TokenAt(rest, j + 1) == TokenAt(r, i + 1);
  }

  lemma TookThen(a: seq<Token>, b: seq<Token>, c: seq<Token>, x: seq<Slot>, y: seq<Slot>)
    requires Took(a, b, x) && Took(b, c, y)
    ensures Took(a, c, x + y)
  {
    TookTokens(a, b, c);
    CoversConcat(a[..|a| - |b|], x, b[..|b| - |c|], y);
    hide Covers, CommandAt;
    forall slot <- x + y | slot.kind == CommandName ensures CommandAt(a, slot.leaf) {
      if slot !in x {
        assert slot in y;
        CommandStays(a, b, slot.leaf);
      }
    }
  }

  lemma TookTokens(a: seq<Token>, b: seq<Token>, c: seq<Token>)
    requires |c| <= |b| <= |a| && a[|a| - |b|..] == b && b[|b| - |c|..] == c
    ensures a[|a| - |c|..] == c && a[..|a| - |b|] + b[..|b| - |c|] == a[..|a| - |c|]
  {
  }

  lemma TookNothing(rest: seq<Token>)
    ensures Took(rest, rest, [])
  {
  }

  lemma TookOne(rest: seq<Token>, kind: Kind)
    requires rest != [] && Allows(kind, rest[0]) && (kind == CommandName ==> NamesCommand(rest[0], TokenAt(rest, 1)))
    ensures Took(rest, rest[1..], One(kind, Sourced(rest[0])))
  {
    var tok := rest[0];
    assert rest[..1] == [tok] && [tok][1..] == [] && One(kind, Sourced(tok))[1..] == [];
    if kind == CommandName {
      assert CommandAt(rest, Sourced(rest[0]));
    }
  }

  lemma LeafTook(rest: seq<Token>, kind: Kind, leaf: Leaf)
    requires ReadLeaf(rest, kind, leaf).Leaves? && kind != CommandName
    ensures Took(rest, ReadLeaf(rest, kind, leaf).rest, One(kind, leaf))
  {
    TookOne(rest, kind);
  }

  lemma MaybeTook(rest: seq<Token>, kind: Kind, leaf: Option<Leaf>, starts: bool)
    requires ReadMaybe(rest, kind, leaf, starts).Leaves? && kind != CommandName
    ensures Took(rest, ReadMaybe(rest, kind, leaf, starts).rest, Maybe(kind, leaf))
  {
    if starts {
      LeafTook(rest, kind, leaf.value);
    } else {
      TookNothing(rest);
    }
  }

  lemma {:induction false} ChompedTook(rest: seq<Token>, newlines: bool, semis: bool)
    ensures Took(rest, Chomped(rest, newlines, semis), [])
    decreases |rest|
  {
    if rest != [] && rest[0].typ == End && (if rest[0].isNewline then newlines else semis) {
      ChompedTook(rest[1..], newlines, semis);
      var tok := rest[0];
      assert rest[..1] == [tok] && [tok][1..] == [];
      assert Took(rest, rest[1..], []);
      TookThen(rest, rest[1..], Chomped(rest[1..], newlines, semis), [], []);
      var none: seq<Slot> := [];
      assert none + none == none;
    } else {
      TookNothing(rest);
    }
  }

  lemma ChompedThen(rest: seq<Token>, newlines: bool, semis: bool, r: seq<Token>, slots: seq<Slot>)
    requires Took(Chomped(rest, newlines, semis), r, slots)
    ensures Took(rest, r, slots)
  {
    hide Took, Chomped;
    ChompedTook(rest, newlines, semis);
    TookThen(rest, Chomped(rest, newlines, semis), r, [], slots);
    assert [] + slots == slots;
  }

  lemma {:induction false} NewlinesTook(rest: seq<Token>, newlines: Newlines)
    requires ReadNewlines(rest, newlines).Leaves?
    ensures Took(rest, ReadNewlines(rest, newlines).rest, OfNewlines(newlines))
    decreases |rest|
  {
    if newlines.toks == [] {
      TookNothing(rest);
    } else {
      var more := Newlines(newlines.toks[1..]);
      NewlinesTook(rest[1..], more);
      TookOne(rest, Newline);
      hide Took;
      assert OfNewlines(newlines) == One(Newline, Sourced(rest[0])) + OfNewlines(more);
      TookThen(rest, rest[1..], ReadNewlines(rest, newlines).rest, One(Newline, Sourced(rest[0])), OfNewlines(more));
    }
  }

  lemma {:induction false} AssignmentsTook(rest: seq<Token>, list: seq<Leaf>)
    requires ReadAssignments(rest, list).Leaves?
    ensures Took(rest, ReadAssignments(rest, list).rest, Many(Assignment, list))
    decreases list
  {
    hide Took, Chomped, ReadLeaf;
    if list == [] {
      TookNothing(rest);
    } else {
      var r, r' := ReadLeaf(rest, Assignment, list[0]).rest, ReadAssignments(rest, list).rest;
      LeafTook(rest, Assignment, list[0]);
      AssignmentsTook(r, list[1..]);
      TookThen(rest, r, r', One(Assignment, list[0]), Many(Assignment, list[1..]));
    }
  }

  lemma {:induction false} ArgumentsTook(rest: seq<Token>, list: seq<Leaf>, freestanding: bool)
    requires ReadArguments(rest, list, freestanding).Leaves?
    ensures Took(rest, ReadArguments(rest, list, freestanding).rest, Many(Str, list))
    decreases list
  {
    hide Took, Chomped, ReadLeaf;
    var next := Chomped(rest, freestanding, freestanding);
    if list == [] {
      TookNothing(next);
    } else {
      var r, r' := ReadLeaf(next, Str, list[0]).rest, ReadArguments(rest, list, freestanding).rest;
      LeafTook(next, Str, list[0]);
      ArgumentsTook(r, list[1..], freestanding);
      TookThen(next, r, r', One(Str, list[0]), Many(Str, list[1..]));
    }
    ChompedThen(rest, freestanding, freestanding, ReadArguments(rest, list, freestanding).rest, Many(Str, list));
  }

  lemma RedirectionTook(rest: seq<Token>, r: Redirection)
    requires ReadRedirection(rest, r).Leaves?
    ensures Took(rest, ReadRedirection(rest, r).rest, OfRedirection(r))
  {
    hide Took, ReadLeaf;
    var r1 := ReadLeaf(rest, TokenRedirection, r.oper).rest;
    LeafTook(rest, TokenRedirection, r.oper);
    var r2 := ReadLeaf(r1, Str, r.target).rest;
    LeafTook(r1, Str, r.target);
    TookThen(rest, r1, r2, One(TokenRedirection, r.oper), One(Str, r.target));
  }

  lemma ArgumentOrRedirectionTook(rest: seq<Token>, arg: ArgumentOrRedirection)
    requires ReadArgumentOrRedirection(rest, arg).Leaves?
    ensures Took(rest, ReadArgumentOrRedirection(rest, arg).rest, OfArgumentOrRedirection(arg))
  {
    match arg
    case Argument(leaf) => LeafTook(rest, Str, leaf);
    case Redirected(r) => RedirectionTook(rest, r);
  }

  lemma {:induction false} ArgsTook(rest: seq<Token>, list: seq<ArgumentOrRedirection>)
    requires ReadArgs(rest, list).Leaves?
    ensures Took(rest, ReadArgs(rest, list).rest, OfArgs(list))
    decreases list
  {
    hide Took, Chomped, ReadArgumentOrRedirection;
    if list == [] {
      TookNothing(rest);
    } else {
      var r, r' := ReadArgumentOrRedirection(rest, list[0]).rest, ReadArgs(rest, list).rest;
      ArgumentOrRedirectionTook(rest, list[0]);
      ArgsTook(r, list[1..]);
      TookThen(rest, r, r', OfArgumentOrRedirection(list[0]), OfArgs(list[1..]));
    }
  }

  lemma EndTook(rest: seq<Token>, end: Leaf, args: seq<ArgumentOrRedirection>)
    requires ReadEnd(rest, end, args).Leaves?
    ensures Took(rest, ReadEnd(rest, end, args).rest, OfEnd(end, args))
  {
    hide Took, ReadLeaf, ReadArgs;
    var r1 := ReadLeaf(rest, Word(KwEnd), end).rest;
    LeafTook(rest, Word(KwEnd), end);
    var r2 := ReadArgs(r1, args).rest;
    ArgsTook(r1, args);
    TookThen(rest, r1, r2, One(Word(KwEnd), end), OfArgs(args));
  }

  lemma CommandTook(rest: seq<Token>, decoration: Option<Leaf>, command: Leaf, args: seq<ArgumentOrRedirection>)
    requires StartsCommand(rest) && ReadCommand(rest, decoration, command, args).Leaves?
    ensures Took(rest, ReadCommand(rest, decoration, command, args).rest,
                 Maybe(Decorator, decoration) + One(if decoration.None? then CommandName else Str, command) + OfArgs(args))
  {
    var starts := StartsDecorator(TokenAt(rest, 0), TokenAt(rest, 1));
    var r1 := ReadMaybe(rest, Decorator, decoration, starts).rest;
    var r2 := ReadLeaf(r1, Str, command).rest;
    var r3 := ReadArgs(r2, args).rest;
    var kind := if decoration.None? then CommandName else Str;
    MaybeTook(rest, Decorator, decoration, starts);
    TookOne(r1, kind);
    ArgsTook(r2, args);
    hide Took;
    TookThen(rest, r1, r2, Maybe(Decorator, decoration), One(kind, command));
    TookThen(rest, r2, r3, Maybe(Decorator, decoration) + One(kind, command), OfArgs(args));
  }

  lemma {:induction false} JobsTook(rest: seq<Token>, list: seq<JobConjunction>)
    requires ReadJobs(rest, list).Leaves?
    ensures Took(rest, ReadJobs(rest, list).rest, OfJobs(list))
    decreases list
  {
    hide Took, Chomped, ReadJobConjunction;
    var next := Chomped(rest, true, true);
    if list == [] {
      TookNothing(next);
    } else {
      var r, r' := ReadJobConjunction(next, list[0]).rest, ReadJobs(rest, list).rest;
      JobConjunctionTook(next, list[0]);
      JobsTook(r, list[1..]);
      TookThen(next, r, r', OfJobConjunction(list[0]), OfJobs(list[1..]));
    }
    ChompedThen(rest, true, true, ReadJobs(rest, list).rest, OfJobs(list));
  }

  lemma {:induction false} AndorJobsTook(rest: seq<Token>, list: seq<JobConjunction>)
    requires ReadAndorJobs(rest, list).Leaves?
    ensures Took(rest, ReadAndorJobs(rest, list).rest, OfJobs(list))
    decreases list
  {
    hide Took, Chomped, ReadJobConjunction;
    var next := Chomped(rest, true, true);
    if list == [] {
      TookNothing(next);
    } else {
      var r, r' := ReadJobConjunction(next, list[0]).rest, ReadAndorJobs(rest, list).rest;
      JobConjunctionTook(next, list[0]);
      AndorJobsTook(r, list[1..]);
      TookThen(next, r, r', OfJobConjunction(list[0]), OfJobs(list[1..]));
    }
    ChompedThen(rest, true, true, ReadAndorJobs(rest, list).rest, OfJobs(list));
  }

  lemma JobConjunctionTook(rest: seq<Token>, j: JobConjunction)
    requires ReadJobConjunction(rest, j).Leaves?
    ensures Took(rest, ReadJobConjunction(rest, j).rest, OfJobConjunction(j))
    decreases j
  {
    hide Took, ReadMaybe, ReadJobPipeline, ReadConjunctions;
    var r1 := ReadMaybe(rest, JobDecorator, j.decorator, StartsJobDecorator(TokenAt(rest, 0), TokenAt(rest, 1))).rest;
    MaybeTook(rest, JobDecorator, j.decorator, StartsJobDecorator(TokenAt(rest, 0), TokenAt(rest, 1)));
    var r2 := ReadJobPipeline(r1, j.job).rest;
    JobPipelineTook(r1, j.job);
    TookThen(rest, r1, r2, Maybe(JobDecorator, j.decorator), OfJobPipeline(j.job));
    var r3 := ReadConjunctions(r2, j.continuations).rest;
    ConjunctionsTook(r2, j.continuations);
    TookThen(rest, r2, r3, Maybe(JobDecorator, j.decorator) + OfJobPipeline(j.job), OfConjunctions(j.continuations));
    var r4 := ReadMaybe(r3, SemiNl, j.semiNl, Allows(SemiNl, TokenAt(r3, 0))).rest;
    MaybeTook(r3, SemiNl, j.semiNl, Allows(SemiNl, TokenAt(r3, 0)));
    TookThen(rest, r3, r4,
             Maybe(JobDecorator, j.decorator) + OfJobPipeline(j.job) + OfConjunctions(j.continuations),
             Maybe(SemiNl, j.semiNl));
  }

  lemma {:induction false} ConjunctionsTook(rest: seq<Token>, list: seq<JobConjunctionContinuation>)
    requires ReadConjunctions(rest, list).Leaves?
    ensures Took(rest, ReadConjunctions(rest, list).rest, OfConjunctions(list))
    decreases list
  {
    hide Took, Chomped, ReadConjunction;
    if list == [] {
      TookNothing(rest);
    } else {
      var r, r' := ReadConjunction(rest, list[0]).rest, ReadConjunctions(rest, list).rest;
      ConjunctionTook(rest, list[0]);
      ConjunctionsTook(r, list[1..]);
      TookThen(rest, r, r', OfConjunction(list[0]), OfConjunctions(list[1..]));
    }
  }

  lemma ConjunctionTook(rest: seq<Token>, c: JobConjunctionContinuation)
    requires ReadConjunction(rest, c).Leaves?
    ensures Took(rest, ReadConjunction(rest, c).rest, OfConjunction(c))
    decreases c
  {
    hide Took, ReadLeaf, ReadNewlines, ReadJobPipeline;
    var r1 := ReadLeaf(rest, TokenConjunction, c.conjunction).rest;
    LeafTook(rest, TokenConjunction, c.conjunction);
    var r2 := ReadNewlines(r1, c.newlines).rest;
    NewlinesTook(r1, c.newlines);
    TookThen(rest, r1, r2, One(TokenConjunction, c.conjunction), OfNewlines(c.newlines));
    var r3 := ReadJobPipeline(r2, c.job).rest;
    JobPipelineTook(r2, c.job);
    TookThen(rest, r2, r3, One(TokenConjunction, c.conjunction) + OfNewlines(c.newlines), OfJobPipeline(c.job));
  }

  lemma JobPipelineTook(rest: seq<Token>, j: JobPipeline)
    requires ReadJobPipeline(rest, j).Leaves?
    ensures Took(rest, ReadJobPipeline(rest, j).rest, OfJobPipeline(j))
    decreases j
  {
    hide Took, ReadMaybe, ReadAssignments, ReadStatement, ReadContinuations;
    var r1 := ReadMaybe(rest, Word(KwTime), j.time, StartsTime(TokenAt(rest, 0), TokenAt(rest, 1))).rest;
    MaybeTook(rest, Word(KwTime), j.time, StartsTime(TokenAt(rest, 0), TokenAt(rest, 1)));
    var r2 := ReadAssignments(r1, j.variables).rest;
    AssignmentsTook(r1, j.variables);
    TookThen(rest, r1, r2, Maybe(Word(KwTime), j.time), Many(Assignment, j.variables));
    var r3 := ReadStatement(r2, j.statement).rest;
    StatementTook(r2, j.statement);
    TookThen(rest, r2, r3, Maybe(Word(KwTime), j.time) + Many(Assignment, j.variables), OfStatement(j.statement));
    var r4 := ReadContinuations(r3, j.continuation).rest;
    ContinuationsTook(r3, j.continuation);
    TookThen(rest, r3, r4,
             Maybe(Word(KwTime), j.time) + Many(Assignment, j.variables) + OfStatement(j.statement),
             OfContinuations(j.continuation));
    var r5 := ReadMaybe(r4, TokenBackground, j.bg, Allows(TokenBackground, TokenAt(r4, 0))).rest;
    MaybeTook(r4, TokenBackground, j.bg, Allows(TokenBackground, TokenAt(r4, 0)));
    TookThen(rest, r4, r5,
             Maybe(Word(KwTime), j.time) + Many(Assignment, j.variables) + OfStatement(j.statement) + OfContinuations(j.continuation),
             Maybe(TokenBackground, j.bg));
  }

  lemma {:induction false} ContinuationsTook(rest: seq<Token>, list: seq<JobContinuation>)
    requires ReadContinuations(rest, list).Leaves?
    ensures Took(rest, ReadContinuations(rest, list).rest, OfContinuations(list))
    decreases list
  {
    hide Took, Chomped, ReadContinuation;
    if list == [] {
      TookNothing(rest);
    } else {
      var r, r' := ReadContinuation(rest, list[0]).rest, ReadContinuations(rest, list).rest;
      ContinuationTook(rest, list[0]);
      ContinuationsTook(r, list[1..]);
      TookThen(rest, r, r', OfContinuation(list[0]), OfContinuations(list[1..]));
    }
  }

  lemma ContinuationTook(rest: seq<Token>, c: JobContinuation)
    requires ReadContinuation(rest, c).Leaves?
    ensures Took(rest, ReadContinuation(rest, c).rest, OfContinuation(c))
    decreases c
  {
    hide Took, ReadLeaf, ReadNewlines, ReadAssignments, ReadStatement;
    var r1 := ReadLeaf(rest, TokenPipe, c.pipe).rest;
    LeafTook(rest, TokenPipe, c.pipe);
    var r2 := ReadNewlines(r1, c.newlines).rest;
    NewlinesTook(r1, c.newlines);
    TookThen(rest, r1, r2, One(TokenPipe, c.pipe), OfNewlines(c.newlines));
    var r3 := ReadAssignments(r2, c.variables).rest;
    AssignmentsTook(r2, c.variables);
    TookThen(rest, r2, r3, One(TokenPipe, c.pipe) + OfNewlines(c.newlines), Many(Assignment, c.variables));
    var r4 := ReadStatement(r3, c.statement).rest;
    StatementTook(r3, c.statement);
    TookThen(rest, r3, r4,
             One(TokenPipe, c.pipe) + OfNewlines(c.newlines) + Many(Assignment, c.variables),
             OfStatement(c.statement));
  }

  lemma StatementTook(rest: seq<Token>, s: Statement)
    requires ReadStatement(rest, s).Leaves?
    ensures Took(rest, ReadStatement(rest, s).rest, OfStatement(s))
    decreases s, 1
  {
    match s
    case DecoratedStatement(decoration, command, args) =>
      hide ReadCommand, Took, StartsCommand;
      CommandTook(rest, decoration, command, args);
    case NotStatement(_, _, _, _) => NotTook(rest, s);
    case BlockStatement(_, _, _, _) => BlockTook(rest, s);
    case BraceStatement(_, _, _, _) => BraceTook(rest, s);
    case IfStatement(_, _, _, _, _) => IfTook(rest, s);
    case SwitchStatement(_, _, _, _, _, _) => SwitchTook(rest, s);
  }

  lemma NotTook(rest: seq<Token>, s: Statement)
    requires ReadStatement(rest, s).Leaves? && s.NotStatement?
    ensures Took(rest, ReadStatement(rest, s).rest, OfStatement(s))
    decreases s, 0
  {
    hide Took, ReadLeaf, ReadMaybe, ReadAssignments;
    var r1 := ReadLeaf(rest, NotKeyword, s.kwNot).rest;
    LeafTook(rest, NotKeyword, s.kwNot);
    var r2 := ReadMaybe(r1, Word(KwTime), s.time, StartsTime(TokenAt(r1, 0), TokenAt(r1, 1))).rest;
    MaybeTook(r1, Word(KwTime), s.time, StartsTime(TokenAt(r1, 0), TokenAt(r1, 1)));
    TookThen(rest, r1, r2, One(NotKeyword, s.kwNot), Maybe(Word(KwTime), s.time));
    var r3 := ReadAssignments(r2, s.variables).rest;
    AssignmentsTook(r2, s.variables);
    TookThen(rest, r2, r3, One(NotKeyword, s.kwNot) + Maybe(Word(KwTime), s.time), Many(Assignment, s.variables));
    var r4 := ReadStatement(r3, s.contents).rest;
    StatementTook(r3, s.contents);
    TookThen(rest, r3, r4,
             One(NotKeyword, s.kwNot) + Maybe(Word(KwTime), s.time) + Many(Assignment, s.variables),
             OfStatement(s.contents));
  }

  lemma BraceTook(rest: seq<Token>, s: Statement)
    requires ReadStatement(rest, s).Leaves? && s.BraceStatement?
    ensures Took(rest, ReadStatement(rest, s).rest, OfStatement(s))
    decreases s, 0
  {
    hide Took, ReadLeaf, ReadJobs, ReadArgs;
    var r1 := ReadLeaf(rest, TokenLeftBrace, s.left).rest;
    LeafTook(rest, TokenLeftBrace, s.left);
    var r2 := ReadJobs(r1, s.jobs).rest;
    JobsTook(r1, s.jobs);
    TookThen(rest, r1, r2, One(TokenLeftBrace, s.left), OfJobs(s.jobs));
    var r3 := ReadLeaf(r2, TokenRightBrace, s.right).rest;
    LeafTook(r2, TokenRightBrace, s.right);
    TookThen(rest, r2, r3, One(TokenLeftBrace, s.left) + OfJobs(s.jobs), One(TokenRightBrace, s.right));
    var r4 := ReadArgs(r3, s.args).rest;
    ArgsTook(r3, s.args);
    TookThen(rest, r3, r4,
             One(TokenLeftBrace, s.left) + OfJobs(s.jobs) + One(TokenRightBrace, s.right),
             OfArgs(s.args));
  }

  lemma IfTook(rest: seq<Token>, s: Statement)
    requires ReadStatement(rest, s).Leaves? && s.IfStatement?
    ensures Took(rest, ReadStatement(rest, s).rest, OfStatement(s))
    decreases s, 0
  {
    hide Took, ReadIfClause, ReadElseifs, ReadMaybeElse, ReadEnd;
    var r1 := ReadIfClause(rest, s.ifClause).rest;
    IfClauseTook(rest, s.ifClause);
    var r2 := ReadElseifs(r1, s.elseifClauses).rest;
    ElseifsTook(r1, s.elseifClauses);
    TookThen(rest, r1, r2, OfIfClause(s.ifClause), OfElseifs(s.elseifClauses));
    var r3 := ReadMaybeElse(r2, s.elseClause).rest;
    MaybeElseTook(r2, s.elseClause);
    TookThen(rest, r2, r3,
             OfIfClause(s.ifClause) + OfElseifs(s.elseifClauses),
             (if s.elseClause.Some? then OfElse(s.elseClause.value) else []));
    var r4 := ReadEnd(r3, s.end, s.args).rest;
    EndTook(r3, s.end, s.args);
    TookThen(rest, r3, r4,
             OfIfClause(s.ifClause) + OfElseifs(s.elseifClauses) + (if s.elseClause.Some? then OfElse(s.elseClause.value) else []),
             OfEnd(s.end, s.args));
  }

  lemma BlockTook(rest: seq<Token>, s: Statement)
    requires ReadStatement(rest, s).Leaves? && s.BlockStatement?
    ensures Took(rest, ReadStatement(rest, s).rest, OfStatement(s))
    decreases s, 0
  {
    hide Took, ReadHeader, ReadJobs, ReadEnd;
    var r1 := ReadHeader(rest, s.header).rest;
    HeaderTook(rest, s.header);
    var r2 := ReadJobs(r1, s.jobs).rest;
    JobsTook(r1, s.jobs);
    TookThen(rest, r1, r2, OfHeader(s.header), OfJobs(s.jobs));
    var r3 := ReadEnd(r2, s.end, s.args).rest;
    EndTook(r2, s.end, s.args);
    TookThen(rest, r2, r3, OfHeader(s.header) + OfJobs(s.jobs), OfEnd(s.end, s.args));
  }

  lemma SwitchTook(rest: seq<Token>, s: Statement)
    requires ReadStatement(rest, s).Leaves? && s.SwitchStatement?
    ensures Took(rest, ReadStatement(rest, s).rest, OfStatement(s))
    decreases s, 0
  {
    hide Took, ReadSwitchHead, ReadCases, ReadEnd;
    var r1 := ReadSwitchHead(rest, s.kwSwitch, s.argument, s.semiNl).rest;
    SwitchHeadTook(rest, s.kwSwitch, s.argument, s.semiNl);
    var r2 := ReadCases(r1, s.cases).rest;
    CasesTook(r1, s.cases);
    TookThen(rest, r1, r2, OfSwitchHead(s.kwSwitch, s.argument, s.semiNl), OfCases(s.cases));
    var r3 := ReadEnd(r2, s.end, s.args).rest;
    EndTook(r2, s.end, s.args);
    TookThen(rest, r2, r3, OfSwitchHead(s.kwSwitch, s.argument, s.semiNl) + OfCases(s.cases), OfEnd(s.end, s.args));
  }

  lemma HeaderTook(rest: seq<Token>, h: BlockHeader)
    requires ReadHeader(rest, h).Leaves?
    ensures Took(rest, ReadHeader(rest, h).rest, OfHeader(h))
    decreases h, 1
  {
    match h
    case ForHeader(_, _, _, _, _) => ForTook(rest, h);
    case WhileHeader(_, _, _) => WhileTook(rest, h);
    case FunctionHeader(_, _, _, _) => FunctionTook(rest, h);
    case BeginHeader(_, _) => BeginTook(rest, h);
  }

  lemma ForHeadTook(rest: seq<Token>, kwFor: Leaf, varName: Leaf, kwIn: Leaf)
    requires ReadForHead(rest, kwFor, varName, kwIn).Leaves?
    ensures Took(rest, ReadForHead(rest, kwFor, varName, kwIn).rest,
                 One(Word(KwFor), kwFor) + One(Str, varName) + One(Word(KwIn), kwIn))
  {
    hide Took, ReadLeaf;
    var r1 := ReadLeaf(rest, Word(KwFor), kwFor).rest;
    LeafTook(rest, Word(KwFor), kwFor);
    var r2 := ReadLeaf(r1, Str, varName).rest;
    LeafTook(r1, Str, varName);
    TookThen(rest, r1, r2, One(Word(KwFor), kwFor), One(Str, varName));
    var r3 := ReadLeaf(r2, Word(KwIn), kwIn).rest;
    LeafTook(r2, Word(KwIn), kwIn);
    TookThen(rest, r2, r3, One(Word(KwFor), kwFor) + One(Str, varName), One(Word(KwIn), kwIn));
  }

  lemma ForTook(rest: seq<Token>, h: BlockHeader)
    requires ReadHeader(rest, h).Leaves? && h.ForHeader?
    ensures Took(rest, ReadHeader(rest, h).rest, OfHeader(h))
    decreases h, 0
  {
    hide Took, ReadForHead, ReadArguments, ReadLeaf;
    var r1 := ReadForHead(rest, h.kwFor, h.varName, h.kwIn).rest;
    ForHeadTook(rest, h.kwFor, h.varName, h.kwIn);
    var r2 := ReadArguments(r1, h.forArgs, false).rest;
    ArgumentsTook(r1, h.forArgs, false);
    TookThen(rest, r1, r2,
             (One(Word(KwFor), h.kwFor) + One(Str, h.varName) + One(Word(KwIn), h.kwIn)),
             Many(Str, h.forArgs));
    var r3 := ReadLeaf(r2, SemiNl, h.forSemiNl).rest;
    LeafTook(r2, SemiNl, h.forSemiNl);
    TookThen(rest, r2, r3,
             (One(Word(KwFor), h.kwFor) + One(Str, h.varName) + One(Word(KwIn), h.kwIn)) + Many(Str, h.forArgs),
             One(SemiNl, h.forSemiNl));
  }

  lemma WhileTook(rest: seq<Token>, h: BlockHeader)
    requires ReadHeader(rest, h).Leaves? && h.WhileHeader?
    ensures Took(rest, ReadHeader(rest, h).rest, OfHeader(h))
    decreases h, 0
  {
    hide Took, ReadLeaf, ReadJobConjunction, ReadAndorJobs;
    var r1 := ReadLeaf(rest, Word(KwWhile), h.kwWhile).rest;
    LeafTook(rest, Word(KwWhile), h.kwWhile);
    var r2 := ReadJobConjunction(r1, h.condition).rest;
    JobConjunctionTook(r1, h.condition);
    TookThen(rest, r1, r2, One(Word(KwWhile), h.kwWhile), OfJobConjunction(h.condition));
    var r3 := ReadAndorJobs(r2, h.andorTail).rest;
    AndorJobsTook(r2, h.andorTail);
    TookThen(rest, r2, r3, One(Word(KwWhile), h.kwWhile) + OfJobConjunction(h.condition), OfJobs(h.andorTail));
  }

  lemma FunctionTook(rest: seq<Token>, h: BlockHeader)
    requires ReadHeader(rest, h).Leaves? && h.FunctionHeader?
    ensures Took(rest, ReadHeader(rest, h).rest, OfHeader(h))
    decreases h, 0
  {
    hide Took, ReadLeaf, ReadArguments;
    var r1 := ReadLeaf(rest, Word(KwFunction), h.kwFunction).rest;
    LeafTook(rest, Word(KwFunction), h.kwFunction);
    var r2 := ReadLeaf(r1, Str, h.firstArg).rest;
    LeafTook(r1, Str, h.firstArg);
    TookThen(rest, r1, r2, One(Word(KwFunction), h.kwFunction), One(Str, h.firstArg));
    var r3 := ReadArguments(r2, h.functionArgs, false).rest;
    ArgumentsTook(r2, h.functionArgs, false);
    TookThen(rest, r2, r3, One(Word(KwFunction), h.kwFunction) + One(Str, h.firstArg), Many(Str, h.functionArgs));
    var r4 := ReadLeaf(r3, SemiNl, h.functionSemiNl).rest;
    LeafTook(r3, SemiNl, h.functionSemiNl);
    TookThen(rest, r3, r4,
             One(Word(KwFunction), h.kwFunction) + One(Str, h.firstArg) + Many(Str, h.functionArgs),
             One(SemiNl, h.functionSemiNl));
  }

  lemma BeginTook(rest: seq<Token>, h: BlockHeader)
    requires ReadHeader(rest, h).Leaves? && h.BeginHeader?
    ensures Took(rest, ReadHeader(rest, h).rest, OfHeader(h))
    decreases h, 0
  {
    hide Took, ReadLeaf, ReadMaybe;
    var r1 := ReadLeaf(rest, Word(KwBegin), h.kwBegin).rest;
    LeafTook(rest, Word(KwBegin), h.kwBegin);
    var r2 := ReadMaybe(r1, SemiNl, h.beginSemiNl, Allows(SemiNl, TokenAt(r1, 0))).rest;
    MaybeTook(r1, SemiNl, h.beginSemiNl, Allows(SemiNl, TokenAt(r1, 0)));
    TookThen(rest, r1, r2, One(Word(KwBegin), h.kwBegin), Maybe(SemiNl, h.beginSemiNl));
  }

  lemma IfClauseTook(rest: seq<Token>, c: IfClause)
    requires ReadIfClause(rest, c).Leaves?
    ensures Took(rest, ReadIfClause(rest, c).rest, OfIfClause(c))
    decreases c
  {
    hide Took, ReadLeaf, ReadJobConjunction, ReadAndorJobs, ReadJobs;
    var r1 := ReadLeaf(rest, Word(KwIf), c.kwIf).rest;
    LeafTook(rest, Word(KwIf), c.kwIf);
    var r2 := ReadJobConjunction(r1, c.condition).rest;
    JobConjunctionTook(r1, c.condition);
    TookThen(rest, r1, r2, One(Word(KwIf), c.kwIf), OfJobConjunction(c.condition));
    var r3 := ReadAndorJobs(r2, c.andorTail).rest;
    AndorJobsTook(r2, c.andorTail);
    TookThen(rest, r2, r3, One(Word(KwIf), c.kwIf) + OfJobConjunction(c.condition), OfJobs(c.andorTail));
    var r4 := ReadJobs(r3, c.body).rest;
    JobsTook(r3, c.body);
    TookThen(rest, r3, r4,
             One(Word(KwIf), c.kwIf) + OfJobConjunction(c.condition) + OfJobs(c.andorTail),
             OfJobs(c.body));
  }

  lemma {:induction false} ElseifsTook(rest: seq<Token>, list: seq<ElseifClause>)
    requires ReadElseifs(rest, list).Leaves?
    ensures Took(rest, ReadElseifs(rest, list).rest, OfElseifs(list))
    decreases list
  {
    hide Took, Chomped, ReadElseif;
    var next := Chomped(rest, true, false);
    if list == [] {
      TookNothing(next);
    } else {
      var r, r' := ReadElseif(next, list[0]).rest, ReadElseifs(rest, list).rest;
      ElseifTook(next, list[0]);
      ElseifsTook(r, list[1..]);
      TookThen(next, r, r', OfElseif(list[0]), OfElseifs(list[1..]));
    }
    ChompedThen(rest, true, false, ReadElseifs(rest, list).rest, OfElseifs(list));
  }

  lemma ElseifTook(rest: seq<Token>, c: ElseifClause)
    requires ReadElseif(rest, c).Leaves?
    ensures Took(rest, ReadElseif(rest, c).rest, OfElseif(c))
    decreases c
  {
    hide Took, ReadLeaf, ReadIfClause;
    var r1 := ReadLeaf(rest, Word(KwElse), c.kwElse).rest;
    LeafTook(rest, Word(KwElse), c.kwElse);
    var r2 := ReadIfClause(r1, c.ifClause).rest;
    IfClauseTook(r1, c.ifClause);
    TookThen(rest, r1, r2, One(Word(KwElse), c.kwElse), OfIfClause(c.ifClause));
  }

  lemma MaybeElseTook(rest: seq<Token>, c: Option<ElseClause>)
    requires ReadMaybeElse(rest, c).Leaves?
    ensures Took(rest, ReadMaybeElse(rest, c).rest, if c.Some? then OfElse(c.value) else [])
    decreases c
  {
    if c.Some? {
      ElseTook(rest, c.value);
    } else {
      TookNothing(rest);
    }
  }

  lemma ElseTook(rest: seq<Token>, c: ElseClause)
    requires ReadElse(rest, c).Leaves?
    ensures Took(rest, ReadElse(rest, c).rest, OfElse(c))
    decreases c
  {
    hide Took, ReadLeaf, ReadMaybe, ReadJobs;
    var r1 := ReadLeaf(rest, Word(KwElse), c.kwElse).rest;
    LeafTook(rest, Word(KwElse), c.kwElse);
    var r2 := ReadMaybe(r1, SemiNl, c.semiNl, Allows(SemiNl, TokenAt(r1, 0))).rest;
    MaybeTook(r1, SemiNl, c.semiNl, Allows(SemiNl, TokenAt(r1, 0)));
    TookThen(rest, r1, r2, One(Word(KwElse), c.kwElse), Maybe(SemiNl, c.semiNl));
    var r3 := ReadJobs(r2, c.body).rest;
    JobsTook(r2, c.body);
    TookThen(rest, r2, r3, One(Word(KwElse), c.kwElse) + Maybe(SemiNl, c.semiNl), OfJobs(c.body));
  }

  lemma SwitchHeadTook(rest: seq<Token>, kwSwitch: Leaf, argument: Leaf, semiNl: Leaf)
    requires ReadSwitchHead(rest, kwSwitch, argument, semiNl).Leaves?
    ensures Took(rest, ReadSwitchHead(rest, kwSwitch, argument, semiNl).rest, OfSwitchHead(kwSwitch, argument, semiNl))
  {
    hide Took, ReadLeaf;
    var r1 := ReadLeaf(rest, Word(KwSwitch), kwSwitch).rest;
    LeafTook(rest, Word(KwSwitch), kwSwitch);
    var r2 := ReadLeaf(r1, Str, argument).rest;
    LeafTook(r1, Str, argument);
    TookThen(rest, r1, r2, One(Word(KwSwitch), kwSwitch), One(Str, argument));
    var r3 := ReadLeaf(r2, SemiNl, semiNl).rest;
    LeafTook(r2, SemiNl, semiNl);
    TookThen(rest, r2, r3, One(Word(KwSwitch), kwSwitch) + One(Str, argument), One(SemiNl, semiNl));
  }

  lemma {:induction false} CasesTook(rest: seq<Token>, list: seq<CaseItem>)
    requires ReadCases(rest, list).Leaves?
    ensures Took(rest, ReadCases(rest, list).rest, OfCases(list))
    decreases list
  {
    hide Took, Chomped, ReadCase;
    var next := Chomped(rest, true, true);
    if list == [] {
      TookNothing(next);
    } else {
      var r, r' := ReadCase(next, list[0]).rest, ReadCases(rest, list).rest;
      CaseTook(next, list[0]);
      CasesTook(r, list[1..]);
      TookThen(next, r, r', OfCase(list[0]), OfCases(list[1..]));
    }
    ChompedThen(rest, true, true, ReadCases(rest, list).rest, OfCases(list));
  }

  lemma CaseTook(rest: seq<Token>, c: CaseItem)
    requires ReadCase(rest, c).Leaves?
    ensures Took(rest, ReadCase(rest, c).rest, OfCase(c))
    decreases c
  {
    hide Took, ReadLeaf, ReadArguments, ReadJobs;
    var r1 := ReadLeaf(rest, Word(KwCase), c.kwCase).rest;
    LeafTook(rest, Word(KwCase), c.kwCase);
    var r2 := ReadArguments(r1, c.arguments, false).rest;
    ArgumentsTook(r1, c.arguments, false);
    TookThen(rest, r1, r2, One(Word(KwCase), c.kwCase), Many(Str, c.arguments));
    var r3 := ReadLeaf(r2, SemiNl, c.semiNl).rest;
    LeafTook(r2, SemiNl, c.semiNl);
    TookThen(rest, r2, r3, One(Word(KwCase), c.kwCase) + Many(Str, c.arguments), One(SemiNl, c.semiNl));
    var r4 := ReadJobs(r3, c.body).rest;
    JobsTook(r3, c.body);
    TookThen(rest, r3, r4,
             One(Word(KwCase), c.kwCase) + Many(Str, c.arguments) + One(SemiNl, c.semiNl),
             OfJobs(c.body));
  }

  // ---------------------------------------------------------------- whole inputs

  lemma TookAll(toks: seq<Token>, slots: seq<Slot>)
    requires Took(toks, [], slots)
    ensures Covers(toks, slots) && CommandsIn(toks, slots)
  {
    assert toks[..|toks|] == toks;
  }
}
