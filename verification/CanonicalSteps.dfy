/**
 Canonical trees are read back from their tokens, node by node.

 The tokens of a canonical tree, as they stand, are read as this tree. The proofs follow the tree: what comes after a
 node tells where its lists end, and the first token of a node tells that it is there. So there are two lemmas for
 most kinds of nodes: what its tokens begin with, and that it is read from them with nothing left but what came after
 it. The lemmas about lists take one item at a time; the ones about nodes put together those of their fields, whose
 tokens are regrouped for it.
 */
module CanonicalSteps {
  import opened Common
  import opened TokenStream
  import opened Ast
  import opened Grammar
  import opened CanonicalCode

  // ---------------------------------------------------------------- the tokens of a tree

  lemma {:induction false} TokensConcat(a: seq<Slot>, b: seq<Slot>)
    ensures Tokens(a + b) == Tokens(a) + Tokens(b)
  {
    if a == [] {
      assert a + b == b;
    } else {
      assert (a + b)[0] == a[0] && (a + b)[1..] == a[1..] + b;
      TokensConcat(a[1..], b);
      var first := if a[0].leaf.Sourced? then [a[0].leaf.tok] else [];
      assert Tokens(a + b) == first + Tokens(a[1..] + b) && Tokens(a) == first + Tokens(a[1..]);
    }
  }

  lemma Regroup2(a: seq<Slot>, b: seq<Slot>, rest: seq<Token>)
    ensures Tokens(a + b) + rest == Tokens(a) + (Tokens(b) + rest)
  {
    TokensConcat(a, b);
  }

  lemma Regroup3(a: seq<Slot>, b: seq<Slot>, c: seq<Slot>, rest: seq<Token>)
    ensures Tokens(a + b + c) + rest == Tokens(a) + (Tokens(b) + (Tokens(c) + rest))
  {
    hide Tokens;
    Regroup2(a + b, c, rest);
    Regroup2(a, b, Tokens(c) + rest);
  }

  lemma Regroup4(a: seq<Slot>, b: seq<Slot>, c: seq<Slot>, d: seq<Slot>, rest: seq<Token>)
    ensures Tokens(a + b + c + d) + rest == Tokens(a) + (Tokens(b) + (Tokens(c) + (Tokens(d) + rest)))
  {
    hide Tokens;
    Regroup2(a + b + c, d, rest);
    Regroup3(a, b, c, Tokens(d) + rest);
  }

  lemma Regroup5(a: seq<Slot>, b: seq<Slot>, c: seq<Slot>, d: seq<Slot>, e: seq<Slot>, rest: seq<Token>)
    ensures Tokens(a + b + c + d + e) + rest == Tokens(a) + (Tokens(b) + (Tokens(c) + (Tokens(d) + (Tokens(e) + rest))))
  {
    hide Tokens;
    Regroup2(a + b + c + d, e, rest);
    Regroup4(a, b, c, d, Tokens(e) + rest);
  }

  lemma LeafReads(leaf: Leaf, kind: Kind, rest: seq<Token>)
    requires leaf.Sourced? && Allows(kind, leaf.tok)
    ensures Tokens(One(kind, leaf)) + rest == [leaf.tok] + rest && Tokens(One(CommandName, leaf)) + rest == [leaf.tok] + rest
    ensures ([leaf.tok] + rest)[0] == leaf.tok && ([leaf.tok] + rest)[1..] == rest
    ensures TokenAt([leaf.tok] + rest, 0) == leaf.tok && TokenAt([leaf.tok] + rest, 1) == TokenAt(rest, 0)
    ensures ReadLeaf([leaf.tok] + rest, kind, leaf) == Leaves(rest)
  {
    assert One(kind, leaf)[1..] == [] && One(CommandName, leaf)[1..] == [];
  }

  lemma MaybeReads(leaf: Option<Leaf>, kind: Kind, rest: seq<Token>, starts: bool)
    requires leaf.Some? ==> leaf.value.Sourced? && Allows(kind, leaf.value.tok)
    requires starts <==> leaf.Some?
    ensures ReadMaybe(Tokens(Maybe(kind, leaf)) + rest, kind, leaf, starts) == Leaves(rest)
    ensures leaf.Some? ==> Tokens(Maybe(kind, leaf)) + rest == [leaf.value.tok] + rest
    ensures leaf.None? ==> Tokens(Maybe(kind, leaf)) + rest == rest
  {
    if leaf.Some? {
      LeafReads(leaf.value, kind, rest);
    }
  }

  // ---------------------------------------------------------------- lists of leaves

  lemma {:induction false} NewlinesRead(newlines: Newlines, rest: seq<Token>)
    requires AreNewlines(newlines) && rest != [] && !rest[0].isNewline
    ensures ReadNewlines(Tokens(OfNewlines(newlines)) + rest, newlines) == Leaves(rest)
    ensures var text := Tokens(OfNewlines(newlines)) + rest;
            text[0] == rest[0] || (text[0].typ == End && text[0].keyword == NoKeyword)
    decreases |newlines.toks|
  {
    var toks := newlines.toks;
    if toks == [] {
      assert Tokens(OfNewlines(newlines)) + rest == rest;
    } else {
      var more := Newlines(toks[1..]);
      assert OfNewlines(newlines) == One(Newline, Sourced(toks[0])) + OfNewlines(more);
      NewlinesRead(more, rest);
      Regroup2(One(Newline, Sourced(toks[0])), OfNewlines(more), rest);
      LeafReads(Sourced(toks[0]), Newline, Tokens(OfNewlines(more)) + rest);
    }
  }

  lemma {:induction false} AssignmentsRead(variables: seq<Leaf>, rest: seq<Token>)
    requires AreAssignments(variables)
    requires rest != [] && (rest[0].typ == String || rest[0].typ == LeftBrace) && !rest[0].mayBeVariableAssignment
    ensures ReadAssignments(Tokens(Many(Assignment, variables)) + rest, variables) == Leaves(rest)
    ensures var text := Tokens(Many(Assignment, variables)) + rest;
            if variables == [] then text == rest else text[0] == variables[0].tok
    decreases |variables|
  {
    if variables == [] {
      assert Tokens(Many(Assignment, variables)) + rest == rest;
    } else {
      var more := variables[1..];
      assert variables[0] in variables && IsAssignment(variables[0]);
      assert more != [] ==> variables[1] in variables && IsAssignment(variables[1]);
      AssignmentsRead(more, rest);
      Regroup2(One(Assignment, variables[0]), Many(Assignment, more), rest);
      LeafReads(variables[0], Assignment, Tokens(Many(Assignment, more)) + rest);
    }
  }

  lemma {:induction false} WordsRead(words: seq<Leaf>, rest: seq<Token>)
    requires AreWords(words) && rest != [] && rest[0].typ == End
    ensures ReadArguments(Tokens(Many(Str, words)) + rest, words, false) == Leaves(rest)
    decreases |words|
  {
    if words == [] {
      assert Tokens(Many(Str, words)) + rest == rest;
    } else {
      assert words[0] in words;
      WordsRead(words[1..], rest);
      Regroup2(One(Str, words[0]), Many(Str, words[1..]), rest);
      LeafReads(words[0], Str, Tokens(Many(Str, words[1..])) + rest);
    }
  }

  /** What may come after a statement. */
  predicate AfterStatement(rest: seq<Token>) {
    rest == [] || rest[0].typ in {Pipe, Background, Andand, Oror, End, RightBrace}
  }

  lemma ArgReads(arg: ArgumentOrRedirection, rest: seq<Token>)
    requires IsArg(arg)
    ensures ReadArgumentOrRedirection(Tokens(OfArgumentOrRedirection(arg)) + rest, arg) == Leaves(rest)
    ensures var t := TokenAt(Tokens(OfArgumentOrRedirection(arg)) + rest, 0); t.typ == String || t.typ == Redirect
  {
    match arg
    case Argument(leaf) => LeafReads(leaf, Str, rest);
    case Redirected(r) =>
      var text := Tokens(One(Str, r.target)) + rest;
      Regroup2(One(TokenRedirection, r.oper), One(Str, r.target), rest);
      LeafReads(r.oper, TokenRedirection, text);
      LeafReads(r.target, Str, rest);
  }

  lemma {:induction false} ArgsRead(args: seq<ArgumentOrRedirection>, rest: seq<Token>)
    requires AreArgs(args) && AfterStatement(rest)
    ensures ReadArgs(Tokens(OfArgs(args)) + rest, args) == Leaves(rest)
    decreases |args|
  {
    if args == [] {
      assert Tokens(OfArgs(args)) + rest == rest;
    } else {
      assert args[0] in args;
      ArgsRead(args[1..], rest);
      Regroup2(OfArgumentOrRedirection(args[0]), OfArgs(args[1..]), rest);
      ArgReads(args[0], Tokens(OfArgs(args[1..])) + rest);
      hide ReadArgumentOrRedirection;
    }
  }

  lemma EndReads(end: Leaf, args: seq<ArgumentOrRedirection>, rest: seq<Token>)
    requires Plain(end, Word(KwEnd)) && AreArgs(args) && AfterStatement(rest)
    ensures ReadEnd(Tokens(OfEnd(end, args)) + rest, end, args) == Leaves(rest)
    ensures var text := Tokens(OfEnd(end, args)) + rest; text != [] && text[0] == end.tok
  {
    Regroup2(One(Word(KwEnd), end), OfArgs(args), rest);
    LeafReads(end, Word(KwEnd), Tokens(OfArgs(args)) + rest);
    ArgsRead(args, rest);
  }

  // ---------------------------------------------------------------- first tokens

  /** What a job starts with: nothing that ends a list of jobs, and no option. */
  predicate Opens(t: Token) {
    && (t.typ == LeftBrace || t.typ == String) && !t.hasDashPrefix && !t.isHelpArgument && !t.isNewline
    && t.keyword !in {KwCase, KwElse, KwEnd}
  }

  predicate OptionNext(text: seq<Token>) {
    IsOption(TokenAt(text, 0).keyword, TokenAt(text, 1))
  }

  /** The tokens start with a statement, or with assignments before one. */
  predicate OpensBody(text: seq<Token>) {
    text != [] && Opens(text[0]) && (text[0].keyword in {KwAnd, KwOr, KwTime} ==> OptionNext(text))
  }

  predicate OpensStatement(text: seq<Token>) {
    OpensBody(text) && !text[0].mayBeVariableAssignment
  }

  predicate OpensBlock(text: seq<Token>) {
    OpensStatement(text) && text[0].keyword !in {KwAnd, KwOr}
  }

  predicate OpensPipeline(text: seq<Token>) {
    text != [] && Opens(text[0]) && (text[0].keyword in {KwAnd, KwOr} ==> OptionNext(text))
  }

  predicate OpensJob(text: seq<Token>, j: JobConjunction) {
    && text != [] && Opens(text[0])
    && (if j.decorator.Some? then j.decorator.value.Sourced? && text[0] == j.decorator.value.tok
        else text[0].keyword in {KwAnd, KwOr} ==> OptionNext(text))
  }

  lemma FirstOf(first: Leaf, kind: Kind, more: seq<Slot>, rest: seq<Token>)
    requires first.Sourced?
    ensures var text := Tokens(One(kind, first) + more) + rest; text != [] && text[0] == first.tok
  {
    assert (One(kind, first) + more)[0] == Slot(kind, first);
  }

  lemma StatementOpens(s: Statement, rest: seq<Token>)
    requires CanonicalStatement(s)
    ensures OpensStatement(Tokens(OfStatement(s)) + rest)
    ensures NoAndor(s) ==> (Tokens(OfStatement(s)) + rest)[0].keyword !in {KwAnd, KwOr}
    decreases s
  {
    hide CanonicalStatement, OfStatement, Tokens, NoAndor;
    match s
    case DecoratedStatement(_, _, _) => CommandOpens(s, rest);
    case NotStatement(_, _, _, _) => KeywordOpens(s, rest);
    case BlockStatement(_, _, _, _) => BlockOpens(s, rest);
    case BraceStatement(_, _, _, _) => KeywordOpens(s, rest);
    case IfStatement(_, _, _, _, _) => IfOpens(s, rest);
    case SwitchStatement(_, _, _, _, _, _) => BlockOpens(s, rest);
  }

  lemma CommandOpens(s: Statement, rest: seq<Token>)
    requires CanonicalStatement(s) && s.DecoratedStatement?
    ensures OpensStatement(Tokens(OfStatement(s)) + rest)
    ensures NoAndor(s) ==> (Tokens(OfStatement(s)) + rest)[0].keyword !in {KwAnd, KwOr}
  {
    hide OfArgs, Tokens, Maybe, AreArgs, ReadLeaf, ReadMaybe;
    var text, kind := Tokens(OfArgs(s.args)) + rest, if s.decoration.None? then CommandName else Str;
    Regroup3(Maybe(Decorator, s.decoration), One(kind, s.command), OfArgs(s.args), rest);
    LeafReads(s.command, Str, text);
    FirstArg(s.args, rest);
    MaybeReads(s.decoration, Decorator, [s.command.tok] + text, s.decoration.Some?);
  }

  lemma FirstArg(args: seq<ArgumentOrRedirection>, rest: seq<Token>)
    ensures args != [] && args[0].Argument? && args[0].argument.Sourced?
            ==> TokenAt(Tokens(OfArgs(args)) + rest, 0) == args[0].argument.tok
  {
    if args != [] && args[0].Argument? && args[0].argument.Sourced? {
      FirstOf(args[0].argument, Str, OfArgs(args[1..]), rest);
    }
  }

  lemma KeywordOpens(s: Statement, rest: seq<Token>)
    requires CanonicalStatement(s) && (s.NotStatement? || s.BraceStatement?)
    ensures OpensBlock(Tokens(OfStatement(s)) + rest)
  {
    hide OfJobs, OfArgs, Many, Tokens, Maybe, CanonicalJobs, AreArgs, AreAssignments;
    if s.NotStatement? {
      FirstOfFour(NotKeyword, s.kwNot, Maybe(Word(KwTime), s.time), Many(Assignment, s.variables), OfStatement(s.contents),
                  rest);
    } else {
      FirstOfFour(TokenLeftBrace, s.left, OfJobs(s.jobs), One(TokenRightBrace, s.right), OfArgs(s.args), rest);
    }
  }

  lemma BlockOpens(s: Statement, rest: seq<Token>)
    requires CanonicalStatement(s) && (s.BlockStatement? || s.SwitchStatement?)
    ensures OpensBlock(Tokens(OfStatement(s)) + rest)
  {
    hide OfJobs, OfArgs, OfEnd, OfCases, Tokens, OfHeader;
    hide CanonicalJobs, CanonicalCases, CanonicalHeader, AreArgs, OpensBlock;
    if s.BlockStatement? {
      Regroup3(OfHeader(s.header), OfJobs(s.jobs), OfEnd(s.end, s.args), rest);
      HeaderOpens(s.header, Tokens(OfJobs(s.jobs)) + (Tokens(OfEnd(s.end, s.args)) + rest));
    } else {
      Regroup3(OfSwitchHead(s.kwSwitch, s.argument, s.semiNl), OfCases(s.cases), OfEnd(s.end, s.args), rest);
      SwitchOpens(s.kwSwitch, s.argument, s.semiNl, Tokens(OfCases(s.cases)) + (Tokens(OfEnd(s.end, s.args)) + rest));
    }
  }

  lemma SwitchOpens(kwSwitch: Leaf, argument: Leaf, semiNl: Leaf, rest: seq<Token>)
    requires Plain(kwSwitch, Word(KwSwitch))
    ensures OpensBlock(Tokens(OfSwitchHead(kwSwitch, argument, semiNl)) + rest)
  {
    FirstOfFour(Word(KwSwitch), kwSwitch, One(Str, argument), One(SemiNl, semiNl), [], rest);
    assert OfSwitchHead(kwSwitch, argument, semiNl) + [] == OfSwitchHead(kwSwitch, argument, semiNl);
  }

  lemma IfOpens(s: Statement, rest: seq<Token>)
    requires CanonicalStatement(s) && s.IfStatement?
    ensures OpensBlock(Tokens(OfStatement(s)) + rest)
  {
    hide OfJobs, OfArgs, OfEnd, OfElseifs, OfElse, OfJobConjunction, Tokens;
    hide CanonicalJobs, CanonicalJob, CanonicalElseifs, CanonicalElse, AreArgs;
    var c, otherwise := s.ifClause, if s.elseClause.Some? then OfElse(s.elseClause.value) else [];
    Regroup4(OfIfClause(c), OfElseifs(s.elseifClauses), otherwise, OfEnd(s.end, s.args), rest);
    FirstOfFour(Word(KwIf), c.kwIf, OfJobConjunction(c.condition), OfJobs(c.andorTail), OfJobs(c.body),
                Tokens(OfElseifs(s.elseifClauses)) + (Tokens(otherwise) + (Tokens(OfEnd(s.end, s.args)) + rest)));
  }

  lemma FirstOfFour(kind: Kind, first: Leaf, b: seq<Slot>, c: seq<Slot>, d: seq<Slot>, rest: seq<Token>)
    requires first.Sourced?
    ensures var text := Tokens(One(kind, first) + b + c + d) + rest; text != [] && text[0] == first.tok
  {
    assert One(kind, first) + b + c + d == One(kind, first) + (b + c + d);
    FirstOf(first, kind, b + c + d, rest);
  }

  lemma HeaderOpens(h: BlockHeader, rest: seq<Token>)
    requires CanonicalHeader(h)
    ensures OpensBlock(Tokens(OfHeader(h)) + rest)
  {
    hide OfJobs, OfJobConjunction, Many, Tokens, Maybe, CanonicalJobs, CanonicalJob, AreWords;
    match h
    case ForHeader(kwFor, varName, kwIn, args, semiNl) =>
      Regroup2(One(Word(KwFor), kwFor) + One(Str, varName) + One(Word(KwIn), kwIn) + Many(Str, args), One(SemiNl, semiNl),
               rest);
      FirstOfFour(Word(KwFor), kwFor, One(Str, varName), One(Word(KwIn), kwIn), Many(Str, args),
                  Tokens(One(SemiNl, semiNl)) + rest);
    case WhileHeader(kwWhile, condition, andorTail) =>
      FirstOfFour(Word(KwWhile), kwWhile, OfJobConjunction(condition), OfJobs(andorTail), [], rest);
      assert OfHeader(h) + [] == OfHeader(h);
    case FunctionHeader(kwFunction, firstArg, args, semiNl) =>
      FirstOfFour(Word(KwFunction), kwFunction, One(Str, firstArg), Many(Str, args), One(SemiNl, semiNl), rest);
    case BeginHeader(kwBegin, semiNl) => FirstOf(kwBegin, Word(KwBegin), Maybe(SemiNl, semiNl), rest);
  }

  /** Assignments and a statement. */
  lemma BodyOpens(variables: seq<Leaf>, s: Statement, rest: seq<Token>)
    requires AreAssignments(variables) && CanonicalStatement(s)
    ensures OpensBody(Tokens(Many(Assignment, variables)) + (Tokens(OfStatement(s)) + rest))
  {
    StatementOpens(s, rest);
    AssignmentsRead(variables, Tokens(OfStatement(s)) + rest);
    if variables != [] {
      assert variables[0] in variables;
    }
    hide CanonicalStatement, OfStatement, Tokens, ReadAssignments;
  }

  lemma BodyIsNoAndor(variables: seq<Leaf>, s: Statement, rest: seq<Token>)
    requires AreAssignments(variables) && CanonicalStatement(s) && NoAndor(s)
    ensures var text := Tokens(Many(Assignment, variables)) + (Tokens(OfStatement(s)) + rest);
            text != [] && text[0].keyword !in {KwAnd, KwOr}
  {
    StatementOpens(s, rest);
    AssignmentsRead(variables, Tokens(OfStatement(s)) + rest);
    if variables != [] {
      assert variables[0] in variables;
    }
    hide CanonicalStatement, OfStatement, Tokens, ReadAssignments;
  }

  lemma PipelineOpens(j: JobPipeline, rest: seq<Token>)
    requires CanonicalPipeline(j)
    ensures OpensPipeline(Tokens(OfJobPipeline(j)) + rest)
  {
    var more := Tokens(OfContinuations(j.continuation)) + (Tokens(Maybe(TokenBackground, j.bg)) + rest);
    Regroup5(Maybe(Word(KwTime), j.time), Many(Assignment, j.variables), OfStatement(j.statement),
             OfContinuations(j.continuation), Maybe(TokenBackground, j.bg), rest);
    BodyOpens(j.variables, j.statement, more);
    assert PlainMaybe(j.time, Word(KwTime));
    hide CanonicalPipeline, CanonicalStatement, CanonicalContinuations;
    hide OfJobPipeline, OfStatement, OfContinuations, Tokens, Many;
    var body := Tokens(Many(Assignment, j.variables)) + (Tokens(OfStatement(j.statement)) + more);
    MaybeReads(j.time, Word(KwTime), body, j.time.Some?);
  }

  lemma JobOpens(j: JobConjunction, last: bool, rest: seq<Token>)
    requires CanonicalJob(j, last)
    ensures OpensJob(Tokens(OfJobConjunction(j)) + rest, j)
  {
    hide CanonicalPipeline, CanonicalConjunctions, InBackground, OfJobPipeline, OfConjunctions, Maybe, Tokens, ReadMaybe;
    var more := Tokens(OfConjunctions(j.continuations)) + (Tokens(Maybe(SemiNl, j.semiNl)) + rest);
    Regroup4(Maybe(JobDecorator, j.decorator), OfJobPipeline(j.job), OfConjunctions(j.continuations), Maybe(SemiNl, j.semiNl),
             rest);
    PipelineOpens(j.job, more);
    MaybeReads(j.decorator, JobDecorator, Tokens(OfJobPipeline(j.job)) + more, j.decorator.Some?);
  }

  // ---------------------------------------------------------------- jobs are read back

  /** What may come after a list of jobs: the end of the input or of the block. */
  predicate AfterJobs(rest: seq<Token>) {
    || rest == []
    || (rest[0].typ == RightBrace && rest[0].keyword == NoKeyword)
    || (rest[0].typ == String && rest[0].keyword in {KwCase, KwElse, KwEnd})
  }

  /** What may come after jobs that start with `and` or `or`. */
  predicate AfterAndorJobs(rest: seq<Token>) {
    AfterJob(rest, false) && (rest != [] && rest[0].keyword in {KwAnd, KwOr} ==> OptionNext(rest))
  }

  predicate AfterPipeline(rest: seq<Token>) {
    rest == [] || rest[0].typ in {Andand, Oror, End, RightBrace}
  }

  predicate AfterContinuations(rest: seq<Token>) {
    rest == [] || rest[0].typ in {Background, Andand, Oror, End, RightBrace}
  }

  /** What may come after a job: another one or the end of the list, which for the last one is no keyword. */
  predicate AfterJob(rest: seq<Token>, last: bool) {
    rest == [] || rest[0].typ == RightBrace || (!last && (rest[0].typ == LeftBrace || rest[0].typ == String))
  }

  lemma {:induction false} JobsRead(jobs: seq<JobConjunction>, last: bool, rest: seq<Token>)
    requires CanonicalJobs(jobs, last) && AfterJobs(rest) && (last ==> AfterJob(rest, true))
    ensures ReadJobs(Tokens(OfJobs(jobs)) + rest, jobs) == Leaves(rest)
    decreases jobs
  {
    if jobs == [] {
      assert Tokens(OfJobs(jobs)) + rest == rest;
    } else {
      hide Tokens, CanonicalJob, OfJobConjunction, ReadJobConjunction, ReadJobs, AfterJobs, AfterJob, Opens;
      var more := Tokens(OfJobs(jobs[1..])) + rest;
      Regroup2(OfJobConjunction(jobs[0]), OfJobs(jobs[1..]), rest);
      JobsRead(jobs[1..], last, rest);
      ClosedAfter(rest);
      MoreJobs(jobs[1..], last, rest);
      JobReads(jobs[0], last && |jobs| == 1, more);
      JobOpens(jobs[0], last && |jobs| == 1, more);
      JobsStep(jobs, Tokens(OfJobConjunction(jobs[0])) + more, more, rest);
    }
  }

  lemma ClosedAfter(rest: seq<Token>)
    requires AfterJobs(rest)
    ensures AfterJob(rest, false)
  {
  }

  lemma JobsStep(jobs: seq<JobConjunction>, text: seq<Token>, more: seq<Token>, rest: seq<Token>)
    requires jobs != [] && text != [] && Opens(text[0])
    requires ReadJobConjunction(text, jobs[0]) == Leaves(more) && ReadJobs(more, jobs[1..]) == Leaves(rest)
    ensures ReadJobs(text, jobs) == Leaves(rest)
  {
    hide ReadJobConjunction, Chomped;
    NoneChomped(text);
  }

  /** What comes after a job that is followed by these. */
  lemma MoreJobs(jobs: seq<JobConjunction>, last: bool, rest: seq<Token>)
    requires CanonicalJobs(jobs, last) && AfterJob(rest, last)
    ensures AfterJob(Tokens(OfJobs(jobs)) + rest, last && jobs == [])
  {
    hide Tokens, CanonicalJobs, OfJobs, StartsAfresh;
    JobsOpen(jobs, last, rest);
  }

  lemma NoneChomped(text: seq<Token>)
    requires text == [] || text[0].typ != End
    ensures forall newlines, semis :: Chomped(text, newlines, semis) == text
  {
  }

  lemma {:induction false} AndorJobsRead(jobs: seq<JobConjunction>, rest: seq<Token>)
    requires CanonicalJobs(jobs, false) && AllDecorated(jobs) && AfterAndorJobs(rest)
    ensures ReadAndorJobs(Tokens(OfJobs(jobs)) + rest, jobs) == Leaves(rest)
    decreases jobs
  {
    if jobs == [] {
      assert Tokens(OfJobs(jobs)) + rest == rest;
    } else {
      var more := Tokens(OfJobs(jobs[1..])) + rest;
      assert jobs[0] in jobs;
      Regroup2(OfJobConjunction(jobs[0]), OfJobs(jobs[1..]), rest);
      hide Tokens, CanonicalJob, OfJobConjunction, ReadJobConjunction, Chomped, StartsAndorJob;
      AndorJobsRead(jobs[1..], rest);
      MoreJobs(jobs[1..], false, rest);
      JobReads(jobs[0], false, more);
      JobOpens(jobs[0], false, more);
      DecoratedJobStarts(jobs[0], more);
      NoneChomped(Tokens(OfJobConjunction(jobs[0])) + more);
    }
  }

  /** A job with `and` or `or`, as it is told from a command of that name. */
  lemma DecoratedJobStarts(j: JobConjunction, rest: seq<Token>)
    requires CanonicalJob(j, false) && j.decorator.Some?
    ensures var text := Tokens(OfJobConjunction(j)) + rest;
            StartsAndorJob(TokenAt(text, 0), TokenAt(text, 1)) && text != [] && text[0].typ == String
  {
    var more := Tokens(OfConjunctions(j.continuations)) + (Tokens(Maybe(SemiNl, j.semiNl)) + rest);
    Regroup4(Maybe(JobDecorator, j.decorator), OfJobPipeline(j.job), OfConjunctions(j.continuations), Maybe(SemiNl, j.semiNl),
             rest);
    PipelineOpens(j.job, more);
    LeafReads(j.decorator.value, JobDecorator, Tokens(OfJobPipeline(j.job)) + more);
    hide CanonicalPipeline, CanonicalConjunctions, OfJobPipeline, OfConjunctions, Tokens, ReadLeaf;
  }

  lemma JobReads(j: JobConjunction, last: bool, rest: seq<Token>)
    requires CanonicalJob(j, last) && (j.semiNl.Some? || AfterJob(rest, last))
    ensures ReadJobConjunction(Tokens(OfJobConjunction(j)) + rest, j) == Leaves(rest)
    decreases j, 0
  {
    var r3 := Tokens(Maybe(SemiNl, j.semiNl)) + rest;
    var r2 := Tokens(OfConjunctions(j.continuations)) + r3;
    var r1 := Tokens(OfJobPipeline(j.job)) + r2;
    Regroup4(Maybe(JobDecorator, j.decorator), OfJobPipeline(j.job), OfConjunctions(j.continuations), Maybe(SemiNl, j.semiNl),
             rest);
    hide CanonicalPipeline, CanonicalConjunctions, OfJobPipeline, OfConjunctions, Tokens, Maybe;
    hide ReadMaybe, ReadJobPipeline, ReadConjunctions;
    SemiNlReads(j.semiNl, rest, last);
    ConjunctionsRead(j.job, j.continuations, r3);
    PipelineReads(j.job, r2);
    PipelineOpens(j.job, r2);
    DecoratorReads(j.decorator, r1);
  }

  lemma SemiNlReads(semiNl: Option<Leaf>, rest: seq<Token>, last: bool)
    requires PlainMaybe(semiNl, SemiNl) && (semiNl.Some? || AfterJob(rest, last))
    ensures var text := Tokens(Maybe(SemiNl, semiNl)) + rest;
            && ReadMaybe(text, SemiNl, semiNl, Allows(SemiNl, TokenAt(text, 0))) == Leaves(rest)
            && !Allows(TokenConjunction, TokenAt(text, 0)) && (semiNl.Some? || last ==> AfterPipeline(text))
  {
    MaybeReads(semiNl, SemiNl, rest, semiNl.Some?);
    hide Tokens, ReadMaybe;
  }

  lemma DecoratorReads(decorator: Option<Leaf>, rest: seq<Token>)
    requires PlainMaybe(decorator, JobDecorator) && OpensPipeline(rest)
    ensures var text := Tokens(Maybe(JobDecorator, decorator)) + rest;
            ReadMaybe(text, JobDecorator, decorator, StartsJobDecorator(TokenAt(text, 0), TokenAt(text, 1))) == Leaves(rest)
  {
    MaybeReads(decorator, JobDecorator, rest, decorator.Some?);
    hide Tokens, ReadMaybe;
  }

  lemma {:induction false} ConjunctionsRead(job: JobPipeline, cs: seq<JobConjunctionContinuation>, rest: seq<Token>)
    requires CanonicalConjunctions(cs) && !Allows(TokenConjunction, TokenAt(rest, 0))
    requires InBackground(job, cs) || AfterPipeline(rest)
    ensures ReadConjunctions(Tokens(OfConjunctions(cs)) + rest, cs) == Leaves(rest)
    ensures job.bg.Some? || AfterPipeline(Tokens(OfConjunctions(cs)) + rest)
    decreases cs
  {
    if cs == [] {
      assert Tokens(OfConjunctions(cs)) + rest == rest;
    } else {
      hide Tokens, CanonicalConjunction, OfConjunction, ReadConjunction, ReadConjunctions, AfterPipeline, Allows;
      var more := Tokens(OfConjunctions(cs[1..])) + rest;
      Regroup2(OfConjunction(cs[0]), OfConjunctions(cs[1..]), rest);
      ConjunctionsRead(cs[0].job, cs[1..], rest);
      ConjunctionReads(cs[0], more);
      ConjunctionsStep(cs, Tokens(OfConjunction(cs[0])) + more, more, rest);
    }
  }

  lemma ConjunctionsStep(cs: seq<JobConjunctionContinuation>, text: seq<Token>, more: seq<Token>, rest: seq<Token>)
    requires cs != [] && Allows(TokenConjunction, TokenAt(text, 0))
    requires ReadConjunction(text, cs[0]) == Leaves(more) && ReadConjunctions(more, cs[1..]) == Leaves(rest)
    ensures ReadConjunctions(text, cs) == Leaves(rest) && AfterPipeline(text)
  {
    hide ReadConjunction;
  }

  lemma ConjunctionReads(c: JobConjunctionContinuation, rest: seq<Token>)
    requires CanonicalConjunction(c) && (c.job.bg.Some? || AfterPipeline(rest))
    ensures var text := Tokens(OfConjunction(c)) + rest;
            ReadConjunction(text, c) == Leaves(rest) && Allows(TokenConjunction, TokenAt(text, 0))
    decreases c
  {
    var r2 := Tokens(OfJobPipeline(c.job)) + rest;
    var r1 := Tokens(OfNewlines(c.newlines)) + r2;
    Regroup3(One(TokenConjunction, c.conjunction), OfNewlines(c.newlines), OfJobPipeline(c.job), rest);
    hide CanonicalPipeline, AreNewlines, OfJobPipeline, OfNewlines, Tokens, One, ReadLeaf, ReadNewlines, ReadJobPipeline;
    LeafReads(c.conjunction, TokenConjunction, r1);
    PipelineOpens(c.job, rest);
    NotNewline(r2);
    NewlinesRead(c.newlines, r2);
    PipelineReads(c.job, rest);
  }

  /** Only ends are newlines, among the tokens that open something. */
  lemma NotNewline(text: seq<Token>)
    requires OpensPipeline(text)
    ensures !text[0].isNewline
  {
  }

  lemma PipelineReads(j: JobPipeline, rest: seq<Token>)
    requires CanonicalPipeline(j) && (j.bg.Some? || AfterPipeline(rest))
    ensures ReadJobPipeline(Tokens(OfJobPipeline(j)) + rest, j) == Leaves(rest)
    decreases j
  {
    var r4 := Tokens(Maybe(TokenBackground, j.bg)) + rest;
    var r3 := Tokens(OfContinuations(j.continuation)) + r4;
    var r2 := Tokens(OfStatement(j.statement)) + r3;
    var r1 := Tokens(Many(Assignment, j.variables)) + r2;
    Regroup5(Maybe(Word(KwTime), j.time), Many(Assignment, j.variables), OfStatement(j.statement),
             OfContinuations(j.continuation), Maybe(TokenBackground, j.bg), rest);
    hide CanonicalStatement, CanonicalContinuations, AreAssignments, OfStatement, OfContinuations, Many, Tokens, Maybe;
    hide ReadMaybe, ReadAssignments, ReadStatement, ReadContinuations;
    BackgroundReads(j.bg, rest);
    ContinuationsRead(j.continuation, r4);
    StatementReads(j.statement, r3);
    StatementOpens(j.statement, r3);
    AssignmentsRead(j.variables, r2);
    BodyOpens(j.variables, j.statement, r3);
    TimeReads(j.time, r1);
  }

  lemma BackgroundReads(bg: Option<Leaf>, rest: seq<Token>)
    requires PlainMaybe(bg, TokenBackground) && (bg.Some? || AfterPipeline(rest))
    ensures var text := Tokens(Maybe(TokenBackground, bg)) + rest;
            && ReadMaybe(text, TokenBackground, bg, Allows(TokenBackground, TokenAt(text, 0))) == Leaves(rest)
            && AfterContinuations(text)
  {
    MaybeReads(bg, TokenBackground, rest, bg.Some?);
    hide Tokens, ReadMaybe;
  }

  lemma TimeReads(time: Option<Leaf>, rest: seq<Token>)
    requires PlainMaybe(time, Word(KwTime)) && OpensBody(rest)
    ensures var text := Tokens(Maybe(Word(KwTime), time)) + rest;
            && ReadMaybe(text, Word(KwTime), time, StartsTime(TokenAt(text, 0), TokenAt(text, 1))) == Leaves(rest)
            && OpensPipeline(text)
  {
    MaybeReads(time, Word(KwTime), rest, time.Some?);
    hide Tokens, ReadMaybe;
  }

  lemma {:induction false} ContinuationsRead(cs: seq<JobContinuation>, rest: seq<Token>)
    requires CanonicalContinuations(cs) && AfterContinuations(rest)
    ensures ReadContinuations(Tokens(OfContinuations(cs)) + rest, cs) == Leaves(rest)
    ensures AfterStatement(Tokens(OfContinuations(cs)) + rest)
    decreases cs
  {
    if cs == [] {
      assert Tokens(OfContinuations(cs)) + rest == rest;
    } else {
      var more := Tokens(OfContinuations(cs[1..])) + rest;
      Regroup2(OfContinuation(cs[0]), OfContinuations(cs[1..]), rest);
      ContinuationsRead(cs[1..], rest);
      hide Tokens, CanonicalContinuation, OfContinuation, ReadContinuation;
      ContinuationReads(cs[0], more);
    }
  }

  lemma ContinuationReads(c: JobContinuation, rest: seq<Token>)
    requires CanonicalContinuation(c) && AfterStatement(rest)
    ensures var text := Tokens(OfContinuation(c)) + rest;
            ReadContinuation(text, c) == Leaves(rest) && text != [] && text[0].typ == Pipe
    decreases c
  {
    hide CanonicalStatement, AreNewlines, AreAssignments, OfStatement, OfNewlines, Many, Tokens, Plain, NoAndor;
    hide ReadLeaf, ReadNewlines, ReadAssignments, ReadStatement, AfterStatement, Allows;
    var r2 := Tokens(OfStatement(c.statement)) + rest;
    var r1 := Tokens(Many(Assignment, c.variables)) + r2;
    Regroup4(One(TokenPipe, c.pipe), OfNewlines(c.newlines), Many(Assignment, c.variables), OfStatement(c.statement), rest);
    StatementReads(c.statement, rest);
    StatementOpens(c.statement, rest);
    AssignmentsRead(c.variables, r2);
    BodyOpens(c.variables, c.statement, rest);
    BodyIsNoAndor(c.variables, c.statement, rest);
    PipeReads(c.pipe, c.newlines, r1);
  }

  lemma PipeReads(pipe: Leaf, newlines: Newlines, rest: seq<Token>)
    requires Plain(pipe, TokenPipe) && AreNewlines(newlines) && OpensBody(rest) && rest[0].keyword !in {KwAnd, KwOr}
    ensures var r := Tokens(OfNewlines(newlines)) + rest;
            var text := Tokens(One(TokenPipe, pipe)) + r;
            && ReadLeaf(text, TokenPipe, pipe) == Leaves(r) && ReadNewlines(r, newlines) == Leaves(rest)
            && text != [] && text[0].typ == Pipe && !Allows(JobDecorator, TokenAt(text, 1))
  {
    hide Tokens, OfNewlines, ReadLeaf, ReadNewlines, AreNewlines, OptionNext;
    NewlinesRead(newlines, rest);
    LeafReads(pipe, TokenPipe, Tokens(OfNewlines(newlines)) + rest);
  }

  // ---------------------------------------------------------------- statements are read back

  lemma StatementReads(s: Statement, rest: seq<Token>)
    requires CanonicalStatement(s) && AfterStatement(rest)
    ensures ReadStatement(Tokens(OfStatement(s)) + rest, s) == Leaves(rest)
    decreases s, 1
  {
    hide CanonicalStatement, OfStatement, Tokens, ReadStatement, AfterStatement;
    match s
    case DecoratedStatement(_, _, _) => CommandReads(s, rest);
    case NotStatement(_, _, _, _) => NotReads(s, rest);
    case BlockStatement(_, _, _, _) => BlockReads(s, rest);
    case BraceStatement(_, _, _, _) => BraceReads(s, rest);
    case IfStatement(_, _, _, _, _) => IfReads(s, rest);
    case SwitchStatement(_, _, _, _, _, _) => SwitchReads(s, rest);
  }

  lemma CommandReads(s: Statement, rest: seq<Token>)
    requires CanonicalStatement(s) && s.DecoratedStatement? && AfterStatement(rest)
    ensures ReadStatement(Tokens(OfStatement(s)) + rest, s) == Leaves(rest)
  {
    hide Tokens, OfArgs, AreArgs, ReadArgs, ReadLeaf, ReadMaybe, Maybe, ReadDecorated, StartsCommand;
    var r2 := Tokens(OfArgs(s.args)) + rest;
    var kind := if s.decoration.None? then CommandName else Str;
    Regroup3(Maybe(Decorator, s.decoration), One(kind, s.command), OfArgs(s.args), rest);
    ArgsRead(s.args, rest);
    LeafReads(s.command, Str, r2);
    FirstArg(s.args, rest);
    DecoratedReads(s.decoration, s.command, s.args, r2, rest);
  }

  lemma DecoratedReads(decoration: Option<Leaf>, command: Leaf, args: seq<ArgumentOrRedirection>, more: seq<Token>,
                       rest: seq<Token>)
    requires PlainMaybe(decoration, Decorator) && Plain(command, Str)
    requires decoration.None? ==> CanBeCommand(command.tok.keyword, args)
    requires args != [] && args[0].Argument? && args[0].argument.Sourced? ==> TokenAt(more, 0) == args[0].argument.tok
    requires ReadArgs(more, args) == Leaves(rest)
    ensures var text := Tokens(Maybe(Decorator, decoration)) + ([command.tok] + more);
            StartsCommand(text) && ReadDecorated(text, decoration, command, args) == Leaves(rest)
  {
    hide Tokens, Maybe, ReadArgs, ReadMaybe, ReadLeaf, StartsCommand, StartsDecorator;
    MaybeReads(decoration, Decorator, [command.tok] + more, decoration.Some?);
    LeafReads(command, Str, more);
    if decoration.Some? {
      DecoratorStarts(decoration.value, command, more);
    } else {
      CommandMeant(command, args, more);
    }
  }

  lemma DecoratorStarts(decorator: Leaf, command: Leaf, more: seq<Token>)
    requires Plain(decorator, Decorator) && Plain(command, Str)
    ensures var text := [decorator.tok] + ([command.tok] + more);
            StartsCommand(text) && StartsDecorator(TokenAt(text, 0), TokenAt(text, 1))
  {
  }

  lemma CommandMeant(command: Leaf, args: seq<ArgumentOrRedirection>, more: seq<Token>)
    requires Plain(command, Str) && CanBeCommand(command.tok.keyword, args)
    requires args != [] && args[0].Argument? && args[0].argument.Sourced? ==> TokenAt(more, 0) == args[0].argument.tok
    ensures var text := [command.tok] + more; StartsCommand(text) && !StartsDecorator(TokenAt(text, 0), TokenAt(text, 1))
  {
    assert TokenAt([command.tok] + more, 1) == TokenAt(more, 0);
  }

  /** A keyword is meant as one if no option follows, and something does. */
  lemma KeywordMeant(text: seq<Token>, keyword: Leaf, kind: Kind, rest: seq<Token>)
    requires Plain(keyword, kind) && IsStatementKeyword(keyword.tok.keyword) && keyword.tok.keyword != KwEnd
    requires text == [keyword.tok] + rest && rest != [] && !rest[0].isHelpArgument && !rest[0].hasDashPrefix
    requires keyword.tok.keyword != KwBegin ==> rest[0].typ == String || rest[0].typ == LeftBrace
    requires rest[0].typ != Terminate
    ensures StartsKeyword(text)
  {
    assert text[0] == keyword.tok && text[1] == rest[0];
  }

  lemma NotReads(s: Statement, rest: seq<Token>)
    requires CanonicalStatement(s) && s.NotStatement? && AfterStatement(rest)
    ensures ReadStatement(Tokens(OfStatement(s)) + rest, s) == Leaves(rest)
    decreases s, 0
  {
    hide Many, Tokens, Maybe, ReadLeaf, ReadMaybe, ReadAssignments, StartsKeyword, StartsTime;
    var r3 := Tokens(OfStatement(s.contents)) + rest;
    var r2 := Tokens(Many(Assignment, s.variables)) + r3;
    var r1 := Tokens(Maybe(Word(KwTime), s.time)) + r2;
    Regroup4(One(NotKeyword, s.kwNot), Maybe(Word(KwTime), s.time), Many(Assignment, s.variables), OfStatement(s.contents),
             rest);
    StatementReads(s.contents, rest);
    StatementOpens(s.contents, rest);
    AssignmentsRead(s.variables, r3);
    BodyOpens(s.variables, s.contents, rest);
    TimeReads(s.time, r2);
    NotKeywordReads(s.kwNot, r1);
  }

  lemma NotKeywordReads(kwNot: Leaf, rest: seq<Token>)
    requires Plain(kwNot, NotKeyword) && OpensPipeline(rest)
    ensures var text := Tokens(One(NotKeyword, kwNot)) + rest;
            text == [kwNot.tok] + rest && ReadLeaf(text, NotKeyword, kwNot) == Leaves(rest) && StartsKeyword(text)
  {
    LeafReads(kwNot, NotKeyword, rest);
    KeywordMeant([kwNot.tok] + rest, kwNot, NotKeyword, rest);
    hide Tokens, ReadLeaf, StartsKeyword;
  }

  lemma BraceReads(s: Statement, rest: seq<Token>)
    requires CanonicalStatement(s) && s.BraceStatement? && AfterStatement(rest)
    ensures ReadStatement(Tokens(OfStatement(s)) + rest, s) == Leaves(rest)
    decreases s, 0
  {
    hide OfJobs, OfArgs, Tokens, ReadLeaf, ReadJobs, ReadArgs;
    var r3 := Tokens(OfArgs(s.args)) + rest;
    var r2 := Tokens(One(TokenRightBrace, s.right)) + r3;
    var r1 := Tokens(OfJobs(s.jobs)) + r2;
    Regroup4(One(TokenLeftBrace, s.left), OfJobs(s.jobs), One(TokenRightBrace, s.right), OfArgs(s.args), rest);
    ArgsRead(s.args, rest);
    LeafReads(s.right, TokenRightBrace, r3);
    JobsRead(s.jobs, true, r2);
    LeafReads(s.left, TokenLeftBrace, r1);
  }

  lemma BlockReads(s: Statement, rest: seq<Token>)
    requires CanonicalStatement(s) && s.BlockStatement? && AfterStatement(rest)
    ensures ReadStatement(Tokens(OfStatement(s)) + rest, s) == Leaves(rest)
    decreases s, 0
  {
    hide OfHeader, OfJobs, OfEnd, Tokens, ReadHeader, ReadJobs, ReadEnd, StartsKeyword;
    var r2 := Tokens(OfEnd(s.end, s.args)) + rest;
    var r1 := Tokens(OfJobs(s.jobs)) + r2;
    Regroup3(OfHeader(s.header), OfJobs(s.jobs), OfEnd(s.end, s.args), rest);
    EndReads(s.end, s.args, rest);
    JobsRead(s.jobs, false, r2);
    JobsOpen(s.jobs, false, r2);
    HeaderReads(s.header, r1);
  }

  /** The jobs of a body, or what ends it. */
  lemma JobsOpen(jobs: seq<JobConjunction>, last: bool, rest: seq<Token>)
    requires CanonicalJobs(jobs, last)
    ensures var text := Tokens(OfJobs(jobs)) + rest;
            && (jobs == [] ==> text == rest)
            && (jobs != [] ==> text != [] && Opens(text[0]))
            && (jobs != [] && StartsAfresh(jobs) && text[0].keyword in {KwAnd, KwOr} ==> OptionNext(text))
  {
    if jobs == [] {
      assert Tokens(OfJobs(jobs)) + rest == rest;
    } else {
      Regroup2(OfJobConjunction(jobs[0]), OfJobs(jobs[1..]), rest);
      JobOpens(jobs[0], last && |jobs| == 1, Tokens(OfJobs(jobs[1..])) + rest);
      hide Tokens, OfJobs, OfJobConjunction, CanonicalJob;
    }
  }

  lemma HeaderReads(h: BlockHeader, rest: seq<Token>)
    requires CanonicalHeader(h)
    requires rest != [] && AfterJob(rest, false) && !rest[0].isHelpArgument && !rest[0].hasDashPrefix
    requires h.WhileHeader? ==> AfterAndorJobs(rest)
    ensures var text := Tokens(OfHeader(h)) + rest; ReadHeader(text, h) == Leaves(rest) && StartsKeyword(text)
    decreases h, 1
  {
    match h
    case ForHeader(_, _, _, _, _) => ForReads(h, rest);
    case WhileHeader(_, _, _) => WhileReads(h, rest);
    case FunctionHeader(_, _, _, _) => FunctionReads(h, rest);
    case BeginHeader(_, _) => BeginReads(h, rest);
  }

  lemma ForReads(h: BlockHeader, rest: seq<Token>)
    requires CanonicalHeader(h) && h.ForHeader?
    ensures var text := Tokens(OfHeader(h)) + rest; ReadHeader(text, h) == Leaves(rest) && StartsKeyword(text)
  {
    hide Many, Tokens, ReadLeaf, ReadArguments, ReadForHead, StartsKeyword, AreWords;
    var head := One(Word(KwFor), h.kwFor) + One(Str, h.varName) + One(Word(KwIn), h.kwIn);
    var r2 := Tokens(One(SemiNl, h.forSemiNl)) + rest;
    var r1 := Tokens(Many(Str, h.forArgs)) + r2;
    Regroup3(head, Many(Str, h.forArgs), One(SemiNl, h.forSemiNl), rest);
    LeafReads(h.forSemiNl, SemiNl, rest);
    WordsRead(h.forArgs, r2);
    ForHeadReads(h.kwFor, h.varName, h.kwIn, r1);
  }

  lemma ForHeadReads(kwFor: Leaf, varName: Leaf, kwIn: Leaf, rest: seq<Token>)
    requires Plain(kwFor, Word(KwFor)) && Plain(varName, Str) && Plain(kwIn, Word(KwIn))
    ensures var text := Tokens(One(Word(KwFor), kwFor) + One(Str, varName) + One(Word(KwIn), kwIn)) + rest;
            ReadForHead(text, kwFor, varName, kwIn) == Leaves(rest) && StartsKeyword(text)
  {
    hide Tokens, ReadLeaf, StartsKeyword;
    var r2 := Tokens(One(Word(KwIn), kwIn)) + rest;
    var r1 := Tokens(One(Str, varName)) + r2;
    Regroup3(One(Word(KwFor), kwFor), One(Str, varName), One(Word(KwIn), kwIn), rest);
    LeafReads(kwIn, Word(KwIn), rest);
    LeafReads(varName, Str, r2);
    LeafReads(kwFor, Word(KwFor), r1);
    KeywordMeant([kwFor.tok] + r1, kwFor, Word(KwFor), r1);
  }

  /** The keyword and the condition of an `if` or a `while`. */
  lemma ConditionReads(keyword: Leaf, kind: Kind, j: JobConjunction, rest: seq<Token>)
    requires Plain(keyword, kind) && kind in {Word(KwIf), Word(KwWhile)} && CanonicalJob(j, false) && AfterJob(rest, false)
    ensures var r := Tokens(OfJobConjunction(j)) + rest;
            var text := Tokens(One(kind, keyword)) + r;
            && ReadLeaf(text, kind, keyword) == Leaves(r) && ReadJobConjunction(r, j) == Leaves(rest)
            && StartsKeyword(text) && text[0] == keyword.tok
    decreases j, 1
  {
    hide OfJobConjunction, Tokens, ReadLeaf, ReadJobConjunction, CanonicalJob, StartsKeyword;
    var r := Tokens(OfJobConjunction(j)) + rest;
    JobReads(j, false, rest);
    JobOpens(j, false, rest);
    LeafReads(keyword, kind, r);
    KeywordMeant([keyword.tok] + r, keyword, kind, r);
  }

  lemma WhileReads(h: BlockHeader, rest: seq<Token>)
    requires CanonicalHeader(h) && h.WhileHeader? && AfterAndorJobs(rest)
    ensures var text := Tokens(OfHeader(h)) + rest; ReadHeader(text, h) == Leaves(rest) && StartsKeyword(text)
    decreases h, 0
  {
    hide OfJobs, OfJobConjunction, Tokens, ReadLeaf, ReadJobConjunction, ReadAndorJobs, StartsKeyword;
    var r2 := Tokens(OfJobs(h.andorTail)) + rest;
    var r1 := Tokens(OfJobConjunction(h.condition)) + r2;
    Regroup3(One(Word(KwWhile), h.kwWhile), OfJobConjunction(h.condition), OfJobs(h.andorTail), rest);
    AndorJobsRead(h.andorTail, rest);
    MoreJobs(h.andorTail, false, rest);
    ConditionReads(h.kwWhile, Word(KwWhile), h.condition, r2);
  }

  lemma FunctionReads(h: BlockHeader, rest: seq<Token>)
    requires CanonicalHeader(h) && h.FunctionHeader?
    ensures var text := Tokens(OfHeader(h)) + rest; ReadHeader(text, h) == Leaves(rest) && StartsKeyword(text)
  {
    hide Many, Tokens, ReadLeaf, ReadArguments, StartsKeyword, AreWords;
    var r3 := Tokens(One(SemiNl, h.functionSemiNl)) + rest;
    var r2 := Tokens(Many(Str, h.functionArgs)) + r3;
    var r1 := Tokens(One(Str, h.firstArg)) + r2;
    Regroup4(One(Word(KwFunction), h.kwFunction), One(Str, h.firstArg), Many(Str, h.functionArgs),
             One(SemiNl, h.functionSemiNl), rest);
    LeafReads(h.functionSemiNl, SemiNl, rest);
    WordsRead(h.functionArgs, r3);
    LeafReads(h.firstArg, Str, r2);
    LeafReads(h.kwFunction, Word(KwFunction), r1);
    KeywordMeant([h.kwFunction.tok] + r1, h.kwFunction, Word(KwFunction), r1);
  }

  lemma BeginReads(h: BlockHeader, rest: seq<Token>)
    requires CanonicalHeader(h) && h.BeginHeader?
    requires rest != [] && AfterJob(rest, false) && !rest[0].isHelpArgument && !rest[0].hasDashPrefix
    ensures var text := Tokens(OfHeader(h)) + rest; ReadHeader(text, h) == Leaves(rest) && StartsKeyword(text)
  {
    var r1 := Tokens(Maybe(SemiNl, h.beginSemiNl)) + rest;
    Regroup2(One(Word(KwBegin), h.kwBegin), Maybe(SemiNl, h.beginSemiNl), rest);
    SemiNlReads(h.beginSemiNl, rest, false);
    MaybeReads(h.beginSemiNl, SemiNl, rest, h.beginSemiNl.Some?);
    LeafReads(h.kwBegin, Word(KwBegin), r1);
    assert r1 != [] && !r1[0].isHelpArgument && !r1[0].hasDashPrefix && r1[0].typ != Terminate;
    KeywordMeant([h.kwBegin.tok] + r1, h.kwBegin, Word(KwBegin), r1);
    hide Tokens, Maybe, Allows, ReadLeaf, ReadMaybe, StartsKeyword;
  }

  lemma IfReads(s: Statement, rest: seq<Token>)
    requires CanonicalStatement(s) && s.IfStatement? && AfterStatement(rest)
    ensures ReadStatement(Tokens(OfStatement(s)) + rest, s) == Leaves(rest)
    decreases s, 0
  {
    hide OfIfClause, OfElseifs, OfElse, OfEnd, Tokens, ReadIfClause, ReadElseifs, ReadMaybeElse, ReadEnd, StartsKeyword;
    hide CanonicalIfClause, CanonicalElseifs, CanonicalElse, AreArgs, AfterClauses, AfterStatement;
    var otherwise := if s.elseClause.Some? then OfElse(s.elseClause.value) else [];
    var r3 := Tokens(OfEnd(s.end, s.args)) + rest;
    var r2 := Tokens(otherwise) + r3;
    var r1 := Tokens(OfElseifs(s.elseifClauses)) + r2;
    Regroup4(OfIfClause(s.ifClause), OfElseifs(s.elseifClauses), otherwise, OfEnd(s.end, s.args), rest);
    EndReads(s.end, s.args, rest);
    MaybeElseReads(s.elseClause, r3);
    ElseifsRead(s.elseifClauses, r2);
    IfClauseReads(s.ifClause, r1);
  }

  /** What may come after the clauses of an `if`: its end, or an `else` that is no `else if`. */
  predicate AfterClauses(rest: seq<Token>) {
    && rest != [] && rest[0].typ == String && rest[0].keyword in {KwElse, KwEnd}
    && (rest[0].keyword == KwElse ==> TokenAt(rest, 1).keyword == NoKeyword)
  }

  lemma BodyFollows(body: seq<JobConjunction>, rest: seq<Token>)
    requires CanonicalJobs(body, false) && StartsAfresh(body) && AfterJobs(rest)
    ensures AfterAndorJobs(Tokens(OfJobs(body)) + rest)
  {
    hide CanonicalJobs, OfJobs, Tokens;
    JobsOpen(body, false, rest);
  }

  lemma IfClauseReads(c: IfClause, rest: seq<Token>)
    requires CanonicalIfClause(c) && AfterJobs(rest) && rest != [] && !rest[0].isHelpArgument && !rest[0].hasDashPrefix
    ensures var text := Tokens(OfIfClause(c)) + rest;
            ReadIfClause(text, c) == Leaves(rest) && StartsKeyword(text) && text[0].keyword == KwIf
    decreases c
  {
    hide OfJobs, OfJobConjunction, Tokens, ReadLeaf, ReadJobConjunction, ReadAndorJobs, ReadJobs, StartsKeyword, CanonicalJob;
    var r3 := Tokens(OfJobs(c.body)) + rest;
    var r2 := Tokens(OfJobs(c.andorTail)) + r3;
    var r1 := Tokens(OfJobConjunction(c.condition)) + r2;
    Regroup4(One(Word(KwIf), c.kwIf), OfJobConjunction(c.condition), OfJobs(c.andorTail), OfJobs(c.body), rest);
    JobsRead(c.body, false, rest);
    BodyFollows(c.body, rest);
    AndorJobsRead(c.andorTail, r3);
    MoreJobs(c.andorTail, false, r3);
    ConditionReads(c.kwIf, Word(KwIf), c.condition, r2);
  }

  lemma {:induction false} ElseifsRead(cs: seq<ElseifClause>, rest: seq<Token>)
    requires CanonicalElseifs(cs) && AfterClauses(rest) && !rest[0].isHelpArgument && !rest[0].hasDashPrefix
    ensures var text := Tokens(OfElseifs(cs)) + rest;
            && ReadElseifs(text, cs) == Leaves(rest) && AfterJobs(text)
            && text != [] && !text[0].isHelpArgument && !text[0].hasDashPrefix
    decreases cs
  {
    if cs == [] {
      assert Tokens(OfElseifs(cs)) + rest == rest;
    } else {
      var more := Tokens(OfElseifs(cs[1..])) + rest;
      Regroup2(OfElseif(cs[0]), OfElseifs(cs[1..]), rest);
      hide Tokens, CanonicalElseif, OfElseif, ReadElseif, Chomped, StartsElseif;
      ElseifsRead(cs[1..], rest);
      ElseifReads(cs[0], more);
      NoneChomped(Tokens(OfElseif(cs[0])) + more);
    }
  }

  lemma ElseifReads(c: ElseifClause, rest: seq<Token>)
    requires CanonicalElseif(c) && AfterJobs(rest) && rest != [] && !rest[0].isHelpArgument && !rest[0].hasDashPrefix
    ensures var text := Tokens(OfElseif(c)) + rest;
            && ReadElseif(text, c) == Leaves(rest)
            && text != [] && StartsElseif(TokenAt(text, 0), TokenAt(text, 1))
            && text[0].typ == String && !text[0].isHelpArgument && !text[0].hasDashPrefix
    decreases c
  {
    var r1 := Tokens(OfIfClause(c.ifClause)) + rest;
    Regroup2(One(Word(KwElse), c.kwElse), OfIfClause(c.ifClause), rest);
    IfClauseReads(c.ifClause, rest);
    LeafReads(c.kwElse, Word(KwElse), r1);
    hide OfIfClause, Tokens, ReadLeaf, ReadIfClause, CanonicalIfClause;
  }

  lemma MaybeElseReads(c: Option<ElseClause>, rest: seq<Token>)
    requires c.Some? ==> CanonicalElse(c.value)
    requires rest != [] && rest[0].typ == String && rest[0].keyword == KwEnd
    requires !rest[0].isHelpArgument && !rest[0].hasDashPrefix
    ensures var text := Tokens(if c.Some? then OfElse(c.value) else []) + rest;
            && ReadMaybeElse(text, c) == Leaves(rest) && AfterClauses(text)
            && !text[0].isHelpArgument && !text[0].hasDashPrefix
    decreases c
  {
    if c.Some? {
      hide OfElse, Tokens, ReadElse, CanonicalElse;
      ElseReads(c.value, rest);
    } else {
      assert Tokens([]) + rest == rest;
    }
  }

  lemma ElseReads(c: ElseClause, rest: seq<Token>)
    requires CanonicalElse(c) && AfterJobs(rest)
    ensures var text := Tokens(OfElse(c)) + rest;
            && ReadElse(text, c) == Leaves(rest) && AfterClauses(text) && text[0].keyword == KwElse
            && !text[0].isHelpArgument && !text[0].hasDashPrefix
    decreases c
  {
    hide OfJobs, Tokens, Maybe, ReadLeaf, ReadMaybe, ReadJobs, CanonicalJobs;
    var r2 := Tokens(OfJobs(c.body)) + rest;
    var r1 := Tokens(Maybe(SemiNl, c.semiNl)) + r2;
    Regroup3(One(Word(KwElse), c.kwElse), Maybe(SemiNl, c.semiNl), OfJobs(c.body), rest);
    JobsRead(c.body, false, rest);
    MaybeReads(c.semiNl, SemiNl, r2, true);
    LeafReads(c.kwElse, Word(KwElse), r1);
  }

  lemma SwitchReads(s: Statement, rest: seq<Token>)
    requires CanonicalStatement(s) && s.SwitchStatement? && AfterStatement(rest)
    ensures ReadStatement(Tokens(OfStatement(s)) + rest, s) == Leaves(rest)
    decreases s, 0
  {
    hide OfSwitchHead, OfCases, OfEnd, Tokens, ReadSwitchHead, ReadCases, ReadEnd, StartsKeyword;
    var r2 := Tokens(OfEnd(s.end, s.args)) + rest;
    var r1 := Tokens(OfCases(s.cases)) + r2;
    Regroup3(OfSwitchHead(s.kwSwitch, s.argument, s.semiNl), OfCases(s.cases), OfEnd(s.end, s.args), rest);
    EndReads(s.end, s.args, rest);
    CasesRead(s.cases, r2);
    SwitchHeadReads(s.kwSwitch, s.argument, s.semiNl, r1);
  }

  lemma SwitchHeadReads(kwSwitch: Leaf, argument: Leaf, semiNl: Leaf, rest: seq<Token>)
    requires Plain(kwSwitch, Word(KwSwitch)) && Plain(argument, Str) && Plain(semiNl, SemiNl)
    ensures var text := Tokens(OfSwitchHead(kwSwitch, argument, semiNl)) + rest;
            ReadSwitchHead(text, kwSwitch, argument, semiNl) == Leaves(rest) && StartsKeyword(text)
  {
    var r2 := Tokens(One(SemiNl, semiNl)) + rest;
    var r1 := Tokens(One(Str, argument)) + r2;
    Regroup3(One(Word(KwSwitch), kwSwitch), One(Str, argument), One(SemiNl, semiNl), rest);
    LeafReads(semiNl, SemiNl, rest);
    LeafReads(argument, Str, r2);
    LeafReads(kwSwitch, Word(KwSwitch), r1);
    KeywordMeant([kwSwitch.tok] + r1, kwSwitch, Word(KwSwitch), r1);
    hide Tokens, ReadLeaf, StartsKeyword;
  }

  lemma {:induction false} CasesRead(cs: seq<CaseItem>, rest: seq<Token>)
    requires CanonicalCases(cs) && rest != [] && rest[0].typ == String && rest[0].keyword == KwEnd
    ensures ReadCases(Tokens(OfCases(cs)) + rest, cs) == Leaves(rest) && AfterJobs(Tokens(OfCases(cs)) + rest)
    decreases cs
  {
    if cs == [] {
      assert Tokens(OfCases(cs)) + rest == rest;
    } else {
      var more := Tokens(OfCases(cs[1..])) + rest;
      Regroup2(OfCase(cs[0]), OfCases(cs[1..]), rest);
      hide Tokens, CanonicalCase, OfCase, ReadCase, Chomped;
      CasesRead(cs[1..], rest);
      CaseReads(cs[0], more);
      NoneChomped(Tokens(OfCase(cs[0])) + more);
    }
  }

  lemma CaseReads(c: CaseItem, rest: seq<Token>)
    requires CanonicalCase(c) && AfterJobs(rest)
    ensures var text := Tokens(OfCase(c)) + rest;
            ReadCase(text, c) == Leaves(rest) && text != [] && text[0].typ == String && text[0].keyword == KwCase
    decreases c
  {
    hide OfJobs, Many, Tokens, ReadLeaf, ReadArguments, ReadJobs, AreWords;
    var r3 := Tokens(OfJobs(c.body)) + rest;
    var r2 := Tokens(One(SemiNl, c.semiNl)) + r3;
    var r1 := Tokens(Many(Str, c.arguments)) + r2;
    Regroup4(One(Word(KwCase), c.kwCase), Many(Str, c.arguments), One(SemiNl, c.semiNl), OfJobs(c.body), rest);
    JobsRead(c.body, false, rest);
    LeafReads(c.semiNl, SemiNl, r3);
    WordsRead(c.arguments, r2);
    LeafReads(c.kwCase, Word(KwCase), r1);
  }
}
