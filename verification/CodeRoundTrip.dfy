module CodeRoundTrip {
  /**
   Valid code is parsed, into the tree it was written from: all code in canonical form, and with it every list of
   commands with arguments; blank lines; and keywords that stand alone.
   */

  import opened Common
  import opened TokenStream
  import opened Ast
  import opened Grammar
  import opened CanonicalCode
  import opened CanonicalSteps

  /** The tokens of canonical code are its only tree's, whatever the code. */
  lemma CanonicalIsRead(jobs: seq<JobConjunction>)
    requires CanonicalJobs(jobs, true)
    ensures IsJobList(Tokens(OfJobs(jobs)), jobs)
  {
    JobsRead(jobs, true, []);
    assert Tokens(OfJobs(jobs)) + [] == Tokens(OfJobs(jobs));
  }

  predicate AreEnds(blank: seq<Token>) {
    forall t <- blank :: t.typ == End
  }

  /** The tokens of jobs, with blank lines and stray semicolons before each. */
  function Spaced(jobs: seq<JobConjunction>, blanks: seq<seq<Token>>): seq<Token>
    requires |jobs| == |blanks|
  {
    if jobs == [] then [] else blanks[0] + (Tokens(OfJobConjunction(jobs[0])) + Spaced(jobs[1..], blanks[1..]))
  }

  /** Blank lines change nothing. */
  lemma {:induction false} SpacedIsRead(jobs: seq<JobConjunction>, blanks: seq<seq<Token>>)
    requires |jobs| == |blanks| && (forall j <- jobs :: CanonicalJob(j, false) && j.semiNl.Some?)
    requires forall blank <- blanks :: AreEnds(blank)
    ensures IsJobList(Spaced(jobs, blanks), jobs)
  {
    if jobs != [] {
      hide CanonicalJob, OfJobConjunction, Tokens, ReadJobConjunction, ReadJobs, AreEnds, Opens;
      assert jobs[0] in jobs && blanks[0] in blanks;
      var more := Spaced(jobs[1..], blanks[1..]);
      var text := Tokens(OfJobConjunction(jobs[0])) + more;
      SpacedIsRead(jobs[1..], blanks[1..]);
      JobReads(jobs[0], false, more);
      JobOpens(jobs[0], false, more);
      JobsStep(jobs, text, more, []);
      BlankIsSkipped(blanks[0], text, jobs);
    }
  }

  lemma BlankIsSkipped(blank: seq<Token>, text: seq<Token>, jobs: seq<JobConjunction>)
    requires AreEnds(blank)
    ensures ReadJobs(blank + text, jobs) == ReadJobs(text, jobs)
  {
    EndsChomped(blank, text);
    hide Chomped, ReadJobConjunction;
  }

  lemma {:induction false} EndsChomped(blank: seq<Token>, text: seq<Token>)
    requires AreEnds(blank)
    ensures Chomped(blank + text, true, true) == Chomped(text, true, true)
  {
    if blank == [] {
      assert blank + text == text;
    } else {
      assert blank[0] in blank && (blank + text)[1..] == blank[1..] + text;
      EndsChomped(blank[1..], text);
    }
  }

  /** A command with its arguments, and the newline or semicolon after it. */
  datatype Command = Command(name: Token, args: seq<Token>, end: Token)

  /** A name that is neither a keyword, nor an option, nor an assignment. */
  predicate IsCommand(c: Command) {
    && c.name.typ == String && c.name.keyword == NoKeyword
    && !c.name.hasDashPrefix && !c.name.isHelpArgument && !c.name.mayBeVariableAssignment
    && (forall arg <- c.args :: arg.typ == String)
    && c.end.typ == End && !c.end.hasDashPrefix && !c.end.isHelpArgument
  }

  function CommandTokens(commands: seq<Command>): seq<Token> {
    if commands == [] then []
    else [commands[0].name] + commands[0].args + [commands[0].end] + CommandTokens(commands[1..])
  }

  function ArgLeaves(args: seq<Token>): seq<ArgumentOrRedirection> {
    if args == [] then [] else [Argument(Sourced(args[0]))] + ArgLeaves(args[1..])
  }

  function CommandJob(c: Command): JobConjunction {
    var statement := DecoratedStatement(None, Sourced(c.name), ArgLeaves(c.args));
    JobConjunction(None, JobPipeline(None, [], statement, [], None), [], Some(Sourced(c.end)))
  }

  function CommandJobs(commands: seq<Command>): seq<JobConjunction> {
    if commands == [] then [] else [CommandJob(commands[0])] + CommandJobs(commands[1..])
  }

  lemma {:induction false} ArgLeavesTokens(args: seq<Token>)
    requires forall arg <- args :: arg.typ == String
    ensures Tokens(OfArgs(ArgLeaves(args))) == args && AreArgs(ArgLeaves(args))
  {
    if args != [] {
      assert args[0] in args;
      ArgLeavesTokens(args[1..]);
      var first, more := Argument(Sourced(args[0])), ArgLeaves(args[1..]);
      assert ArgLeaves(args)[1..] == more;
      TokensConcat(OfArgumentOrRedirection(first), OfArgs(more));
      LeafReads(Sourced(args[0]), Str, []);
      assert [args[0]] + args[1..] == args;
    }
  }

  lemma CommandJobTokens(c: Command)
    requires IsCommand(c)
    ensures Tokens(OfJobConjunction(CommandJob(c))) == [c.name] + c.args + [c.end]
  {
    hide OfArgs, ArgLeaves, Tokens, CommandJob, OfJobConjunction;
    var name, args, end := One(CommandName, Sourced(c.name)), OfArgs(ArgLeaves(c.args)), One(SemiNl, Sourced(c.end));
    CommandJobYield(c);
    ArgLeavesTokens(c.args);
    Regroup3(name, args, end, []);
    LeafReads(Sourced(c.end), SemiNl, []);
    LeafReads(Sourced(c.name), Str, Tokens(args) + ([c.end] + []));
    assert Tokens(name + args + end) + [] == Tokens(name + args + end);
  }

  lemma CommandJobYield(c: Command)
    ensures OfJobConjunction(CommandJob(c))
            == One(CommandName, Sourced(c.name)) + OfArgs(ArgLeaves(c.args)) + One(SemiNl, Sourced(c.end))
  {
    hide OfArgs, ArgLeaves;
    var j := CommandJob(c);
    assert OfStatement(j.job.statement) == One(CommandName, Sourced(c.name)) + OfArgs(ArgLeaves(c.args));
    assert OfJobPipeline(j.job) == OfStatement(j.job.statement);
  }

  lemma CommandJobIsCanonical(c: Command, last: bool)
    requires IsCommand(c) && TokenSound(c.name) && TokenSound(c.end)
    ensures CanonicalJob(CommandJob(c), last)
  {
    hide ArgLeaves, AreArgs;
    ArgLeavesTokens(c.args);
    var j := CommandJob(c);
    assert CanonicalStatement(j.job.statement);
    assert CanonicalPipeline(j.job);
  }

  /** So every list of commands is parsed, into these commands with these arguments. */
  lemma {:induction false} CommandsAreRead(commands: seq<Command>)
    requires forall c <- commands :: IsCommand(c) && TokenSound(c.name) && TokenSound(c.end)
    ensures IsJobList(CommandTokens(commands), CommandJobs(commands))
  {
    CommandJobsTokens(commands);
    CanonicalIsRead(CommandJobs(commands));
  }

  lemma {:induction false} CommandJobsTokens(commands: seq<Command>)
    requires forall c <- commands :: IsCommand(c) && TokenSound(c.name) && TokenSound(c.end)
    ensures Tokens(OfJobs(CommandJobs(commands))) == CommandTokens(commands) && CanonicalJobs(CommandJobs(commands), true)
  {
    if commands != [] {
      hide CanonicalJob, OfJobConjunction, CommandJob, Tokens, IsCommand;
      assert commands[0] in commands;
      CommandJobTokens(commands[0]);
      CommandJobsTokens(commands[1..]);
      var first, more := CommandJob(commands[0]), CommandJobs(commands[1..]);
      assert CommandJobs(commands)[0] == first && CommandJobs(commands)[1..] == more;
      TokensConcat(OfJobConjunction(first), OfJobs(more));
      CommandJobIsCanonical(commands[0], |commands| == 1);
    }
  }

  /** A keyword that stands alone is a command too, but for those that need no argument or end something. */
  predicate StandsAlone(t: Token) {
    t.typ == String && t.keyword !in {KwAnd, KwOr, KwTime, KwBegin, KwCase, KwElse, KwEnd} && !t.mayBeVariableAssignment
  }

  lemma NakedKeywordIsRead(t: Token, end: Token)
    requires StandsAlone(t) && end.typ == End && !end.isHelpArgument
    ensures IsJobList([t, end], [CommandJob(Command(t, [], end))])
  {
    hide CommandJob, ReadJobConjunction;
    var j := CommandJob(Command(t, [], end));
    NakedJobReads(t, end);
    NoneChomped([t, end]);
    NoneChomped([]);
    hide Chomped;
    assert [j][1..] == [] && ReadJobs([], []) == Leaves([]);
  }

  lemma NakedJobReads(t: Token, end: Token)
    requires StandsAlone(t) && end.typ == End && !end.isHelpArgument
    ensures ReadJobConjunction([t, end], CommandJob(Command(t, [], end))) == Leaves([])
  {
    hide ReadJobPipeline;
    NakedPipelineReads(t, end);
    assert !StartsJobDecorator(t, end) && [end][1..] == [];
  }

  lemma NakedPipelineReads(t: Token, end: Token)
    requires StandsAlone(t) && end.typ == End
    ensures ReadJobPipeline([t, end], CommandJob(Command(t, [], end)).job) == Leaves([end])
  {
    NakedCommandReads(t, end);
    hide ReadStatement;
  }

  lemma NakedCommandReads(t: Token, end: Token)
    requires StandsAlone(t) && end.typ == End
    ensures ReadStatement([t, end], DecoratedStatement(None, Sourced(t), [])) == Leaves([end])
  {
    assert StartsCommand([t, end]) && !StartsDecorator(t, end);
    assert [t, end][1..] == [end];
    assert ReadDecorated([t, end], None, Sourced(t), []) == Leaves([end]);
    hide ReadDecorated, StartsCommand;
  }
}
