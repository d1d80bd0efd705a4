module CanonicalCode {
  /**
   Code in canonical form. What makes a tree canonical is said of the tree alone, without looking ahead: a job ends with
   a newline or a semicolon unless it is the last one or ends with `&`, keywords are where the grammar has them or
   before an option that makes them commands, and no option comes where it would do so by mistake.
   */

  import opened Common
  import opened TokenStream
  import opened Ast
  import opened Grammar

  /** A token of its kind that looks like nothing else. */
  predicate Plain(leaf: Leaf, kind: Kind) {
    && leaf.Sourced? && Allows(kind, leaf.tok) && TokenSound(leaf.tok)
    && !leaf.tok.hasDashPrefix && !leaf.tok.isHelpArgument && !leaf.tok.mayBeVariableAssignment
  }

  predicate PlainMaybe(leaf: Option<Leaf>, kind: Kind) {
    leaf.Some? ==> Plain(leaf.value, kind)
  }

  /** A word, which may be an option. */
  predicate IsWord(leaf: Leaf) {
    leaf.Sourced? && leaf.tok.typ == String
  }

  predicate AreWords(leaves: seq<Leaf>) {
    forall leaf <- leaves :: IsWord(leaf)
  }

  predicate IsAssignment(leaf: Leaf) {
    && leaf.Sourced? && Allows(Assignment, leaf.tok) && TokenSound(leaf.tok) && leaf.tok.keyword == NoKeyword
    && !leaf.tok.hasDashPrefix && !leaf.tok.isHelpArgument
  }

  predicate AreAssignments(leaves: seq<Leaf>) {
    forall leaf <- leaves :: IsAssignment(leaf)
  }

  predicate IsArg(arg: ArgumentOrRedirection) {
    match arg
    case Argument(leaf) => IsWord(leaf)
    case Redirected(r) => r.oper.Sourced? && r.oper.tok.typ == Redirect && IsWord(r.target)
  }

  predicate AreArgs(args: seq<ArgumentOrRedirection>) {
    forall arg <- args :: IsArg(arg)
  }

  /** After a keyword, this says that the keyword is a command: an option or, for most, a question for help. */
  predicate IsOption(keyword: Keyword, t: Token) {
    && t.typ == String
    && (if keyword in {KwBegin, KwFunction, KwIf, KwSwitch, KwWhile, KwAnd, KwOr} then t.isHelpArgument else t.hasDashPrefix)
  }

  /** The name of an undecorated command: no keyword but `in`, unless an option follows. */
  predicate CanBeCommand(keyword: Keyword, args: seq<ArgumentOrRedirection>) {
    || keyword in {NoKeyword, KwIn}
    || (keyword !in {KwCase, KwElse, KwEnd}
        && args != [] && args[0].Argument? && args[0].argument.Sourced? && IsOption(keyword, args[0].argument.tok))
  }

  /** Right after a pipe, `and` and `or` are not even commands. */
  predicate NoAndor(s: Statement) {
    s.DecoratedStatement? && s.decoration.None? && s.command.Sourced? ==> s.command.tok.keyword !in {KwAnd, KwOr}
  }

  predicate AreNewlines(newlines: Newlines) {
    newlines.Newlines? && forall t <- newlines.toks :: t.isNewline && t.typ == End && t.keyword == NoKeyword
  }

  /** Jobs, each with its newline or semicolon. After `&` there need be none, nor after the last job, at the end of the
      input or before a right brace. */
  predicate CanonicalJobs(jobs: seq<JobConjunction>, last: bool)
    decreases jobs
  {
    jobs == [] || (CanonicalJob(jobs[0], last && |jobs| == 1) && CanonicalJobs(jobs[1..], last))
  }

  predicate AllDecorated(jobs: seq<JobConjunction>) {
    forall j <- jobs :: j.decorator.Some?
  }

  /** Jobs that do not start with `and` or `or`. */
  predicate StartsAfresh(jobs: seq<JobConjunction>) {
    jobs == [] || jobs[0].decorator.None?
  }

  predicate CanonicalJob(j: JobConjunction, last: bool)
    decreases j
  {
    && PlainMaybe(j.decorator, JobDecorator) && CanonicalPipeline(j.job) && CanonicalConjunctions(j.continuations)
    && PlainMaybe(j.semiNl, SemiNl) && (j.semiNl.None? ==> last || InBackground(j.job, j.continuations))
  }

  /** The last of the pipelines ends with `&`. */
  predicate InBackground(job: JobPipeline, cs: seq<JobConjunctionContinuation>)
    decreases |cs|
  {
    if cs == [] then job.bg.Some? else InBackground(cs[0].job, cs[1..])
  }

  predicate CanonicalConjunctions(cs: seq<JobConjunctionContinuation>)
    decreases cs
  {
    cs == [] || (CanonicalConjunction(cs[0]) && CanonicalConjunctions(cs[1..]))
  }

  predicate CanonicalConjunction(c: JobConjunctionContinuation)
    decreases c
  {
    Plain(c.conjunction, TokenConjunction) && AreNewlines(c.newlines) && CanonicalPipeline(c.job)
  }

  predicate CanonicalPipeline(j: JobPipeline)
    decreases j
  {
    && PlainMaybe(j.time, Word(KwTime)) && AreAssignments(j.variables) && CanonicalStatement(j.statement)
    && CanonicalContinuations(j.continuation) && PlainMaybe(j.bg, TokenBackground)
  }

  predicate CanonicalContinuations(cs: seq<JobContinuation>)
    decreases cs
  {
    cs == [] || (CanonicalContinuation(cs[0]) && CanonicalContinuations(cs[1..]))
  }

  predicate CanonicalContinuation(c: JobContinuation)
    decreases c
  {
    && Plain(c.pipe, TokenPipe) && AreNewlines(c.newlines) && AreAssignments(c.variables)
    && CanonicalStatement(c.statement) && NoAndor(c.statement)
  }

  predicate CanonicalStatement(s: Statement)
    decreases s
  {
    match s
    case DecoratedStatement(decoration, command, args) =>
      && PlainMaybe(decoration, Decorator) && Plain(command, Str) && AreArgs(args)
      && (decoration.None? ==> CanBeCommand(command.tok.keyword, args))
    case NotStatement(kwNot, time, variables, contents) =>
      Plain(kwNot, NotKeyword) && PlainMaybe(time, Word(KwTime)) && AreAssignments(variables) && CanonicalStatement(contents)
    case BlockStatement(header, jobs, end, args) =>
      && CanonicalHeader(header) && CanonicalJobs(jobs, false) && (header.WhileHeader? ==> StartsAfresh(jobs))
      && Plain(end, Word(KwEnd)) && AreArgs(args)
    case BraceStatement(left, jobs, right, args) =>
      Plain(left, TokenLeftBrace) && CanonicalJobs(jobs, true) && Plain(right, TokenRightBrace) && AreArgs(args)
    case IfStatement(ifClause, elseifs, elseClause, end, args) =>
      && CanonicalIfClause(ifClause) && CanonicalElseifs(elseifs)
      && (elseClause.Some? ==> CanonicalElse(elseClause.value))
      && Plain(end, Word(KwEnd)) && AreArgs(args)
    case SwitchStatement(kwSwitch, argument, semiNl, cases, end, args) =>
      && Plain(kwSwitch, Word(KwSwitch)) && Plain(argument, Str) && Plain(semiNl, SemiNl) && CanonicalCases(cases)
      && Plain(end, Word(KwEnd)) && AreArgs(args)
  }

  predicate CanonicalHeader(h: BlockHeader)
    decreases h
  {
    match h
    case ForHeader(kwFor, varName, kwIn, args, semiNl) =>
      Plain(kwFor, Word(KwFor)) && Plain(varName, Str) && Plain(kwIn, Word(KwIn)) && AreWords(args) && Plain(semiNl, SemiNl)
    case WhileHeader(kwWhile, condition, andorTail) =>
      && Plain(kwWhile, Word(KwWhile)) && CanonicalJob(condition, false)
      && CanonicalJobs(andorTail, false) && AllDecorated(andorTail)
    case FunctionHeader(kwFunction, firstArg, args, semiNl) =>
      Plain(kwFunction, Word(KwFunction)) && Plain(firstArg, Str) && AreWords(args) && Plain(semiNl, SemiNl)
    case BeginHeader(kwBegin, semiNl) => Plain(kwBegin, Word(KwBegin)) && PlainMaybe(semiNl, SemiNl)
  }

  predicate CanonicalIfClause(c: IfClause)
    decreases c
  {
    && Plain(c.kwIf, Word(KwIf)) && CanonicalJob(c.condition, false) && CanonicalJobs(c.andorTail, false)
    && AllDecorated(c.andorTail) && CanonicalJobs(c.body, false) && StartsAfresh(c.body)
  }

  predicate CanonicalElseifs(cs: seq<ElseifClause>)
    decreases cs
  {
    cs == [] || (CanonicalElseif(cs[0]) && CanonicalElseifs(cs[1..]))
  }

  predicate CanonicalElseif(c: ElseifClause)
    decreases c
  {
    Plain(c.kwElse, Word(KwElse)) && CanonicalIfClause(c.ifClause)
  }

  predicate CanonicalElse(c: ElseClause)
    decreases c
  {
    Plain(c.kwElse, Word(KwElse)) && c.semiNl.Some? && Plain(c.semiNl.value, SemiNl) && CanonicalJobs(c.body, false)
  }

  predicate CanonicalCases(cs: seq<CaseItem>)
    decreases cs
  {
    cs == [] || (CanonicalCase(cs[0]) && CanonicalCases(cs[1..]))
  }

  predicate CanonicalCase(c: CaseItem)
    decreases c
  {
    Plain(c.kwCase, Word(KwCase)) && AreWords(c.arguments) && Plain(c.semiNl, SemiNl) && CanonicalJobs(c.body, false)
  }
}
