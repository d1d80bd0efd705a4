module Grammar {
  /**
   Which tree the tokens of shell code have (src/ast.rs:1101-2049, 2714-2835, 3325-3340, 3625-3763): for each kind of node,
   what is left of the tokens once the node has been read from them, if it is a node that can be read there.

   A list goes on as long as the next tokens can start an item, and what is optional is there if the next tokens
   can start it; no more than two tokens are looked at. So a tree says of each of its nodes where it ends, and
   the tokens say of each node whether it is the right one.
   */

  import opened Common
  import opened TokenStream
  import opened Ast

  datatype Reading = NoReading | Leaves(rest: seq<Token>)
  {
    predicate IsFailure() {
      NoReading?
    }

    function PropagateFailure(): Reading
      requires IsFailure()
    {
      NoReading
    }

    function Extract(): seq<Token>
      requires !IsFailure()
    {
      rest
    }
  }

  // ---------------------------------------------------------------- what can be parsed: CheckParse

  predicate EndsJobList(t: Token) {
    t.typ == String && (t.keyword == KwCase || t.keyword == KwEnd || t.keyword == KwElse)
  }

  predicate StartsJob(t: Token) {
    t.typ == LeftBrace || (t.typ == String && !EndsJobList(t))
  }

  predicate StartsAssignment(t: Token, next: Token) {
    t.mayBeVariableAssignment && (next.typ == String || next.typ == LeftBrace)
  }

  predicate StartsAndorJob(t: Token, next: Token) {
    Allows(JobDecorator, t) && (next.typ == String || next.typ == LeftBrace) && !next.isHelpArgument
  }

  predicate StartsElseif(t: Token, next: Token) {
    t.keyword == KwElse && next.keyword == KwIf
  }

  predicate StartsTime(t: Token, next: Token) {
    t.keyword == KwTime && !next.IsDashPrefixString()
  }

  predicate StartsJobDecorator(t: Token, next: Token) {
    Allows(JobDecorator, t) && !next.isHelpArgument
  }

  predicate StartsDecorator(t: Token, next: Token) {
    Allows(Decorator, t) && next.typ == String && !next.IsDashPrefixString()
  }

  /** What a statement can start with so that parsing it consumes something. */
  predicate StartsStatement(t: Token) {
    t.typ == LeftBrace || (t.typ == String && t.keyword != KwEnd)
  }

  /** A keyword followed by an option, or by nothing, is a command of that name. */
  predicate InvokesHelp(t: Token, next: Token) {
    || (if t.keyword in {KwBegin, KwFunction, KwIf, KwSwitch, KwWhile} then next.isHelpArgument
        else next.IsDashPrefixString())
    || (t.keyword != KwBegin && t.keyword != KwEnd && (next.typ == End || next.typ == Terminate))
  }

  predicate StartsBlock(t: Token, next: Token) {
    || t.keyword == KwFor || t.keyword == KwWhile || t.keyword == KwBegin
    || (t.keyword == KwFunction && next.typ != Terminate)
  }

  predicate IsStatementKeyword(keyword: Keyword) {
    || keyword == KwNot || keyword == KwExclam || keyword == KwFor || keyword == KwWhile || keyword == KwFunction
    || keyword == KwBegin || keyword == KwIf || keyword == KwSwitch || keyword == KwEnd
  }

  /** The tokens start with a string that is the name of a command, not an assignment and not a keyword. */
  predicate StartsCommand(rest: seq<Token>) {
    var t, next := TokenAt(rest, 0), TokenAt(rest, 1);
    t.typ == String && !t.mayBeVariableAssignment && (InvokesHelp(t, next) || !IsStatementKeyword(t.keyword))
  }

  /** The tokens start with a keyword that is meant as one. */
  predicate StartsKeyword(rest: seq<Token>) {
    var t, next := TokenAt(rest, 0), TokenAt(rest, 1);
    t.typ == String && !t.mayBeVariableAssignment && !InvokesHelp(t, next)
  }

  // ---------------------------------------------------------------- leaves

  /** Newlines and semicolons between the items of a list. */
  function Chomped(rest: seq<Token>, newlines: bool, semis: bool): (r: seq<Token>)
    ensures |r| <= |rest|
  {
    if rest != [] && rest[0].typ == End && (if rest[0].isNewline then newlines else semis)
    then Chomped(rest[1..], newlines, semis)
    else rest
  }

  function ReadLeaf(rest: seq<Token>, kind: Kind, leaf: Leaf): Reading {
    if rest != [] && leaf == Sourced(rest[0]) && Allows(kind, rest[0]) then Leaves(rest[1..]) else NoReading
  }

  function ReadMaybe(rest: seq<Token>, kind: Kind, leaf: Option<Leaf>, starts: bool): Reading {
    if starts then (if leaf.Some? then ReadLeaf(rest, kind, leaf.value) else NoReading)
    else if leaf.None? then Leaves(rest) else NoReading
  }

  function ReadNewlines(rest: seq<Token>, newlines: Newlines): Reading
    decreases |rest|
  {
    if newlines.NoNewlines? then NoReading
    else if rest != [] && rest[0].isNewline then
      if newlines.toks == [] || newlines.toks[0] != rest[0] then NoReading
      else ReadNewlines(rest[1..], Newlines(newlines.toks[1..]))
    else if newlines.toks == [] then Leaves(rest) else NoReading
  }

  function ReadAssignments(rest: seq<Token>, variables: seq<Leaf>): Reading
    decreases |variables|
  {
    if StartsAssignment(TokenAt(rest, 0), TokenAt(rest, 1)) then
      if variables == [] then NoReading
      else
        var r :- ReadLeaf(rest, Assignment, variables[0]);
        ReadAssignments(r, variables[1..])
    else if variables == [] then Leaves(rest) else NoReading
  }

  /** Freestanding arguments may have newlines and semicolons in between. */
  function ReadArguments(rest: seq<Token>, args: seq<Leaf>, freestanding: bool): Reading
    decreases |args|
  {
    var rest' := Chomped(rest, freestanding, freestanding);
    if TokenAt(rest', 0).typ == String then
      if args == [] then NoReading
      else
        var r :- ReadLeaf(rest', Str, args[0]);
        ReadArguments(r, args[1..], freestanding)
    else if args == [] then Leaves(rest') else NoReading
  }

  function ReadRedirection(rest: seq<Token>, redirection: Redirection): Reading {
    var r :- ReadLeaf(rest, TokenRedirection, redirection.oper);
    ReadLeaf(r, Str, redirection.target)
  }

  function ReadArgumentOrRedirection(rest: seq<Token>, arg: ArgumentOrRedirection): Reading {
    match arg
    case Argument(leaf) => ReadLeaf(rest, Str, leaf)
    case Redirected(redirection) => ReadRedirection(rest, redirection)
  }

  function ReadArgs(rest: seq<Token>, args: seq<ArgumentOrRedirection>): Reading
    decreases |args|
  {
    if TokenAt(rest, 0).typ == String || TokenAt(rest, 0).typ == Redirect then
      if args == [] then NoReading
      else
        var r :- ReadArgumentOrRedirection(rest, args[0]);
        ReadArgs(r, args[1..])
    else if args == [] then Leaves(rest) else NoReading
  }

  function ReadEnd(rest: seq<Token>, end: Leaf, args: seq<ArgumentOrRedirection>): Reading {
    var r :- ReadLeaf(rest, Word(KwEnd), end);
    ReadArgs(r, args)
  }

  // ---------------------------------------------------------------- jobs

  function ReadJobs(rest: seq<Token>, jobs: seq<JobConjunction>): Reading
    decreases jobs
  {
    var rest' := Chomped(rest, true, true);
    if StartsJob(TokenAt(rest', 0)) then
      if jobs == [] then NoReading
      else
        var r :- ReadJobConjunction(rest', jobs[0]);
        ReadJobs(r, jobs[1..])
    else if jobs == [] then Leaves(rest') else NoReading
  }

  function ReadAndorJobs(rest: seq<Token>, jobs: seq<JobConjunction>): Reading
    decreases jobs
  {
    var rest' := Chomped(rest, true, true);
    if StartsAndorJob(TokenAt(rest', 0), TokenAt(rest', 1)) then
      if jobs == [] then NoReading
      else
        var r :- ReadJobConjunction(rest', jobs[0]);
        ReadAndorJobs(r, jobs[1..])
    else if jobs == [] then Leaves(rest') else NoReading
  }

  function ReadJobConjunction(rest: seq<Token>, j: JobConjunction): Reading
    decreases j
  {
    var r1 :- ReadMaybe(rest, JobDecorator, j.decorator, StartsJobDecorator(TokenAt(rest, 0), TokenAt(rest, 1)));
    var r2 :- ReadJobPipeline(r1, j.job);
    var r3 :- ReadConjunctions(r2, j.continuations);
    ReadMaybe(r3, SemiNl, j.semiNl, Allows(SemiNl, TokenAt(r3, 0)))
  }

  function ReadConjunctions(rest: seq<Token>, cs: seq<JobConjunctionContinuation>): Reading
    decreases cs
  {
    if Allows(TokenConjunction, TokenAt(rest, 0)) then
      if cs == [] then NoReading
      else
        var r :- ReadConjunction(rest, cs[0]);
        ReadConjunctions(r, cs[1..])
    else if cs == [] then Leaves(rest) else NoReading
  }

  function ReadConjunction(rest: seq<Token>, c: JobConjunctionContinuation): Reading
    decreases c
  {
    var r1 :- ReadLeaf(rest, TokenConjunction, c.conjunction);
    var r2 :- ReadNewlines(r1, c.newlines);
    ReadJobPipeline(r2, c.job)
  }

  function ReadJobPipeline(rest: seq<Token>, j: JobPipeline): Reading
    decreases j
  {
    var r1 :- ReadMaybe(rest, Word(KwTime), j.time, StartsTime(TokenAt(rest, 0), TokenAt(rest, 1)));
    var r2 :- ReadAssignments(r1, j.variables);
    var r3 :- ReadStatement(r2, j.statement);
    var r4 :- ReadContinuations(r3, j.continuation);
    ReadMaybe(r4, TokenBackground, j.bg, Allows(TokenBackground, TokenAt(r4, 0)))
  }

  function ReadContinuations(rest: seq<Token>, cs: seq<JobContinuation>): Reading
    decreases cs
  {
    if TokenAt(rest, 0).typ == Pipe then
      if cs == [] then NoReading
      else
        var r :- ReadContinuation(rest, cs[0]);
        ReadContinuations(r, cs[1..])
    else if cs == [] then Leaves(rest) else NoReading
  }

  /** `and` and `or` do not come after a pipe. */
  function ReadContinuation(rest: seq<Token>, c: JobContinuation): Reading
    decreases c
  {
    if Allows(JobDecorator, TokenAt(rest, 1)) then NoReading
    else
      var r1 :- ReadLeaf(rest, TokenPipe, c.pipe);
      var r2 :- ReadNewlines(r1, c.newlines);
      var r3 :- ReadAssignments(r2, c.variables);
      ReadStatement(r3, c.statement)
  }

  // ---------------------------------------------------------------- statements

  function ReadStatement(rest: seq<Token>, s: Statement): Reading
    decreases s
  {
    match s
    case DecoratedStatement(decoration, command, args) =>
      if StartsCommand(rest) then ReadCommand(rest, decoration, command, args) else NoReading
    case BraceStatement(left, jobs, right, args) =>
      var r1 :- ReadLeaf(rest, TokenLeftBrace, left);
      var r2 :- ReadJobs(r1, jobs);
      var r3 :- ReadLeaf(r2, TokenRightBrace, right);
      ReadArgs(r3, args)
    case NotStatement(kwNot, time, variables, contents) =>
      if !StartsKeyword(rest) then NoReading
      else
        var r1 :- ReadLeaf(rest, NotKeyword, kwNot);
        var r2 :- ReadMaybe(r1, Word(KwTime), time, StartsTime(TokenAt(r1, 0), TokenAt(r1, 1)));
        var r3 :- ReadAssignments(r2, variables);
        ReadStatement(r3, contents)
    case BlockStatement(header, jobs, end, args) =>
      if !StartsKeyword(rest) then NoReading
      else
        var r1 :- ReadHeader(rest, header);
        var r2 :- ReadJobs(r1, jobs);
        ReadEnd(r2, end, args)
    case IfStatement(ifClause, elseifs, elseClause, end, args) =>
      if !StartsKeyword(rest) then NoReading
      else
        var r1 :- ReadIfClause(rest, ifClause);
        var r2 :- ReadElseifs(r1, elseifs);
        var r3 :- ReadMaybeElse(r2, elseClause);
        ReadEnd(r3, end, args)
    case SwitchStatement(kwSwitch, argument, semiNl, cases, end, args) =>
      if !StartsKeyword(rest) then NoReading
      else
        var r1 :- ReadSwitchHead(rest, kwSwitch, argument, semiNl);
        var r2 :- ReadCases(r1, cases);
        ReadEnd(r2, end, args)
  }

  /** A brace does not come right after a command. */
  function ReadCommand(rest: seq<Token>, decoration: Option<Leaf>, command: Leaf, args: seq<ArgumentOrRedirection>): Reading {
    var r :- ReadDecorated(rest, decoration, command, args);
    if TokenAt(r, 0).typ == LeftBrace then NoReading else Leaves(r)
  }

  function ReadDecorated(rest: seq<Token>, decoration: Option<Leaf>, command: Leaf, args: seq<ArgumentOrRedirection>): Reading {
    var r1 :- ReadMaybe(rest, Decorator, decoration, StartsDecorator(TokenAt(rest, 0), TokenAt(rest, 1)));
    var r2 :- ReadLeaf(r1, Str, command);
    ReadArgs(r2, args)
  }

  function ReadHeader(rest: seq<Token>, h: BlockHeader): Reading
    decreases h
  {
    match h
    case ForHeader(kwFor, varName, kwIn, args, semiNl) =>
      var r1 :- ReadForHead(rest, kwFor, varName, kwIn);
      var r2 :- ReadArguments(r1, args, false);
      ReadLeaf(r2, SemiNl, semiNl)
    case WhileHeader(kwWhile, condition, andorTail) =>
      var r1 :- ReadLeaf(rest, Word(KwWhile), kwWhile);
      var r2 :- ReadJobConjunction(r1, condition);
      ReadAndorJobs(r2, andorTail)
    case FunctionHeader(kwFunction, firstArg, args, semiNl) =>
      var r1 :- ReadLeaf(rest, Word(KwFunction), kwFunction);
      var r2 :- ReadLeaf(r1, Str, firstArg);
      var r3 :- ReadArguments(r2, args, false);
      ReadLeaf(r3, SemiNl, semiNl)
    case BeginHeader(kwBegin, semiNl) =>
      var r1 :- ReadLeaf(rest, Word(KwBegin), kwBegin);
      ReadMaybe(r1, SemiNl, semiNl, Allows(SemiNl, TokenAt(r1, 0)))
  }

  function ReadForHead(rest: seq<Token>, kwFor: Leaf, varName: Leaf, kwIn: Leaf): Reading {
    var r1 :- ReadLeaf(rest, Word(KwFor), kwFor);
    var r2 :- ReadLeaf(r1, Str, varName);
    ReadLeaf(r2, Word(KwIn), kwIn)
  }

  function ReadIfClause(rest: seq<Token>, c: IfClause): Reading
    decreases c
  {
    var r1 :- ReadLeaf(rest, Word(KwIf), c.kwIf);
    var r2 :- ReadJobConjunction(r1, c.condition);
    var r3 :- ReadAndorJobs(r2, c.andorTail);
    ReadJobs(r3, c.body)
  }

  /** Newlines, but no semicolons, may come between the clauses. */
  function ReadElseifs(rest: seq<Token>, cs: seq<ElseifClause>): Reading
    decreases cs
  {
    var rest' := Chomped(rest, true, false);
    if StartsElseif(TokenAt(rest', 0), TokenAt(rest', 1)) then
      if cs == [] then NoReading
      else
        var r :- ReadElseif(rest', cs[0]);
        ReadElseifs(r, cs[1..])
    else if cs == [] then Leaves(rest') else NoReading
  }

  function ReadElseif(rest: seq<Token>, c: ElseifClause): Reading
    decreases c
  {
    var r :- ReadLeaf(rest, Word(KwElse), c.kwElse);
    ReadIfClause(r, c.ifClause)
  }

  function ReadMaybeElse(rest: seq<Token>, c: Option<ElseClause>): Reading
    decreases c
  {
    if TokenAt(rest, 0).keyword == KwElse then (if c.Some? then ReadElse(rest, c.value) else NoReading)
    else if c.None? then Leaves(rest) else NoReading
  }

  function ReadElse(rest: seq<Token>, c: ElseClause): Reading
    decreases c
  {
    var r1 :- ReadLeaf(rest, Word(KwElse), c.kwElse);
    var r2 :- ReadMaybe(r1, SemiNl, c.semiNl, Allows(SemiNl, TokenAt(r1, 0)));
    ReadJobs(r2, c.body)
  }

  function ReadSwitchHead(rest: seq<Token>, kwSwitch: Leaf, argument: Leaf, semiNl: Leaf): Reading {
    var r1 :- ReadLeaf(rest, Word(KwSwitch), kwSwitch);
    var r2 :- ReadLeaf(r1, Str, argument);
    ReadLeaf(r2, SemiNl, semiNl)
  }

  function ReadCases(rest: seq<Token>, cs: seq<CaseItem>): Reading
    decreases cs
  {
    var rest' := Chomped(rest, true, true);
    if TokenAt(rest', 0).keyword == KwCase then
      if cs == [] then NoReading
      else
        var r :- ReadCase(rest', cs[0]);
        ReadCases(r, cs[1..])
    else if cs == [] then Leaves(rest') else NoReading
  }

  function ReadCase(rest: seq<Token>, c: CaseItem): Reading
    decreases c
  {
    var r1 :- ReadLeaf(rest, Word(KwCase), c.kwCase);
    var r2 :- ReadArguments(r1, c.arguments, false);
    var r3 :- ReadLeaf(r2, SemiNl, c.semiNl);
    ReadJobs(r3, c.body)
  }

  // ---------------------------------------------------------------- the keyword decides

  /** Which statement a keyword that is meant as one starts. */
  predicate Started(keyword: Keyword, s: Statement) {
    match s
    case DecoratedStatement(_, _, _) => !IsStatementKeyword(keyword)
    case NotStatement(_, _, _, _) => keyword == KwNot || keyword == KwExclam
    case BlockStatement(header, _, _, _) => StartedHeader(keyword, header)
    case BraceStatement(_, _, _, _) => false
    case IfStatement(_, _, _, _, _) => keyword == KwIf
    case SwitchStatement(_, _, _, _, _, _) => keyword == KwSwitch
  }

  predicate StartedHeader(keyword: Keyword, h: BlockHeader) {
    match h
    case ForHeader(_, _, _, _, _) => keyword == KwFor
    case WhileHeader(_, _, _) => keyword == KwWhile
    case FunctionHeader(_, _, _, _) => keyword == KwFunction
    case BeginHeader(_, _) => keyword == KwBegin
  }

  lemma HeaderStarted(rest: seq<Token>, h: BlockHeader)
    ensures ReadHeader(rest, h).Leaves? ==> StartedHeader(TokenAt(rest, 0).keyword, h)
  {
    hide ReadJobConjunction, ReadAndorJobs, ReadArguments, ReadMaybe;
  }

  lemma KeywordDecides(rest: seq<Token>, s: Statement)
    requires StartsKeyword(rest)
    ensures ReadStatement(rest, s).Leaves? ==> Started(TokenAt(rest, 0).keyword, s)
  {
    hide ReadHeader, ReadJobs, ReadEnd, ReadArgs, ReadMaybe, ReadAssignments, ReadCommand;
    hide ReadElseifs, ReadMaybeElse, ReadCases, InvokesHelp;
    match s
    case BlockStatement(header, _, _, _) => HeaderStarted(rest, header);
    case IfStatement(ifClause, _, _, _, _) => IfStarted(rest, ifClause);
    case _ =>
  }

  lemma IfStarted(rest: seq<Token>, c: IfClause)
    ensures ReadIfClause(rest, c).Leaves? ==> TokenAt(rest, 0).keyword == KwIf
  {
    hide ReadJobConjunction, ReadAndorJobs, ReadJobs;
  }

  lemma HeaderStarts(rest: seq<Token>)
    ensures forall h :: StartedHeader(TokenAt(rest, 0).keyword, h) || ReadHeader(rest, h).NoReading?
  {
    hide ReadHeader, StartedHeader;
    forall h: BlockHeader ensures StartedHeader(TokenAt(rest, 0).keyword, h) || ReadHeader(rest, h).NoReading? {
      HeaderStarted(rest, h);
    }
  }

  lemma KeywordStarts(rest: seq<Token>)
    requires StartsKeyword(rest)
    ensures forall s :: Started(TokenAt(rest, 0).keyword, s) || ReadStatement(rest, s).NoReading?
  {
    hide ReadStatement, Started;
    forall s: Statement ensures Started(TokenAt(rest, 0).keyword, s) || ReadStatement(rest, s).NoReading? {
      KeywordDecides(rest, s);
    }
  }

  lemma CommandStarts(rest: seq<Token>)
    requires StartsCommand(rest)
    ensures forall s :: ReadStatement(rest, s)
                        == if s.DecoratedStatement? then ReadCommand(rest, s.decoration, s.command, s.args) else NoReading
  {
    forall s: Statement
      ensures ReadStatement(rest, s)
              == if s.DecoratedStatement? then ReadCommand(rest, s.decoration, s.command, s.args) else NoReading
    {
      if StartsKeyword(rest) && !s.DecoratedStatement? {
        KeywordDecides(rest, s);
      }
      hide ReadHeader, ReadIfClause, ReadSwitchHead, ReadJobs, ReadCommand, InvokesHelp;
    }
  }

  /** Neither a brace, nor a command, nor a keyword that starts a statement. */
  lemma NothingStarts(rest: seq<Token>)
    requires var t := TokenAt(rest, 0);
             && t.typ != LeftBrace
             && (t.typ != String || t.mayBeVariableAssignment
                 || (StartsKeyword(rest) && forall s :: !Started(t.keyword, s)))
    ensures forall s :: ReadStatement(rest, s).NoReading?
  {
    forall s: Statement ensures ReadStatement(rest, s).NoReading? {
      if StartsKeyword(rest) {
        KeywordDecides(rest, s);
      }
      hide ReadHeader, ReadIfClause, ReadSwitchHead, ReadJobs, ReadCommand, InvokesHelp, Started;
    }
  }

  lemma AndorAfterPipe(rest: seq<Token>)
    ensures Allows(JobDecorator, TokenAt(rest, 1)) ==> forall c :: ReadContinuation(rest, c).NoReading?
  {
  }

  lemma ArgumentStarts(rest: seq<Token>)
    ensures TokenAt(rest, 0).typ == String ==> forall r :: ReadRedirection(rest, r).NoReading?
    ensures TokenAt(rest, 0).typ == Redirect ==> forall leaf :: ReadLeaf(rest, Str, leaf).NoReading?
  {
  }

  // ---------------------------------------------------------------- whole inputs

  /** All of the tokens are this list of jobs. */
  predicate IsJobList(toks: seq<Token>, jobs: seq<JobConjunction>) {
    ReadJobs(toks, jobs) == Leaves([])
  }

  predicate IsArgumentList(toks: seq<Token>, args: seq<Leaf>) {
    ReadArguments(toks, args, true) == Leaves([])
  }
}
