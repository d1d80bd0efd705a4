module Ast {
  /**
   The syntax tree (src/ast.rs:1101-2049) and what it says about the tokens it was made from.

   The yield of a node lists its leaves in order, each with the kind of token the grammar has in its place:
   it is the grammar, written once. Nodes with `andor_job`, whose one field is a job conjunction, are job conjunctions.
   */

  import opened Common
  import opened TokenStream

  /** A leaf that was not parsed has no source. */
  datatype Leaf = Sourced(tok: Token) | Unsourced

  datatype Newlines = Newlines(toks: seq<Token>) | NoNewlines

  datatype Redirection = Redirection(oper: Leaf, target: Leaf)

  datatype ArgumentOrRedirection = Argument(argument: Leaf) | Redirected(redirection: Redirection)

  datatype JobConjunction = JobConjunction(
    decorator: Option<Leaf>,
    job: JobPipeline,
    continuations: seq<JobConjunctionContinuation>,
    semiNl: Option<Leaf>)

  datatype JobConjunctionContinuation = JobConjunctionContinuation(conjunction: Leaf, newlines: Newlines, job: JobPipeline)

  datatype JobPipeline = JobPipeline(
    time: Option<Leaf>,
    variables: seq<Leaf>,
    statement: Statement,
    continuation: seq<JobContinuation>,
    bg: Option<Leaf>)

  datatype JobContinuation = JobContinuation(pipe: Leaf, newlines: Newlines, variables: seq<Leaf>, statement: Statement)

  datatype Statement =
    | DecoratedStatement(decoration: Option<Leaf>, command: Leaf, args: seq<ArgumentOrRedirection>)
    | NotStatement(kwNot: Leaf, time: Option<Leaf>, variables: seq<Leaf>, contents: Statement)
    | BlockStatement(header: BlockHeader, jobs: seq<JobConjunction>, end: Leaf, args: seq<ArgumentOrRedirection>)
    | BraceStatement(left: Leaf, jobs: seq<JobConjunction>, right: Leaf, args: seq<ArgumentOrRedirection>)
    | IfStatement(
        ifClause: IfClause,
        elseifClauses: seq<ElseifClause>,
        elseClause: Option<ElseClause>,
        end: Leaf,
        args: seq<ArgumentOrRedirection>)
    | SwitchStatement(
        kwSwitch: Leaf,
        argument: Leaf,
        semiNl: Leaf,
        cases: seq<CaseItem>,
        end: Leaf,
        args: seq<ArgumentOrRedirection>)

  datatype BlockHeader =
    | ForHeader(kwFor: Leaf, varName: Leaf, kwIn: Leaf, forArgs: seq<Leaf>, forSemiNl: Leaf)
    | WhileHeader(kwWhile: Leaf, condition: JobConjunction, andorTail: seq<JobConjunction>)
    | FunctionHeader(kwFunction: Leaf, firstArg: Leaf, functionArgs: seq<Leaf>, functionSemiNl: Leaf)
    | BeginHeader(kwBegin: Leaf, beginSemiNl: Option<Leaf>)

  datatype IfClause = IfClause(kwIf: Leaf, condition: JobConjunction, andorTail: seq<JobConjunction>, body: seq<JobConjunction>)

  datatype ElseifClause = ElseifClause(kwElse: Leaf, ifClause: IfClause)

  datatype ElseClause = ElseClause(kwElse: Leaf, semiNl: Option<Leaf>, body: seq<JobConjunction>)

  datatype CaseItem = CaseItem(kwCase: Leaf, arguments: seq<Leaf>, semiNl: Leaf, body: seq<JobConjunction>)

  // ---------------------------------------------------------------- the grammar

  /** The kinds of leaves: define_token_node and define_keyword_node. The name of a command that is not decorated has a
      kind of its own. */
  datatype Kind =
    | SemiNl | Str | CommandName | Assignment | Newline | TokenBackground | TokenConjunction | TokenPipe
    | TokenLeftBrace | TokenRightBrace | TokenRedirection
    | Decorator | JobDecorator | NotKeyword | Word(keyword: Keyword)

  predicate Allows(kind: Kind, t: Token) {
    match kind
    case SemiNl => t.typ == End
    case Str => t.typ == String
    case CommandName => t.typ == String
    case Assignment => t.typ == String && t.mayBeVariableAssignment
    case Newline => t.isNewline
    case TokenBackground => t.typ == Background
    case TokenConjunction => t.typ == Andand || t.typ == Oror
    case TokenPipe => t.typ == Pipe
    case TokenLeftBrace => t.typ == LeftBrace
    case TokenRightBrace => t.typ == RightBrace
    case TokenRedirection => t.typ == Redirect
    case Decorator => t.keyword == KwCommand || t.keyword == KwBuiltin || t.keyword == KwExec
    case JobDecorator => t.keyword == KwAnd || t.keyword == KwOr
    case NotKeyword => t.keyword == KwNot || t.keyword == KwExclam
    case Word(keyword) => t.keyword == keyword
  }

  datatype Slot = Slot(kind: Kind, leaf: Leaf)

  function One(kind: Kind, leaf: Leaf): seq<Slot> {
    [Slot(kind, leaf)]
  }

  function Maybe(kind: Kind, leaf: Option<Leaf>): seq<Slot> {
    if leaf.Some? then [Slot(kind, leaf.value)] else []
  }

  function Many(kind: Kind, leaves: seq<Leaf>): seq<Slot> {
    if leaves == [] then [] else One(kind, leaves[0]) + Many(kind, leaves[1..])
  }

  function OfNewlines(newlines: Newlines): seq<Slot> {
    match newlines
    case Newlines(toks) => seq(|toks|, i requires 0 <= i < |toks| => Slot(Newline, Sourced(toks[i])))
    case NoNewlines => One(Newline, Unsourced)
  }

  function OfArgs(args: seq<ArgumentOrRedirection>): seq<Slot> {
    if args == [] then [] else OfArgumentOrRedirection(args[0]) + OfArgs(args[1..])
  }

  function OfEnd(end: Leaf, args: seq<ArgumentOrRedirection>): seq<Slot> {
    One(Word(KwEnd), end) + OfArgs(args)
  }

  function OfArgumentOrRedirection(arg: ArgumentOrRedirection): seq<Slot> {
    match arg
    case Argument(leaf) => One(Str, leaf)
    case Redirected(r) => OfRedirection(r)
  }

  function OfRedirection(r: Redirection): seq<Slot> {
    One(TokenRedirection, r.oper) + One(Str, r.target)
  }

  function OfJobs(jobs: seq<JobConjunction>): seq<Slot>
    decreases jobs
  {
    if jobs == [] then [] else OfJobConjunction(jobs[0]) + OfJobs(jobs[1..])
  }

  function OfJobConjunction(j: JobConjunction): seq<Slot>
    decreases j
  {
    Maybe(JobDecorator, j.decorator) + OfJobPipeline(j.job) + OfConjunctions(j.continuations) + Maybe(SemiNl, j.semiNl)
  }

  function OfConjunctions(cs: seq<JobConjunctionContinuation>): seq<Slot>
    decreases cs
  {
    if cs == [] then [] else OfConjunction(cs[0]) + OfConjunctions(cs[1..])
  }

  function OfConjunction(c: JobConjunctionContinuation): seq<Slot>
    decreases c
  {
    One(TokenConjunction, c.conjunction) + OfNewlines(c.newlines) + OfJobPipeline(c.job)
  }

  function OfJobPipeline(j: JobPipeline): seq<Slot>
    decreases j
  {
    Maybe(Word(KwTime), j.time) + Many(Assignment, j.variables) + OfStatement(j.statement) + OfContinuations(j.continuation)
    + Maybe(TokenBackground, j.bg)
  }

  function OfContinuations(cs: seq<JobContinuation>): seq<Slot>
    decreases cs
  {
    if cs == [] then [] else OfContinuation(cs[0]) + OfContinuations(cs[1..])
  }

  function OfContinuation(c: JobContinuation): seq<Slot>
    decreases c
  {
    One(TokenPipe, c.pipe) + OfNewlines(c.newlines) + Many(Assignment, c.variables) + OfStatement(c.statement)
  }

  function OfStatement(s: Statement): seq<Slot>
    decreases s
  {
    match s
    case DecoratedStatement(decoration, command, args) =>
      Maybe(Decorator, decoration) + One(if decoration.None? then CommandName else Str, command) + OfArgs(args)
    case NotStatement(kwNot, time, variables, contents) =>
      One(NotKeyword, kwNot) + Maybe(Word(KwTime), time) + Many(Assignment, variables) + OfStatement(contents)
    case BlockStatement(header, jobs, end, args) =>
      OfHeader(header) + OfJobs(jobs) + OfEnd(end, args)
    case BraceStatement(left, jobs, right, args) =>
      One(TokenLeftBrace, left) + OfJobs(jobs) + One(TokenRightBrace, right) + OfArgs(args)
    case IfStatement(ifClause, elseifs, elseClause, end, args) =>
      OfIfClause(ifClause) + OfElseifs(elseifs) + (if elseClause.Some? then OfElse(elseClause.value) else []) + OfEnd(end, args)
    case SwitchStatement(kwSwitch, argument, semiNl, cases, end, args) =>
      OfSwitchHead(kwSwitch, argument, semiNl) + OfCases(cases) + OfEnd(end, args)
  }

  function OfHeader(h: BlockHeader): seq<Slot>
    decreases h
  {
    match h
    case ForHeader(kwFor, varName, kwIn, args, semiNl) =>
      One(Word(KwFor), kwFor) + One(Str, varName) + One(Word(KwIn), kwIn) + Many(Str, args) + One(SemiNl, semiNl)
    case WhileHeader(kwWhile, condition, andorTail) =>
      One(Word(KwWhile), kwWhile) + OfJobConjunction(condition) + OfJobs(andorTail)
    case FunctionHeader(kwFunction, firstArg, args, semiNl) =>
      One(Word(KwFunction), kwFunction) + One(Str, firstArg) + Many(Str, args) + One(SemiNl, semiNl)
    case BeginHeader(kwBegin, semiNl) => One(Word(KwBegin), kwBegin) + Maybe(SemiNl, semiNl)
  }

  function OfSwitchHead(kwSwitch: Leaf, argument: Leaf, semiNl: Leaf): seq<Slot> {
    One(Word(KwSwitch), kwSwitch) + One(Str, argument) + One(SemiNl, semiNl)
  }

  function OfIfClause(c: IfClause): seq<Slot>
    decreases c
  {
    One(Word(KwIf), c.kwIf) + OfJobConjunction(c.condition) + OfJobs(c.andorTail) + OfJobs(c.body)
  }

  function OfElseifs(cs: seq<ElseifClause>): seq<Slot>
    decreases cs
  {
    if cs == [] then [] else OfElseif(cs[0]) + OfElseifs(cs[1..])
  }

  function OfElseif(c: ElseifClause): seq<Slot>
    decreases c
  {
    One(Word(KwElse), c.kwElse) + OfIfClause(c.ifClause)
  }

  function OfElse(c: ElseClause): seq<Slot>
    decreases c
  {
    One(Word(KwElse), c.kwElse) + Maybe(SemiNl, c.semiNl) + OfJobs(c.body)
  }

  function OfCases(cs: seq<CaseItem>): seq<Slot>
    decreases cs
  {
    if cs == [] then [] else OfCase(cs[0]) + OfCases(cs[1..])
  }

  function OfCase(c: CaseItem): seq<Slot>
    decreases c
  {
    One(Word(KwCase), c.kwCase) + Many(Str, c.arguments) + One(SemiNl, c.semiNl) + OfJobs(c.body)
  }

  // ---------------------------------------------------------------- trees and tokens

  /** The tokens are the leaves, in order and each once, with nothing in between but newlines and semicolons. */
  predicate Covers(toks: seq<Token>, slots: seq<Slot>)
    decreases |toks|
  {
    if toks == [] then slots == []
    else
      || (slots != [] && slots[0].leaf == Sourced(toks[0]) && Allows(slots[0].kind, toks[0]) && Covers(toks[1..], slots[1..]))
      || (toks[0].typ == End && Covers(toks[1..], slots))
  }

  lemma {:induction false} CoversConcat(a: seq<Token>, x: seq<Slot>, b: seq<Token>, y: seq<Slot>)
    requires Covers(a, x) && Covers(b, y)
    ensures Covers(a + b, x + y)
    decreases |a|
  {
    if a == [] {
      assert a + b == b && x + y == y;
    } else {
      assert (a + b)[1..] == a[1..] + b;
      if LeafFirst(a, x) {
        CoversConcat(a[1..], x[1..], b, y);
        assert (x + y)[1..] == x[1..] + y;
      } else {
        CoversConcat(a[1..], x, b, y);
      }
    }
  }

  predicate LeafFirst(a: seq<Token>, x: seq<Slot>)
    requires a != []
  {
    x != [] && x[0].leaf == Sourced(a[0]) && Allows(x[0].kind, a[0]) && Covers(a[1..], x[1..])
  }

  /** Without errors every leaf has its source, of the kind the grammar asks for. */
  lemma {:induction false} CoveredSlots(toks: seq<Token>, slots: seq<Slot>, k: nat)
    requires Covers(toks, slots) && k < |slots|
    ensures slots[k].leaf.Sourced? && slots[k].leaf.tok in toks && Allows(slots[k].kind, slots[k].leaf.tok)
    decreases |toks|
  {
    if LeafFirst(toks, slots) {
      if k > 0 {
        CoveredSlots(toks[1..], slots[1..], k - 1);
      }
    } else {
      CoveredSlots(toks[1..], slots, k);
    }
  }

  function NotEnds(toks: seq<Token>): seq<Token> {
    if toks == [] then [] else (if toks[0].typ == End then [] else [toks[0]]) + NotEnds(toks[1..])
  }

  function Tokens(slots: seq<Slot>): seq<Token> {
    if slots == [] then [] else (if slots[0].leaf.Sourced? then [slots[0].leaf.tok] else []) + Tokens(slots[1..])
  }

  /** So leaving out newlines and semicolons on both sides, the leaves are exactly the tokens. */
  lemma {:induction false} CoversExactly(toks: seq<Token>, slots: seq<Slot>)
    requires Covers(toks, slots)
    ensures NotEnds(Tokens(slots)) == NotEnds(toks)
    decreases |toks|
  {
    if toks != [] {
      if LeafFirst(toks, slots) {
        CoversExactly(toks[1..], slots[1..]);
        assert Tokens(slots) == [toks[0]] + Tokens(slots[1..]);
      } else {
        CoversExactly(toks[1..], slots);
      }
    }
  }
}
