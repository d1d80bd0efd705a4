/**
 The recursive descent parser (src/ast.rs:2714-2835, 2991-3146, 3205-3960), without LEAVE_UNTERMINATED: trees
 of shell code and freestanding argument lists, with error unwinding and, with CONTINUE_AFTER_ERROR,
 recovery at the next job. Error texts and ranges are not part of this model.

 Each method that parses a node says what Grammar says of the tokens it started from: without an error, the node is
 the only one that can be read from them, and what is left is what remains; with an error, no node can be read
 from them at all. The places where the code would panic are `assert false`.
 */
module Populator {
  import opened Common
  import T = TokenStream
  import opened TokenStream
  import opened Ast
  import opened Grammar
  import opened GrammarLists
  import opened GrammarYield

  datatype TopType = JobListTop | FreestandingArgumentListTop

  datatype ListType = ArgumentListType | JobListType | CaseItemListType | AndorJobListType | ElseifClauseListType | OtherListType

  /** How many tokens have been consumed, and the two flags. */
  datatype State = State(at: nat, unwinding: bool, anyError: bool)

  /** No token is consumed while unwinding, and errors stay. */
  predicate Step(all: seq<Token>, s: State, s': State) {
    && s.at <= s'.at <= |all|
    && (s.unwinding ==> s'.unwinding && s'.at == s.at)
    && (s.anyError ==> s'.anyError)
  }

  class Populator {
    const tokens: T.TokenStream
    const topType: TopType
    const continueAfterError: bool
    var unwinding: bool
    var anyError: bool

    ghost predicate Valid()
      reads this, tokens, tokens.lookahead
    {
      && tokens.Valid() && InputSound(tokens.all)
      && (forall i :: 0 <= i < |tokens.all| ==> tokens.all[i].typ != Comment)
      && (unwinding ==> anyError)
    }

    ghost function View(): State
      reads this, tokens
    {
      State(tokens.popped, unwinding, anyError)
    }

    /** The tokens still to be parsed. */
    ghost function Rest(): seq<Token>
      reads tokens
    {
      Drop(tokens.all, tokens.popped)
    }

    /** The token `i` places ahead. */
    ghost function Next(i: nat): Token
      reads tokens
    {
      TokenAt(Rest(), i)
    }

    predicate Freestanding() {
      topType == FreestandingArgumentListTop
    }

    ghost predicate Clean()
      reads this
    {
      !anyError
    }

    ghost predicate CleanJobs()
      reads this
    {
      !anyError && topType == JobListTop
    }

    /** What the parser has made of the tokens: for this node, the rest of them; for another one, nothing. */
    ghost function Here(same: bool): Reading
      reads this, tokens
    {
      if same && !anyError then Leaves(Rest()) else NoReading
    }

    constructor (input: seq<Token>, topType: TopType, continueAfterError: bool)
      requires InputSound(input)
      ensures Valid() && fresh(tokens) && fresh(tokens.lookahead)
      ensures View() == State(0, false, false) && tokens.all == WithoutComments(input)
      ensures this.topType == topType && this.continueAfterError == continueAfterError
    {
      tokens := new T.TokenStream(input);
      this.topType := topType;
      this.continueAfterError := continueAfterError;
      unwinding, anyError := false, false;
      WithoutCommentsSound(input);
    }

    // -------------------------------------------------------------- tokens

    method PeekToken(idx: nat) returns (t: Token)
      requires Valid() && idx < 2
      modifies tokens, tokens.lookahead
      ensures Valid() && View() == old(View())
      ensures t == TokenAt(Rest(), idx)
      ensures idx == 0 ==> (t.typ == Terminate <==> tokens.popped == |tokens.all|) && (t.typ == Terminate <==> Rest() == [])
      ensures t.keyword != NoKeyword ==> t.typ == String
    {
      t := tokens.Peek(idx);
    }

    method ParseError()
      requires Valid()
      modifies this`unwinding, this`anyError
      ensures Valid() && View() == old(View()).(unwinding := true, anyError := true)
    {
      anyError := true;
      if !unwinding {
        unwinding := true;
      }
    }

    method ConsumeAnyToken() returns (t: Token)
      requires Valid() && tokens.popped < |tokens.all|
      modifies tokens, tokens.lookahead
      ensures Valid() && tokens.popped == old(tokens.popped) + 1
      ensures old(Rest()) == [t] + Rest()
    {
      t := tokens.Pop();
    }

    /** consume_token_type: the token is consumed even if it is not of the type, which is an error. */
    method ConsumeString(kind: Kind) returns (leaf: Leaf)
      requires Valid() && tokens.popped < |tokens.all| && !unwinding && (kind == Str || kind == Assignment)
      requires kind == Assignment ==> Next(0).mayBeVariableAssignment
      modifies this`unwinding, this`anyError, tokens, tokens.lookahead
      ensures Valid() && Step(tokens.all, old(View()), View())
      ensures old(Clean()) ==> forall n :: ReadLeaf(old(Rest()), kind, n) == Here(n == leaf)
      ensures tokens.popped == old(tokens.popped) + 1
      ensures old(Next(0)).typ == String ==> !unwinding
    {
      var tok := ConsumeAnyToken();
      if tok.typ != String {
        ParseError();
        return Sourced(TERMINATE);
      }
      leaf := Sourced(tok);
    }

    method VisitArgument() returns (leaf: Leaf)
      requires Valid() && (!unwinding ==> Next(0).typ != Terminate)
      modifies this`unwinding, this`anyError, tokens, tokens.lookahead
      ensures Valid() && Step(tokens.all, old(View()), View())
      ensures old(Clean()) ==> forall n :: ReadLeaf(old(Rest()), Str, n) == Here(n == leaf)
      ensures !old(unwinding) ==> tokens.popped > old(tokens.popped)
    {
      if unwinding {
        return Unsourced;
      }
      leaf := ConsumeString(Str);
    }

    method VisitVariableAssignment() returns (leaf: Leaf)
      requires Valid() && !unwinding && StartsAssignment(Next(0), Next(1))
      modifies this`unwinding, this`anyError, tokens, tokens.lookahead
      ensures Valid() && Step(tokens.all, old(View()), View())
      ensures old(Clean()) ==> forall n :: ReadLeaf(old(Rest()), Assignment, n) == Here(n == leaf)
      ensures tokens.popped > old(tokens.popped) && !unwinding
    {
      var t := PeekToken(0);
      if !t.mayBeVariableAssignment {
        assert false;
      }
      leaf := ConsumeString(Assignment);
    }

    /** visit_token, and visit_keyword except for `end`. */
    method VisitLeaf(kind: Kind) returns (leaf: Leaf)
      requires Valid() && kind != Newline && kind != Assignment && kind != Word(NoKeyword)
      modifies this`unwinding, this`anyError, tokens, tokens.lookahead
      ensures Valid() && Step(tokens.all, old(View()), View())
      ensures old(Clean()) ==> forall n :: ReadLeaf(old(Rest()), kind, n) == Here(n == leaf)
      ensures !old(unwinding) && Allows(kind, old(Next(0))) ==>
                View() == old(View()).(at := old(tokens.popped) + 1) && leaf.Sourced? && Next(0) == old(Next(1))
    {
      if unwinding {
        return Unsourced;
      }
      var t := PeekToken(0);
      if !Allows(kind, t) {
        ParseError();
        return Unsourced;
      }
      var tok := ConsumeAnyToken();
      leaf := Sourced(tok);
    }

    method VisitMaybeNewlines() returns (newlines: Newlines)
      requires Valid()
      modifies this`unwinding, this`anyError, tokens, tokens.lookahead
      ensures Valid() && Step(tokens.all, old(View()), View())
      ensures old(Clean()) ==> forall n :: ReadNewlines(old(Rest()), n) == Here(n == newlines)
      ensures unwinding == old(unwinding)
    {
      if unwinding {
        return NoNewlines;
      }
      ghost var s, start := View(), Rest();
      var toks := [];
      NewlinesBegin(start);
      var t := PeekToken(0);
      while t.isNewline
        invariant Valid() && View() == s.(at := tokens.popped) && s.at <= tokens.popped && t == Next(0)
        invariant NewlinesSoFar(start, toks, Rest())
        decreases |tokens.all| - tokens.popped
      {
        NewlinesMore(start, toks, Rest());
        var tok := ConsumeAnyToken();
        toks := toks + [tok];
        t := PeekToken(0);
      }
      NewlinesEnd(start, toks, Rest());
      newlines := Newlines(toks);
    }

    // -------------------------------------------------------------- CheckParse

    method CanParseAssignment() returns (can: bool)
      requires Valid()
      modifies tokens, tokens.lookahead
      ensures Valid() && View() == old(View()) && can == StartsAssignment(Next(0), Next(1))
    {
      hide InputSound, WithoutComments, Drop, TokenAt;
      var t := PeekToken(0);
      if !t.mayBeVariableAssignment {
        return false;
      }
      var next := PeekToken(1);
      return next.typ == String || next.typ == LeftBrace;
    }

    method CanParseAndorJob() returns (can: bool)
      requires Valid()
      modifies tokens, tokens.lookahead
      ensures Valid() && View() == old(View()) && can == StartsAndorJob(Next(0), Next(1))
      ensures can ==> StartsJob(Next(0))
    {
      hide InputSound, WithoutComments, Drop, TokenAt;
      var t := PeekToken(0);
      if !Allows(JobDecorator, t) {
        return false;
      }
      var next := PeekToken(1);
      return (next.typ == String || next.typ == LeftBrace) && !next.isHelpArgument;
    }

    method CanParseElseif() returns (can: bool)
      requires Valid()
      modifies tokens, tokens.lookahead
      ensures Valid() && View() == old(View())
      ensures can == (Next(0).keyword == KwElse && Next(1).keyword == KwIf)
    {
      hide InputSound, WithoutComments, Drop, TokenAt;
      var t := PeekToken(0);
      if t.keyword != KwElse {
        return false;
      }
      var next := PeekToken(1);
      return next.keyword == KwIf;
    }

    // -------------------------------------------------------------- lists

    function ChompsNewlines(typ: ListType): bool {
      match typ
      case ArgumentListType => topType == FreestandingArgumentListTop
      case OtherListType => false
      case _ => true
    }

    function ChompsSemis(typ: ListType): bool {
      match typ
      case ArgumentListType => topType == FreestandingArgumentListTop
      case OtherListType => false
      case ElseifClauseListType => false
      case _ => true
    }

    method ChompExtras(typ: ListType)
      requires Valid()
      modifies tokens, tokens.lookahead
      ensures Valid() && tokens.popped >= old(tokens.popped)
      ensures Rest() == Chomped(old(Rest()), ChompsNewlines(typ), ChompsSemis(typ))
      ensures ChompsSemis(typ) && ChompsNewlines(typ) ==> Next(0).typ != End
      ensures typ == OtherListType ==> View() == old(View())
    {
      var peek := PeekToken(0);
      while (ChompsNewlines(typ) && peek.typ == End && peek.isNewline)
            || (ChompsSemis(typ) && peek.typ == End && !peek.isNewline)
        invariant Valid() && peek == Next(0) && tokens.popped >= old(tokens.popped)
        invariant typ == OtherListType ==> View() == old(View())
        invariant Chomped(Rest(), ChompsNewlines(typ), ChompsSemis(typ))
               == Chomped(old(Rest()), ChompsNewlines(typ), ChompsSemis(typ))
        decreases |tokens.all| - tokens.popped
      {
        var tok := ConsumeAnyToken();
        peek := PeekToken(0);
      }
    }

    /** Recover from an error: skip to a string or an end. */
    method StopUnwinding()
      requires Valid() && unwinding
      modifies this`unwinding, tokens, tokens.lookahead
      ensures Valid() && !unwinding && tokens.popped >= old(tokens.popped)
    {
      var peek := PeekToken(0);
      while peek.typ != String && peek.typ != Terminate && peek.typ != End
        invariant Valid() && peek == Next(0) && tokens.popped >= old(tokens.popped) && unwinding
        decreases |tokens.all| - tokens.popped
      {
        var tok := tokens.Pop();
        peek := PeekToken(0);
      }
      unwinding := false;
    }

    /** The head of the loop of populate_list: whether to go on, after recovering and chomping. */
    method NextItem(typ: ListType) returns (goOn: bool)
      requires Valid()
      modifies this`unwinding, tokens, tokens.lookahead
      ensures Valid() && tokens.popped >= old(tokens.popped)
      ensures goOn <==> !old(unwinding) || (typ == JobListType && continueAfterError)
      ensures goOn ==> !unwinding
      ensures !goOn ==> View() == old(View()) && anyError
      ensures !old(unwinding) ==> Rest() == Chomped(old(Rest()), ChompsNewlines(typ), ChompsSemis(typ))
      ensures goOn && ChompsSemis(typ) && ChompsNewlines(typ) ==> Next(0).typ != End
      ensures typ == OtherListType ==> View() == old(View())
    {
      if unwinding {
        if !(typ == JobListType && continueAfterError) {
          return false;
        }
        StopUnwinding();
      }
      ChompExtras(typ);
      return true;
    }

    /** A list of variable assignments never fails: what does not look like one ends it. */
    method PopulateAssignments() returns (list: seq<Leaf>)
      requires Valid()
      modifies this`unwinding, this`anyError, tokens, tokens.lookahead
      ensures Valid() && Step(tokens.all, old(View()), View())
      ensures old(Clean()) ==> forall n :: ReadAssignments(old(Rest()), n) == Here(n == list)
      ensures unwinding == old(unwinding)
    {
      hide InputSound, WithoutComments, Drop, TokenAt, AssignmentsSoFar, ReadAssignments, ReadLeaf, Chomped;
      list := [];
      if unwinding {
        return;
      }
      ghost var s, start, clean := View(), Rest(), Clean();
      AssignmentsBegin(start);
      while true
        invariant Valid() && Step(tokens.all, s, View()) && !unwinding
        invariant clean && !anyError ==> AssignmentsSoFar(start, list, Leaves(Rest()))
        invariant clean && anyError ==> forall n :: ReadAssignments(start, n).NoReading?
        decreases |tokens.all| - tokens.popped, if unwinding then 0 else 1
      {
        ghost var rest, ok := Rest(), clean && !anyError;
        var goOn := NextItem(OtherListType);
        if !goOn {
          break;
        }
        var can := CanParseAssignment();
        if !can {
          if ok {
            AssignmentsEnd(start, list, rest);
          }
          break;
        }
        var item := VisitVariableAssignment();
        if ok {
          AssignmentsMore(start, list, rest, item, Here(true));
        }
        list := list + [item];
      }
    }

    /** populate_list for arguments. At the top the whole input is parsed. */
    method PopulateArguments(exhaustStream: bool) returns (list: seq<Leaf>)
      requires Valid() && (exhaustStream ==> !unwinding && topType == FreestandingArgumentListTop)
      modifies this`unwinding, this`anyError, tokens, tokens.lookahead
      ensures Valid() && Step(tokens.all, old(View()), View())
      ensures !exhaustStream && old(CleanJobs()) ==>
                forall n :: ReadArguments(old(Rest()), n, false) == Here(n == list)
      ensures exhaustStream && old(Clean()) ==>
                forall n :: ReadArguments(old(Rest()), n, true) == Leaves([]) <==> !anyError && n == list
      ensures exhaustStream && !unwinding ==> tokens.popped == |tokens.all|
    {
      hide InputSound, WithoutComments, Drop, TokenAt, ArgumentsSoFar, ReadArguments, ReadLeaf, Chomped;
      list := [];
      if unwinding {
        return;
      }
      ghost var s, start, clean := View(), Rest(), Clean();
      ghost var free := Freestanding();
      ArgumentsBegin(start, free);
      while true
        invariant Valid() && Step(tokens.all, s, View())
        invariant clean && !anyError ==> ArgumentsSoFar(start, list, Leaves(Rest()), free)
        invariant clean && anyError ==> forall n :: ReadArguments(start, n, free).Leaves? ==> exhaustStream && ReadArguments(start, n, free).rest != []
        decreases |tokens.all| - tokens.popped, if unwinding then 0 else 1
      {
        ghost var rest, ok := Rest(), clean && !anyError;
        var goOn := NextItem(ArgumentListType);
        if !goOn {
          break;
        }
        var t := PeekToken(0);
        if t.typ == String {
          var item := VisitArgument();
          if ok {
            ArgumentsMore(start, list, rest, item, Here(true), free);
          }
          list := list + [item];
        } else {
          if ok {
            ArgumentsEnd(start, list, rest, free);
          }
          if exhaustStream && t.typ != Terminate {
            ConsumeExcessTokenGeneratingError();
          } else {
            break;
          }
        }
      }
    }

    method VisitRedirection() returns (r: Redirection)
      requires Valid() && !unwinding && Next(0).typ == Redirect
      modifies this`unwinding, this`anyError, tokens, tokens.lookahead
      ensures Valid() && Step(tokens.all, old(View()), View())
      ensures old(Clean()) ==> forall n :: ReadRedirection(old(Rest()), n) == Here(n == r)
      ensures tokens.popped > old(tokens.popped)
    {
      hide Valid, Drop, TokenAt, ReadLeaf;
      var oper := VisitLeaf(TokenRedirection);
      var target := VisitLeaf(Str);
      r := Redirection(oper, target);
    }

    method VisitArgumentOrRedirection() returns (arg: ArgumentOrRedirection)
      requires Valid() && !unwinding && (Next(0).typ == String || Next(0).typ == Redirect)
      modifies this`unwinding, this`anyError, tokens, tokens.lookahead
      ensures Valid() && Step(tokens.all, old(View()), View())
      ensures old(Clean()) ==> forall n :: ReadArgumentOrRedirection(old(Rest()), n) == Here(n == arg)
      ensures tokens.popped > old(tokens.popped)
    {
      hide Valid, Drop, TokenAt, ReadRedirection, ReadLeaf;
      ArgumentStarts(Rest());
      var t := PeekToken(0);
      if t.typ == String {
        var leaf := VisitArgument();
        arg := Argument(leaf);
      } else if t.typ == Redirect {
        var r := VisitRedirection();
        arg := Redirected(r);
      } else {
        assert false;
      }
    }

    method PopulateArgumentsOrRedirections() returns (list: seq<ArgumentOrRedirection>)
      requires Valid()
      modifies this`unwinding, this`anyError, tokens, tokens.lookahead
      ensures Valid() && Step(tokens.all, old(View()), View())
      ensures old(Clean()) ==> forall n :: ReadArgs(old(Rest()), n) == Here(n == list)
    {
      hide InputSound, WithoutComments, Drop, TokenAt, ArgsSoFar, ReadArgs, ReadArgumentOrRedirection, Chomped;
      list := [];
      if unwinding {
        return;
      }
      ghost var s, start, clean := View(), Rest(), Clean();
      ArgsBegin(start);
      while true
        invariant Valid() && Step(tokens.all, s, View())
        invariant clean && !anyError ==> ArgsSoFar(start, list, Leaves(Rest()))
        invariant clean && anyError ==> forall n :: ReadArgs(start, n).NoReading?
        decreases |tokens.all| - tokens.popped, if unwinding then 0 else 1
      {
        ghost var rest, ok := Rest(), clean && !anyError;
        var goOn := NextItem(OtherListType);
        if !goOn {
          break;
        }
        var t := PeekToken(0);
        if !(t.typ == String || t.typ == Redirect) {
          if ok {
            ArgsEnd(start, list, rest);
          }
          break;
        }
        var item := VisitArgumentOrRedirection();
        if ok {
          ArgsMore(start, list, rest, item, Here(true));
        }
        list := list + [item];
      }
    }

    // -------------------------------------------------------------- jobs and statements

    /** populate_list for jobs. At the top the whole input is parsed: what cannot start a job is an error. */
    method PopulateJobs(exhaustStream: bool) returns (list: seq<JobConjunction>)
      requires Valid() && (exhaustStream ==> !unwinding && topType == JobListTop)
      modifies this`unwinding, this`anyError, tokens, tokens.lookahead
      ensures Valid() && Step(tokens.all, old(View()), View())
      ensures !exhaustStream && old(CleanJobs()) ==> forall n :: ReadJobs(old(Rest()), n) == Here(n == list)
      ensures exhaustStream && old(CleanJobs()) ==>
                forall n :: ReadJobs(old(Rest()), n) == Leaves([]) <==> !anyError && n == list
      ensures exhaustStream && !unwinding ==> tokens.popped == |tokens.all|
      ensures unwinding ==> old(unwinding) || !continueAfterError
      decreases |tokens.all| - tokens.popped, 12
    {
      hide InputSound, WithoutComments, Drop, TokenAt, JobsSoFar, ReadJobs, ReadJobConjunction, Chomped;
      list := [];
      if unwinding {
        return;
      }
      ghost var s, start, clean := View(), Rest(), CleanJobs();
      JobsBegin(start);
      while true
        invariant Valid() && Step(tokens.all, s, View())
        invariant clean && !anyError ==> JobsSoFar(start, list, Leaves(Rest()))
        invariant clean && anyError ==> forall n :: ReadJobs(start, n).Leaves? ==> exhaustStream && ReadJobs(start, n).rest != []
        decreases |tokens.all| - tokens.popped, if unwinding then 0 else 1
      {
        ghost var rest, ok := Rest(), clean && !anyError;
        var goOn := NextItem(JobListType);
        if !goOn {
          break;
        }
        var t := PeekToken(0);
        if StartsJob(t) {
          var item := VisitJobConjunction();
          if ok {
            JobsMore(start, list, rest, item, Here(true));
          }
          list := list + [item];
        } else {
          if ok {
            JobsEnd(start, list, rest);
          }
          if exhaustStream && t.typ != Terminate {
            ConsumeExcessTokenGeneratingError();
          } else {
            break;
          }
        }
      }
    }

    method PopulateAndorJobs() returns (list: seq<JobConjunction>)
      requires Valid()
      modifies this`unwinding, this`anyError, tokens, tokens.lookahead
      ensures Valid() && Step(tokens.all, old(View()), View())
      ensures old(CleanJobs()) ==> forall n :: ReadAndorJobs(old(Rest()), n) == Here(n == list)
      decreases |tokens.all| - tokens.popped, 12
    {
      hide InputSound, WithoutComments, Drop, TokenAt, AndorJobsSoFar, ReadAndorJobs, ReadJobConjunction, Chomped;
      list := [];
      if unwinding {
        return;
      }
      ghost var s, start, clean := View(), Rest(), CleanJobs();
      AndorJobsBegin(start);
      while true
        invariant Valid() && Step(tokens.all, s, View())
        invariant clean && !anyError ==> AndorJobsSoFar(start, list, Leaves(Rest()))
        invariant clean && anyError ==> forall n :: ReadAndorJobs(start, n).NoReading?
        decreases |tokens.all| - tokens.popped, if unwinding then 0 else 1
      {
        ghost var rest, ok := Rest(), clean && !anyError;
        var goOn := NextItem(AndorJobListType);
        if !goOn {
          break;
        }
        var can := CanParseAndorJob();
        if !can {
          if ok {
            AndorJobsEnd(start, list, rest);
          }
          break;
        }
        var item := VisitJobConjunction();
        if ok {
          AndorJobsMore(start, list, rest, item, Here(true));
        }
        list := list + [item];
      }
    }

    method PopulateConjunctions() returns (list: seq<JobConjunctionContinuation>)
      requires Valid()
      modifies this`unwinding, this`anyError, tokens, tokens.lookahead
      ensures Valid() && Step(tokens.all, old(View()), View())
      ensures old(CleanJobs()) ==> forall n :: ReadConjunctions(old(Rest()), n) == Here(n == list)
      decreases |tokens.all| - tokens.popped, 7
    {
      hide InputSound, WithoutComments, Drop, TokenAt, ConjunctionsSoFar, ReadConjunctions, ReadConjunction, Chomped;
      list := [];
      if unwinding {
        return;
      }
      ghost var s, start, clean := View(), Rest(), CleanJobs();
      ConjunctionsBegin(start);
      while true
        invariant Valid() && Step(tokens.all, s, View())
        invariant clean && !anyError ==> ConjunctionsSoFar(start, list, Leaves(Rest()))
        invariant clean && anyError ==> forall n :: ReadConjunctions(start, n).NoReading?
        decreases |tokens.all| - tokens.popped, if unwinding then 0 else 1
      {
        ghost var rest, ok := Rest(), clean && !anyError;
        var goOn := NextItem(OtherListType);
        if !goOn {
          break;
        }
        var t := PeekToken(0);
        if !(Allows(TokenConjunction, t)) {
          if ok {
            ConjunctionsEnd(start, list, rest);
          }
          break;
        }
        var item := VisitConjunction();
        if ok {
          ConjunctionsMore(start, list, rest, item, Here(true));
        }
        list := list + [item];
      }
    }

    method PopulateContinuations() returns (list: seq<JobContinuation>)
      requires Valid()
      modifies this`unwinding, this`anyError, tokens, tokens.lookahead
      ensures Valid() && Step(tokens.all, old(View()), View())
      ensures old(CleanJobs()) ==> forall n :: ReadContinuations(old(Rest()), n) == Here(n == list)
      decreases |tokens.all| - tokens.popped, 6
    {
      hide InputSound, WithoutComments, Drop, TokenAt, ContinuationsSoFar, ReadContinuations, ReadContinuation, Chomped;
      list := [];
      if unwinding {
        return;
      }
      ghost var s, start, clean := View(), Rest(), CleanJobs();
      ContinuationsBegin(start);
      while true
        invariant Valid() && Step(tokens.all, s, View())
        invariant clean && !anyError ==> ContinuationsSoFar(start, list, Leaves(Rest()))
        invariant clean && anyError ==> forall n :: ReadContinuations(start, n).NoReading?
        decreases |tokens.all| - tokens.popped, if unwinding then 0 else 1
      {
        ghost var rest, ok := Rest(), clean && !anyError;
        var goOn := NextItem(OtherListType);
        if !goOn {
          break;
        }
        var t := PeekToken(0);
        if !(t.typ == Pipe) {
          if ok {
            ContinuationsEnd(start, list, rest);
          }
          break;
        }
        var item := VisitJobContinuation();
        if ok {
          ContinuationsMore(start, list, rest, item, Here(true));
        }
        list := list + [item];
      }
    }

    method PopulateElseifs() returns (list: seq<ElseifClause>)
      requires Valid()
      modifies this`unwinding, this`anyError, tokens, tokens.lookahead
      ensures Valid() && Step(tokens.all, old(View()), View())
      ensures old(CleanJobs()) ==> forall n :: ReadElseifs(old(Rest()), n) == Here(n == list)
      decreases |tokens.all| - tokens.popped, 12
    {
      hide InputSound, WithoutComments, Drop, TokenAt, ElseifsSoFar, ReadElseifs, ReadElseif, Chomped;
      list := [];
      if unwinding {
        return;
      }
      ghost var s, start, clean := View(), Rest(), CleanJobs();
      ElseifsBegin(start);
      while true
        invariant Valid() && Step(tokens.all, s, View())
        invariant clean && !anyError ==> ElseifsSoFar(start, list, Leaves(Rest()))
        invariant clean && anyError ==> forall n :: ReadElseifs(start, n).NoReading?
        decreases |tokens.all| - tokens.popped, if unwinding then 0 else 1
      {
        ghost var rest, ok := Rest(), clean && !anyError;
        var goOn := NextItem(ElseifClauseListType);
        if !goOn {
          break;
        }
        var can := CanParseElseif();
        if !can {
          if ok {
            ElseifsEnd(start, list, rest);
          }
          break;
        }
        var item := VisitElseif();
        if ok {
          ElseifsMore(start, list, rest, item, Here(true));
        }
        list := list + [item];
      }
    }

    method PopulateCases() returns (list: seq<CaseItem>)
      requires Valid()
      modifies this`unwinding, this`anyError, tokens, tokens.lookahead
      ensures Valid() && Step(tokens.all, old(View()), View())
      ensures old(CleanJobs()) ==> forall n :: ReadCases(old(Rest()), n) == Here(n == list)
      decreases |tokens.all| - tokens.popped, 12
    {
      hide InputSound, WithoutComments, Drop, TokenAt, CasesSoFar, ReadCases, ReadCase, Chomped;
      list := [];
      if unwinding {
        return;
      }
      ghost var s, start, clean := View(), Rest(), CleanJobs();
      CasesBegin(start);
      while true
        invariant Valid() && Step(tokens.all, s, View())
        invariant clean && !anyError ==> CasesSoFar(start, list, Leaves(Rest()))
        invariant clean && anyError ==> forall n :: ReadCases(start, n).NoReading?
        decreases |tokens.all| - tokens.popped, if unwinding then 0 else 1
      {
        ghost var rest, ok := Rest(), clean && !anyError;
        var goOn := NextItem(CaseItemListType);
        if !goOn {
          break;
        }
        var t := PeekToken(0);
        if !(t.keyword == KwCase) {
          if ok {
            CasesEnd(start, list, rest);
          }
          break;
        }
        var item := VisitCase();
        if ok {
          CasesMore(start, list, rest, item, Here(true));
        }
        list := list + [item];
      }
    }

    /** The optional leaves: try_parse. */
    method TryTime() returns (leaf: Option<Leaf>)
      requires Valid()
      modifies this`unwinding, this`anyError, tokens, tokens.lookahead
      ensures Valid() && Step(tokens.all, old(View()), View())
      ensures old(Clean()) ==> forall n ::
                ReadMaybe(old(Rest()), Word(KwTime), n, StartsTime(TokenAt(old(Rest()), 0), TokenAt(old(Rest()), 1))) == Here(n == leaf)
      ensures unwinding == old(unwinding)
      ensures View() == old(View()) || tokens.popped > old(tokens.popped)
    {
      hide InputSound, WithoutComments, Drop, TokenAt, ReadLeaf;
      leaf := None;
      var t := PeekToken(0);
      if t.keyword == KwTime {
        var next := PeekToken(1);
        if !next.IsDashPrefixString() {
          var l := VisitLeaf(Word(KwTime));
          leaf := Some(l);
        }
      }
    }

    method TryJobDecorator() returns (leaf: Option<Leaf>)
      requires Valid()
      modifies this`unwinding, this`anyError, tokens, tokens.lookahead
      ensures Valid() && Step(tokens.all, old(View()), View())
      ensures old(Clean()) ==> forall n ::
                ReadMaybe(old(Rest()), JobDecorator, n, StartsJobDecorator(TokenAt(old(Rest()), 0), TokenAt(old(Rest()), 1))) == Here(n == leaf)
      ensures unwinding == old(unwinding)
      ensures View() == old(View()) || tokens.popped > old(tokens.popped)
    {
      hide InputSound, WithoutComments, Drop, TokenAt, ReadLeaf;
      leaf := None;
      var t := PeekToken(0);
      if Allows(JobDecorator, t) {
        var next := PeekToken(1);
        if !next.isHelpArgument {
          var l := VisitLeaf(JobDecorator);
          leaf := Some(l);
        }
      }
    }

    method TryDecorator() returns (leaf: Option<Leaf>)
      requires Valid()
      modifies this`unwinding, this`anyError, tokens, tokens.lookahead
      ensures Valid() && Step(tokens.all, old(View()), View())
      ensures old(Clean()) ==> forall n ::
                ReadMaybe(old(Rest()), Decorator, n, StartsDecorator(TokenAt(old(Rest()), 0), TokenAt(old(Rest()), 1))) == Here(n == leaf)
      ensures unwinding == old(unwinding)
      ensures View() == old(View()) || tokens.popped > old(tokens.popped)
    {
      hide InputSound, WithoutComments, Drop, TokenAt, ReadLeaf;
      leaf := None;
      var t := PeekToken(0);
      if Allows(Decorator, t) {
        var next := PeekToken(1);
        if next.typ == String && !next.IsDashPrefixString() {
          var l := VisitLeaf(Decorator);
          leaf := Some(l);
        }
      }
    }

    method TryToken(kind: Kind) returns (leaf: Option<Leaf>)
      requires Valid() && (kind == SemiNl || kind == TokenBackground)
      modifies this`unwinding, this`anyError, tokens, tokens.lookahead
      ensures Valid() && Step(tokens.all, old(View()), View())
      ensures old(Clean()) ==> forall n :: ReadMaybe(old(Rest()), kind, n, Allows(kind, TokenAt(old(Rest()), 0))) == Here(n == leaf)
      ensures unwinding == old(unwinding)
    {
      hide InputSound, WithoutComments, Drop, TokenAt, ReadLeaf;
      leaf := None;
      var t := PeekToken(0);
      if Allows(kind, t) {
        var l := VisitLeaf(kind);
        leaf := Some(l);
      }
    }

    method VisitJobConjunction() returns (node: JobConjunction)
      requires Valid() && !unwinding
      modifies this`unwinding, this`anyError, tokens, tokens.lookahead
      ensures Valid() && Step(tokens.all, old(View()), View())
      ensures old(CleanJobs()) ==> forall n :: ReadJobConjunction(old(Rest()), n) == Here(n == node)
      ensures StartsJob(old(Next(0))) ==> tokens.popped > old(tokens.popped)
      decreases |tokens.all| - tokens.popped, 8
    {
      hide Valid, Drop, TokenAt, ReadJobPipeline, ReadConjunctions, ReadMaybe;
      var decorator := TryJobDecorator();
      var job := VisitJobPipeline();
      var continuations := PopulateConjunctions();
      var semiNl := TryToken(SemiNl);
      node := JobConjunction(decorator, job, continuations, semiNl);
    }

    method VisitConjunction() returns (node: JobConjunctionContinuation)
      requires Valid() && !unwinding && Allows(TokenConjunction, Next(0))
      modifies this`unwinding, this`anyError, tokens, tokens.lookahead
      ensures Valid() && Step(tokens.all, old(View()), View())
      ensures old(CleanJobs()) ==> forall n :: ReadConjunction(old(Rest()), n) == Here(n == node)
      ensures tokens.popped > old(tokens.popped)
      decreases |tokens.all| - tokens.popped, 6
    {
      hide Valid, Drop, TokenAt, ReadLeaf, ReadNewlines, ReadJobPipeline;
      var conjunction := VisitLeaf(TokenConjunction);
      var newlines := VisitMaybeNewlines();
      var job := VisitJobPipeline();
      node := JobConjunctionContinuation(conjunction, newlines, job);
    }

    method VisitJobPipeline() returns (node: JobPipeline)
      requires Valid() && !unwinding
      modifies this`unwinding, this`anyError, tokens, tokens.lookahead
      ensures Valid() && Step(tokens.all, old(View()), View())
      ensures old(CleanJobs()) ==> forall n :: ReadJobPipeline(old(Rest()), n) == Here(n == node)
      ensures StartsStatement(old(Next(0))) ==> tokens.popped > old(tokens.popped)
      decreases |tokens.all| - tokens.popped, 7
    {
      hide Valid, Drop, TokenAt, ReadMaybe, ReadAssignments, ReadStatement, ReadContinuations;
      var time := TryTime();
      var variables := PopulateAssignments();
      var statement := VisitStatement();
      var continuation := PopulateContinuations();
      var bg := TryToken(TokenBackground);
      node := JobPipeline(time, variables, statement, continuation, bg);
    }

    /** A pipe and what follows. `and` or `or` there is an error, and then the pipe is not consumed. */
    method VisitJobContinuation() returns (node: JobContinuation)
      requires Valid() && !unwinding && Next(0).typ == Pipe
      modifies this`unwinding, this`anyError, tokens, tokens.lookahead
      ensures Valid() && Step(tokens.all, old(View()), View())
      ensures old(CleanJobs()) ==> forall n :: ReadContinuation(old(Rest()), n) == Here(n == node)
      ensures tokens.popped > old(tokens.popped) || unwinding
      decreases |tokens.all| - tokens.popped, 5, 1
    {
      hide Valid, ReadContinuation, Drop, TokenAt, InputSound;
      AndorAfterPipe(Rest());
      var next := PeekToken(1);
      if Allows(JobDecorator, next) {
        ParseError();
      }
      node := VisitContinuationFields();
    }

    method VisitContinuationFields() returns (node: JobContinuation)
      requires Valid() && Next(0).typ == Pipe
      modifies this`unwinding, this`anyError, tokens, tokens.lookahead
      ensures Valid() && Step(tokens.all, old(View()), View())
      ensures old(CleanJobs()) && !Allows(JobDecorator, TokenAt(old(Rest()), 1)) ==>
                forall n :: ReadContinuation(old(Rest()), n) == Here(n == node)
      ensures tokens.popped > old(tokens.popped) || unwinding
      decreases |tokens.all| - tokens.popped, 5, 0
    {
      hide Valid, Drop, TokenAt, ReadLeaf, ReadNewlines, ReadAssignments, ReadStatement;
      var pipe := VisitLeaf(TokenPipe);
      var newlines := VisitMaybeNewlines();
      var variables := PopulateAssignments();
      var statement := VisitStatement();
      node := JobContinuation(pipe, newlines, variables, statement);
    }

    /** A command; a brace right after it is an error. */
    method NewDecoratedStatement() returns (node: Statement)
      requires Valid()
      modifies this`unwinding, this`anyError, tokens, tokens.lookahead
      ensures Valid() && Step(tokens.all, old(View()), View())
      ensures old(Clean()) ==> forall d, c, a :: ReadCommand(old(Rest()), d, c, a) == Here(node == DecoratedStatement(d, c, a))
      ensures node.DecoratedStatement?
      ensures !old(unwinding) && old(Next(0)).typ == String ==> tokens.popped > old(tokens.popped)
    {
      hide ReadDecorated;
      node := VisitDecoratedStatement();
      if !unwinding {
        var t := PeekToken(0);
        if t.typ == LeftBrace {
          ParseError();
        }
      }
    }

    method VisitDecoratedStatement() returns (node: Statement)
      requires Valid()
      modifies this`unwinding, this`anyError, tokens, tokens.lookahead
      ensures Valid() && Step(tokens.all, old(View()), View())
      ensures old(Clean()) ==> forall d, c, a :: ReadDecorated(old(Rest()), d, c, a) == Here(node == DecoratedStatement(d, c, a))
      ensures node.DecoratedStatement?
      ensures !old(unwinding) && old(Next(0)).typ == String ==> tokens.popped > old(tokens.popped)
    {
      hide Valid, Drop, TokenAt, ReadMaybe, ReadLeaf, ReadArgs;
      var decoration := TryDecorator();
      var command := VisitLeaf(Str);
      var args := PopulateArgumentsOrRedirections();
      node := DecoratedStatement(decoration, command, args);
    }

    /** No command: an error, unless there is one already; and a statement without source (got_error). */
    method VisitNoCommand() returns (node: Statement)
      requires Valid()
      modifies this`unwinding, this`anyError, tokens, tokens.lookahead
      ensures Valid() && Step(tokens.all, old(View()), View()) && unwinding && anyError
    {
      ParseError();
      node := NewDecoratedStatement();
    }

    /** An assignment with no string after it. Consume it, so as not to get back here at the same place. */
    method VisitBareAssignment() returns (node: Statement)
      requires Valid() && !unwinding && tokens.popped < |tokens.all|
      modifies this`unwinding, this`anyError, tokens, tokens.lookahead
      ensures Valid() && Step(tokens.all, old(View()), View()) && anyError
      ensures tokens.popped > old(tokens.popped)
    {
      var tok := ConsumeAnyToken();
      ParseError();
      node := NewDecoratedStatement();
    }

    /** allocate_populate_statement_contents */
    method VisitStatement() returns (node: Statement)
      requires Valid() && (unwinding ==> Next(0).typ == Pipe)
      modifies this`unwinding, this`anyError, tokens, tokens.lookahead
      ensures Valid() && Step(tokens.all, old(View()), View())
      ensures old(CleanJobs()) ==> forall n :: ReadStatement(old(Rest()), n) == Here(n == node)
      ensures !old(unwinding) && StartsStatement(old(Next(0))) ==> tokens.popped > old(tokens.popped)
      decreases |tokens.all| - tokens.popped, 4
    {
      hide ReadStatement;
      var t := PeekToken(0);
      if t.typ == LeftBrace {
        node := VisitBraceStatement();
      } else if t.typ != String {
        NothingStarts(Rest());
        node := VisitNoCommand();
      } else if t.mayBeVariableAssignment {
        NothingStarts(Rest());
        node := VisitBareAssignment();
      } else {
        node := VisitCommandOrBlock();
      }
    }

    /** Whether a string is a command, or starts a statement of its own kind. */
    method VisitCommandOrBlock() returns (node: Statement)
      requires Valid() && !unwinding && Next(0).typ == String && !Next(0).mayBeVariableAssignment
      modifies this`unwinding, this`anyError, tokens, tokens.lookahead
      ensures Valid() && Step(tokens.all, old(View()), View())
      ensures old(CleanJobs()) ==> forall n :: ReadStatement(old(Rest()), n) == Here(n == node)
      ensures old(Next(0)).keyword != KwEnd ==> tokens.popped > old(tokens.popped)
      decreases |tokens.all| - tokens.popped, 3, 1
    {
      hide Valid, Drop, TokenAt, InputSound, ReadStatement, ReadCommand;
      var t := PeekToken(0);
      var next := PeekToken(1);
      if InvokesHelp(t, next) {
        CommandStarts(Rest());
        node := NewDecoratedStatement();
        return;
      }
      match t.keyword
      case KwNot => node := VisitNotStatement();
      case KwExclam => node := VisitNotStatement();
      case KwFor => node := VisitBlockStatement();
      case KwWhile => node := VisitBlockStatement();
      case KwFunction => node := VisitBlockStatement();
      case KwBegin => node := VisitBlockStatement();
      case KwIf => node := VisitIfStatement();
      case KwSwitch => node := VisitSwitchStatement();
      case KwEnd =>
        NothingStarts(Rest());
        node := VisitNoCommand();
      case _ =>
        CommandStarts(Rest());
        node := NewDecoratedStatement();
    }

    method VisitNotStatement() returns (node: Statement)
      requires Valid() && !unwinding && Allows(NotKeyword, Next(0))
      modifies this`unwinding, this`anyError, tokens, tokens.lookahead
      ensures Valid() && Step(tokens.all, old(View()), View())
      ensures old(CleanJobs()) && StartsKeyword(old(Rest())) ==>
                forall n :: ReadStatement(old(Rest()), n) == Here(n == node)
      ensures tokens.popped > old(tokens.popped)
      decreases |tokens.all| - tokens.popped, 3, 0
    {
      hide Valid, Drop, TokenAt, ReadLeaf, ReadMaybe, ReadAssignments;
      if StartsKeyword(Rest()) {
        KeywordStarts(Rest());
      }
      var kwNot := VisitLeaf(NotKeyword);
      var time := TryTime();
      var variables := PopulateAssignments();
      var contents := VisitStatement();
      node := NotStatement(kwNot, time, variables, contents);
    }

    method VisitBraceStatement() returns (node: Statement)
      requires Valid() && !unwinding && Next(0).typ == LeftBrace
      modifies this`unwinding, this`anyError, tokens, tokens.lookahead
      ensures Valid() && Step(tokens.all, old(View()), View())
      ensures old(CleanJobs()) ==> forall n :: ReadStatement(old(Rest()), n) == Here(n == node)
      ensures tokens.popped > old(tokens.popped)
      decreases |tokens.all| - tokens.popped, 3, 0
    {
      hide Valid, Drop, TokenAt, ReadLeaf, ReadJobs, ReadArgs;
      var left := VisitLeaf(TokenLeftBrace);
      var jobs := PopulateJobs(false);
      var right := VisitLeaf(TokenRightBrace);
      var args := PopulateArgumentsOrRedirections();
      node := BraceStatement(left, jobs, right, args);
    }

    /** The keyword `end` and what follows it. A missing one is reported as such, and the fields after it are
        not visited. */
    method VisitEnd() returns (end: Leaf, args: seq<ArgumentOrRedirection>)
      requires Valid()
      modifies this`unwinding, this`anyError, tokens, tokens.lookahead
      ensures Valid() && Step(tokens.all, old(View()), View())
      ensures old(Clean()) ==> forall e, a :: ReadEnd(old(Rest()), e, a) == Here(e == end && a == args)
    {
      hide InputSound, WithoutComments, Drop, ReadArgs;
      if !unwinding {
        var t := PeekToken(0);
        if t.keyword != KwEnd {
          MissingEnd();
          return Unsourced, [];
        }
      }
      end := VisitLeaf(Word(KwEnd));
      args := PopulateArgumentsOrRedirections();
    }

    /** did_visit_fields_of, for a block whose `end` is missing. */
    method MissingEnd()
      requires Valid() && !unwinding && Next(0).keyword != KwEnd
      modifies this`unwinding, this`anyError, tokens, tokens.lookahead
      ensures Valid() && unwinding && tokens.popped >= old(tokens.popped)
    {
      var next := PeekToken(0);
      if next.typ == String && (next.keyword == KwCase || next.keyword == KwElse || next.keyword == KwEnd) {
        ConsumeExcessTokenGeneratingError();
      }
      ParseError();
    }

    /** consume_excess_token_generating_error: the token cannot start a job and is not a separator. */
    method ConsumeExcessTokenGeneratingError()
      requires Valid() && !unwinding && tokens.popped < |tokens.all|
      requires topType == JobListTop ==> Next(0).typ != End && !StartsJob(Next(0))
      modifies this`unwinding, this`anyError, tokens, tokens.lookahead
      ensures Valid() && unwinding && tokens.popped > old(tokens.popped)
    {
      var tok := ConsumeAnyToken();
      if topType == FreestandingArgumentListTop {
        ParseError();
        return;
      }
      match tok.typ
      case String =>
        match tok.keyword {
          case KwCase => ParseError();
          case KwEnd => ParseError();
          case KwElse => ParseError();
          case _ => assert false;
        }
      case Redirect =>
        var next := PeekToken(0);
        if next.typ == String {
          var target := tokens.Pop();
        }
        ParseError();
      case Pipe => ParseError();
      case RightBrace => ParseError();
      case Background => ParseError();
      case Andand => ParseError();
      case Oror => ParseError();
      case TokenizerError => ParseError();
      case _ => assert false;
    }

    method VisitBlockStatement() returns (node: Statement)
      requires Valid() && !unwinding && StartsBlock(Next(0), Next(1))
      modifies this`unwinding, this`anyError, tokens, tokens.lookahead
      ensures Valid() && Step(tokens.all, old(View()), View())
      ensures old(CleanJobs()) && StartsKeyword(old(Rest())) ==>
                forall n :: ReadStatement(old(Rest()), n) == Here(n == node)
      ensures tokens.popped > old(tokens.popped)
      decreases |tokens.all| - tokens.popped, 3, 0
    {
      hide Valid, Drop, TokenAt, ReadHeader, ReadJobs, ReadEnd;
      if StartsKeyword(Rest()) {
        KeywordStarts(Rest());
      }
      var header := VisitBlockHeader();
      var jobs := PopulateJobs(false);
      var end, args := VisitEnd();
      node := BlockStatement(header, jobs, end, args);
    }

    /** allocate_populate_block_header */
    method VisitBlockHeader() returns (header: BlockHeader)
      requires Valid() && !unwinding && StartsBlock(Next(0), Next(1))
      modifies this`unwinding, this`anyError, tokens, tokens.lookahead
      ensures Valid() && Step(tokens.all, old(View()), View())
      ensures old(CleanJobs()) ==> forall n :: ReadHeader(old(Rest()), n) == Here(n == header)
      ensures tokens.popped > old(tokens.popped)
      decreases |tokens.all| - tokens.popped, 2, 0
    {
      var t := PeekToken(0);
      match t.keyword
      case KwFor => header := VisitForHeader();
      case KwWhile => header := VisitWhileHeader();
      case KwFunction => header := VisitFunctionHeader();
      case KwBegin => header := VisitBeginHeader();
      case _ => assert false;
    }

    method VisitForHeader() returns (node: BlockHeader)
      requires Valid() && !unwinding && Next(0).keyword == KwFor
      modifies this`unwinding, this`anyError, tokens, tokens.lookahead
      ensures Valid() && Step(tokens.all, old(View()), View())
      ensures old(CleanJobs()) ==> forall n :: ReadHeader(old(Rest()), n) == Here(n == node)
      ensures tokens.popped > old(tokens.popped)
      decreases |tokens.all| - tokens.popped, 1
    {
      hide Valid, Drop, TokenAt, ReadLeaf, ReadForHead, ReadArguments;
      HeaderStarts(Rest());
      var kwFor, varName, kwIn := VisitForHead();
      var args := PopulateArguments(false);
      var semiNl := VisitLeaf(SemiNl);
      node := ForHeader(kwFor, varName, kwIn, args, semiNl);
    }

    method VisitForHead() returns (kwFor: Leaf, varName: Leaf, kwIn: Leaf)
      requires Valid() && !unwinding && Next(0).keyword == KwFor
      modifies this`unwinding, this`anyError, tokens, tokens.lookahead
      ensures Valid() && Step(tokens.all, old(View()), View())
      ensures old(Clean()) ==> forall f, v, i ::
                ReadForHead(old(Rest()), f, v, i) == Here(f == kwFor && v == varName && i == kwIn)
      ensures tokens.popped > old(tokens.popped)
    {
      hide Valid, Drop, TokenAt, ReadLeaf;
      kwFor := VisitLeaf(Word(KwFor));
      varName := VisitLeaf(Str);
      kwIn := VisitLeaf(Word(KwIn));
    }

    method VisitWhileHeader() returns (node: BlockHeader)
      requires Valid() && !unwinding && Next(0).keyword == KwWhile
      modifies this`unwinding, this`anyError, tokens, tokens.lookahead
      ensures Valid() && Step(tokens.all, old(View()), View())
      ensures old(CleanJobs()) ==> forall n :: ReadHeader(old(Rest()), n) == Here(n == node)
      ensures tokens.popped > old(tokens.popped)
      decreases |tokens.all| - tokens.popped, 1
    {
      hide Valid, Drop, TokenAt, ReadLeaf, ReadJobConjunction, ReadAndorJobs;
      HeaderStarts(Rest());
      var kwWhile := VisitLeaf(Word(KwWhile));
      var condition := VisitJobConjunction();
      var andorTail := PopulateAndorJobs();
      node := WhileHeader(kwWhile, condition, andorTail);
    }

    method VisitFunctionHeader() returns (node: BlockHeader)
      requires Valid() && !unwinding && Next(0).keyword == KwFunction && Next(1).typ != Terminate
      modifies this`unwinding, this`anyError, tokens, tokens.lookahead
      ensures Valid() && Step(tokens.all, old(View()), View())
      ensures old(CleanJobs()) ==> forall n :: ReadHeader(old(Rest()), n) == Here(n == node)
      ensures tokens.popped > old(tokens.popped)
      decreases |tokens.all| - tokens.popped, 1
    {
      hide Valid, Drop, TokenAt, ReadLeaf, ReadArguments;
      HeaderStarts(Rest());
      var kwFunction := VisitLeaf(Word(KwFunction));
      var firstArg := VisitArgument();
      var args := PopulateArguments(false);
      var semiNl := VisitLeaf(SemiNl);
      node := FunctionHeader(kwFunction, firstArg, args, semiNl);
    }

    method VisitBeginHeader() returns (node: BlockHeader)
      requires Valid() && !unwinding && Next(0).keyword == KwBegin
      modifies this`unwinding, this`anyError, tokens, tokens.lookahead
      ensures Valid() && Step(tokens.all, old(View()), View())
      ensures old(CleanJobs()) ==> forall n :: ReadHeader(old(Rest()), n) == Here(n == node)
      ensures tokens.popped > old(tokens.popped)
      decreases |tokens.all| - tokens.popped, 1
    {
      hide Valid, Drop, TokenAt, ReadLeaf, ReadMaybe;
      HeaderStarts(Rest());
      var kwBegin := VisitLeaf(Word(KwBegin));
      var semiNl := TryToken(SemiNl);
      node := BeginHeader(kwBegin, semiNl);
    }

    method VisitIfStatement() returns (node: Statement)
      requires Valid() && !unwinding && Next(0).keyword == KwIf
      modifies this`unwinding, this`anyError, tokens, tokens.lookahead
      ensures Valid() && Step(tokens.all, old(View()), View())
      ensures old(CleanJobs()) && StartsKeyword(old(Rest())) ==>
                forall n :: ReadStatement(old(Rest()), n) == Here(n == node)
      ensures tokens.popped > old(tokens.popped)
      decreases |tokens.all| - tokens.popped, 3, 0
    {
      hide Valid, Drop, TokenAt, ReadIfClause, ReadElseifs, ReadMaybeElse, ReadEnd;
      if StartsKeyword(Rest()) {
        KeywordStarts(Rest());
      }
      var ifClause := VisitIfClause();
      var elseifs := PopulateElseifs();
      var elseClause := TryElse();
      var end, args := VisitEnd();
      node := IfStatement(ifClause, elseifs, elseClause, end, args);
    }

    method TryElse() returns (node: Option<ElseClause>)
      requires Valid()
      modifies this`unwinding, this`anyError, tokens, tokens.lookahead
      ensures Valid() && Step(tokens.all, old(View()), View())
      ensures old(CleanJobs()) ==> forall n :: ReadMaybeElse(old(Rest()), n) == Here(n == node)
      decreases |tokens.all| - tokens.popped, 21
    {
      hide ReadElse;
      var t := PeekToken(0);
      if t.keyword == KwElse {
        var e := VisitElse();
        return Some(e);
      }
      return None;
    }

    method VisitElse() returns (node: ElseClause)
      requires Valid()
      modifies this`unwinding, this`anyError, tokens, tokens.lookahead
      ensures Valid() && Step(tokens.all, old(View()), View())
      ensures old(CleanJobs()) ==> forall n :: ReadElse(old(Rest()), n) == Here(n == node)
      decreases |tokens.all| - tokens.popped, 20
    {
      hide Valid, Drop, TokenAt, ReadLeaf, ReadMaybe, ReadJobs;
      var kwElse := VisitLeaf(Word(KwElse));
      var semiNl := TryToken(SemiNl);
      var body := PopulateJobs(false);
      node := ElseClause(kwElse, semiNl, body);
    }

    method VisitIfClause() returns (node: IfClause)
      requires Valid() && !unwinding && Next(0).keyword == KwIf
      modifies this`unwinding, this`anyError, tokens, tokens.lookahead
      ensures Valid() && Step(tokens.all, old(View()), View())
      ensures old(CleanJobs()) ==> forall n :: ReadIfClause(old(Rest()), n) == Here(n == node)
      ensures tokens.popped > old(tokens.popped)
      decreases |tokens.all| - tokens.popped, 2, 0
    {
      hide Valid, Drop, TokenAt, ReadLeaf, ReadJobConjunction, ReadAndorJobs, ReadJobs;
      var kwIf := VisitLeaf(Word(KwIf));
      var condition := VisitJobConjunction();
      var andorTail := PopulateAndorJobs();
      var body := PopulateJobs(false);
      node := IfClause(kwIf, condition, andorTail, body);
    }

    method VisitElseif() returns (node: ElseifClause)
      requires Valid() && !unwinding && Next(0).keyword == KwElse && Next(1).keyword == KwIf
      modifies this`unwinding, this`anyError, tokens, tokens.lookahead
      ensures Valid() && Step(tokens.all, old(View()), View())
      ensures old(CleanJobs()) ==> forall n :: ReadElseif(old(Rest()), n) == Here(n == node)
      ensures tokens.popped > old(tokens.popped)
      decreases |tokens.all| - tokens.popped, 11
    {
      hide Valid, Drop, TokenAt, ReadLeaf, ReadIfClause;
      var kwElse := VisitLeaf(Word(KwElse));
      var ifClause := VisitIfClause();
      node := ElseifClause(kwElse, ifClause);
    }

    method VisitCase() returns (node: CaseItem)
      requires Valid() && !unwinding && Next(0).keyword == KwCase
      modifies this`unwinding, this`anyError, tokens, tokens.lookahead
      ensures Valid() && Step(tokens.all, old(View()), View())
      ensures old(CleanJobs()) ==> forall n :: ReadCase(old(Rest()), n) == Here(n == node)
      ensures tokens.popped > old(tokens.popped)
      decreases |tokens.all| - tokens.popped, 11
    {
      hide Valid, Drop, TokenAt, ReadLeaf, ReadArguments, ReadJobs;
      var kwCase := VisitLeaf(Word(KwCase));
      var arguments := PopulateArguments(false);
      var semiNl := VisitLeaf(SemiNl);
      var body := PopulateJobs(false);
      node := CaseItem(kwCase, arguments, semiNl, body);
    }

    method VisitSwitchStatement() returns (node: Statement)
      requires Valid() && !unwinding && Next(0).keyword == KwSwitch && Next(1).typ != Terminate
      modifies this`unwinding, this`anyError, tokens, tokens.lookahead
      ensures Valid() && Step(tokens.all, old(View()), View())
      ensures old(CleanJobs()) && StartsKeyword(old(Rest())) ==>
                forall n :: ReadStatement(old(Rest()), n) == Here(n == node)
      ensures tokens.popped > old(tokens.popped)
      decreases |tokens.all| - tokens.popped, 3, 0
    {
      hide Valid, Drop, TokenAt, ReadSwitchHead, ReadCases, ReadEnd;
      if StartsKeyword(Rest()) {
        KeywordStarts(Rest());
      }
      var kwSwitch, argument, semiNl := VisitSwitchHead();
      var cases := PopulateCases();
      var end, args := VisitEnd();
      node := SwitchStatement(kwSwitch, argument, semiNl, cases, end, args);
    }

    method VisitSwitchHead() returns (kwSwitch: Leaf, argument: Leaf, semiNl: Leaf)
      requires Valid() && !unwinding && Next(0).keyword == KwSwitch && Next(1).typ != Terminate
      modifies this`unwinding, this`anyError, tokens, tokens.lookahead
      ensures Valid() && Step(tokens.all, old(View()), View())
      ensures old(Clean()) ==> forall k, a, s ::
                ReadSwitchHead(old(Rest()), k, a, s) == Here(k == kwSwitch && a == argument && s == semiNl)
      ensures tokens.popped > old(tokens.popped)
    {
      hide Valid, Drop, TokenAt, ReadLeaf;
      kwSwitch := VisitLeaf(Word(KwSwitch));
      argument := VisitArgument();
      semiNl := VisitLeaf(SemiNl);
    }
  }
}
