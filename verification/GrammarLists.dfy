/**
 How the lists of the grammar are read one item after the other.

 A loop that has read some items of a list has read the beginning of every list that can be read from where it
 started: `SoFar` says that what remains of such a list is read from where the loop is now. An item that was read is the
 only one that can come next, so one more item is known of all these lists; and once no further item can start, there
 is only one list left. There is a pair of lemmas for each kind of list, all of one form: the items differ, and
 what may come between them.
 */
module GrammarLists {
  import opened Common
  import opened TokenStream
  import opened Ast
  import opened Grammar

  /** What remains of a list that goes on with this item, or with another, or not at all. */
  lemma NextItem<T>(list: seq<T>, n: seq<T>, item: T)
    ensures list + [item] <= n <==> list <= n && |list| < |n| && n[|list|..][0] == item
    ensures list <= n && |list| < |n| ==> n[|list|..] != [] && n[|list|..][1..] == n[|list + [item]|..]
    ensures list <= n && |list| == |n| ==> n[|list|..] == [] && list == n
  {
    if list <= n && |list| < |n| {
      assert n[|list|..][0] == n[|list|];
    }
  }

  // ---------------------------------------------------------------- Assignments

  ghost predicate AssignmentsSoFar(start: seq<Token>, list: seq<Leaf>, here: Reading) {
    forall n :: ReadAssignments(start, n)
                == if here.Leaves? && list <= n then ReadAssignments(here.rest, n[|list|..]) else NoReading
  }

  lemma AssignmentsBegin(start: seq<Token>)
    ensures AssignmentsSoFar(start, [], Leaves(start))
  {
    assert forall n: seq<Leaf> :: n[0..] == n;
  }

  lemma AssignmentsRead(rest: seq<Token>, n: seq<Leaf>)
    ensures ReadAssignments(rest, n)
            == if StartsAssignment(TokenAt(rest, 0), TokenAt(rest, 1)) then
                 if n == [] || ReadLeaf(rest, Assignment, n[0]).NoReading? then NoReading
                 else ReadAssignments(ReadLeaf(rest, Assignment, n[0]).rest, n[1..])
               else if n == [] then Leaves(rest) else NoReading
  {
  }

  lemma AssignmentsMore(start: seq<Token>, list: seq<Leaf>, rest: seq<Token>, item: Leaf, here: Reading)
    requires AssignmentsSoFar(start, list, Leaves(rest))
    requires StartsAssignment(TokenAt(rest, 0), TokenAt(rest, 1))
             && forall m :: ReadLeaf(rest, Assignment, m) == if m == item then here else NoReading
    ensures AssignmentsSoFar(start, list + [item], here)
    ensures here.NoReading? ==> forall n :: ReadAssignments(start, n).NoReading?
  {
    hide ReadAssignments, Chomped, TokenAt, ReadLeaf;
    forall n: seq<Leaf>
      ensures ReadAssignments(start, n)
              == if here.Leaves? && list + [item] <= n then ReadAssignments(here.rest, n[|list + [item]|..]) else NoReading
    {
      NextItem(list, n, item);
      if list <= n {
        AssignmentsRead(rest, n[|list|..]);
      }
    }
  }

  lemma AssignmentsEnd(start: seq<Token>, list: seq<Leaf>, rest: seq<Token>)
    requires AssignmentsSoFar(start, list, Leaves(rest)) && !(StartsAssignment(TokenAt(rest, 0), TokenAt(rest, 1)))
    ensures forall n :: ReadAssignments(start, n) == if n == list then Leaves(rest) else NoReading
  {
    hide ReadAssignments, Chomped, TokenAt, ReadLeaf;
    forall n: seq<Leaf> ensures ReadAssignments(start, n) == if n == list then Leaves(rest) else NoReading {
      if list <= n {
        AssignmentsRead(rest, n[|list|..]);
        assert n == list + n[|list|..];
      }
    }
  }

  // ---------------------------------------------------------------- Arguments

  ghost predicate ArgumentsSoFar(start: seq<Token>, list: seq<Leaf>, here: Reading, freestanding: bool) {
    forall n :: ReadArguments(start, n, freestanding)
                == if here.Leaves? && list <= n then ReadArguments(here.rest, n[|list|..], freestanding) else NoReading
  }

  lemma ArgumentsBegin(start: seq<Token>, freestanding: bool)
    ensures ArgumentsSoFar(start, [], Leaves(start), freestanding)
  {
    assert forall n: seq<Leaf> :: n[0..] == n;
  }

  lemma ArgumentsRead(rest: seq<Token>, n: seq<Leaf>, freestanding: bool)
    ensures var next := Chomped(rest, freestanding, freestanding);
            ReadArguments(rest, n, freestanding)
            == if TokenAt(next, 0).typ == String then
                 if n == [] || ReadLeaf(next, Str, n[0]).NoReading? then NoReading
                 else ReadArguments(ReadLeaf(next, Str, n[0]).rest, n[1..], freestanding)
               else if n == [] then Leaves(next) else NoReading
  {
  }

  lemma ArgumentsMore(start: seq<Token>, list: seq<Leaf>,
        rest: seq<Token>, item: Leaf, here: Reading, freestanding: bool)
    requires ArgumentsSoFar(start, list, Leaves(rest), freestanding)
    requires var next := Chomped(rest, freestanding, freestanding);
             TokenAt(next, 0).typ == String
             && forall m :: ReadLeaf(next, Str, m) == if m == item then here else NoReading
    ensures ArgumentsSoFar(start, list + [item], here, freestanding)
    ensures here.NoReading? ==> forall n :: ReadArguments(start, n, freestanding).NoReading?
  {
    hide ReadArguments, Chomped, TokenAt, ReadLeaf;
    forall n: seq<Leaf>
      ensures ReadArguments(start, n, freestanding)
              == if here.Leaves? && list + [item] <= n then ReadArguments(here.rest, n[|list + [item]|..], freestanding) else NoReading
    {
      NextItem(list, n, item);
      if list <= n {
        ArgumentsRead(rest, n[|list|..], freestanding);
      }
    }
  }

  lemma ArgumentsEnd(start: seq<Token>, list: seq<Leaf>, rest: seq<Token>, freestanding: bool)
    requires ArgumentsSoFar(start, list, Leaves(rest), freestanding)
             && !(TokenAt(Chomped(rest, freestanding, freestanding), 0).typ == String)
    ensures forall n :: ReadArguments(start, n, freestanding)
                == if n == list then Leaves(Chomped(rest, freestanding, freestanding)) else NoReading
  {
    hide ReadArguments, Chomped, TokenAt, ReadLeaf;
    forall n: seq<Leaf>
      ensures ReadArguments(start, n, freestanding) == if n == list then Leaves(Chomped(rest, freestanding, freestanding)) else NoReading
    {
      if list <= n {
        ArgumentsRead(rest, n[|list|..], freestanding);
        assert n == list + n[|list|..];
      }
    }
  }

  // ---------------------------------------------------------------- Args

  ghost predicate ArgsSoFar(start: seq<Token>, list: seq<ArgumentOrRedirection>, here: Reading) {
    forall n :: ReadArgs(start, n)
                == if here.Leaves? && list <= n then ReadArgs(here.rest, n[|list|..]) else NoReading
  }

  lemma ArgsBegin(start: seq<Token>)
    ensures ArgsSoFar(start, [], Leaves(start))
  {
    assert forall n: seq<ArgumentOrRedirection> :: n[0..] == n;
  }

  lemma ArgsRead(rest: seq<Token>, n: seq<ArgumentOrRedirection>)
    ensures ReadArgs(rest, n)
            == if (TokenAt(rest, 0).typ == String || TokenAt(rest, 0).typ == Redirect) then
                 if n == [] || ReadArgumentOrRedirection(rest, n[0]).NoReading? then NoReading
                 else ReadArgs(ReadArgumentOrRedirection(rest, n[0]).rest, n[1..])
               else if n == [] then Leaves(rest) else NoReading
  {
  }

  lemma ArgsMore(start: seq<Token>, list: seq<ArgumentOrRedirection>,
        rest: seq<Token>, item: ArgumentOrRedirection, here: Reading)
    requires ArgsSoFar(start, list, Leaves(rest))
    requires (TokenAt(rest, 0).typ == String || TokenAt(rest, 0).typ == Redirect)
             && forall m :: ReadArgumentOrRedirection(rest, m) == if m == item then here else NoReading
    ensures ArgsSoFar(start, list + [item], here)
    ensures here.NoReading? ==> forall n :: ReadArgs(start, n).NoReading?
  {
    hide ReadArgs, Chomped, TokenAt, ReadArgumentOrRedirection;
    forall n: seq<ArgumentOrRedirection>
      ensures ReadArgs(start, n)
              == if here.Leaves? && list + [item] <= n then ReadArgs(here.rest, n[|list + [item]|..]) else NoReading
    {
      NextItem(list, n, item);
      if list <= n {
        ArgsRead(rest, n[|list|..]);
      }
    }
  }

  lemma ArgsEnd(start: seq<Token>, list: seq<ArgumentOrRedirection>, rest: seq<Token>)
    requires ArgsSoFar(start, list, Leaves(rest))
             && !((TokenAt(rest, 0).typ == String || TokenAt(rest, 0).typ == Redirect))
    ensures forall n :: ReadArgs(start, n) == if n == list then Leaves(rest) else NoReading
  {
    hide ReadArgs, Chomped, TokenAt, ReadArgumentOrRedirection;
    forall n: seq<ArgumentOrRedirection> ensures ReadArgs(start, n) == if n == list then Leaves(rest) else NoReading {
      if list <= n {
        ArgsRead(rest, n[|list|..]);
        assert n == list + n[|list|..];
      }
    }
  }

  // ---------------------------------------------------------------- Jobs

  ghost predicate JobsSoFar(start: seq<Token>, list: seq<JobConjunction>, here: Reading) {
    forall n :: ReadJobs(start, n)
                == if here.Leaves? && list <= n then ReadJobs(here.rest, n[|list|..]) else NoReading
  }

  lemma JobsBegin(start: seq<Token>)
    ensures JobsSoFar(start, [], Leaves(start))
  {
    assert forall n: seq<JobConjunction> :: n[0..] == n;
  }

  lemma JobsRead(rest: seq<Token>, n: seq<JobConjunction>)
    ensures var next := Chomped(rest, true, true);
            ReadJobs(rest, n)
            == if StartsJob(TokenAt(next, 0)) then
                 if n == [] || ReadJobConjunction(next, n[0]).NoReading? then NoReading
                 else ReadJobs(ReadJobConjunction(next, n[0]).rest, n[1..])
               else if n == [] then Leaves(next) else NoReading
  {
  }

  lemma JobsMore(start: seq<Token>, list: seq<JobConjunction>, rest: seq<Token>, item: JobConjunction, here: Reading)
    requires JobsSoFar(start, list, Leaves(rest))
    requires var next := Chomped(rest, true, true);
             StartsJob(TokenAt(next, 0))
             && forall m :: ReadJobConjunction(next, m) == if m == item then here else NoReading
    ensures JobsSoFar(start, list + [item], here)
    ensures here.NoReading? ==> forall n :: ReadJobs(start, n).NoReading?
  {
    hide ReadJobs, Chomped, TokenAt, ReadJobConjunction;
    forall n: seq<JobConjunction>
      ensures ReadJobs(start, n)
              == if here.Leaves? && list + [item] <= n then ReadJobs(here.rest, n[|list + [item]|..]) else NoReading
    {
      NextItem(list, n, item);
      if list <= n {
        JobsRead(rest, n[|list|..]);
      }
    }
  }

  lemma JobsEnd(start: seq<Token>, list: seq<JobConjunction>, rest: seq<Token>)
    requires JobsSoFar(start, list, Leaves(rest)) && !(StartsJob(TokenAt(Chomped(rest, true, true), 0)))
    ensures forall n :: ReadJobs(start, n) == if n == list then Leaves(Chomped(rest, true, true)) else NoReading
  {
    hide ReadJobs, Chomped, TokenAt, ReadJobConjunction;
    forall n: seq<JobConjunction>
      ensures ReadJobs(start, n) == if n == list then Leaves(Chomped(rest, true, true)) else NoReading
    {
      if list <= n {
        JobsRead(rest, n[|list|..]);
        assert n == list + n[|list|..];
      }
    }
  }

  // ---------------------------------------------------------------- AndorJobs

  ghost predicate AndorJobsSoFar(start: seq<Token>, list: seq<JobConjunction>, here: Reading) {
    forall n :: ReadAndorJobs(start, n)
                == if here.Leaves? && list <= n then ReadAndorJobs(here.rest, n[|list|..]) else NoReading
  }

  lemma AndorJobsBegin(start: seq<Token>)
    ensures AndorJobsSoFar(start, [], Leaves(start))
  {
    assert forall n: seq<JobConjunction> :: n[0..] == n;
  }

  lemma AndorJobsRead(rest: seq<Token>, n: seq<JobConjunction>)
    ensures var next := Chomped(rest, true, true);
            ReadAndorJobs(rest, n)
            == if StartsAndorJob(TokenAt(next, 0), TokenAt(next, 1)) then
                 if n == [] || ReadJobConjunction(next, n[0]).NoReading? then NoReading
                 else ReadAndorJobs(ReadJobConjunction(next, n[0]).rest, n[1..])
               else if n == [] then Leaves(next) else NoReading
  {
  }

  lemma AndorJobsMore(start: seq<Token>, list: seq<JobConjunction>,
        rest: seq<Token>, item: JobConjunction, here: Reading)
    requires AndorJobsSoFar(start, list, Leaves(rest))
    requires var next := Chomped(rest, true, true);
             StartsAndorJob(TokenAt(next, 0), TokenAt(next, 1))
             && forall m :: ReadJobConjunction(next, m) == if m == item then here else NoReading
    ensures AndorJobsSoFar(start, list + [item], here)
    ensures here.NoReading? ==> forall n :: ReadAndorJobs(start, n).NoReading?
  {
    hide ReadAndorJobs, Chomped, TokenAt, ReadJobConjunction;
    forall n: seq<JobConjunction>
      ensures ReadAndorJobs(start, n)
              == if here.Leaves? && list + [item] <= n then ReadAndorJobs(here.rest, n[|list + [item]|..]) else NoReading
    {
      NextItem(list, n, item);
      if list <= n {
        AndorJobsRead(rest, n[|list|..]);
      }
    }
  }

  lemma AndorJobsEnd(start: seq<Token>, list: seq<JobConjunction>, rest: seq<Token>)
    requires AndorJobsSoFar(start, list, Leaves(rest))
             && !(StartsAndorJob(TokenAt(Chomped(rest, true, true), 0), TokenAt(Chomped(rest, true, true), 1)))
    ensures forall n :: ReadAndorJobs(start, n) == if n == list then Leaves(Chomped(rest, true, true)) else NoReading
  {
    hide ReadAndorJobs, Chomped, TokenAt, ReadJobConjunction;
    forall n: seq<JobConjunction>
      ensures ReadAndorJobs(start, n) == if n == list then Leaves(Chomped(rest, true, true)) else NoReading
    {
      if list <= n {
        AndorJobsRead(rest, n[|list|..]);
        assert n == list + n[|list|..];
      }
    }
  }

  // ---------------------------------------------------------------- Conjunctions

  ghost predicate ConjunctionsSoFar(start: seq<Token>, list: seq<JobConjunctionContinuation>, here: Reading) {
    forall n :: ReadConjunctions(start, n)
                == if here.Leaves? && list <= n then ReadConjunctions(here.rest, n[|list|..]) else NoReading
  }

  lemma ConjunctionsBegin(start: seq<Token>)
    ensures ConjunctionsSoFar(start, [], Leaves(start))
  {
    assert forall n: seq<JobConjunctionContinuation> :: n[0..] == n;
  }

  lemma ConjunctionsRead(rest: seq<Token>, n: seq<JobConjunctionContinuation>)
    ensures ReadConjunctions(rest, n)
            == if Allows(TokenConjunction, TokenAt(rest, 0)) then
                 if n == [] || ReadConjunction(rest, n[0]).NoReading? then NoReading
                 else ReadConjunctions(ReadConjunction(rest, n[0]).rest, n[1..])
               else if n == [] then Leaves(rest) else NoReading
  {
  }

  lemma ConjunctionsMore(start: seq<Token>, list: seq<JobConjunctionContinuation>,
        rest: seq<Token>, item: JobConjunctionContinuation, here: Reading)
    requires ConjunctionsSoFar(start, list, Leaves(rest))
    requires Allows(TokenConjunction, TokenAt(rest, 0))
             && forall m :: ReadConjunction(rest, m) == if m == item then here else NoReading
    ensures ConjunctionsSoFar(start, list + [item], here)
    ensures here.NoReading? ==> forall n :: ReadConjunctions(start, n).NoReading?
  {
    hide ReadConjunctions, Chomped, TokenAt, ReadConjunction;
    forall n: seq<JobConjunctionContinuation>
      ensures ReadConjunctions(start, n)
              == if here.Leaves? && list + [item] <= n then ReadConjunctions(here.rest, n[|list + [item]|..]) else NoReading
    {
      NextItem(list, n, item);
      if list <= n {
        ConjunctionsRead(rest, n[|list|..]);
      }
    }
  }

  lemma ConjunctionsEnd(start: seq<Token>, list: seq<JobConjunctionContinuation>, rest: seq<Token>)
    requires ConjunctionsSoFar(start, list, Leaves(rest)) && !(Allows(TokenConjunction, TokenAt(rest, 0)))
    ensures forall n :: ReadConjunctions(start, n) == if n == list then Leaves(rest) else NoReading
  {
    hide ReadConjunctions, Chomped, TokenAt, ReadConjunction;
    forall n: seq<JobConjunctionContinuation>
      ensures ReadConjunctions(start, n) == if n == list then Leaves(rest) else NoReading
    {
      if list <= n {
        ConjunctionsRead(rest, n[|list|..]);
        assert n == list + n[|list|..];
      }
    }
  }

  // ---------------------------------------------------------------- Continuations

  ghost predicate ContinuationsSoFar(start: seq<Token>, list: seq<JobContinuation>, here: Reading) {
    forall n :: ReadContinuations(start, n)
                == if here.Leaves? && list <= n then ReadContinuations(here.rest, n[|list|..]) else NoReading
  }

  lemma ContinuationsBegin(start: seq<Token>)
    ensures ContinuationsSoFar(start, [], Leaves(start))
  {
    assert forall n: seq<JobContinuation> :: n[0..] == n;
  }

  lemma ContinuationsRead(rest: seq<Token>, n: seq<JobContinuation>)
    ensures ReadContinuations(rest, n)
            == if TokenAt(rest, 0).typ == Pipe then
                 if n == [] || ReadContinuation(rest, n[0]).NoReading? then NoReading
                 else ReadContinuations(ReadContinuation(rest, n[0]).rest, n[1..])
               else if n == [] then Leaves(rest) else NoReading
  {
  }

  lemma ContinuationsMore(start: seq<Token>, list: seq<JobContinuation>,
        rest: seq<Token>, item: JobContinuation, here: Reading)
    requires ContinuationsSoFar(start, list, Leaves(rest))
    requires TokenAt(rest, 0).typ == Pipe
             && forall m :: ReadContinuation(rest, m) == if m == item then here else NoReading
    ensures ContinuationsSoFar(start, list + [item], here)
    ensures here.NoReading? ==> forall n :: ReadContinuations(start, n).NoReading?
  {
    hide ReadContinuations, Chomped, TokenAt, ReadContinuation;
    forall n: seq<JobContinuation>
      ensures ReadContinuations(start, n)
              == if here.Leaves? && list + [item] <= n then ReadContinuations(here.rest, n[|list + [item]|..]) else NoReading
    {
      NextItem(list, n, item);
      if list <= n {
        ContinuationsRead(rest, n[|list|..]);
      }
    }
  }

  lemma ContinuationsEnd(start: seq<Token>, list: seq<JobContinuation>, rest: seq<Token>)
    requires ContinuationsSoFar(start, list, Leaves(rest)) && !(TokenAt(rest, 0).typ == Pipe)
    ensures forall n :: ReadContinuations(start, n) == if n == list then Leaves(rest) else NoReading
  {
    hide ReadContinuations, Chomped, TokenAt, ReadContinuation;
    forall n: seq<JobContinuation>
      ensures ReadContinuations(start, n) == if n == list then Leaves(rest) else NoReading
    {
      if list <= n {
        ContinuationsRead(rest, n[|list|..]);
        assert n == list + n[|list|..];
      }
    }
  }

  // ---------------------------------------------------------------- Elseifs

  ghost predicate ElseifsSoFar(start: seq<Token>, list: seq<ElseifClause>, here: Reading) {
    forall n :: ReadElseifs(start, n)
                == if here.Leaves? && list <= n then ReadElseifs(here.rest, n[|list|..]) else NoReading
  }

  lemma ElseifsBegin(start: seq<Token>)
    ensures ElseifsSoFar(start, [], Leaves(start))
  {
    assert forall n: seq<ElseifClause> :: n[0..] == n;
  }

  lemma ElseifsRead(rest: seq<Token>, n: seq<ElseifClause>)
    ensures var next := Chomped(rest, true, false);
            ReadElseifs(rest, n)
            == if StartsElseif(TokenAt(next, 0), TokenAt(next, 1)) then
                 if n == [] || ReadElseif(next, n[0]).NoReading? then NoReading
                 else ReadElseifs(ReadElseif(next, n[0]).rest, n[1..])
               else if n == [] then Leaves(next) else NoReading
  {
  }

  lemma ElseifsMore(start: seq<Token>, list: seq<ElseifClause>, rest: seq<Token>, item: ElseifClause, here: Reading)
    requires ElseifsSoFar(start, list, Leaves(rest))
    requires var next := Chomped(rest, true, false);
             StartsElseif(TokenAt(next, 0), TokenAt(next, 1))
             && forall m :: ReadElseif(next, m) == if m == item then here else NoReading
    ensures ElseifsSoFar(start, list + [item], here)
    ensures here.NoReading? ==> forall n :: ReadElseifs(start, n).NoReading?
  {
    hide ReadElseifs, Chomped, TokenAt, ReadElseif;
    forall n: seq<ElseifClause>
      ensures ReadElseifs(start, n)
              == if here.Leaves? && list + [item] <= n then ReadElseifs(here.rest, n[|list + [item]|..]) else NoReading
    {
      NextItem(list, n, item);
      if list <= n {
        ElseifsRead(rest, n[|list|..]);
      }
    }
  }

  lemma ElseifsEnd(start: seq<Token>, list: seq<ElseifClause>, rest: seq<Token>)
    requires ElseifsSoFar(start, list, Leaves(rest))
             && !(StartsElseif(TokenAt(Chomped(rest, true, false), 0), TokenAt(Chomped(rest, true, false), 1)))
    ensures forall n :: ReadElseifs(start, n) == if n == list then Leaves(Chomped(rest, true, false)) else NoReading
  {
    hide ReadElseifs, Chomped, TokenAt, ReadElseif;
    forall n: seq<ElseifClause>
      ensures ReadElseifs(start, n) == if n == list then Leaves(Chomped(rest, true, false)) else NoReading
    {
      if list <= n {
        ElseifsRead(rest, n[|list|..]);
        assert n == list + n[|list|..];
      }
    }
  }

  // ---------------------------------------------------------------- Cases

  ghost predicate CasesSoFar(start: seq<Token>, list: seq<CaseItem>, here: Reading) {
    forall n :: ReadCases(start, n)
                == if here.Leaves? && list <= n then ReadCases(here.rest, n[|list|..]) else NoReading
  }

  lemma CasesBegin(start: seq<Token>)
    ensures CasesSoFar(start, [], Leaves(start))
  {
    assert forall n: seq<CaseItem> :: n[0..] == n;
  }

  lemma CasesRead(rest: seq<Token>, n: seq<CaseItem>)
    ensures var next := Chomped(rest, true, true);
            ReadCases(rest, n)
            == if TokenAt(next, 0).keyword == KwCase then
                 if n == [] || ReadCase(next, n[0]).NoReading? then NoReading
                 else ReadCases(ReadCase(next, n[0]).rest, n[1..])
               else if n == [] then Leaves(next) else NoReading
  {
  }

  lemma CasesMore(start: seq<Token>, list: seq<CaseItem>, rest: seq<Token>, item: CaseItem, here: Reading)
    requires CasesSoFar(start, list, Leaves(rest))
    requires var next := Chomped(rest, true, true);
             TokenAt(next, 0).keyword == KwCase
             && forall m :: ReadCase(next, m) == if m == item then here else NoReading
    ensures CasesSoFar(start, list + [item], here)
    ensures here.NoReading? ==> forall n :: ReadCases(start, n).NoReading?
  {
    hide ReadCases, Chomped, TokenAt, ReadCase;
    forall n: seq<CaseItem>
      ensures ReadCases(start, n)
              == if here.Leaves? && list + [item] <= n then ReadCases(here.rest, n[|list + [item]|..]) else NoReading
    {
      NextItem(list, n, item);
      if list <= n {
        CasesRead(rest, n[|list|..]);
      }
    }
  }

  lemma CasesEnd(start: seq<Token>, list: seq<CaseItem>, rest: seq<Token>)
    requires CasesSoFar(start, list, Leaves(rest)) && !(TokenAt(Chomped(rest, true, true), 0).keyword == KwCase)
    ensures forall n :: ReadCases(start, n) == if n == list then Leaves(Chomped(rest, true, true)) else NoReading
  {
    hide ReadCases, Chomped, TokenAt, ReadCase;
    forall n: seq<CaseItem>
      ensures ReadCases(start, n) == if n == list then Leaves(Chomped(rest, true, true)) else NoReading
    {
      if list <= n {
        CasesRead(rest, n[|list|..]);
        assert n == list + n[|list|..];
      }
    }
  }

  // ---------------------------------------------------------------- Newlines

  ghost predicate NewlinesSoFar(start: seq<Token>, toks: seq<Token>, rest: seq<Token>) {
    forall n :: ReadNewlines(start, n)
                == if n.Newlines? && toks <= n.toks then ReadNewlines(rest, Newlines(n.toks[|toks|..])) else NoReading
  }

  lemma NewlinesBegin(start: seq<Token>)
    ensures NewlinesSoFar(start, [], start)
  {
    assert forall toks: seq<Token> :: toks[0..] == toks;
  }

  lemma NewlinesRead(rest: seq<Token>, toks: seq<Token>)
    ensures ReadNewlines(rest, Newlines(toks))
            == if rest != [] && rest[0].isNewline then
                 if toks == [] || toks[0] != rest[0] then NoReading else ReadNewlines(rest[1..], Newlines(toks[1..]))
               else if toks == [] then Leaves(rest) else NoReading
  {
  }

  lemma NewlinesMore(start: seq<Token>, toks: seq<Token>, rest: seq<Token>)
    requires NewlinesSoFar(start, toks, rest) && rest != [] && rest[0].isNewline
    ensures NewlinesSoFar(start, toks + [rest[0]], rest[1..])
  {
    hide ReadNewlines;
    forall n: Newlines | n.Newlines?
      ensures ReadNewlines(start, n)
              == if toks + [rest[0]] <= n.toks then ReadNewlines(rest[1..], Newlines(n.toks[|toks| + 1..])) else NoReading
    {
      NextItem(toks, n.toks, rest[0]);
      if toks <= n.toks {
        NewlinesRead(rest, n.toks[|toks|..]);
      }
    }
  }

  lemma NewlinesEnd(start: seq<Token>, toks: seq<Token>, rest: seq<Token>)
    requires NewlinesSoFar(start, toks, rest) && !(rest != [] && rest[0].isNewline)
    ensures forall n :: ReadNewlines(start, n) == if n == Newlines(toks) then Leaves(rest) else NoReading
  {
    hide ReadNewlines;
    forall n: Newlines ensures ReadNewlines(start, n) == if n == Newlines(toks) then Leaves(rest) else NoReading {
      if n.Newlines? && toks <= n.toks {
        NewlinesRead(rest, n.toks[|toks|..]);
        assert n.toks == toks + n.toks[|toks|..];
      }
    }
  }
}
