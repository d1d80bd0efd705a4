module Parser {
  /**
   Parsing from the top (src/ast.rs:3325-3340, parse_from_top at 3976-4012): the whole of the tokens, as shell code or as
   freestanding arguments.
   */

  import opened Common
  import opened TokenStream
  import opened Ast
  import opened Grammar
  import opened GrammarYield
  import opened Populator

  /** The leaves of a list of jobs are all its tokens, and its commands are where commands can be. */
  lemma JobListCovers(toks: seq<Token>, jobs: seq<JobConjunction>)
    requires IsJobList(toks, jobs)
    ensures Covers(toks, OfJobs(jobs)) && NotEnds(Tokens(OfJobs(jobs))) == NotEnds(toks)
    ensures CommandsIn(toks, OfJobs(jobs))
  {
    JobsTook(toks, jobs);
    TookAll(toks, OfJobs(jobs));
    CoversExactly(toks, OfJobs(jobs));
  }

  lemma ArgumentListCovers(toks: seq<Token>, args: seq<Leaf>)
    requires IsArgumentList(toks, args)
    ensures Covers(toks, Many(Str, args)) && NotEnds(Tokens(Many(Str, args))) == NotEnds(toks)
  {
    ArgumentsTook(toks, args, true);
    TookAll(toks, Many(Str, args));
    CoversExactly(toks, Many(Str, args));
  }

  /** parse_from_top for shell code. Parsing ends on every input. There is no error exactly if the tokens, without
      comments, are a list of jobs as Grammar has it, and then the result is that list, the only one there is: its
      leaves are all the tokens, each once and in order, but for newlines and semicolons between jobs. Asked to
      continue after errors, it still goes through all the input. */
  method ParseJobList(input: seq<Token>, continueAfterError: bool)
    returns (top: seq<JobConjunction>, anyError: bool, ghost consumed: nat)
    requires InputSound(input)
    ensures forall jobs :: IsJobList(WithoutComments(input), jobs) <==> !anyError && jobs == top
    ensures !anyError ==> Covers(WithoutComments(input), OfJobs(top)) && CommandsIn(WithoutComments(input), OfJobs(top))
    ensures !anyError ==> NotEnds(Tokens(OfJobs(top))) == NotEnds(WithoutComments(input))
    ensures !anyError || continueAfterError ==> consumed == |WithoutComments(input)|
  {
    hide Covers, CommandsIn, NotEnds, Tokens, OfJobs, ReadJobs, WithoutComments, InputSound, Chomped;
    var pops := new Populator(input, JobListTop, continueAfterError);
    assert pops.Rest() == WithoutComments(input);
    top := pops.PopulateJobs(true);
    pops.ChompExtras(JobListType);
    anyError, consumed := pops.anyError, pops.tokens.popped;
    if !anyError {
      assert IsJobList(WithoutComments(input), top);
      JobListCovers(WithoutComments(input), top);
    }
  }

  /** parse_from_top for freestanding arguments. */
  method ParseFreestandingArguments(input: seq<Token>, continueAfterError: bool)
    returns (top: seq<Leaf>, anyError: bool)
    requires InputSound(input)
    ensures forall args :: IsArgumentList(WithoutComments(input), args) <==> !anyError && args == top
    ensures !anyError ==> Covers(WithoutComments(input), Many(Str, top))
    ensures !anyError ==> NotEnds(Tokens(Many(Str, top))) == NotEnds(WithoutComments(input))
  {
    hide Covers, NotEnds, Tokens, Many, ReadArguments, WithoutComments, InputSound, Chomped;
    var pops := new Populator(input, FreestandingArgumentListTop, continueAfterError);
    assert pops.Rest() == WithoutComments(input);
    top := pops.PopulateArguments(true);
    pops.ChompExtras(JobListType);
    anyError := pops.anyError;
    if !anyError {
      assert IsArgumentList(WithoutComments(input), top);
      ArgumentListCovers(WithoutComments(input), top);
    }
  }
}
