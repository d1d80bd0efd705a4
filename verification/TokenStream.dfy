/**
 Parser tokens and the two-token lookahead (src/parse_tree.rs:16-83, src/ast.rs:2665-2750).

 The tokenizer is not part of this model: its output is a sequence of tokens, with comments.
 */
module TokenStream {
  import opened Common

  datatype TokenType =
    | End | String | Pipe | Andand | Oror | Background | LeftBrace | RightBrace | Redirect
    | TokenizerError | Comment | Terminate

  datatype Keyword =
    | NoKeyword | KwAnd | KwBegin | KwBuiltin | KwCase | KwCommand | KwElse | KwEnd | KwExclam | KwExec | KwFor
    | KwFunction | KwIf | KwIn | KwNot | KwOr | KwSwitch | KwTime | KwWhile

  datatype Token = Token(
    typ: TokenType,
    keyword: Keyword,
    hasDashPrefix: bool,
    isHelpArgument: bool,
    isNewline: bool,
    mayBeVariableAssignment: bool,
    start: nat,
    length: nat)
  {
    predicate IsDashPrefixString() {
      typ == String && hasDashPrefix
    }
  }

  const TERMINATE := Token(Terminate, NoKeyword, false, false, false, false, 0, 0)

  /** What the tokenizer promises of one token: only strings are keywords, only ends are newlines. */
  predicate TokenSound(t: Token) {
    && t.typ != Terminate
    && (t.keyword != NoKeyword ==> t.typ == String)
    && (t.isNewline ==> t.typ == End)
    && (t.mayBeVariableAssignment ==> t.typ == String || t.typ == TokenizerError)
  }

  /** And of all of them: an error whose text looks like an assignment is an unterminated string, which
      is the last token. */
  predicate InputSound(input: seq<Token>) {
    && (forall i :: 0 <= i < |input| ==> TokenSound(input[i]))
    && (forall i :: 0 <= i < |input| - 1 ==> input[i].mayBeVariableAssignment ==> input[i].typ == String)
  }

  /** The token at an index, or the terminating one past the end. */
  function TokenAt(tokens: seq<Token>, i: nat): Token {
    if i < |tokens| then tokens[i] else TERMINATE
  }

  function WithoutComments(tokens: seq<Token>): (r: seq<Token>)
    ensures |r| <= |tokens|
  {
    if tokens == [] then []
    else if tokens[0].typ == Comment then WithoutComments(tokens[1..])
    else [tokens[0]] + WithoutComments(tokens[1..])
  }

  lemma {:induction false} WithoutCommentsSound(tokens: seq<Token>)
    requires InputSound(tokens)
    ensures InputSound(WithoutComments(tokens))
    ensures forall i :: 0 <= i < |WithoutComments(tokens)| ==> WithoutComments(tokens)[i].typ != Comment
  {
    if tokens != [] {
      WithoutCommentsSound(tokens[1..]);
    }
  }

  /** The tokens after the first one that is not a comment. */
  lemma WithoutCommentsNext(tokens: seq<Token>, i: nat)
    requires i < |tokens|
    ensures WithoutComments(tokens[i..])
            == if tokens[i].typ == Comment then WithoutComments(tokens[i + 1..]) else [tokens[i]] + WithoutComments(tokens[i + 1..])
  {
    assert tokens[i..][1..] == tokens[i + 1..];
  }

  function Drop(tokens: seq<Token>, n: nat): seq<Token> {
    if n <= |tokens| then tokens[n..] else []
  }

  lemma DropNext(tokens: seq<Token>, n: nat)
    ensures TokenAt(Drop(tokens, n), 0) == TokenAt(tokens, n) && Drop(Drop(tokens, n), 1) == Drop(tokens, n + 1)
  {
  }

  class TokenStream {
    const lookahead: array<Token>
    var start: nat
    var count: nat
    const input: seq<Token>
    var position: nat
    // All tokens but comments, and how many of them have been popped.
    ghost const all: seq<Token>
    ghost var popped: nat

    ghost predicate Valid()
      reads this, lookahead
    {
      && lookahead.Length == 2 && start < 2 && count <= 2 && position <= |input| && popped <= |all|
      && (count >= 1 ==> lookahead[start] == TokenAt(all, popped))
      && (count == 2 ==> lookahead[1 - start] == TokenAt(all, popped + 1))
      && WithoutComments(input[position..]) == Drop(all, popped + count)
    }

    constructor (input: seq<Token>)
      ensures Valid() && fresh(lookahead) && all == WithoutComments(input) && popped == 0
    {
      lookahead := new Token[2](_ => TERMINATE);
      start, count, position := 0, 0, 0;
      this.input := input;
      all := WithoutComments(input);
      popped := 0;
      assert input[0..] == input;
    }

    /** next_from_tok and advance_1: the next token that is not a comment. */
    method NextFromTok() returns (t: Token)
      requires position <= |input|
      modifies this`position
      ensures position <= |input|
      ensures t == TokenAt(WithoutComments(input[old(position)..]), 0)
      ensures WithoutComments(input[position..]) == Drop(WithoutComments(input[old(position)..]), 1)
    {
      while position < |input|
        invariant position <= |input|
        invariant WithoutComments(input[position..]) == WithoutComments(input[old(position)..])
        decreases |input| - position
      {
        t := input[position];
        WithoutCommentsNext(input, position);
        position := position + 1;
        if t.typ != Comment {
          return;
        }
      }
      t := TERMINATE;
    }

    /** One more token into the ring. */
    method Fill()
      requires Valid() && count < 2
      modifies this, lookahead
      ensures Valid() && popped == old(popped) && start == old(start) && count == old(count) + 1
    {
      hide WithoutComments;
      DropNext(all, popped + count);
      var next := NextFromTok();
      if count == 0 {
        lookahead[start] := next;
      } else {
        lookahead[1 - start] := next;
      }
      count := count + 1;
    }

    method Peek(idx: nat) returns (t: Token)
      requires Valid() && idx < 2
      modifies this, lookahead
      ensures Valid() && popped == old(popped)
      ensures t == TokenAt(all, popped + idx)
    {
      while idx >= count
        invariant Valid() && popped == old(popped)
        decreases 2 - count
      {
        Fill();
      }
      t := if idx == 0 then lookahead[start] else lookahead[1 - start];
    }

    method Pop() returns (t: Token)
      requires Valid()
      modifies this, lookahead
      ensures Valid() && popped == if old(popped) < |all| then old(popped) + 1 else old(popped)
      ensures t == TokenAt(all, old(popped))
    {
      hide WithoutComments;
      DropNext(all, popped + count);
      if count == 0 {
        t := NextFromTok();
        popped := if popped < |all| then popped + 1 else popped;
        return;
      }
      t := lookahead[start];
      start := 1 - start;
      count := count - 1;
      popped := if popped < |all| then popped + 1 else popped;
    }
  }
}
