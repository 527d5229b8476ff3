/** Properties of the stack machine: the invariant of its state, when Parse can return a node,
    which inputs it rejects, and how each token changes the tree under construction. */
module JsonParserProperties {
  import opened Wrappers
  import opened JsonNode
  import opened JsonLexer
  import opened JsonParser
  import JsonLexerProperties

  /** The invariant of Parse's locals between two tokens: when the stack holds more than one node,
      all of them are Objects or Arrays (a scalar is pushed only onto an empty stack and nothing can
      be pushed on top of it); once the stack has emptied with a current node, that node is an
      Object or Array. */
  ghost predicate Inv(st: State)
  {
    && (|st.stack| > 1 ==> forall k :: 0 <= k < |st.stack| ==> IsContainer(st.stack[k]))
    && (st.stack == [] && st.cur.Some? ==> IsContainer(st.cur.value))
  }

  lemma InitInv()
    ensures Inv(Init) && !Finished(Init)
  {
  }

  lemma AddKeepsInv(st: State, n: Node)
    requires Inv(st) && Add(st, n).Continue?
    ensures Inv(Add(st, n).next)
  {
    var stk := Add(st, n).next.stack;
    if st.stack != [] && !IsContainer(n) {
      assert stk[..|st.stack| - 1] == st.stack[..|st.stack| - 1];
      forall k | 0 <= k < |stk| && |stk| > 1 ensures IsContainer(stk[k]) {
        if k < |st.stack| - 1 {
          assert stk[k] == stk[..|st.stack| - 1][k];
        }
      }
    }
  }

  /** Closing an Object or Array: under the invariant the node below always takes the closed
      container, which becomes `curNode`; the stack loses its top. */
  lemma CloseAttaches(st: State, kind: ValueType)
    requires Inv(st) && kind in {Object, Array}
    ensures Close(st, kind).Continue? <==>
              st.stack != [] && st.name.None? && GetType(st.stack[|st.stack| - 1]) == kind
    ensures Close(st, kind).Continue? ==>
              var top := st.stack[|st.stack| - 1];
              var rest := st.stack[..|st.stack| - 1];
              && Close(st, kind).next.cur == Some(top)
              && Close(st, kind).next.name == None
              && (rest == [] ==> Close(st, kind).next.stack == [])
              && (rest != [] ==> Close(st, kind).next.stack ==
                                 rest[..|rest| - 1] + [AddChild(rest[|rest| - 1], top).value])
  {
    if st.stack != [] && st.name.None? && GetType(st.stack[|st.stack| - 1]) == kind {
      var rest := st.stack[..|st.stack| - 1];
      if rest != [] {
        assert IsContainer(rest[|rest| - 1]);
        var attached := Attach(rest, st.stack[|st.stack| - 1]).value;
        assert attached == attached[..|rest| - 1] + [attached[|rest| - 1]];
      }
    }
  }

  lemma CloseKeepsInv(st: State, kind: ValueType)
    requires Inv(st) && kind in {Object, Array} && Close(st, kind).Continue?
    ensures Inv(Close(st, kind).next)
  {
    CloseAttaches(st, kind);
    var rest := st.stack[..|st.stack| - 1];
    var stk := Close(st, kind).next.stack;
    if rest != [] {
      assert IsContainer(rest[|rest| - 1]);
      forall k | 0 <= k < |stk| ensures IsContainer(stk[k]) {
        if k < |rest| - 1 {
          assert stk[k] == rest[k];
        }
      }
    }
  }

  /** Every transition keeps the invariant. */
  lemma StepKeepsInv(st: State, t: Token)
    requires Inv(st) && Step(st, t).Continue?
    ensures Inv(Step(st, t).next)
  {
    StepDispatch(st, t);
    if t.tt == EndObject {
      CloseKeepsInv(st, Object);
    } else if t.tt == EndArray {
      CloseKeepsInv(st, Array);
    } else if IsScalarToken(t.tt) || OpensContainer(t.tt) {
      AddKeepsInv(st, NodeOf(t, PendingKey(st.name)));
    }
  }

  // ---------------------------------------------------------------------------------------------
  // What an accepted input looks like.
  // ---------------------------------------------------------------------------------------------

  lemma {:induction false} RunAcceptsContainer(ts: seq<Token>, st: State)
    requires Inv(st) && Run(ts, st).Some?
    ensures IsContainer(Run(ts, st).value)
    decreases |ts|
  {
    match Step(st, ts[0])
    case Accept(n) =>
    case Continue(st') =>
      StepKeepsInv(st, ts[0]);
      RunAcceptsContainer(ts[1..], st');
  }

  /** Parse returns only an Object or an Array: a top-level scalar never comes back. */
  lemma AcceptedRootIsContainer(s: string)
    requires ParseResult(s).Some?
    ensures IsContainer(ParseResult(s).value)
  {
    InitInv();
    RunAcceptsContainer(Tokens(s, 0), Init);
  }

  /** The token that closes a container of the given node's kind. */
  function CloseOf(n: Node): TokenType
  {
    if n.ObjectNode? then EndObject else EndArray
  }

  lemma {:induction false} RunAcceptsAfterRootClose(ts: seq<Token>, st: State)
    requires Inv(st) && !Finished(st) && Run(ts, st).Some?
    requires forall k :: 0 <= k < |ts| - 1 ==> !Terminal(ts[k])
    ensures |ts| >= 2 && ts[|ts| - 1].tt == Eof && ts[|ts| - 2].tt == CloseOf(Run(ts, st).value)
    decreases |ts|
  {
    RunFirst(ts, st);
    assert Step(st, ts[0]).Continue?;
    var st' := Step(st, ts[0]).next;
    var tail := ts[1..];
    assert Run(ts, st) == Run(tail, st');
    StepKeepsInv(st, ts[0]);
    if Finished(st') {
      RootCloseThenEof(ts, st);
    } else {
      DropFirstNonTerminal(ts);
      RunAcceptsAfterRootClose(tail, st');
      assert tail[|tail| - 1] == ts[|ts| - 1] && tail[|tail| - 2] == ts[|ts| - 2];
    }
  }

  lemma DropFirstNonTerminal(ts: seq<Token>)
    requires ts != [] && forall k :: 0 <= k < |ts| - 1 ==> !Terminal(ts[k])
    ensures forall k :: 0 <= k < |ts[1..]| - 1 ==> !Terminal(ts[1..][k])
  {
    forall k | 0 <= k < |ts[1..]| - 1
      ensures !Terminal(ts[1..][k])
    {
      assert ts[1..][k] == ts[k + 1];
    }
  }

  /** The step that completes the top-level value is the root's close, and the accepted stream
      ends with the Eof right after it. */
  lemma RootCloseThenEof(ts: seq<Token>, st: State)
    requires ts != [] && !Finished(st) && Step(st, ts[0]).Continue?
    requires Finished(Step(st, ts[0]).next) && Run(ts[1..], Step(st, ts[0]).next).Some?
    requires forall k :: 0 <= k < |ts| - 1 ==> !Terminal(ts[k])
    ensures |ts| == 2 && ts[1].tt == Eof && ts[0].tt == CloseOf(Run(ts[1..], Step(st, ts[0]).next).value)
  {
    var st' := Step(st, ts[0]).next;
    StepToFinished(st, ts[0]);
    AcceptAtOnce(ts[1..], st');
    assert ts[1..][0] == ts[1] && Terminal(ts[1]);
  }

  /** Once the top-level value is complete, only Eof is accepted, and it returns that value. */
  lemma AcceptAtOnce(ts: seq<Token>, st: State)
    requires Finished(st) && Run(ts, st).Some?
    ensures ts != [] && ts[0].tt == Eof && Run(ts, st) == Some(st.cur.value)
  {
    RunFirst(ts, st);
  }

  /** The only transition that completes the top-level value is the close of the root. */
  lemma StepToFinished(st: State, t: Token)
    requires !Finished(st) && Step(st, t).Continue? && Finished(Step(st, t).next)
    ensures t.tt == CloseOf(Step(st, t).next.cur.value)
  {
    if t.tt in {EndObject, EndArray} {
      CloseCompletes(st, t);
    } else {
      OnlyCloseCompletes(st, t);
    }
  }

  lemma CloseCompletes(st: State, t: Token)
    requires !Finished(st) && t.tt in {EndObject, EndArray} && Step(st, t).Continue?
    ensures t.tt == CloseOf(Step(st, t).next.cur.value)
  {
    StepDispatch(st, t);
  }

  lemma OnlyCloseCompletes(st: State, t: Token)
    requires !Finished(st) && t.tt !in {EndObject, EndArray} && Step(st, t).Continue?
    ensures !Finished(Step(st, t).next)
  {
    StepDispatch(st, t);
  }

  /** An accepted input ends with the closing token of its root followed by the end of input:
      after the top-level value is complete, any further token makes Parse fail. */
  lemma AcceptedEndsWithRootClose(s: string)
    requires ParseResult(s).Some?
    ensures var ts := Tokens(s, 0);
            |ts| >= 2 && ts[|ts| - 1].tt == Eof && ts[|ts| - 2].tt == CloseOf(ParseResult(s).value)
  {
    InitInv();
    RunAcceptsAfterRootClose(Tokens(s, 0), Init);
  }

  // ---------------------------------------------------------------------------------------------
  // Balance: an accepted input closes every container it opens.
  // ---------------------------------------------------------------------------------------------

  function OpenCount(ts: seq<Token>): nat
  {
    if ts == [] then 0 else (if OpensContainer(ts[0].tt) then 1 else 0) + OpenCount(ts[1..])
  }

  function CloseCount(ts: seq<Token>): nat
  {
    if ts == [] then 0 else (if ts[0].tt in {EndObject, EndArray} then 1 else 0) + CloseCount(ts[1..])
  }

  /** The number of Objects and Arrays on the stack (the containers still open). */
  function OpenContainers(stack: seq<Node>): nat
  {
    if stack == [] then 0
    else OpenContainers(stack[..|stack| - 1]) + (if IsContainer(stack[|stack| - 1]) then 1 else 0)
  }

  lemma AddCountsContainers(st: State, n: Node)
    requires Add(st, n).Continue?
    ensures OpenContainers(Add(st, n).next.stack) == OpenContainers(st.stack) + (if IsContainer(n) then 1 else 0)
  {
    var stk := Add(st, n).next.stack;
    if st.stack == [] {
      assert stk[..0] == [];
    } else if IsContainer(n) {
      assert stk[..|stk| - 1] == st.stack;
    } else {
      assert stk[..|stk| - 1] == st.stack[..|st.stack| - 1];
    }
  }

  lemma CloseCountsContainers(st: State, kind: ValueType)
    requires Inv(st) && kind in {Object, Array} && Close(st, kind).Continue?
    ensures OpenContainers(Close(st, kind).next.stack) + 1 == OpenContainers(st.stack)
  {
    CloseAttaches(st, kind);
    var rest := st.stack[..|st.stack| - 1];
    var stk := Close(st, kind).next.stack;
    if rest != [] {
      assert stk[..|stk| - 1] == rest[..|rest| - 1];
    }
  }

  /** One transition changes the number of open containers by the token's opening minus closing. */
  lemma StepCountsContainers(st: State, t: Token)
    requires Inv(st) && Step(st, t).Continue?
    ensures OpenContainers(Step(st, t).next.stack) + (if t.tt in {EndObject, EndArray} then 1 else 0) ==
            OpenContainers(st.stack) + (if OpensContainer(t.tt) then 1 else 0)
  {
    StepDispatch(st, t);
    if t.tt == EndObject {
      CloseCountsContainers(st, Object);
    } else if t.tt == EndArray {
      CloseCountsContainers(st, Array);
    } else if IsScalarToken(t.tt) || OpensContainer(t.tt) {
      AddCountsContainers(st, NodeOf(t, PendingKey(st.name)));
    }
  }

  lemma {:induction false} RunAcceptsBalanced(ts: seq<Token>, st: State)
    requires Inv(st) && Run(ts, st).Some?
    requires forall k :: 0 <= k < |ts| - 1 ==> !Terminal(ts[k])
    ensures OpenCount(ts) + OpenContainers(st.stack) == CloseCount(ts)
    decreases |ts|
  {
    match Step(st, ts[0])
    case Accept(n) =>
      assert |ts| == 1;
      assert ts[1..] == [];
    case Continue(st') =>
      StepKeepsInv(st, ts[0]);
      StepCountsContainers(st, ts[0]);
      RunAcceptsBalanced(ts[1..], st');
  }

  /** An input whose tokens open more containers than they close (or the reverse) is rejected. */
  lemma UnbalancedRejected(s: string)
    requires OpenCount(Tokens(s, 0)) != CloseCount(Tokens(s, 0))
    ensures ParseResult(s) == None
  {
    if ParseResult(s).Some? {
      InitInv();
      RunAcceptsBalanced(Tokens(s, 0), Init);
    }
  }

  // ---------------------------------------------------------------------------------------------
  // Rejected inputs.
  // ---------------------------------------------------------------------------------------------

  /** Empty or whitespace-only input is rejected. */
  lemma WhitespaceOnlyRejected(s: string)
    requires WhiteBetween(s, 0, |s|)
    ensures ParseResult(s) == None
  {
    JsonLexerProperties.NextTokenSkipsWhitespace(s, 0);
  }

  /** With a scalar alone on the stack (a top-level scalar), no token sequence leads to success:
      an object name may still be read, everything else fails. */
  lemma {:induction false} ScalarRootNeverAccepted(ts: seq<Token>, st: State)
    requires |st.stack| == 1 && !IsContainer(st.stack[0])
    ensures Run(ts, st) == None
    decreases |ts|
  {
    if ts != [] {
      StepDispatch(st, ts[0]);
      match Step(st, ts[0])
      case Accept(_) =>
      case Reject =>
      case Continue(st') =>
        assert ts[0].tt == ObjectName;
        ScalarRootNeverAccepted(ts[1..], st');
    }
  }

  /** A token stream whose top-level value is a scalar, named or not, is rejected. */
  lemma {:induction false} TopLevelScalarRejected(ts: seq<Token>)
    requires |ts| > 0
    requires IsScalarToken(ts[0].tt) || (|ts| > 1 && ts[0].tt == ObjectName && IsScalarToken(ts[1].tt))
    ensures Run(ts, Init) == None
  {
    StepDispatch(Init, ts[0]);
    var st1 := Step(Init, ts[0]).next;
    if IsScalarToken(ts[0].tt) {
      ScalarRootNeverAccepted(ts[1..], st1);
    } else {
      assert ts[1..][0] == ts[1] && ts[1..][1..] == ts[2..];
      StepDispatch(st1, ts[1]);
      ScalarRootNeverAccepted(ts[2..], Step(st1, ts[1]).next);
    }
  }

  /** A document whose top-level value is a scalar (with or without a name before it) is rejected,
      because JsonAddNode pushes even a scalar root. */
  lemma BareScalarRejected(s: string)
    requires var ts := Tokens(s, 0);
             IsScalarToken(ts[0].tt) || (|ts| > 1 && ts[0].tt == ObjectName && IsScalarToken(ts[1].tt))
    ensures ParseResult(s) == None
  {
    TopLevelScalarRejected(Tokens(s, 0));
  }

  /** An object name is accepted only when no name is pending, and is then the pending name. */
  lemma ObjectNameRule(st: State, t: Token)
    requires !Finished(st) && t.tt == ObjectName
    ensures Step(st, t).Continue? <==> st.name.None?
    ensures Step(st, t).Continue? ==> Step(st, t).next == st.(name := Some(t.text))
  {
    StepDispatch(st, t);
  }

  /** A comma is accepted exactly when an Object or Array is open, and changes nothing. */
  lemma CommaRule(st: State, t: Token)
    requires !Finished(st) && t.tt == Comma
    ensures Step(st, t).Continue? <==> st.stack != [] && IsContainer(st.stack[|st.stack| - 1])
    ensures Step(st, t).Continue? ==> Step(st, t).next == st
  {
    StepDispatch(st, t);
  }

  /** A closing token succeeds exactly when the stack is not empty, no name is pending and the top
      node is of the closing kind; that node then becomes the current node and the last child of
      the node below it. */
  lemma CloseRule(st: State, t: Token)
    requires Inv(st) && !Finished(st) && t.tt in {EndObject, EndArray}
    ensures Step(st, t).Continue? <==>
              st.stack != [] && st.name.None? &&
              GetType(st.stack[|st.stack| - 1]) == (if t.tt == EndObject then Object else Array)
    ensures Step(st, t).Continue? ==>
              var top := st.stack[|st.stack| - 1];
              var rest := st.stack[..|st.stack| - 1];
              && Step(st, t).next.cur == Some(top)
              && (rest == [] ==> Step(st, t).next.stack == [])
              && (rest != [] ==> Step(st, t).next.stack ==
                                 rest[..|rest| - 1] + [AddChild(rest[|rest| - 1], top).value])
  {
    StepDispatch(st, t);
    CloseAttaches(st, if t.tt == EndObject then Object else Array);
  }

  /** A value or container token creates a node keyed by the pending name (empty if none) and
      clears that name; with an open Object or Array on top, a scalar becomes its last child and a
      container is pushed above it. */
  lemma ValueTokenBuildsTree(st: State, t: Token)
    requires !Finished(st) && st.stack != []
    requires IsScalarToken(t.tt) || OpensContainer(t.tt)
    ensures var top := st.stack[|st.stack| - 1];
            var n := NodeOf(t, PendingKey(st.name));
            && (Step(st, t).Continue? <==> IsContainer(top))
            && (IsContainer(top) ==> Step(st, t).next.name == None && Step(st, t).next.cur == Some(n))
            && (IsContainer(top) && OpensContainer(t.tt) ==> Step(st, t).next.stack == st.stack + [n])
            && (IsContainer(top) && IsScalarToken(t.tt) ==>
                  Step(st, t).next.stack == st.stack[..|st.stack| - 1] + [AddChild(top, n).value])
  {
    StepDispatch(st, t);
    var n := NodeOf(t, PendingKey(st.name));
    if IsContainer(st.stack[|st.stack| - 1]) && IsScalarToken(t.tt) {
      var stk := JsonAddNode(st.stack, n).value;
      assert stk == stk[..|st.stack| - 1] + [stk[|st.stack| - 1]];
    }
  }

  // ---------------------------------------------------------------------------------------------
  // The debug assertion after a closing token (myjson.cpp:766 and 777).
  // ---------------------------------------------------------------------------------------------

  /** The condition `bInvalid == false` that myjson.cpp asserts right after EndObject / EndArray, as
      written: JsonRmNode returned a node and it has the closing kind. */
  predicate CloseAssertHolds(st: State, t: Token)
  {
    var popped := JsonRmNode(st.stack, st.name);
    popped.Some? && GetType(popped.value.0) == (if t.tt == EndObject then Object else Array)
  }

  /** The assertion holds exactly when the closing token is accepted, so every malformed close
      trips it in a debug build instead of making Parse return nothing. */
  lemma CloseAssertIsAcceptance(st: State, t: Token)
    requires Inv(st) && !Finished(st) && t.tt in {EndObject, EndArray}
    ensures CloseAssertHolds(st, t) <==> Step(st, t).Continue?
  {
    CloseRule(st, t);
  }

  /** The tokens of a lone `}`. */
  lemma StrayCloseTokens()
    ensures Tokens("}", 0) == [Token(EndObject, ""), Token(Eof, "")]
  {
    assert TokenAt("}", 0) == (Token(EndObject, ""), 1) by {
      assert SkipWhite("}", 0) == 0;
    }
    assert TokenAt("}", 1) == (Token(Eof, ""), 1);
  }

  /** The tokens of `[` closed by `}`. */
  lemma MismatchedCloseTokens()
    ensures Tokens("[}", 0) == [Token(NewArray, ""), Token(EndObject, ""), Token(Eof, "")]
  {
    assert TokenAt("[}", 0) == (Token(NewArray, ""), 1) by {
      assert SkipWhite("[}", 0) == 0;
    }
    assert TokenAt("[}", 1) == (Token(EndObject, ""), 2) by {
      assert SkipWhite("[}", 1) == 1;
    }
    assert TokenAt("[}", 2) == (Token(Eof, ""), 2);
  }

  /** The debug assertion fails on a `}` with nothing open, and on a `}` that closes an Array. */
  lemma CloseAssertFailsOnStrayClose()
    ensures !CloseAssertHolds(Init, Token(EndObject, ""))
    ensures var open := Step(Init, Token(NewArray, ""));
            open == Continue(State([ArrayNode("", [])], Some(ArrayNode("", [])), None)) &&
            !CloseAssertHolds(open.next, Token(EndObject, ""))
  {
    StepDispatch(Init, Token(NewArray, ""));
  }

  /** The same inputs are ordinary parse failures in the model: Parse returns nothing. */
  lemma StrayCloseRejected()
    ensures ParseResult("}") == None
    ensures ParseResult("[}") == None
  {
    StrayCloseTokens();
    MismatchedCloseTokens();
    CloseAssertFailsOnStrayClose();
    var open := State([ArrayNode("", [])], Some(ArrayNode("", [])), None);
    StepDispatch(Init, Token(EndObject, ""));
    StepDispatch(open, Token(EndObject, ""));
    var ts := [Token(NewArray, ""), Token(EndObject, ""), Token(Eof, "")];
    RunFirst(ts, Init);
    RunFirst(ts[1..], open);
    RunFirst([Token(EndObject, ""), Token(Eof, "")], Init);
  }

  // ---------------------------------------------------------------------------------------------
  // Typed access to the nodes that value tokens create.
  // ---------------------------------------------------------------------------------------------

  /** What the conversion operators give for each node a value token creates: a null converts to
      int 0 and to "null", a boolean to its flag and to "true"/"false", an in-range integer token
      to its value, a decimal only to double (its text), a string only to its text. */
  lemma ParsedLeafConversions(t: Token, key: string)
    requires IsScalarToken(t.tt)
    requires t.tt == IntValue ==> AllDigits(t.text) && DecimalValue(t.text) <= INT_MAX
    ensures var n := NodeOf(t, key);
            && (t.tt == NullValue ==> AsInt(n) == Ok(0) && AsString(n) == Ok("null") && AsBool(n).Err?)
            && (t.tt == TrueValue ==> AsBool(n) == Ok(true) && AsString(n) == Ok("true") && AsInt(n).Err?)
            && (t.tt == FalseValue ==> AsBool(n) == Ok(false) && AsString(n) == Ok("false"))
            && (t.tt == IntValue ==> AsInt(n) == Ok(DecimalValue(t.text)) && AsString(n).Err? && AsDouble(n).Err?)
            && (t.tt == DoubleValue ==> AsDouble(n) == Ok(t.text) && AsInt(n).Err? && AsString(n).Err?)
            && (t.tt == StringValue ==> AsString(n) == Ok(t.text) && AsInt(n).Err? && AsBool(n).Err?)
  {
  }
}
