/** The parser builds exactly the tree its tokens describe. `TokensOf(n)` writes a node as the
    token stream GetNextToken would deliver for it (an object name first when the node has a key,
    commas between siblings); running the stack machine over the stream of an Object or Array root,
    followed by Eof, gives back that very node. */
module JsonRoundTrip {
  import opened Wrappers
  import opened JsonNode
  import opened JsonLexer
  import opened JsonParser
  import JsonParserProperties

  // ---------------------------------------------------------------------------------------------
  // Decimal text of an integer.
  // ---------------------------------------------------------------------------------------------

  function DigitChar(d: nat): char
    requires d < 10
  {
    ('0' as int + d) as char
  }

  /** The shortest decimal text of a natural number. */
  function DecimalString(v: nat): string
    decreases v
  {
    if v < 10 then [DigitChar(v)] else DecimalString(v / 10) + [DigitChar(v % 10)]
  }

  /** strtoll reads back the number that DecimalString wrote. */
  lemma {:induction false} DecimalStringRoundTrip(v: nat)
    ensures AllDigits(DecimalString(v))
    ensures DecimalValue(DecimalString(v)) == v
    decreases v
  {
    var d := DecimalString(v);
    if v >= 10 {
      DecimalStringRoundTrip(v / 10);
      assert d[..|d| - 1] == DecimalString(v / 10);
    }
  }

  // ---------------------------------------------------------------------------------------------
  // Trees that a token stream can describe, and their token streams.
  // ---------------------------------------------------------------------------------------------

  /** Integer values are those an IntValue token can carry: no sign (the tokenizer has none) and
      within `long long`. */
  predicate WellFormed(n: Node)
  {
    match n
    case IntNode(_, v) => 0 <= v <= LLONG_MAX
    case ObjectNode(_, cs) => forall i :: 0 <= i < |cs| ==> WellFormed(cs[i])
    case ArrayNode(_, cs) => forall i :: 0 <= i < |cs| ==> WellFormed(cs[i])
    case _ => true
  }

  /** The token of a scalar node. */
  function ScalarToken(n: Node): (t: Token)
    requires !IsContainer(n)
    ensures IsScalarToken(t.tt)
  {
    match n
    case NullNode(_) => Token(NullValue, "")
    case BoolNode(_, b) => if b then Token(TrueValue, "") else Token(FalseValue, "")
    case IntNode(_, v) => Token(IntValue, if v < 0 then "" else DecimalString(v))
    case DoubleNode(_, text) => Token(DoubleValue, text)
    case StringNode(_, s) => Token(StringValue, s)
  }

  /** The number of children of an Object or Array, 0 for a scalar (a termination measure). */
  function ChildCount(n: Node): nat
  {
    if IsContainer(n) then |n.children| else 0
  }

  /** The tokens of a node: its name (when it has one), then its value. */
  function TokensOf(n: Node): seq<Token>
    decreases n, ChildCount(n) + 5
  {
    (if n.key != "" then [Token(ObjectName, n.key)] else []) + ValueTokens(n)
  }

  function ValueTokens(n: Node): seq<Token>
    decreases n, ChildCount(n) + 4
  {
    match n
    case ObjectNode(_, cs) => [Token(NewObject, "")] + ChildrenTokens(cs, n) + [Token(EndObject, "")]
    case ArrayNode(_, cs) => [Token(NewArray, "")] + ChildrenTokens(cs, n) + [Token(EndArray, "")]
    case _ => [ScalarToken(n)]
  }

  /** The tokens of a list of siblings, separated by commas. `parent` bounds the recursion. */
  function ChildrenTokens(cs: seq<Node>, ghost parent: Node): seq<Token>
    requires forall i :: 0 <= i < |cs| ==> cs[i] < parent
    decreases parent, |cs| + 2
  {
    if cs == [] then []
    else TokensOf(cs[0]) + (if |cs| > 1 then [Token(Comma, "")] else []) + ChildrenTokens(cs[1..], parent)
  }

  // ---------------------------------------------------------------------------------------------
  // What reading a node's tokens does to the parser state.
  // ---------------------------------------------------------------------------------------------

  /** The stack after a completed node `n` has been taken in (Attach): by the Object or Array on
      top, or, on an empty stack, by nobody (it is then the root). */
  function Placed(stack: seq<Node>, n: Node): seq<Node>
    requires stack == [] || IsContainer(stack[|stack| - 1])
  {
    Attach(stack, n).value
  }

  /** A container with more children appended. */
  function Extend(p: Node, cs: seq<Node>): (r: Node)
    requires IsContainer(p)
    ensures IsContainer(r) && GetType(r) == GetType(p) && r.key == p.key && r.children == p.children + cs
  {
    p.(children := p.children + cs)
  }

  lemma ScalarTokenReadsBack(n: Node)
    requires !IsContainer(n) && WellFormed(n)
    ensures NodeOf(ScalarToken(n), n.key) == n
  {
    if n.IntNode? {
      DecimalStringRoundTrip(n.n);
    }
  }

  // ---------------------------------------------------------------------------------------------
  // Single transitions used by the round trip.
  // ---------------------------------------------------------------------------------------------

  function OpenToken(n: Node): Token
  {
    Token(if n.ObjectNode? then NewObject else NewArray, "")
  }

  function CloseToken(n: Node): Token
  {
    Token(JsonParserProperties.CloseOf(n), "")
  }

  /** A token that the machine takes without stopping is consumed and the run goes on. */
  lemma RunCons(t: Token, ts: seq<Token>, st: State)
    requires Step(st, t).Continue?
    ensures Run([t] + ts, st) == Run(ts, Step(st, t).next)
  {
    assert ([t] + ts)[0] == t && ([t] + ts)[1..] == ts;
  }

  lemma NameStep(stack: seq<Node>, cur: Option<Node>, key: string)
    requires stack != [] || cur.None?
    ensures Step(State(stack, cur, None), Token(ObjectName, key)) == Continue(State(stack, cur, Some(key)))
  {
  }

  lemma CommaStep(stack: seq<Node>, cur: Option<Node>)
    requires stack != [] && IsContainer(stack[|stack| - 1])
    ensures Step(State(stack, cur, None), Token(Comma, "")) == Continue(State(stack, cur, None))
  {
  }

  lemma OpenStep(n: Node, stack: seq<Node>, cur: Option<Node>, name: Option<string>)
    requires IsContainer(n) && n.key == PendingKey(name)
    requires stack == [] ==> cur.None?
    requires stack != [] ==> IsContainer(stack[|stack| - 1])
    ensures Step(State(stack, cur, name), OpenToken(n)) ==
            Continue(State(stack + [n.(children := [])], Some(n.(children := [])), None))
  {
    var empty := NodeOf(OpenToken(n), PendingKey(name));
    assert empty == n.(children := []);
    assert Step(State(stack, cur, name), OpenToken(n)) == Add(State(stack, cur, name), empty);
    if stack == [] {
      assert stack + [empty] == [empty];
    }
  }

  /** Closing a filled container of the right kind pops it into the node below. */
  lemma CloseFilled(n: Node, stack: seq<Node>, cur: Option<Node>)
    requires IsContainer(n)
    requires stack != [] ==> IsContainer(stack[|stack| - 1])
    ensures Close(State(stack + [n], cur, None), GetType(n)) == Continue(State(Placed(stack, n), Some(n), None))
  {
    var full := stack + [n];
    assert full[..|full| - 1] == stack;
    assert JsonRmNode(full, None) == Some((n, stack));
  }

  lemma CloseStep(n: Node, stack: seq<Node>, cur: Option<Node>)
    requires IsContainer(n)
    requires stack != [] ==> IsContainer(stack[|stack| - 1])
    ensures Step(State(stack + [n], cur, None), CloseToken(n)) == Continue(State(Placed(stack, n), Some(n), None))
  {
    var st := State(stack + [n], cur, None);
    StepDispatch(st, CloseToken(n));
    assert Step(st, CloseToken(n)) == Close(st, GetType(n));
    CloseFilled(n, stack, cur);
  }

  lemma ScalarStep(n: Node, stack: seq<Node>, cur: Option<Node>, name: Option<string>)
    requires !IsContainer(n) && WellFormed(n) && n.key == PendingKey(name)
    requires stack != [] && IsContainer(stack[|stack| - 1])
    ensures Step(State(stack, cur, name), ScalarToken(n)) == Continue(State(Placed(stack, n), Some(n), None))
  {
    ScalarTokenReadsBack(n);
    assert Step(State(stack, cur, name), ScalarToken(n)) == Add(State(stack, cur, name), n);
    var stk := JsonAddNode(stack, n).value;
    assert stk == stk[..|stack| - 1] + [stk[|stack| - 1]];
  }

  // ---------------------------------------------------------------------------------------------
  // Whole nodes.
  // ---------------------------------------------------------------------------------------------

  lemma ContainerTokens(n: Node, rest: seq<Token>)
    requires IsContainer(n)
    ensures ValueTokens(n) + rest ==
            [OpenToken(n)] + (ChildrenTokens(n.children, n) + ([CloseToken(n)] + rest))
  {
  }

  lemma ChildrenTokensCons(cs: seq<Node>, parent: Node, rest: seq<Token>)
    requires cs != [] && forall i :: 0 <= i < |cs| ==> cs[i] < parent
    ensures |cs| > 1 ==> ChildrenTokens(cs, parent) + rest ==
                         TokensOf(cs[0]) + ([Token(Comma, "")] + (ChildrenTokens(cs[1..], parent) + rest))
    ensures |cs| == 1 ==> ChildrenTokens(cs, parent) + rest == TokensOf(cs[0]) + (ChildrenTokens(cs[1..], parent) + rest)
  {
    var comma := if |cs| > 1 then [Token(Comma, "")] else [];
    var tail := ChildrenTokens(cs[1..], parent);
    assert ChildrenTokens(cs, parent) == TokensOf(cs[0]) + comma + tail;
    TokensAssoc(TokensOf(cs[0]), comma, tail, rest);
    if |cs| == 1 {
      assert comma + (tail + rest) == tail + rest;
    }
  }

  lemma TokensAssoc(a: seq<Token>, b: seq<Token>, c: seq<Token>, d: seq<Token>)
    ensures a + b + c + d == a + (b + (c + d))
  {
  }

  /** Reading the tokens of a node (name included) adds the node to the tree under construction
      and makes it the current node. */
  lemma {:induction false} RunNode(n: Node, stack: seq<Node>, cur: Option<Node>, rest: seq<Token>)
    requires WellFormed(n)
    requires stack != [] && IsContainer(stack[|stack| - 1])
    ensures Run(TokensOf(n) + rest, State(stack, cur, None)) ==
            Run(rest, State(Placed(stack, n), Some(n), None))
    decreases n, ChildCount(n) + 6
  {
    if n.key != "" {
      assert TokensOf(n) + rest == [Token(ObjectName, n.key)] + (ValueTokens(n) + rest);
      NameStep(stack, cur, n.key);
      RunCons(Token(ObjectName, n.key), ValueTokens(n) + rest, State(stack, cur, None));
      RunValue(n, stack, cur, Some(n.key), rest);
    } else {
      assert TokensOf(n) + rest == ValueTokens(n) + rest;
      RunValue(n, stack, cur, None, rest);
    }
  }

  /** Reading the value tokens of a node whose key is the pending name. */
  lemma {:induction false} RunValue(n: Node, stack: seq<Node>, cur: Option<Node>, name: Option<string>,
                                    rest: seq<Token>)
    requires WellFormed(n) && n.key == PendingKey(name)
    requires stack == [] ==> IsContainer(n) && cur.None?
    requires stack != [] ==> IsContainer(stack[|stack| - 1])
    ensures Run(ValueTokens(n) + rest, State(stack, cur, name)) ==
            Run(rest, State(Placed(stack, n), Some(n), None))
    decreases n, ChildCount(n) + 5
  {
    if IsContainer(n) {
      RunContainer(n, stack, cur, name, rest);
    } else {
      assert ValueTokens(n) + rest == [ScalarToken(n)] + rest;
      ScalarStep(n, stack, cur, name);
      RunCons(ScalarToken(n), rest, State(stack, cur, name));
    }
  }

  /** The opening token of a container pushes it, still empty, and makes it the current node. */
  lemma RunOpen(n: Node, stack: seq<Node>, cur: Option<Node>, name: Option<string>, tail: seq<Token>)
    requires IsContainer(n) && n.key == PendingKey(name)
    requires stack == [] ==> cur.None?
    requires stack != [] ==> IsContainer(stack[|stack| - 1])
    ensures Run([OpenToken(n)] + tail, State(stack, cur, name)) ==
            Run(tail, State(stack + [n.(children := [])], Some(n.(children := [])), None))
  {
    OpenStep(n, stack, cur, name);
    RunCons(OpenToken(n), tail, State(stack, cur, name));
  }

  /** The closing token of a filled container pops it into the node below. */
  lemma RunClose(n: Node, stack: seq<Node>, cur: Option<Node>, rest: seq<Token>)
    requires IsContainer(n)
    requires stack != [] ==> IsContainer(stack[|stack| - 1])
    ensures Run([CloseToken(n)] + rest, State(stack + [n], cur, None)) ==
            Run(rest, State(Placed(stack, n), Some(n), None))
  {
    CloseStep(n, stack, cur);
    RunCons(CloseToken(n), rest, State(stack + [n], cur, None));
  }

  /** An Object or Array: its opening token pushes it empty, its children fill it, its closing
      token pops it into its parent. */
  lemma {:induction false} RunContainer(n: Node, stack: seq<Node>, cur: Option<Node>, name: Option<string>,
                                        rest: seq<Token>)
    requires IsContainer(n) && WellFormed(n) && n.key == PendingKey(name)
    requires stack == [] ==> cur.None?
    requires stack != [] ==> IsContainer(stack[|stack| - 1])
    ensures Run(ValueTokens(n) + rest, State(stack, cur, name)) ==
            Run(rest, State(Placed(stack, n), Some(n), None))
    decreases n, ChildCount(n) + 4
  {
    var closing := [CloseToken(n)] + rest;
    var inner := ChildrenTokens(n.children, n);
    ContainerTokens(n, rest);
    RunOpen(n, stack, cur, name, inner + closing);
    RunFillAndClose(n, stack, rest);
  }

  /** After the opening token: the children fill the empty container, and the closing token pops
      it into its parent. */
  lemma {:induction false} RunFillAndClose(n: Node, stack: seq<Node>, rest: seq<Token>)
    requires IsContainer(n) && WellFormed(n)
    requires stack != [] ==> IsContainer(stack[|stack| - 1])
    ensures var empty := n.(children := []);
            Run(ChildrenTokens(n.children, n) + ([CloseToken(n)] + rest), State(stack + [empty], Some(empty), None)) ==
            Run(rest, State(Placed(stack, n), Some(n), None))
    decreases n, ChildCount(n) + 3
  {
    var empty := n.(children := []);
    RunChildren(n.children, n, stack, empty, Some(empty), [CloseToken(n)] + rest);
    assert Extend(empty, n.children) == n;
    RunClose(n, stack, LastOr(Some(empty), n.children), rest);
  }

  /** The last of `cs`, or `cur` when there is none. */
  function LastOr(cur: Option<Node>, cs: seq<Node>): Option<Node>
  {
    if cs == [] then cur else Some(cs[|cs| - 1])
  }

  /** Reading the tokens of a list of siblings appends them, in order, to the children of the
      Object or Array on top of the stack. */
  lemma {:induction false} RunChildren(cs: seq<Node>, parent: Node, below: seq<Node>, top: Node, cur: Option<Node>,
                                       rest: seq<Token>)
    requires forall i :: 0 <= i < |cs| ==> cs[i] < parent && WellFormed(cs[i])
    requires IsContainer(top)
    ensures Run(ChildrenTokens(cs, parent) + rest, State(below + [top], cur, None)) ==
            Run(rest, State(below + [Extend(top, cs)], LastOr(cur, cs), None))
    decreases parent, |cs| + 2
  {
    if cs == [] {
      assert ChildrenTokens(cs, parent) + rest == rest;
      assert Extend(top, cs) == top;
    } else {
      var top1 := Extend(top, [cs[0]]);
      var cs' := cs[1..];
      PlacedOnTop(below, top, cs[0]);
      FirstChild(cs, parent, below + [top], cur, rest);
      RunChildren(cs', parent, below, top1, Some(cs[0]), rest);
      SplitFirst(top, cur, cs);
    }
  }

  /** Placing a node under the container on top of the stack extends that container by it. */
  lemma PlacedOnTop(below: seq<Node>, top: Node, c: Node)
    requires IsContainer(top)
    ensures IsContainer((below + [top])[|below|])
    ensures Placed(below + [top], c) == below + [Extend(top, [c])]
  {
    assert (below + [top])[..|below|] == below;
  }

  /** Extending by the first sibling and then by the others is extending by all of them; the last
      of the others (if any) is the last of all. */
  lemma SplitFirst(p: Node, cur: Option<Node>, cs: seq<Node>)
    requires IsContainer(p) && cs != []
    ensures Extend(Extend(p, [cs[0]]), cs[1..]) == Extend(p, cs)
    ensures LastOr(Some(cs[0]), cs[1..]) == LastOr(cur, cs)
  {
    assert p.children + [cs[0]] + cs[1..] == p.children + cs;
  }

  /** The first of the siblings and the comma after it. */
  lemma {:induction false} FirstChild(cs: seq<Node>, parent: Node, stack: seq<Node>, cur: Option<Node>,
                                      rest: seq<Token>)
    requires cs != [] && forall i :: 0 <= i < |cs| ==> cs[i] < parent && WellFormed(cs[i])
    requires stack != [] && IsContainer(stack[|stack| - 1])
    ensures Run(ChildrenTokens(cs, parent) + rest, State(stack, cur, None)) ==
            Run(ChildrenTokens(cs[1..], parent) + rest, State(Placed(stack, cs[0]), Some(cs[0]), None))
    decreases parent, |cs| + 1
  {
    var tail := ChildrenTokens(cs[1..], parent);
    var st1 := State(Placed(stack, cs[0]), Some(cs[0]), None);
    ChildrenTokensCons(cs, parent, rest);
    if |cs| > 1 {
      RunNode(cs[0], stack, cur, [Token(Comma, "")] + (tail + rest));
      CommaStep(st1.stack, Some(cs[0]));
      RunCons(Token(Comma, ""), tail + rest, st1);
    } else {
      RunNode(cs[0], stack, cur, tail + rest);
    }
  }

  /** Reading the token stream of an Object or Array root (named or not) completes the top-level
      value: the stack is empty and that very tree is the current node. */
  lemma RunRoot(n: Node, tail: seq<Token>)
    requires IsContainer(n) && WellFormed(n)
    ensures Run(TokensOf(n) + tail, Init) == Run(tail, State([], Some(n), None))
  {
    if n.key != "" {
      assert TokensOf(n) + tail == [Token(ObjectName, n.key)] + (ValueTokens(n) + tail);
      NameStep([], None, n.key);
      RunCons(Token(ObjectName, n.key), ValueTokens(n) + tail, Init);
      RunValue(n, [], None, Some(n.key), tail);
    } else {
      assert TokensOf(n) + tail == ValueTokens(n) + tail;
      RunValue(n, [], None, None, tail);
    }
  }

  /** The round trip: the token stream of an Object or Array root (named or not), ended by Eof,
      parses back to exactly that tree — keys, values, child order and nesting. */
  lemma RoundTrip(n: Node)
    requires IsContainer(n) && WellFormed(n)
    ensures Run(TokensOf(n) + [Token(Eof, "")], Init) == Some(n)
  {
    RunRoot(n, [Token(Eof, "")]);
    RunFirst([Token(Eof, "")], State([], Some(n), None));
  }

  /** Nothing may follow the top-level value but Eof: the token stream of an Object or Array root
      followed by any other token is rejected, whatever comes after it. */
  lemma TrailingTokenRejected(n: Node, t: Token, rest: seq<Token>)
    requires IsContainer(n) && WellFormed(n) && t.tt != Eof
    ensures Run(TokensOf(n) + ([t] + rest), Init) == None
  {
    RunRoot(n, [t] + rest);
    RunFirst([t] + rest, State([], Some(n), None));
  }
}
