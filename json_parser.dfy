/** The stack machine of CMyJsonParser::Parse, first as a pure transition function over tokens
    (`Step`, `Run`, `ParseResult`), then as the imperative parser class whose methods follow
    myjson.cpp statement by statement and are proved to compute those functions. */
module JsonParser {
  import opened Wrappers
  import opened JsonNode
  import opened JsonLexer

  // ---------------------------------------------------------------------------------------------
  // strtoll on the text of an IntValue token.
  // ---------------------------------------------------------------------------------------------

  function DigitValue(c: char): nat
    requires IsDigit(c)
  {
    c as int - '0' as int
  }

  /** The number a string of decimal digits denotes. */
  function DecimalValue(d: string): nat
    requires AllDigits(d)
  {
    if d == [] then 0 else 10 * DecimalValue(d[..|d| - 1]) + DigitValue(d[|d| - 1])
  }

  /** The length of the run of digits at the start of `v`. */
  function LeadingDigits(v: string): (n: nat)
    ensures n <= |v| && AllDigits(v[..n])
    ensures n < |v| ==> !IsDigit(v[n])
  {
    if v != [] && IsDigit(v[0]) then
      var n := 1 + LeadingDigits(v[1..]);
      assert v[..n] == [v[0]] + v[1..][..n - 1];
      n
    else 0
  }

  /** strtoll(text, nullptr, 10) on a text without sign or leading blanks: the value of its leading
      digits, saturated at LLONG_MAX on overflow. */
  function StrToLL(v: string): (n: int)
    ensures 0 <= n <= LLONG_MAX
    ensures AllDigits(v) && DecimalValue(v) <= LLONG_MAX ==> n == DecimalValue(v)
  {
    var d := v[..LeadingDigits(v)];
    assert AllDigits(v) ==> d == v;
    if DecimalValue(d) > LLONG_MAX then LLONG_MAX else DecimalValue(d)
  }

  // ---------------------------------------------------------------------------------------------
  // Parser state and one transition.
  // ---------------------------------------------------------------------------------------------

  /** The locals of Parse: the stack of open nodes (its bottom may be a scalar, which JsonAddNode
      pushes when the stack is empty), `curNode`, and the pending object name `jtObjName`
      (None when its type is Invalid). Open containers hold the children completed so far. */
  datatype State = State(stack: seq<Node>, cur: Option<Node>, name: Option<string>)

  const Init: State := State([], None, None)

  /** What one token does: go on with a new state, finish with a root, or fail. */
  datatype Outcome = Continue(next: State) | Accept(root: Node) | Reject

  /** jtObjName.m_strValue: the pending name, or empty. */
  function PendingKey(name: Option<string>): string
  {
    if name.Some? then name.value else ""
  }

  predicate IsScalarToken(tt: TokenType)
  {
    tt in {NullValue, TrueValue, FalseValue, IntValue, DoubleValue, StringValue}
  }

  predicate OpensContainer(tt: TokenType)
  {
    tt == NewObject || tt == NewArray
  }

  /** The node that a value or container token creates (the make_shared calls of Parse). */
  function NodeOf(t: Token, key: string): (n: Node)
    requires IsScalarToken(t.tt) || OpensContainer(t.tt)
    ensures n.key == key
    ensures IsContainer(n) <==> OpensContainer(t.tt)
    ensures IsContainer(n) ==> n.children == [] && (n.ObjectNode? <==> t.tt == NewObject)
  {
    match t.tt
    case NullValue => NullNode(key)
    case TrueValue => BoolNode(key, true)
    case FalseValue => BoolNode(key, false)
    case IntValue => IntNode(key, StrToLL(t.text))
    case DoubleValue => DoubleNode(key, t.text)
    case StringValue => StringNode(key, t.text)
    case NewObject => ObjectNode(key, [])
    case NewArray => ArrayNode(key, [])
  }

  /** JsonAddNode: on an empty stack the node is pushed, whatever its kind; otherwise the top must
      be an Object or Array, a scalar is appended to its children and a container is pushed (it is
      appended to its parent when it is closed, see Close). */
  function JsonAddNode(stack: seq<Node>, n: Node): (r: Option<seq<Node>>)
    ensures r.Some? <==> stack == [] || IsContainer(stack[|stack| - 1])
    ensures stack == [] ==> r == Some([n])
    ensures r.Some? && stack != [] && IsContainer(n) ==> r.value == stack + [n]
    ensures r.Some? && stack != [] && !IsContainer(n) ==>
              |r.value| == |stack| && r.value[..|stack| - 1] == stack[..|stack| - 1] &&
              Some(r.value[|stack| - 1]) == AddChild(stack[|stack| - 1], n)
  {
    if stack == [] then Some([n])
    else
      match AddChild(stack[|stack| - 1], n)
      case None => None
      case Some(parent) =>
        if IsContainer(n) then Some(stack + [n])
        else Some(stack[..|stack| - 1] + [parent])
  }

  /** JsonRmNode: pops the top node, provided the stack is not empty and no name is pending. */
  function JsonRmNode(stack: seq<Node>, name: Option<string>): (r: Option<(Node, seq<Node>)>)
    ensures r.Some? <==> stack != [] && name.None?
    ensures r.Some? ==> stack == r.value.1 + [r.value.0]
  {
    if stack == [] || name.Some? then None
    else Some((stack[|stack| - 1], stack[..|stack| - 1]))
  }

  /** Puts a closed container into the node below it on the stack (if any). */
  function Attach(rest: seq<Node>, n: Node): (r: Option<seq<Node>>)
    ensures r.Some? <==> rest == [] || IsContainer(rest[|rest| - 1])
    ensures r.Some? ==> |r.value| == |rest|
    ensures r.Some? && rest != [] ==> r.value[..|rest| - 1] == rest[..|rest| - 1]
    ensures r.Some? && rest != [] ==> Some(r.value[|rest| - 1]) == AddChild(rest[|rest| - 1], n)
  {
    if rest == [] then Some([])
    else
      match AddChild(rest[|rest| - 1], n)
      case None => None
      case Some(parent) => Some(rest[..|rest| - 1] + [parent])
  }

  /** EndObject / EndArray: pop with JsonRmNode; the popped node must be of the closing kind. */
  function Close(st: State, kind: ValueType): (o: Outcome)
    ensures o.Continue? ==> st.stack != [] && st.name.None? && GetType(st.stack[|st.stack| - 1]) == kind
    ensures o.Continue? ==> o.next.cur == Some(st.stack[|st.stack| - 1]) && |o.next.stack| == |st.stack| - 1
    ensures !o.Accept?
  {
    match JsonRmNode(st.stack, st.name)
    case None => Reject
    case Some((n, rest)) =>
      if GetType(n) != kind then Reject
      else
        match Attach(rest, n)
        case None => Reject
        case Some(stack') => Continue(State(stack', Some(n), st.name))
  }

  /** A value or container token: JsonAddNode, then the new node is `curNode` and the name is used up. */
  function Add(st: State, n: Node): (o: Outcome)
    ensures o.Continue? <==> st.stack == [] || IsContainer(st.stack[|st.stack| - 1])
    ensures o.Continue? ==> o.next.cur == Some(n) && o.next.name == None && o.next.stack != []
    ensures !o.Accept?
  {
    match JsonAddNode(st.stack, n)
    case None => Reject
    case Some(stack') => Continue(State(stack', Some(n), None))
  }

  /** One iteration of the loop in Parse, for token `t`. */
  function Step(st: State, t: Token): (o: Outcome)
    ensures o.Accept? <==> st.cur.Some? && st.stack == [] && t.tt == Eof
    ensures o.Accept? ==> o.root == st.cur.value
    ensures o.Continue? ==> !Terminal(t)
  {
    if st.cur.Some? && st.stack == [] then
      if t.tt == Eof then Accept(st.cur.value) else Reject
    else
      match t.tt
      case ObjectName =>
        if st.name.Some? then Reject else Continue(st.(name := Some(t.text)))
      case NullValue | TrueValue | FalseValue | IntValue | DoubleValue | StringValue
         | NewObject | NewArray =>
        Add(st, NodeOf(t, PendingKey(st.name)))
      case EndObject => Close(st, Object)
      case EndArray => Close(st, Array)
      case Comma =>
        if st.stack == [] || !IsContainer(st.stack[|st.stack| - 1]) then Reject else Continue(st)
      case Eof => Reject
      case Invalid => Reject
  }

  /** The state after the top-level value has been closed: only Eof may follow. */
  predicate Finished(st: State)
  {
    st.stack == [] && st.cur.Some?
  }

  /** Which part of the transition table a token selects, before the top-level value is complete. */
  lemma StepDispatch(st: State, t: Token)
    requires !Finished(st)
    ensures t.tt == ObjectName ==>
              Step(st, t) == if st.name.Some? then Reject else Continue(st.(name := Some(t.text)))
    ensures IsScalarToken(t.tt) || OpensContainer(t.tt) ==> Step(st, t) == Add(st, NodeOf(t, PendingKey(st.name)))
    ensures t.tt == EndObject ==> Step(st, t) == Close(st, Object)
    ensures t.tt == EndArray ==> Step(st, t) == Close(st, Array)
    ensures t.tt == Comma ==>
              Step(st, t) == if st.stack == [] || !IsContainer(st.stack[|st.stack| - 1]) then Reject else Continue(st)
    ensures Terminal(t) ==> Step(st, t) == Reject
  {
  }

  /** The loop of Parse over a token stream. */
  function Run(ts: seq<Token>, st: State): Option<Node>
    decreases |ts|
  {
    if ts == [] then None
    else
      match Step(st, ts[0])
      case Accept(n) => Some(n)
      case Reject => None
      case Continue(st') => Run(ts[1..], st')
  }

  /** What CMyJsonNode::Parse(string_view) returns for a text: a root node, or nothing. */
  function ParseResult(s: string): Option<Node>
  {
    Run(Tokens(s, 0), Init)
  }

  /** The first transition of a run decides it, or hands the rest of the stream to the next state. */
  lemma RunFirst(ts: seq<Token>, st: State)
    requires ts != []
    ensures Step(st, ts[0]).Reject? ==> Run(ts, st) == None
    ensures Step(st, ts[0]).Accept? ==> Run(ts, st) == Some(Step(st, ts[0]).root)
    ensures Step(st, ts[0]).Continue? ==> Run(ts, st) == Run(ts[1..], Step(st, ts[0]).next)
  {
  }

  // ---------------------------------------------------------------------------------------------
  // Helper facts about the scanning functions, used by the loops below.
  // ---------------------------------------------------------------------------------------------

  lemma SkipWhiteIsFirstNonWhite(s: string, i: nat, j: nat)
    requires i <= j <= |s| && WhiteBetween(s, i, j) && (j == |s| || !IsWhite(s[j]))
    ensures SkipWhite(s, i) == j
    decreases j - i
  {
    if i < j {
      SkipWhiteIsFirstNonWhite(s, i + 1, j);
    }
  }

  lemma BareEndIsFirstDelimiter(s: string, i: nat, j: nat)
    requires i <= j <= |s| && (forall k :: i <= k < j ==> !EndsBareToken(s[k]))
    requires j == |s| || EndsBareToken(s[j])
    ensures BareEnd(s, i) == j
    decreases j - i
  {
    if i < j {
      BareEndIsFirstDelimiter(s, i + 1, j);
    }
  }

  /** What the quoted-string scan appends for a character `c` that does not end the string, with
      `esc` telling whether a backslash is pending. */
  function Emitted(c: char, esc: bool): string
  {
    if c == '\\' then (if esc then ['\\'] else [])
    else if c == '"' then ['"']
    else if esc then ['\\', c] else [c]
  }

  /** One character of the quoted-string scan. */
  lemma ScanQuotedUnroll(s: string, i: nat, esc: bool)
    requires i < |s| && (s[i] == '"' ==> esc)
    ensures var r := ScanQuoted(s, i + 1, s[i] == '\\' && !esc);
            ScanQuoted(s, i, esc) == (Emitted(s[i], esc) + r.0, r.1)
  {
    var r := ScanQuoted(s, i + 1, s[i] == '\\' && !esc);
    if s[i] == '\\' && !esc {
      assert Emitted(s[i], esc) + r.0 == r.0;
    }
  }

  lemma AppendAssoc(a: string, b: string, c: string)
    ensures (a + b) + c == a + (b + c)
  {
  }

  /** Decimal prefix of a bare token: the state ParseValueToken's loop has reached after `n` characters
      when it holds DoubleValue. */
  predicate DecimalUpTo(v: string, n: nat)
    requires n <= |v|
  {
    exists j :: 0 <= j < n && j + 1 < |v| && v[j] == '.' && AllDigits(v[..j]) && AllDigits(v[j + 1..n])
  }

  lemma DecimalUpToAll(v: string)
    ensures DecimalUpTo(v, |v|) <==> IsDecimal(v)
  {
    if DecimalUpTo(v, |v|) {
      var j :| 0 <= j < |v| && j + 1 < |v| && v[j] == '.' && AllDigits(v[..j]) && AllDigits(v[j + 1..|v|]);
      assert v[j + 1..|v|] == v[j + 1..];
    }
    if IsDecimal(v) {
      var j :| 0 <= j < |v| - 1 && v[j] == '.' && AllDigits(v[..j]) && AllDigits(v[j + 1..]);
      assert v[j + 1..|v|] == v[j + 1..];
    }
  }

  /** One step of ParseValueToken's classification loop. */
  lemma ClassifyStep(v: string, n: nat, tt: TokenType) returns (tt': TokenType)
    requires n < |v|
    requires tt in {IntValue, DoubleValue, StringValue}
    requires tt == IntValue <==> AllDigits(v[..n])
    requires tt == DoubleValue <==> DecimalUpTo(v, n)
    ensures tt' == (if IsDigit(v[n]) then tt
                    else if v[n] == '.' then
                      (if tt == IntValue && n + 1 < |v| then DoubleValue else StringValue)
                    else StringValue)
    ensures tt' in {IntValue, DoubleValue, StringValue}
    ensures tt' == IntValue <==> AllDigits(v[..n + 1])
    ensures tt' == DoubleValue <==> DecimalUpTo(v, n + 1)
  {
    tt' := if IsDigit(v[n]) then tt
           else if v[n] == '.' then (if tt == IntValue && n + 1 < |v| then DoubleValue else StringValue)
           else StringValue;
    assert v[..n + 1] == v[..n] + [v[n]];
    if DecimalUpTo(v, n + 1) {
      var j :| 0 <= j < n + 1 && j + 1 < |v| && v[j] == '.' && AllDigits(v[..j]) && AllDigits(v[j + 1..n + 1]);
      if j < n {
        assert v[n] == v[j + 1..n + 1][n - j - 1];
        var shorter, longer := v[j + 1..n], v[j + 1..n + 1];
        assert AllDigits(shorter) by {
          forall k | 0 <= k < |shorter| ensures IsDigit(shorter[k]) {
            assert shorter[k] == longer[k];
          }
        }
        assert DecimalUpTo(v, n);
      }
    }
    if IsDigit(v[n]) && DecimalUpTo(v, n) {
      var j :| 0 <= j < n && j + 1 < |v| && v[j] == '.' && AllDigits(v[..j]) && AllDigits(v[j + 1..n]);
      assert v[j + 1..n + 1] == v[j + 1..n] + [v[n]];
    }
    if v[n] == '.' && tt == IntValue && n + 1 < |v| {
      assert v[n + 1..n + 1] == [];
      assert DecimalUpTo(v, n + 1);
    }
  }

  // ---------------------------------------------------------------------------------------------
  // CMyJsonParser
  // ---------------------------------------------------------------------------------------------

  class Parser {
    /** m_strJson */
    const json: string
    /** m_nJsonIdx */
    var idx: nat

    constructor (s: string)
      ensures json == s && idx == 0
    {
      json := s;
      idx := 0;
    }

    /** GetQuotedStringTokenType */
    method QuotedStringTokenType() returns (tt: TokenType)
      requires idx <= |json|
      modifies this`idx
      ensures (tt, idx) == QuotedTokenTypeAt(json, old(idx))
    {
      ghost var start := idx;
      while idx < |json|
        invariant start <= idx <= |json|
        invariant WhiteBetween(json, start, idx)
      {
        var c := json[idx];
        idx := idx + 1;
        if IsWhite(c) {
          continue;
        }
        SkipWhiteIsFirstNonWhite(json, start, idx - 1);
        if c == ':' {
          return ObjectName;
        }
        idx := idx - 1;
        return StringValue;
      }
      SkipWhiteIsFirstNonWhite(json, start, idx);
      return TokenType.Invalid;
    }

    /** GetQuotedStringToken, called with the cursor just past the opening quote. */
    method QuotedStringToken() returns (t: Token)
      requires idx <= |json|
      modifies this`idx
      ensures var q := ScanQuoted(json, old(idx), false);
              (t, idx) == (Token(QuotedTokenTypeAt(json, q.1).0, q.0), QuotedTokenTypeAt(json, q.1).1)
    {
      ghost var start := idx;
      var text := "";
      var escape := false;
      while idx < |json|
        invariant start <= idx <= |json|
        invariant text + ScanQuoted(json, idx, escape).0 == ScanQuoted(json, start, false).0
        invariant ScanQuoted(json, idx, escape).1 == ScanQuoted(json, start, false).1
      {
        ghost var before, esc0 := text, escape;
        var c := json[idx];
        idx := idx + 1;
        if c == '\\' {
          if escape {
            escape := false;
            text := text + [c];
          } else {
            escape := true;
          }
        } else if c == '"' {
          if escape {
            escape := false;
            text := text + [c];
          } else {
            assert ScanQuoted(json, idx - 1, escape) == ("", idx);
            assert text == ScanQuoted(json, start, false).0 && idx == ScanQuoted(json, start, false).1;
            var tt := QuotedStringTokenType();
            return Token(tt, text);
          }
        } else {
          if escape {
            text := text + ['\\'];
            escape := false;
          }
          text := text + [c];
          AppendAssoc(before, ['\\'], [c]);
        }
        assert text == before + Emitted(c, esc0);
        ScanQuotedUnroll(json, idx - 1, esc0);
        AppendAssoc(before, Emitted(c, esc0), ScanQuoted(json, idx, escape).0);
      }
      assert ScanQuoted(json, idx, escape) == ("", |json|);
      assert text == ScanQuoted(json, start, false).0 && idx == ScanQuoted(json, start, false).1;
      var tt := QuotedStringTokenType();
      t := Token(tt, text);
    }

    /** ParseValueToken: the literal table first, then the Int/Double/String scan. */
    static method ParseValueToken(v: string) returns (t: Token)
      ensures t == ClassifyValue(v)
    {
      var specials := [("null", NullValue), ("true", TrueValue), ("false", FalseValue)];
      assert specials[0].0 == "null" && specials[1].0 == "true" && specials[2].0 == "false";
      for i := 0 to |specials|
        invariant forall k :: 0 <= k < i ==> !EqualsIgnoringCase(v, specials[k].0)
      {
        if EqualsIgnoringCase(v, specials[i].0) {
          assert i == 0 || i == 1 || i == 2;
          return Token(specials[i].1, "");
        }
      }
      var tt := IntValue;
      for n := 0 to |v|
        invariant tt in {IntValue, DoubleValue, StringValue}
        invariant tt == IntValue <==> AllDigits(v[..n])
        invariant tt == DoubleValue <==> DecimalUpTo(v, n)
      {
        ghost var expected := ClassifyStep(v, n, tt);
        var c := v[n];
        if '0' <= c <= '9' {
        } else if c == '.' {
          if tt == IntValue && n + 1 < |v| {
            tt := DoubleValue;
          } else {
            tt := StringValue;
          }
        } else {
          tt := StringValue;
        }
        assert tt == expected;
      }
      assert v[..|v|] == v;
      DecimalUpToAll(v);
      t := Token(tt, v);
    }

    /** GetValueToken */
    method ValueToken() returns (t: Token)
      requires idx <= |json|
      modifies this`idx
      ensures (t, idx) == BareTokenAt(json, old(idx))
    {
      ghost var start := idx;
      var text := "";
      while idx < |json|
        invariant start <= idx <= |json|
        invariant text == json[start..idx]
        invariant forall k :: start <= k < idx ==> !EndsBareToken(json[k])
      {
        var c := json[idx];
        idx := idx + 1;
        if IsWhite(c) || c == ',' || c == '}' || c == ']' {
          BareEndIsFirstDelimiter(json, start, idx - 1);
          if c == '}' || c == ']' {
            idx := idx - 1;
          }
          t := ParseValueToken(text);
          return;
        }
        text := text + [c];
      }
      BareEndIsFirstDelimiter(json, start, idx);
      t := ParseValueToken(text);
    }

    /** GetNextToken */
    method NextToken() returns (t: Token)
      requires idx <= |json|
      modifies this`idx
      ensures (t, idx) == TokenAt(json, old(idx))
    {
      ghost var start := idx;
      while idx < |json|
        invariant start <= idx <= |json|
        invariant WhiteBetween(json, start, idx)
      {
        var c := json[idx];
        idx := idx + 1;
        if IsWhite(c) {
          continue;
        }
        SkipWhiteIsFirstNonWhite(json, start, idx - 1);
        if c == ',' {
          return Token(Comma, "");
        } else if c == '{' {
          return Token(NewObject, "");
        } else if c == '}' {
          return Token(EndObject, "");
        } else if c == '[' {
          return Token(NewArray, "");
        } else if c == ']' {
          return Token(EndArray, "");
        } else if c == '"' {
          t := QuotedStringToken();
          return;
        } else {
          idx := idx - 1;
          t := ValueToken();
          return;
        }
      }
      SkipWhiteIsFirstNonWhite(json, start, idx);
      return Token(Eof, "");
    }

    /** Parse: the token loop with the explicit stack, `curNode`, `jtObjName` and `bInvalid`. */
    method Parse() returns (r: Option<Node>)
      requires idx <= |json|
      modifies this`idx
      ensures r == Run(Tokens(json, old(idx)), Init)
    {
      var stack: seq<Node> := [];
      var cur: Option<Node> := None;
      var name: Option<string> := None;
      var invalid := false;
      while !invalid
        invariant idx <= |json|
        invariant !invalid ==> Run(Tokens(json, idx), State(stack, cur, name)) == Run(Tokens(json, old(idx)), Init)
        invariant invalid ==> Run(Tokens(json, old(idx)), Init) == None
        decreases |json| - idx + (if invalid then 0 else 1)
      {
        ghost var before := State(stack, cur, name);
        ghost var ts := Tokens(json, idx);
        var t := NextToken();
        assert ts[0] == t;
        assert !Terminal(t) ==> ts[1..] == Tokens(json, idx);
        RunFirst(ts, before);
        if cur.Some? && stack == [] {
          if t.tt == Eof {
            break;
          }
          invalid := true;
          break;
        }
        if t.tt == TokenType.Invalid {
          return None;
        }
        stack, cur, name, invalid := ApplyToken(t, stack, cur, name);
      }
      if invalid {
        return None;
      }
      return cur;
    }

    /** The switch in the body of Parse's loop, for a token that is not Invalid and a top-level
        value that is not yet complete: the new stack, `curNode`, `jtObjName` and `bInvalid`. */
    static method ApplyToken(t: Token, stack: seq<Node>, cur: Option<Node>, name: Option<string>)
      returns (stack': seq<Node>, cur': Option<Node>, name': Option<string>, invalid: bool)
      requires !Finished(State(stack, cur, name))
      ensures invalid <==> Step(State(stack, cur, name), t).Reject?
      ensures !invalid ==> Step(State(stack, cur, name), t) == Continue(State(stack', cur', name'))
    {
      StepDispatch(State(stack, cur, name), t);
      stack', cur', name', invalid := stack, cur, name, false;
      match t.tt {
        case ObjectName =>
          if name.Some? {
            invalid := true;
          }
          name' := Some(t.text);
        case NullValue | TrueValue | FalseValue | IntValue | DoubleValue | StringValue
           | NewObject | NewArray =>
          var n := NodeOf(t, PendingKey(name));
          cur' := Some(n);
          var added := JsonAddNode(stack, n);
          if added.None? {
            invalid := true;
          } else {
            stack' := added.value;
            name' := None;
          }
        case EndObject =>
          var popped := JsonRmNode(stack, name);
          cur' := if popped.Some? then Some(popped.value.0) else None;
          invalid := popped.None? || GetType(popped.value.0) != Object;
          if !invalid {
            var attached := Attach(popped.value.1, popped.value.0);
            if attached.None? {
              invalid := true;
            } else {
              stack' := attached.value;
            }
          }
        case EndArray =>
          var popped := JsonRmNode(stack, name);
          cur' := if popped.Some? then Some(popped.value.0) else None;
          invalid := popped.None? || GetType(popped.value.0) != Array;
          if !invalid {
            var attached := Attach(popped.value.1, popped.value.0);
            if attached.None? {
              invalid := true;
            } else {
              stack' := attached.value;
            }
          }
        case Comma =>
          invalid := stack == [] || !IsContainer(stack[|stack| - 1]);
        case Eof =>
          invalid := true;
        case Invalid =>
          invalid := true;
      }
    }
  }

  /** CMyJsonNode::Parse(std::string_view): a fresh parser over the text, then its Parse. */
  method Parse(s: string) returns (r: Option<Node>)
    ensures r == ParseResult(s)
  {
    var p := new Parser(s);
    r := p.Parse();
  }
}
