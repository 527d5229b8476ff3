/** The node tree that a parse produces: one constructor per concrete node class of myjson.cpp
    (CMyJsonNodeNull ... CMyJsonNodeArray), each carrying the member name it was given (`m_strKey`),
    with the typed conversions and the two lookup operators of those classes. */
module JsonNode {
  import opened Wrappers

  /** CMyJsonNode::ValueType. `Invalid` is only the base class's answer; no concrete node reports it. */
  datatype ValueType = Invalid | Null | Bool | Int | Double | String | Object | Array

  /** A node. The key is empty for a node that was not preceded by an object name.
      An Int node holds the `long long` that strtoll produced; a Double node keeps the text of its token,
      since the conversion to a binary double is not modelled. Object and Array nodes own their children
      in insertion order. */
  datatype Node =
    | NullNode(key: string)
    | BoolNode(key: string, b: bool)
    | IntNode(key: string, n: int)
    | DoubleNode(key: string, text: string)
    | StringNode(key: string, s: string)
    | ObjectNode(key: string, children: seq<Node>)
    | ArrayNode(key: string, children: seq<Node>)

  /** The two exceptions the node classes throw: std::bad_cast and std::out_of_range. */
  datatype Error = BadCast | OutOfRange

  const INT_MIN: int := -0x8000_0000
  const INT_MAX: int := 0x7FFF_FFFF
  const LLONG_MAX: int := 0x7FFF_FFFF_FFFF_FFFF
  const SIZE_T_MODULUS: int := 0x1_0000_0000_0000_0000

  predicate IsContainer(n: Node)
  {
    n.ObjectNode? || n.ArrayNode?
  }

  /** GetType: every concrete node class reports its own kind. */
  function GetType(n: Node): (t: ValueType)
    ensures t != Invalid
    ensures t == Object || t == Array <==> IsContainer(n)
    ensures (t == Null <==> n.NullNode?) && (t == Bool <==> n.BoolNode?) && (t == Int <==> n.IntNode?)
    ensures (t == Double <==> n.DoubleNode?) && (t == String <==> n.StringNode?)
    ensures (t == Object <==> n.ObjectNode?) && (t == Array <==> n.ArrayNode?)
  {
    match n
    case NullNode(_) => Null
    case BoolNode(_, _) => Bool
    case IntNode(_, _) => Int
    case DoubleNode(_, _) => Double
    case StringNode(_, _) => String
    case ObjectNode(_, _) => Object
    case ArrayNode(_, _) => Array
  }

  // ---------------------------------------------------------------------------------------------
  // Typed conversions (the explicit conversion operators). A node class that does not override an
  // operator inherits the base class's, which throws std::bad_cast.
  // ---------------------------------------------------------------------------------------------

  /** The implicit `long long` to `int` conversion in `return m_nValue;`: the value modulo 2^32,
      read as a two's-complement 32-bit integer. */
  function NarrowToInt(v: int): (r: int)
    ensures INT_MIN <= r <= INT_MAX
    ensures (v - r) % 0x1_0000_0000 == 0
    ensures INT_MIN <= v <= INT_MAX ==> r == v
  {
    var m := v % 0x1_0000_0000;
    if m > INT_MAX then m - 0x1_0000_0000 else m
  }

  /** operator bool: only a Bool node converts. */
  function AsBool(n: Node): (r: Result<bool, Error>)
    ensures r.Ok? <==> GetType(n) == Bool
    ensures r.Ok? ==> r.value == n.b
    ensures r.Err? ==> r.error == BadCast
  {
    match n
    case BoolNode(_, b) => Ok(b)
    case _ => Err(BadCast)
  }

  /** operator int: an Int node converts to its value narrowed to 32 bits, and a Null node to 0. */
  function AsInt(n: Node): (r: Result<int, Error>)
    ensures r.Ok? <==> GetType(n) in {Null, Int}
    ensures r.Ok? ==> INT_MIN <= r.value <= INT_MAX
    ensures n.IntNode? ==> r == Ok(NarrowToInt(n.n))
    ensures n.IntNode? && INT_MIN <= n.n <= INT_MAX ==> r == Ok(n.n)
    ensures n.NullNode? ==> r == Ok(0)
    ensures r.Err? ==> r.error == BadCast
  {
    match n
    case NullNode(_) => Ok(0)
    case IntNode(_, v) => Ok(NarrowToInt(v))
    case _ => Err(BadCast)
  }

  /** operator double: only a Double node converts; its value is represented by its token text. */
  function AsDouble(n: Node): (r: Result<string, Error>)
    ensures r.Ok? <==> GetType(n) == Double
    ensures r.Ok? ==> r.value == n.text
    ensures r.Err? ==> r.error == BadCast
  {
    match n
    case DoubleNode(_, text) => Ok(text)
    case _ => Err(BadCast)
  }

  /** operator std::string_view: a String node gives its text, a Null node "null" and a Bool node
      "true" or "false"; Int, Double, Object and Array nodes throw. */
  function AsString(n: Node): (r: Result<string, Error>)
    ensures r.Ok? <==> GetType(n) in {Null, Bool, String}
    ensures n.StringNode? ==> r == Ok(n.s)
    ensures n.NullNode? ==> r == Ok("null")
    ensures n.BoolNode? ==> r == Ok(if n.b then "true" else "false")
    ensures r.Err? ==> r.error == BadCast
  {
    match n
    case NullNode(_) => Ok("null")
    case BoolNode(_, b) => Ok(if b then "true" else "false")
    case StringNode(_, s) => Ok(s)
    case _ => Err(BadCast)
  }

  // ---------------------------------------------------------------------------------------------
  // Lookups (operator[] of CMyJsonNodeObject and CMyJsonNodeArray; the base class throws).
  // ---------------------------------------------------------------------------------------------

  /** The position of the first child whose key equals `k` (the std::find_if in operator[](key)). */
  function FindKey(cs: seq<Node>, k: string): (r: Option<nat>)
    ensures r.Some? ==> r.value < |cs| && cs[r.value].key == k
    ensures r.Some? ==> forall j :: 0 <= j < r.value ==> cs[j].key != k
    ensures r.None? <==> forall j :: 0 <= j < |cs| ==> cs[j].key != k
  {
    if cs == [] then None
    else if cs[0].key == k then Some(0)
    else
      match FindKey(cs[1..], k)
      case None => None
      case Some(i) => Some(i + 1)
  }

  /** operator[](key): the first child with that key; out_of_range when there is none or the node is
      not an Object or Array. */
  function Get(n: Node, k: string): (r: Result<Node, Error>)
    ensures r.Ok? <==> IsContainer(n) && exists j :: 0 <= j < |n.children| && n.children[j].key == k
    ensures r.Ok? ==> r.value.key == k
    ensures r.Ok? ==> exists i :: 0 <= i < |n.children| && n.children[i] == r.value &&
                                  forall j :: 0 <= j < i ==> n.children[j].key != k
    ensures r.Err? ==> r.error == OutOfRange
  {
    if !IsContainer(n) then Err(OutOfRange)
    else
      match FindKey(n.children, k)
      case None => Err(OutOfRange)
      case Some(i) => Ok(n.children[i])
  }

  /** The bounds test of operator[](int) as written: it throws when `size < (size_t)idx`. The `int`
      index is first converted to the 64-bit `size_t`, so a negative index wraps to a huge one. */
  predicate IndexGuardPasses(size: nat, idx: int)
  {
    !(size < idx % SIZE_T_MODULUS)
  }

  /** operator[](int) with the evidently intended bounds test: the child at `idx` when
      `0 <= idx < size`, out_of_range otherwise (also on a node that is not an Object or Array). */
  function At(n: Node, idx: int): (r: Result<Node, Error>)
    ensures r.Ok? <==> IsContainer(n) && 0 <= idx < |n.children|
    ensures r.Ok? ==> r.value == n.children[idx]
    ensures r.Err? ==> r.error == OutOfRange
  {
    if IsContainer(n) && 0 <= idx < |n.children| then Ok(n.children[idx]) else Err(OutOfRange)
  }

  // ---------------------------------------------------------------------------------------------
  // AddNode: push_back on the child vector of an Object or Array.
  // ---------------------------------------------------------------------------------------------

  /** AddNode on a container: the same node with `child` appended; None on a node that has no child
      list (the `default: return false` of JsonAddNode). */
  function AddChild(parent: Node, child: Node): (r: Option<Node>)
    ensures r.Some? <==> IsContainer(parent)
    ensures r.Some? ==> GetType(r.value) == GetType(parent) && r.value.key == parent.key
    ensures r.Some? ==> r.value.children == parent.children + [child]
  {
    match parent
    case ObjectNode(key, cs) => Some(ObjectNode(key, cs + [child]))
    case ArrayNode(key, cs) => Some(ArrayNode(key, cs + [child]))
    case _ => None
  }

  // ---------------------------------------------------------------------------------------------
  // Properties of the lookups.
  // ---------------------------------------------------------------------------------------------

  /** The as-written bounds test lets through exactly the indices 0..size, one more than the valid
      positions 0..size-1 (for the sizes and `int` indices that can occur). */
  lemma IndexGuardAdmitsSize(size: nat, idx: int)
    requires size <= LLONG_MAX && INT_MIN <= idx <= INT_MAX
    ensures IndexGuardPasses(size, idx) <==> 0 <= idx <= size
  {
    if idx < 0 {
      assert idx % SIZE_T_MODULUS == idx + SIZE_T_MODULUS;
    } else {
      assert idx % SIZE_T_MODULUS == idx;
    }
  }

  /** The off-by-one: on any Object or Array, `node[size]` passes the as-written test although no
      child sits at that position (myjson.cpp then reads past the end of the vector). */
  lemma IndexGuardOffByOne(n: Node)
    requires IsContainer(n) && |n.children| <= INT_MAX
    ensures IndexGuardPasses(|n.children|, |n.children|)
    ensures At(n, |n.children|).Err?
  {
    IndexGuardAdmitsSize(|n.children|, |n.children|);
  }

  /** The corrected index lookup agrees with the as-written test on every index except `size`. */
  lemma AtAgreesWithGuard(n: Node, idx: int)
    requires IsContainer(n) && |n.children| <= INT_MAX && INT_MIN <= idx <= INT_MAX
    requires idx != |n.children|
    ensures At(n, idx).Ok? <==> IndexGuardPasses(|n.children|, idx)
  {
    IndexGuardAdmitsSize(|n.children|, idx);
  }

  /** Key lookup finds a child that index lookup reaches too, and no earlier child carries the key. */
  lemma GetIsFirstAt(n: Node, k: string)
    requires Get(n, k).Ok?
    ensures exists i :: At(n, i) == Get(n, k) && forall j :: 0 <= j < i ==> At(n, j).value.key != k
  {
    var i := FindKey(n.children, k).value;
    assert At(n, i) == Get(n, k);
  }

  /** Appending a child leaves every earlier position in place and puts the new child last. */
  lemma AddChildThenAt(parent: Node, child: Node, idx: int)
    requires IsContainer(parent)
    ensures At(AddChild(parent, child).value, idx) ==
            if idx == |parent.children| then Ok(child) else At(parent, idx)
  {
  }

  /** Appending a child never changes what a key lookup found before; a key that was missing is then
      found exactly when the new child carries it. */
  lemma {:induction false} AddChildThenGet(parent: Node, child: Node, k: string)
    requires IsContainer(parent)
    ensures Get(AddChild(parent, child).value, k) ==
            if Get(parent, k).Ok? then Get(parent, k)
            else if child.key == k then Ok(child) else Err(OutOfRange)
  {
    var p := AddChild(parent, child).value;
    FindKeyAppend(parent.children, child, k);
  }

  lemma {:induction false} FindKeyAppend(cs: seq<Node>, c: Node, k: string)
    ensures FindKey(cs + [c], k) ==
            if FindKey(cs, k).Some? then FindKey(cs, k)
            else if c.key == k then Some(|cs|) else None
  {
    if cs != [] {
      assert (cs + [c])[1..] == cs[1..] + [c];
      FindKeyAppend(cs[1..], c, k);
    }
  }
}
