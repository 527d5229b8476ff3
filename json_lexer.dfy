/** The tokenizer of CMyJsonParser as pure functions of the input text and a cursor position.
    `TokenAt(s, i)` is the token that GetNextToken returns when the cursor stands at `i`, together
    with where it leaves the cursor; `Tokens(s, i)` is the whole stream up to Eof or Invalid. */
module JsonLexer {

  /** SMyJsonToken::TokenType */
  datatype TokenType =
    | Invalid
    | ObjectName
    | NullValue | TrueValue | FalseValue | IntValue | DoubleValue | StringValue
    | NewObject | EndObject
    | NewArray | EndArray
    | Comma
    | Eof

  /** SMyJsonToken: a type and a text (empty for punctuation, literals and Eof). */
  datatype Token = Token(tt: TokenType, text: string)

  /** The two token types after which Parse stops reading. */
  predicate Terminal(t: Token)
  {
    t.tt == Eof || t.tt == Invalid
  }

  /** IsWhiteCase */
  predicate IsWhite(c: char)
  {
    c == ' ' || c == '\t' || c == '\n' || c == '\r'
  }

  predicate WhiteBetween(s: string, i: int, j: int)
    requires 0 <= i && j <= |s|
  {
    forall k :: i <= k < j ==> IsWhite(s[k])
  }

  /** The first position at or after `i` that does not hold whitespace (or |s|). */
  function SkipWhite(s: string, i: nat): (j: nat)
    requires i <= |s|
    ensures i <= j <= |s|
    ensures WhiteBetween(s, i, j)
    ensures j < |s| ==> !IsWhite(s[j])
    decreases |s| - i
  {
    if i < |s| && IsWhite(s[i]) then SkipWhite(s, i + 1) else i
  }

  // ---------------------------------------------------------------------------------------------
  // Quoted strings (GetQuotedStringToken, default build with std::stringstream).
  // ---------------------------------------------------------------------------------------------

  /** The body of a quoted string from s[i] on, with `esc` telling whether a backslash is pending:
      the unescaped text and the position just past the terminating unescaped quote (|s| when the
      input ends first). A backslash before `\` or `"` is dropped; before any other character it is
      kept, so `\n` stays two characters. */
  function ScanQuoted(s: string, i: nat, esc: bool): (r: (string, nat))
    requires i <= |s|
    ensures i <= r.1 <= |s|
    ensures r.1 < |s| ==> i < r.1 && s[r.1 - 1] == '"'
    decreases |s| - i
  {
    if i == |s| then ("", |s|)
    else if s[i] == '\\' then
      if esc then
        var r := ScanQuoted(s, i + 1, false);
        (['\\'] + r.0, r.1)
      else ScanQuoted(s, i + 1, true)
    else if s[i] == '"' then
      if esc then
        var r := ScanQuoted(s, i + 1, false);
        (['"'] + r.0, r.1)
      else ("", i + 1)
    else
      var r := ScanQuoted(s, i + 1, false);
      ((if esc then ['\\', s[i]] else [s[i]]) + r.0, r.1)
  }

  /** GetQuotedStringTokenType: after the closing quote, skip whitespace; a `:` makes the string an
      object name and is consumed, any other character makes it a string value and stays unread, and
      the end of the input makes the token Invalid. */
  function QuotedTokenTypeAt(s: string, i: nat): (r: (TokenType, nat))
    requires i <= |s|
    ensures r.0 == Invalid <==> WhiteBetween(s, i, |s|)
    ensures r.0 == Invalid ==> r.1 == |s|
    ensures r.0 == ObjectName ==> i < r.1 <= |s| && s[r.1 - 1] == ':' && WhiteBetween(s, i, r.1 - 1)
    ensures r.0 == StringValue ==>
              i <= r.1 < |s| && s[r.1] != ':' && !IsWhite(s[r.1]) && WhiteBetween(s, i, r.1)
    ensures r.0 in {Invalid, ObjectName, StringValue}
  {
    var j := SkipWhite(s, i);
    if j == |s| then (Invalid, |s|)
    else if s[j] == ':' then (ObjectName, j + 1)
    else (StringValue, j)
  }

  // ---------------------------------------------------------------------------------------------
  // Bare tokens (GetValueToken and ParseValueToken).
  // ---------------------------------------------------------------------------------------------

  /** The characters that end a bare token. */
  predicate EndsBareToken(c: char)
  {
    IsWhite(c) || c == ',' || c == '}' || c == ']'
  }

  /** The first position at or after `i` holding a character that ends a bare token (or |s|). */
  function BareEnd(s: string, i: nat): (j: nat)
    requires i <= |s|
    ensures i <= j <= |s|
    ensures forall k :: i <= k < j ==> !EndsBareToken(s[k])
    ensures j < |s| ==> EndsBareToken(s[j])
    decreases |s| - i
  {
    if i < |s| && !EndsBareToken(s[i]) then BareEnd(s, i + 1) else i
  }

  /** C's tolower in the "C" locale. */
  function ToLower(c: char): char
  {
    if 'A' <= c <= 'Z' then (c as int + 32) as char else c
  }

  /** The std::equal with a tolower comparison, preceded by the length test. */
  predicate EqualsIgnoringCase(v: string, lit: string)
  {
    |v| == |lit| && forall k :: 0 <= k < |v| ==> ToLower(v[k]) == ToLower(lit[k])
  }

  predicate IsDigit(c: char)
  {
    '0' <= c <= '9'
  }

  predicate AllDigits(v: string)
  {
    forall k :: 0 <= k < |v| ==> IsDigit(v[k])
  }

  /** Digits with exactly one `.` that is not the last character (the `.` may come first). */
  predicate IsDecimal(v: string)
  {
    exists j :: 0 <= j < |v| - 1 && v[j] == '.' && AllDigits(v[..j]) && AllDigits(v[j + 1..])
  }

  /** The classification of a bare token, stated declaratively: a case-insensitive literal, else an
      integer, else a decimal, else the raw text as a string. */
  function ClassifyValue(v: string): (t: Token)
    ensures t.tt in {NullValue, TrueValue, FalseValue, IntValue, DoubleValue, StringValue}
    ensures t.tt in {IntValue, DoubleValue, StringValue} ==> t.text == v
  {
    if EqualsIgnoringCase(v, "null") then Token(NullValue, "")
    else if EqualsIgnoringCase(v, "true") then Token(TrueValue, "")
    else if EqualsIgnoringCase(v, "false") then Token(FalseValue, "")
    else if AllDigits(v) then Token(IntValue, v)
    else if IsDecimal(v) then Token(DoubleValue, v)
    else Token(StringValue, v)
  }

  /** GetValueToken from position `i`: the text up to the first character that ends a bare token,
      classified; whitespace and `,` after it are consumed, `}` and `]` are not. */
  function BareTokenAt(s: string, i: nat): (r: (Token, nat))
    requires i <= |s|
    ensures i <= r.1 <= |s|
    ensures r.0 == ClassifyValue(s[i..BareEnd(s, i)])
    ensures r.1 == BareEnd(s, i) <==> BareEnd(s, i) == |s| || s[BareEnd(s, i)] in {'}', ']'}
    ensures r.1 != BareEnd(s, i) ==> r.1 == BareEnd(s, i) + 1
  {
    var j := BareEnd(s, i);
    var next := if j < |s| && s[j] != '}' && s[j] != ']' then j + 1 else j;
    (ClassifyValue(s[i..j]), next)
  }

  // ---------------------------------------------------------------------------------------------
  // GetNextToken and the token stream.
  // ---------------------------------------------------------------------------------------------

  /** GetNextToken with the cursor at `i`: the token and the new cursor. */
  function TokenAt(s: string, i: nat): (r: (Token, nat))
    requires i <= |s|
    ensures i <= r.1 <= |s|
    ensures r.0.tt != Eof ==> i < r.1
  {
    var j := SkipWhite(s, i);
    if j == |s| then (Token(Eof, ""), j)
    else if s[j] == ',' then (Token(Comma, ""), j + 1)
    else if s[j] == '{' then (Token(NewObject, ""), j + 1)
    else if s[j] == '}' then (Token(EndObject, ""), j + 1)
    else if s[j] == '[' then (Token(NewArray, ""), j + 1)
    else if s[j] == ']' then (Token(EndArray, ""), j + 1)
    else if s[j] == '"' then
      var q := ScanQuoted(s, j + 1, false);
      var k := QuotedTokenTypeAt(s, q.1);
      (Token(k.0, q.0), k.1)
    else BareTokenAt(s, j)
  }

  /** The tokens GetNextToken returns from position `i` on, up to and including the first Eof or
      Invalid. */
  function Tokens(s: string, i: nat): (ts: seq<Token>)
    requires i <= |s|
    ensures |ts| > 0 && Terminal(ts[|ts| - 1])
    ensures forall k :: 0 <= k < |ts| - 1 ==> !Terminal(ts[k])
    ensures ts[0] == TokenAt(s, i).0
    decreases |s| - i
  {
    var r := TokenAt(s, i);
    if Terminal(r.0) then [r.0] else [r.0] + Tokens(s, r.1)
  }
}
