/** Properties of the tokenizer: what GetNextToken skips and returns, the escape rules of quoted
    strings, where a bare token ends and how it is classified. */
module JsonLexerProperties {
  import opened JsonLexer

  // ---------------------------------------------------------------------------------------------
  // GetNextToken
  // ---------------------------------------------------------------------------------------------

  /** GetNextToken returns Eof exactly when only whitespace is left, and then the cursor is at the
      end; any other token moves the cursor forward, never past the end. Punctuation after the
      whitespace becomes its own token and consumes one character. */
  lemma NextTokenSkipsWhitespace(s: string, i: nat)
    requires i <= |s|
    ensures TokenAt(s, i).0.tt == Eof <==> WhiteBetween(s, i, |s|)
    ensures TokenAt(s, i).0.tt == Eof ==> TokenAt(s, i).1 == |s|
    ensures TokenAt(s, i).0.tt != Eof ==> i < TokenAt(s, i).1 <= |s|
    ensures var j := SkipWhite(s, i);
            j < |s| && s[j] in {',', '{', '}', '[', ']'} ==>
              TokenAt(s, i) == (Token(PunctuationType(s[j]), ""), j + 1)
  {
    var j := SkipWhite(s, i);
    if j < |s| {
      assert !IsWhite(s[j]);
    }
    if j < |s| && s[j] == '"' {
      var q := ScanQuoted(s, j + 1, false);
      assert QuotedTokenTypeAt(s, q.1).0 in {Invalid, ObjectName, StringValue};
    }
  }

  /** The token type of each punctuation character. */
  function PunctuationType(c: char): TokenType
  {
    if c == ',' then Comma
    else if c == '{' then NewObject
    else if c == '}' then EndObject
    else if c == '[' then NewArray
    else if c == ']' then EndArray
    else Invalid
  }

  // ---------------------------------------------------------------------------------------------
  // Quoted strings
  // ---------------------------------------------------------------------------------------------

  /** One unit of a quoted string's body as written in the input: a plain character (neither a
      backslash nor a quote), or a backslash followed by any character. */
  datatype Piece = Plain(c: char) | Escaped(c: char)

  predicate ValidPiece(p: Piece)
  {
    p.Plain? ==> p.c != '\\' && p.c != '"'
  }

  /** The input characters of a sequence of pieces. */
  function Written(ps: seq<Piece>): string
  {
    if ps == [] then []
    else (if ps[0].Plain? then [ps[0].c] else ['\\', ps[0].c]) + Written(ps[1..])
  }

  /** What the scanner makes of the pieces, stated piece by piece: `\\` gives `\`, `\"` gives `"`,
      a backslash before anything else is kept together with that character. */
  function Meant(ps: seq<Piece>): string
  {
    if ps == [] then []
    else
      (match ps[0]
       case Plain(c) => [c]
       case Escaped(c) => if c == '\\' || c == '"' then [c] else ['\\', c])
      + Meant(ps[1..])
  }

  /** The quoted-string round trip: scanning the written pieces followed by a quote yields the
      meaning of the pieces and stops right after that quote, whatever follows it. In particular the
      scan ends at the first quote that is not escaped. */
  lemma {:induction false} ScanQuotedPieces(s: string, i: nat, ps: seq<Piece>)
    requires forall k :: 0 <= k < |ps| ==> ValidPiece(ps[k])
    requires i + |Written(ps)| < |s|
    requires s[i..i + |Written(ps)|] == Written(ps) && s[i + |Written(ps)|] == '"'
    ensures ScanQuoted(s, i, false) == (Meant(ps), i + |Written(ps)| + 1)
    decreases ps
  {
    if ps != [] {
      var w := if ps[0].Plain? then [ps[0].c] else ['\\', ps[0].c];
      var rest := Written(ps[1..]);
      assert Written(ps) == w + rest;
      SliceSplit(s, i, w, rest);
      ScanQuotedPieces(s, i + |w|, ps[1..]);
      if ps[0].Escaped? {
        assert s[i] == w[0] && s[i + 1] == w[1];
      } else {
        assert s[i] == w[0];
      }
    }
  }

  /** A quoted string that the input ends inside of: the scan runs to the end of the input and
      yields the meaning of the pieces written so far. A backslash left pending at the very end
      (`dangling`) adds nothing. */
  lemma {:induction false} ScanQuotedUnterminated(s: string, i: nat, ps: seq<Piece>, dangling: bool)
    requires forall k :: 0 <= k < |ps| ==> ValidPiece(ps[k])
    requires i + |Written(ps)| + (if dangling then 1 else 0) == |s|
    requires s[i..i + |Written(ps)|] == Written(ps)
    requires dangling ==> s[|s| - 1] == '\\'
    ensures ScanQuoted(s, i, false) == (Meant(ps), |s|)
    decreases ps
  {
    if ps != [] {
      var w := if ps[0].Plain? then [ps[0].c] else ['\\', ps[0].c];
      var rest := Written(ps[1..]);
      assert Written(ps) == w + rest;
      SliceSplit(s, i, w, rest);
      ScanQuotedUnterminated(s, i + |w|, ps[1..], dangling);
      if ps[0].Escaped? {
        assert s[i] == w[0] && s[i + 1] == w[1];
      } else {
        assert s[i] == w[0];
      }
    } else if dangling {
      assert s[i] == '\\';
    }
  }

  /** GetNextToken on a quoted string that is never closed: the token is Invalid, it carries the
      text read so far, and the cursor ends at the end of the input. */
  lemma UnterminatedStringInvalid(s: string, i: nat, j: nat, ps: seq<Piece>, dangling: bool)
    requires i <= j < |s| && SkipWhite(s, i) == j && s[j] == '"'
    requires forall k :: 0 <= k < |ps| ==> ValidPiece(ps[k])
    requires j + 1 + |Written(ps)| + (if dangling then 1 else 0) == |s|
    requires s[j + 1..j + 1 + |Written(ps)|] == Written(ps)
    requires dangling ==> s[|s| - 1] == '\\'
    ensures TokenAt(s, i) == (Token(Invalid, Meant(ps)), |s|)
  {
    QuotedTokenAt(s, i, j);
    ScanQuotedUnterminated(s, j + 1, ps, dangling);
  }

  /** GetNextToken at a quote: the scanned text, typed by what follows the closing quote. */
  lemma QuotedTokenAt(s: string, i: nat, j: nat)
    requires i <= j < |s| && SkipWhite(s, i) == j && s[j] == '"'
    ensures var q := ScanQuoted(s, j + 1, false);
            var k := QuotedTokenTypeAt(s, q.1);
            TokenAt(s, i) == (Token(k.0, q.0), k.1)
  {
  }

  /** For instance `"a\"`: the escaped quote does not close the string, so the token is Invalid. */
  lemma EscapedQuoteDoesNotClose()
    ensures TokenAt(['"', 'a', '\\', '"'], 0) == (Token(Invalid, ['a', '"']), 4)
  {
    var s := ['"', 'a', '\\', '"'];
    var ps := [Plain('a'), Escaped('"')];
    assert Written(ps) == ['a', '\\', '"'] by { assert ps[1..][1..] == []; }
    assert Meant(ps) == ['a', '"'] by { assert ps[1..][1..] == []; }
    assert SkipWhite(s, 0) == 0;
    UnterminatedStringInvalid(s, 0, 0, ps, false);
  }

  /** A slice that equals a concatenation splits into its two parts. */
  lemma SliceSplit(s: string, i: nat, a: string, b: string)
    requires i + |a| + |b| <= |s| && s[i..i + |a| + |b|] == a + b
    ensures forall k :: 0 <= k < |a| ==> s[i + k] == a[k]
    ensures s[i + |a|..i + |a| + |b|] == b
  {
    forall k | 0 <= k < |a| ensures s[i + k] == a[k] {
      assert s[i..i + |a| + |b|][k] == (a + b)[k];
    }
    assert s[i + |a|..i + |a| + |b|] == s[i..i + |a| + |b|][|a|..];
  }

  /** A backslash followed by a character other than `\` and `"` is kept: `\n` stays `\` `n`. */
  lemma UnknownEscapeKept(c: char)
    requires c != '\\' && c != '"'
    ensures ScanQuoted(['\\', c, '"'], 0, false) == (['\\', c], 3)
  {
    var ps := [Escaped(c)];
    assert Written(ps) == ['\\', c] by { assert ps[1..] == []; }
    assert Meant(ps) == ['\\', c] by { assert ps[1..] == []; }
    ScanQuotedPieces(['\\', c, '"'], 0, ps);
  }

  // ---------------------------------------------------------------------------------------------
  // Bare tokens
  // ---------------------------------------------------------------------------------------------

  /** A bare token (one that starts with neither punctuation, whitespace nor a quote) is the
      non-empty run of characters up to the first whitespace, `,`, `}` or `]`; whitespace and `,`
      after it are consumed, `}` and `]` are left for the next token. */
  lemma BareTokenExtent(s: string, i: nat)
    requires i <= |s|
    requires var j := SkipWhite(s, i); j < |s| && s[j] !in {',', '{', '}', '[', ']', '"'}
    ensures var j := SkipWhite(s, i);
            var e := BareEnd(s, j);
            && j < e
            && TokenAt(s, i).0 == ClassifyValue(s[j..e])
            && (forall k :: j <= k < e ==> !EndsBareToken(s[k]))
            && (e < |s| && s[e] in {'}', ']'} ==> TokenAt(s, i).1 == e)
            && (e < |s| && s[e] !in {'}', ']'} ==> TokenAt(s, i).1 == e + 1)
            && (e == |s| ==> TokenAt(s, i).1 == |s|)
  {
  }

  // ---------------------------------------------------------------------------------------------
  // Classification (ParseValueToken)
  // ---------------------------------------------------------------------------------------------

  /** Digit strings never match a literal, so a bare token is IntValue exactly when it is all
      digits and DoubleValue exactly when it is digits with one inner or leading `.`; the three
      literals match in any letter case, and everything else is kept as a string. */
  lemma ClassifyValueKinds(v: string)
    ensures ClassifyValue(v).tt == IntValue <==> AllDigits(v)
    ensures ClassifyValue(v).tt == DoubleValue <==> IsDecimal(v)
    ensures ClassifyValue(v).tt == NullValue <==> EqualsIgnoringCase(v, "null")
    ensures ClassifyValue(v).tt == TrueValue <==> EqualsIgnoringCase(v, "true")
    ensures ClassifyValue(v).tt == FalseValue <==> EqualsIgnoringCase(v, "false")
    ensures ClassifyValue(v).tt == StringValue <==>
              !AllDigits(v) && !IsDecimal(v) && !EqualsIgnoringCase(v, "null") &&
              !EqualsIgnoringCase(v, "true") && !EqualsIgnoringCase(v, "false")
  {
    if |v| > 0 && (IsDigit(v[0]) || v[0] == '.') {
      assert ToLower(v[0]) == v[0];
      assert !EqualsIgnoringCase(v, "null") && !EqualsIgnoringCase(v, "true") && !EqualsIgnoringCase(v, "false");
    }
    if IsDecimal(v) {
      var j :| 0 <= j < |v| - 1 && v[j] == '.' && AllDigits(v[..j]) && AllDigits(v[j + 1..]);
      assert !AllDigits(v) by { assert !IsDigit(v[j]); }
      if j == 0 {
        assert v[0] == '.';
      } else {
        assert v[..j][0] == v[0];
        assert IsDigit(v[0]);
      }
    }
  }

  /** A bare token that starts with a digit or a `.` is never one of the literals. */
  lemma NotALiteral(v: string)
    requires |v| > 0 && (IsDigit(v[0]) || v[0] == '.')
    ensures !EqualsIgnoringCase(v, "null") && !EqualsIgnoringCase(v, "true") && !EqualsIgnoringCase(v, "false")
  {
    assert ToLower(v[0]) == v[0];
  }

  /** Digits alone, leading zeros included, make an IntValue token with the raw text. */
  lemma DigitsAreInt(v: string)
    requires AllDigits(v)
    ensures ClassifyValue(v) == Token(IntValue, v)
  {
    if v != [] {
      NotALiteral(v);
    }
  }

  /** A `.` followed by digits is a DoubleValue token: the integer part may be missing. */
  lemma LeadingDotIsDouble(d: string)
    requires |d| > 0 && AllDigits(d)
    ensures ClassifyValue(['.'] + d) == Token(DoubleValue, ['.'] + d)
  {
    var v := ['.'] + d;
    NotALiteral(v);
    assert !IsDigit(v[0]);
    assert v[..0] == [] && v[1..] == d;
  }

  /** There is no sign: a token starting with `-` is kept as a string with its raw text. */
  lemma SignIsString(v: string)
    requires |v| > 0 && v[0] == '-'
    ensures ClassifyValue(v) == Token(StringValue, v)
  {
    assert ToLower(v[0]) == '-';
    assert !IsDigit(v[0]);
    forall j | 0 <= j < |v| - 1 && v[j] == '.'
      ensures !AllDigits(v[..j])
    {
      assert v[..j][0] == v[0];
    }
  }

  /** A `.` as the last character makes a string, not a decimal. */
  lemma TrailingDotIsString(v: string)
    requires |v| > 0 && v[|v| - 1] == '.'
    ensures ClassifyValue(v) == Token(StringValue, v)
  {
    assert ToLower(v[|v| - 1]) == '.';
    assert !IsDigit(v[|v| - 1]);
    forall j | 0 <= j < |v| - 1 && v[j] == '.'
      ensures !AllDigits(v[j + 1..])
    {
      assert v[j + 1..][|v| - j - 2] == v[|v| - 1];
    }
  }

  /** There is no exponent: a token that starts with a digit and contains `e` or `E` is a string. */
  lemma ExponentIsString(v: string, k: nat)
    requires |v| > 0 && IsDigit(v[0]) && k < |v| && (v[k] == 'e' || v[k] == 'E')
    ensures ClassifyValue(v) == Token(StringValue, v)
  {
    NotALiteral(v);
    assert !IsDigit(v[k]);
    forall j | 0 <= j < |v| - 1 && v[j] == '.'
      ensures !AllDigits(v[..j]) || !AllDigits(v[j + 1..])
    {
      if k < j {
        assert v[..j][k] == v[k];
      } else {
        assert v[j + 1..][k - j - 1] == v[k];
      }
    }
  }

  /** At most one `.`: a token with two of them is a string. */
  lemma TwoDotsIsString(v: string, i: nat, k: nat)
    requires i < k < |v| && v[i] == '.' && v[k] == '.'
    ensures ClassifyValue(v) == Token(StringValue, v)
  {
    assert ToLower(v[i]) == '.';
    assert !IsDigit(v[i]);
    forall j | 0 <= j < |v| - 1 && v[j] == '.'
      ensures !AllDigits(v[..j]) || !AllDigits(v[j + 1..])
    {
      if i < j {
        assert v[..j][i] == v[i];
      } else if i > j {
        assert v[j + 1..][i - j - 1] == v[i];
      } else {
        assert v[j + 1..][k - j - 1] == v[k];
      }
    }
  }

  /** The literals match in any letter case. */
  lemma UpperCaseTrue()
    ensures ClassifyValue("TRUE") == Token(TrueValue, "")
  {
    var t := "TRUE";
    assert !EqualsIgnoringCase(t, "null") by {
      assert ToLower(t[0]) == 't';
    }
    assert EqualsIgnoringCase(t, "true") by {
      assert ToLower(t[0]) == 't' && ToLower(t[1]) == 'r' && ToLower(t[2]) == 'u' && ToLower(t[3]) == 'e';
    }
  }

  lemma MixedCaseNull()
    ensures ClassifyValue("NuLL") == Token(NullValue, "")
  {
    var n := "NuLL";
    assert EqualsIgnoringCase(n, "null") by {
      assert ToLower(n[0]) == 'n' && ToLower(n[1]) == 'u' && ToLower(n[2]) == 'l' && ToLower(n[3]) == 'l';
    }
  }

  /** Only a whole literal matches: a prefix of one is a string. */
  lemma LiteralPrefixIsString()
    ensures ClassifyValue("nul") == Token(StringValue, "nul")
  {
    var short := "nul";
    assert !AllDigits(short) && !IsDecimal(short) by {
      assert !IsDigit(short[0]);
    }
  }
}
