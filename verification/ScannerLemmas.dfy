/** What the scanner's tokens mean: escaping and spelling undo scanning. */
module ScannerLemmas {
  import opened Tokens
  import opened ScannerSpec

  // ----- raw strings

  /** Puts a backslash before each backslash and each opening brace. */
  function Escape(s: string): string {
    if s == "" then ""
    else (if s[0] == '\\' || s[0] == '{' then ['\\', s[0]] else [s[0]]) + Escape(s[1..])
  }

  /** A string, escaped, scans back to itself, whether the text or a parameter follows. */
  lemma {:induction false} EscapeRoundTrip(s: string, rest: string)
    requires rest == "" || OpensParameter(rest)
    ensures RawText(Escape(s) + rest) == s
    ensures RawLen(Escape(s) + rest) == |Escape(s)|
  {
    var text := Escape(s) + rest;
    if s == "" {
      assert text == rest;
    } else {
      var w := EscapeStep(s, rest);
      EscapeRoundTrip(s[1..], rest);
      assert RawText(text) == [s[0]] + RawText(text[w..]);
      assert s == [s[0]] + s[1..];
    }
  }

  lemma EscapeStep(s: string, rest: string) returns (w: nat)
    requires s != "" && (rest == "" || OpensParameter(rest))
    ensures var text := Escape(s) + rest;
      && !OpensParameter(text)
      && RawWidth(text) == w == |Escape(s)| - |Escape(s[1..])|
      && text[w - 1] == s[0]
      && text[w..] == Escape(s[1..]) + rest
  {
    if s[0] == '\\' || s[0] == '{' {
      w := 2;
      assert Escape(s) + rest == ['\\', s[0]] + (Escape(s[1..]) + rest);
    } else {
      w := 1;
      assert Escape(s) + rest == [s[0]] + (Escape(s[1..]) + rest);
    }
  }

  /** The scanner reads a nonempty escaped string as one token that holds the string. */
  lemma ScanEscaped(s: string, rest: string)
    requires s != "" && (rest == "" || OpensParameter(rest))
    ensures LexRaw(Escape(s) + rest) == Lexed(Lit(STRING, s), |Escape(s)|)
  {
    EscapeRoundTrip(s, rest);
  }

  /** Conversely the text of a raw string token is one of the ways of writing that string:
      it never holds more than the escaped form, and reading it again gives the same. */
  lemma {:induction false} RawTextFaithful(text: string)
    ensures RawLen(text) <= |Escape(RawText(text))|
    ensures RawText(text) == RawText(Escape(RawText(text)))
  {
    EscapeRoundTrip(RawText(text), "");
    assert Escape(RawText(text)) + "" == Escape(RawText(text));
    EscapeIsLongest(text);
  }

  lemma {:induction false} EscapeIsLongest(text: string)
    ensures RawLen(text) <= |Escape(RawText(text))|
  {
    if text != "" && !OpensParameter(text) {
      var w := RawWidth(text);
      EscapeIsLongest(text[w..]);
      assert RawText(text)[1..] == RawText(text[w..]);
    }
  }

  // ----- tokens inside parameters

  /** How a token is written inside a parameter. */
  function Spelling(t: Token): string {
    if t.Illegal? then t.text
    else if t.Lit? then (if t.kind == STRING then "\"" + t.text + "\"" else t.text)
    else if t.Ident? then t.name
    else if t.Op? then OpSpelling(t.op)
    else if t.Not? then "!"
    else if t.LParen? then "("
    else if t.RParen? then ")"
    else if t.LBrack? then "["
    else if t.RBrack? then "]"
    else if t.LDBrace? then "{{"
    else if t.RDBrace? then "}}"
    else if t.Comma? then ","
    else if t.Period? then "."
    else if t.Question? then "?"
    else if t.Colon? then ":"
    else if t.LArrow? then "<-"
    else if t.Defined? then "defined"
    else ""
  }

  function OpSpelling(op: BinOp): string {
    match op
    case Add => "+"
    case Sub => "-"
    case Mul => "*"
    case Quo => "/"
    case Rem => "%"
    case LAnd => "&&"
    case LOr => "||"
    case Coalescing => "??"
    case Eql => "=="
    case Neq => "!="
    case Lss => "<"
    case Leq => "<="
    case Gtr => ">"
    case Geq => ">="
    case Concat => ""
  }

  lemma PunctuationSpelling(c: char, d: char)
    requires c != EOF_CHAR
    ensures var r := LexPunctuation(c, d);
      && 1 <= r.len <= 2
      && (r.len == 2 ==> d != EOF_CHAR)
      && Spelling(r.tok) == (if r.len == 1 then [c] else [c, d])
  {
  }

  /** Losslessness of the token scanner: except for an unterminated string, the text a token
      takes up is its spelling. */
  lemma LexTokenSpelling(table: UnicodeTable, text: string)
    requires EOF_CHAR !in text
    ensures var r := LexToken(table, text);
      r.tok != Illegal("") ==> text[..r.len] == Spelling(r.tok)
    ensures text != "" ==> LexToken(table, text).len > 0
  {
    if text == "" {
    } else if text[0] == '"' {
      StringSpelling(text);
    } else if table.IsDigit(text[0]) {
      NumberSpelling(text[..Run(ch => table.InNumber(ch), text)]);
    } else if table.IsLetter(text[0]) {
      IdentSpelling(text[..Run(ch => table.InIdent(ch), text)]);
    } else {
      PunctuationSpelling(text[0], Peek(text, 1));
    }
  }

  lemma {:induction false} RunEnds(p: char -> bool, text: string)
    ensures var n := Run(p, text); n < |text| ==> !p(text[n])
  {
    if text != "" && p(text[0]) {
      RunEnds(p, text[1..]);
    }
  }

  lemma StringSpelling(text: string)
    requires Peek(text, 0) == '"'
    ensures var r := LexString(text);
      r.len > 0 && (r.tok != Illegal("") ==> text[..r.len] == Spelling(r.tok))
  {
    RunEnds(InString, text[1..]);
  }

  lemma NumberSpelling(text: string)
    requires text != ""
    ensures Spelling(NumberToken(text)) == text
  {
  }

  lemma IdentSpelling(text: string)
    ensures Spelling(IdentToken(text)) == text
  {
  }

  /** Numbers and identifiers as the scanner accepts them; strings without quotes. */
  predicate Spellable(table: UnicodeTable, t: Token) {
    if t.Lit? then
      if t.kind == STRING then '"' !in t.text && EOF_CHAR !in t.text
      else if t.kind == INT || t.kind == FLOAT then IsNumber(table, t)
      else if t.kind == BOOL then t.text == "true" || t.text == "false"
      else t.text == "nil" || t.text == "null"
    else if t.Ident? then t.name == "$" || IsIdent(table, t)
    else if t.Op? then t.op != Concat
    else !(t.Illegal? || t.Eof? || t.Call? || t.LDBrace? || t.LineBreak?)
  }

  predicate IsNumber(table: UnicodeTable, t: Token) {
    var s := Spelling(t);
    && s != "" && table.IsDigit(s[0])
    && (forall c <- s :: table.InNumber(c))
    && NumberToken(s) == t
  }

  predicate IsIdent(table: UnicodeTable, t: Token) {
    var s := Spelling(t);
    && s != "" && table.IsLetter(s[0]) && !table.IsDigit(s[0])
    && (forall c <- s :: table.InIdent(c))
    && IdentToken(s) == t
  }

  lemma {:induction false} RunUpTo(p: char -> bool, s: string, rest: string)
    requires forall c <- s :: p(c)
    requires rest == "" || !p(rest[0])
    ensures Run(p, s + rest) == |s|
  {
    if s == "" {
      assert s + rest == rest;
    } else {
      assert (s + rest)[1..] == s[1..] + rest;
      RunUpTo(p, s[1..], rest);
    }
  }

  lemma LexStringSpelling(table: UnicodeTable, s: string, rest: string)
    requires table.Valid() && '"' !in s && EOF_CHAR !in "\"" + s + "\"" + rest
    ensures LexToken(table, "\"" + s + "\"" + rest) == Lexed(Lit(STRING, s), |s| + 2)
  {
    var text := "\"" + s + "\"" + rest;
    assert text[1..] == s + ("\"" + rest);
    RunUpTo(InString, s, "\"" + rest);
    assert text[1..|s| + 1] == s;
  }

  lemma LexNumberSpelling(table: UnicodeTable, s: string, rest: string)
    requires s != "" && table.IsDigit(s[0]) && forall c <- s :: table.InNumber(c)
    requires rest == "" || !table.InNumber(rest[0])
    requires EOF_CHAR !in s + rest
    ensures LexToken(table, s + rest) == Lexed(NumberToken(s), |s|)
  {
    RunUpTo(ch => table.InNumber(ch), s, rest);
    assert (s + rest)[..|s|] == s;
  }

  lemma LexIdentSpelling(table: UnicodeTable, s: string, rest: string)
    requires s != "" && table.IsLetter(s[0]) && !table.IsDigit(s[0]) && forall c <- s :: table.InIdent(c)
    requires rest == "" || !table.InIdent(rest[0])
    requires EOF_CHAR !in s + rest
    ensures LexToken(table, s + rest) == Lexed(IdentToken(s), |s|)
  {
    RunUpTo(ch => table.InIdent(ch), s, rest);
    assert (s + rest)[..|s|] == s;
  }

  lemma LexPunctuationSpelling(table: UnicodeTable, t: Token, rest: string)
    requires Spellable(table, t) && !t.Lit? && !t.Defined? && (t.Ident? ==> t.name == "$")
    requires EOF_CHAR !in Spelling(t) + " " + rest
    ensures LexToken(table, Spelling(t) + " " + rest) == Lexed(t, |Spelling(t)|)
  {
    var text := Spelling(t) + " " + rest;
    assert text[0] == Spelling(t)[0];
    assert Peek(text, 1) == if |Spelling(t)| == 1 then ' ' else Spelling(t)[1];
  }

  lemma LexWordSpelling(table: UnicodeTable, t: Token, rest: string)
    requires table.Valid() && Spellable(table, t) && (t.Lit? || t.Defined? || (t.Ident? && t.name != "$"))
    requires EOF_CHAR !in Spelling(t) + (" " + rest)
    ensures LexToken(table, Spelling(t) + (" " + rest)) == Lexed(t, |Spelling(t)|)
  {
    if t.Lit? && t.kind == STRING {
      LexStringSpelling(table, t.text, " " + rest);
    } else if t.Lit? && (t.kind == INT || t.kind == FLOAT) {
      LexNumberSpelling(table, t.text, " " + rest);
    } else {
      LexIdentSpelling(table, Spelling(t), " " + rest);
    }
  }

  /** Spelling round trip: a token written out, followed by a space, is read back. */
  lemma LexSpelling(table: UnicodeTable, t: Token, rest: string)
    requires table.Valid() && Spellable(table, t)
    requires EOF_CHAR !in Spelling(t) + " " + rest
    ensures LexToken(table, Spelling(t) + " " + rest) == Lexed(t, |Spelling(t)|)
  {
    if t.Lit? || t.Defined? || (t.Ident? && t.name != "$") {
      assert Spelling(t) + " " + rest == Spelling(t) + (" " + rest);
      LexWordSpelling(table, t, rest);
    } else {
      LexPunctuationSpelling(table, t, rest);
    }
  }

  /** A character that begins neither a string nor a number nor a word stands for itself or, together
      with the next one, for a token. */
  lemma Punctuated(table: UnicodeTable, c: char, d: char)
    requires table.Valid() && c < '\U{80}' && c != '"' && d < '\U{80}'
    requires !('0' <= c <= '9') && !('a' <= c <= 'z') && !('A' <= c <= 'Z')
    ensures LexToken(table, [c, d]) == LexPunctuation(c, d)
  {
  }

  /** The operators of one or two characters, as they are written. */
  lemma OperatorTokens(table: UnicodeTable)
    requires table.Valid()
    ensures LexToken(table, "+ ").tok == Op(Add) && LexToken(table, "- ").tok == Op(Sub)
    ensures LexToken(table, "* ").tok == Op(Mul) && LexToken(table, "/ ").tok == Op(Quo)
    ensures LexToken(table, "% ").tok == Op(Rem) && LexToken(table, "! ").tok == Not
    ensures LexToken(table, "&&").tok == Op(LAnd) && LexToken(table, "||").tok == Op(LOr)
    ensures LexToken(table, "??").tok == Op(Coalescing) && LexToken(table, "? ").tok == Question
    ensures LexToken(table, "==").tok == Op(Eql) && LexToken(table, "!=").tok == Op(Neq)
    ensures LexToken(table, "< ").tok == Op(Lss) && LexToken(table, "<=").tok == Op(Leq)
    ensures LexToken(table, "> ").tok == Op(Gtr) && LexToken(table, ">=").tok == Op(Geq)
  {
    Punctuated(table, '+', ' ');
    Punctuated(table, '-', ' ');
    Punctuated(table, '*', ' ');
    Punctuated(table, '/', ' ');
    Punctuated(table, '%', ' ');
    Punctuated(table, '!', ' ');
    Punctuated(table, '&', '&');
    Punctuated(table, '|', '|');
    Punctuated(table, '?', '?');
    Punctuated(table, '?', ' ');
    Punctuated(table, '=', '=');
    Punctuated(table, '!', '=');
    Punctuated(table, '<', ' ');
    Punctuated(table, '<', '=');
    Punctuated(table, '>', ' ');
    Punctuated(table, '>', '=');
  }

  /** A number has one point at most, not at its end, and no zero in front of another digit; with a
      point it is a float, without an int. */
  lemma NumbersMean(text: string)
    requires text != ""
    ensures NumberToken(text) ==
      if multiset(text)['.'] > 1 || text[|text| - 1] == '.' || (text[0] == '0' && |text| > 1 && text[1] != '.')
      then Illegal(text)
      else if '.' in text then Lit(FLOAT, text) else Lit(INT, text)
  {
    DotsCount(text);
    assert '.' in multiset(text) <==> '.' in text;
    assert |text| > 1 ==> ByteLen(text[1..]) > 0;
    assert |text| > 1 && text[1] == '.' ==> '.' in text;
    assert text[|text| - 1] in text;
  }

  lemma {:induction false} DotsCount(text: string)
    ensures Dots(text) == multiset(text)['.']
  {
    if text != "" {
      DotsCount(text[1..]);
      assert text == [text[0]] + text[1..];
    }
  }

  /** A word of ASCII letters, digits, hyphens and underscores that begins with a letter is read as a
      whole, as an identifier unless it is one of the words that mean something. */
  lemma AsciiWords(table: UnicodeTable, s: string, rest: string)
    requires table.Valid() && s != "" && ('a' <= s[0] <= 'z' || 'A' <= s[0] <= 'Z') && EOF_CHAR !in s + (" " + rest)
    requires forall c <- s :: 'a' <= c <= 'z' || 'A' <= c <= 'Z' || '0' <= c <= '9' || c == '-' || c == '_'
    ensures LexToken(table, s + (" " + rest)) ==
      Lexed(if s == "true" || s == "false" then Lit(BOOL, s)
            else if s == "nil" || s == "null" then Lit(NIL, s)
            else if s == "defined" then Defined
            else Ident(s), |s|)
  {
    LexIdentSpelling(table, s, " " + rest);
  }

  /** Digits and points that begin with a digit are read as a whole. */
  lemma AsciiNumbers(table: UnicodeTable, s: string, rest: string)
    requires table.Valid() && s != "" && '0' <= s[0] <= '9' && EOF_CHAR !in s + (" " + rest)
    requires forall c <- s :: '0' <= c <= '9' || c == '.'
    ensures LexToken(table, s + (" " + rest)) == Lexed(NumberToken(s), |s|)
  {
    LexNumberSpelling(table, s, " " + rest);
  }

  // ----- positions

  /** A number is reported at the position of its first digit exactly when it is written in
      ASCII: the scanner goes back by its encoded length. */
  lemma {:induction false} NumberPositionExact(table: UnicodeTable, begin: nat, lexeme: string, tok: Token)
    requires lexeme != "" && table.IsDigit(lexeme[0])
    ensures ReportedPosition(table, begin, lexeme, tok) == begin <==> IsAscii(lexeme)
  {
    AsciiLength(lexeme);
  }

  predicate IsAscii(s: string) {
    s == "" || (s[0] < '\U{80}' && IsAscii(s[1..]))
  }

  lemma {:induction false} AsciiLength(s: string)
    ensures ByteLen(s) == |s| <==> IsAscii(s)
  {
    if s != "" {
      AsciiLength(s[1..]);
    }
  }

  const ARABIC_INDIC_THREE := "\U{663}"

  /** One digit is a number. */
  lemma LexSingleDigit(table: UnicodeTable, text: string)
    requires |text| == 1 && EOF_CHAR !in text && table.IsDigit(text[0])
    requires text[0] != '0' && text[0] != '.' && text[0] != '"'
    ensures LexToken(table, text) == Lexed(Lit(INT, text), 1)
  {
    assert text[1..] == "" && text[..1] == text;
    assert Run(ch => table.InNumber(ch), text) == 1;
    assert Dots(text) == 0;
  }

  /** An Arabic-Indic digit three at the start of a text is reported before the text. */
  lemma NonAsciiNumberPosition()
    ensures exists table: UnicodeTable ::
      && table.Valid()
      && LexToken(table, ARABIC_INDIC_THREE) == Lexed(Lit(INT, ARABIC_INDIC_THREE), 1)
      && ReportedPosition(table, 1, ARABIC_INDIC_THREE, Lit(INT, ARABIC_INDIC_THREE)) == 0
  {
    var table := UnicodeTable(_ => false, c => c == '\U{663}');
    LexSingleDigit(table, ARABIC_INDIC_THREE);
    assert ByteLen(ARABIC_INDIC_THREE) == 2;
    assert ReportedPosition(table, 1, ARABIC_INDIC_THREE, Lit(INT, ARABIC_INDIC_THREE)) == 0;
  }
}
