/** What the scanner reads off the front of its remaining text. */
module ScannerSpec {
  import opened Tokens

  /** The code point the scanner takes for the end of the text. */
  const EOF_CHAR: char := '\U{FFFD}'

  /** Classification of the characters outside ASCII. */
  datatype UnicodeTable = UnicodeTable(letter: char -> bool, digit: char -> bool) {
    predicate Valid() {
      !letter(EOF_CHAR) && !digit(EOF_CHAR)
    }

    predicate IsLetter(ch: char) {
      'a' <= ch <= 'z' || 'A' <= ch <= 'Z' || (ch >= '\U{80}' && letter(ch))
    }

    predicate IsDigit(ch: char) {
      '0' <= ch <= '9' || (ch >= '\U{80}' && digit(ch))
    }

    predicate InNumber(ch: char) {
      IsDigit(ch) || ch == '.'
    }

    predicate InIdent(ch: char) {
      ch == '-' || ch == '_' || IsLetter(ch) || IsDigit(ch)
    }
  }

  /** The length of the longest prefix whose characters all satisfy `p`. */
  function Run(p: char -> bool, text: string): (n: nat)
    ensures n <= |text|
  {
    if text == "" || !p(text[0]) then 0 else 1 + Run(p, text[1..])
  }

  predicate IsSpace(ch: char) {
    ch == ' ' || ch == '\n' || ch == '\r'
  }

  function Peek(text: string, i: nat): char {
    if i < |text| then text[i] else EOF_CHAR
  }

  /** A token and the number of characters it takes up. */
  datatype Lexed = Lexed(tok: Token, len: nat)

  // ----- outside parameters

  /** The string read outside a parameter: up to the end or an unescaped "{{", with the
      escapes of backslash and opening brace resolved. */
  function RawText(text: string): (r: string)
    ensures r == "" <==> text == "" || OpensParameter(text)
  {
    if text == "" || OpensParameter(text) then ""
    else
      var w := RawWidth(text);
      [text[w - 1]] + RawText(text[w..])
  }

  /** The number of characters that string takes up. */
  function RawLen(text: string): (n: nat)
    ensures n <= |text|
    ensures n == 0 <==> text == "" || OpensParameter(text)
  {
    if text == "" || OpensParameter(text) then 0
    else RawWidth(text) + RawLen(text[RawWidth(text)..])
  }

  /** How many characters stand for the next one. */
  function RawWidth(text: string): (w: nat)
    requires text != ""
    ensures 1 <= w <= |text|
  {
    if text[0] == '\\' && (Peek(text, 1) == '\\' || Peek(text, 1) == '{') then 2 else 1
  }

  predicate OpensParameter(text: string) {
    Peek(text, 0) == '{' && Peek(text, 1) == '{'
  }

  function LexRaw(text: string): (r: Lexed)
    ensures r.len <= |text|
  {
    if text == "" then Lexed(Eof, 0)
    else if OpensParameter(text) then Lexed(LDBrace(false), 2)
    else Lexed(Lit(STRING, RawText(text)), RawLen(text))
  }

  // ----- inside parameters

  predicate InString(ch: char) {
    ch != '"'
  }

  function LexString(text: string): (r: Lexed)
    requires Peek(text, 0) == '"'
    ensures r.len <= |text|
  {
    var n := Run(InString, text[1..]);
    if n + 1 == |text| then Lexed(Illegal(""), |text|) // not terminated
    else Lexed(Lit(STRING, text[1..n + 1]), n + 2)
  }

  function Dots(text: string): nat {
    if text == "" then 0 else (if text[0] == '.' then 1 else 0) + Dots(text[1..])
  }

  /** The encoded length, which the scanner uses for numbers. */
  function ByteLen(text: string): (n: nat)
    ensures n >= |text|
  {
    if text == "" then 0
    else (if text[0] < '\U{80}' then 1
          else if text[0] < '\U{800}' then 2
          else if text[0] < '\U{10000}' then 3
          else 4) + ByteLen(text[1..])
  }

  function NumberToken(text: string): Token
    requires text != ""
  {
    if Dots(text) == 0 then
      if text[0] == '0' && ByteLen(text) != 1 then Illegal(text) else Lit(INT, text)
    else if Dots(text) == 1 then
      if text[0] == '0' && Peek(text, 1) != '.' then Illegal(text)
      else if text[|text| - 1] == '.' then Illegal(text)
      else Lit(FLOAT, text)
    else Illegal(text)
  }

  function IdentToken(text: string): Token {
    if text == "true" || text == "false" then Lit(BOOL, text)
    else if text == "nil" || text == "null" then Lit(NIL, text)
    else if text == "defined" then Defined
    else Ident(text)
  }

  /** Tokens of one or two punctuation characters; anything else is illegal. */
  function LexPunctuation(c: char, d: char): Lexed {
    if c == '(' then Lexed(LParen, 1)
    else if c == ')' then Lexed(RParen, 1)
    else if c == '[' then Lexed(LBrack, 1)
    else if c == ']' then Lexed(RBrack, 1)
    else if c == '}' && d == '}' then Lexed(RDBrace, 2)
    else if c == ',' then Lexed(Comma, 1)
    else if c == '.' then Lexed(Period, 1)
    else if c == '?' then (if d == '?' then Lexed(Op(Coalescing), 2) else Lexed(Question, 1))
    else if c == ':' then Lexed(Colon, 1)
    else if c == '+' then Lexed(Op(Add), 1)
    else if c == '-' then Lexed(Op(Sub), 1)
    else if c == '*' then Lexed(Op(Mul), 1)
    else if c == '/' then Lexed(Op(Quo), 1)
    else if c == '%' then Lexed(Op(Rem), 1)
    else if c == '&' && d == '&' then Lexed(Op(LAnd), 2)
    else if c == '|' && d == '|' then Lexed(Op(LOr), 2)
    else if c == '=' && d == '=' then Lexed(Op(Eql), 2)
    else if c == '!' then (if d == '=' then Lexed(Op(Neq), 2) else Lexed(Not, 1))
    else if c == '<' then
      if d == '=' then Lexed(Op(Leq), 2) else if d == '-' then Lexed(LArrow, 2) else Lexed(Op(Lss), 1)
    else if c == '>' then (if d == '=' then Lexed(Op(Geq), 2) else Lexed(Op(Gtr), 1))
    else if c == '$' then Lexed(Ident("$"), 1)
    else Lexed(Illegal([c]), 1)
  }

  /** The token at the front of a text that does not begin with a space. */
  function LexToken(table: UnicodeTable, text: string): (r: Lexed)
    requires EOF_CHAR !in text
    ensures r.len <= |text|
  {
    if text == "" then Lexed(Eof, 0)
    else if text[0] == '"' then LexString(text)
    else if table.IsDigit(text[0]) then
      var n := Run(ch => table.InNumber(ch), text);
      Lexed(NumberToken(text[..n]), n)
    else if table.IsLetter(text[0]) then
      var n := Run(ch => table.InIdent(ch), text);
      Lexed(IdentToken(text[..n]), n)
    else LexPunctuation(text[0], Peek(text, 1))
  }

  /** The position reported for a token whose text begins at `begin`. For a number it is
      computed backwards from the encoded length. */
  function ReportedPosition(table: UnicodeTable, begin: nat, lexeme: string, tok: Token): int {
    if lexeme != "" && table.IsDigit(lexeme[0]) then begin + |lexeme| - ByteLen(lexeme)
    else if tok == Illegal("") then begin + |lexeme|
    else begin
  }

  /** The token of a text that begins at position `begin` and ends before `end`. */
  ghost predicate LexesAt(table: UnicodeTable, text: string, begin: nat, end: nat, start: int, tok: Token)
    requires EOF_CHAR !in text
  {
    && 1 <= begin <= end <= |text| + 1
    && Lexed(tok, end - begin) == LexToken(table, text[begin - 1..])
    && start == ReportedPosition(table, begin, text[begin - 1..end - 1], tok)
  }
}
