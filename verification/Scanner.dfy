/** The scanner object: a reader, a pushback buffer and mode flags, all updated in place. */
module Scanner {
  import opened Tokens
  import opened ScannerSpec
  import opened Options

  class Scanner {
    const table: UnicodeTable
    ghost const text: string       // the whole text
    var input: string              // what the reader has still to deliver
    var buf: string                // runes given back
    var pos: nat
    var isReadingParameter: bool
    var expectColon: bool

    /** Nothing is lost: the runes consumed so far, the pushback buffer and the unread input
        make up the text, and `pos` is 1 plus the number of runes consumed. */
    ghost predicate Valid()
      reads this
    {
      && table.Valid()
      && EOF_CHAR !in text
      && 1 <= pos <= |text| + 1
      && buf + input == text[pos - 1..]
      && Pushback(buf)
    }

    /** At most one rune is ever given back, or both braces that end a raw string. */
    static ghost predicate Pushback(buf: string) {
      |buf| <= 1 || buf == "{{"
    }

    ghost function Remaining(): string
      reads this
      requires Valid()
    {
      text[pos - 1..]
    }

    constructor (table: UnicodeTable, text: string)
      requires table.Valid() && EOF_CHAR !in text
      ensures this.table == table && this.text == text
      ensures Valid() && Remaining() == text && buf == "" && !isReadingParameter && !expectColon
    {
      this.table, this.text := table, text;
      input, buf, pos := text, "", 1;
      isReadingParameter, expectColon := false, false;
    }

    method Read() returns (ch: char)
      requires Valid()
      modifies this`input, this`buf, this`pos
      ensures Valid()
      ensures ch == Peek(old(Remaining()), 0)
      ensures Remaining() == if old(Remaining()) == "" then "" else old(Remaining())[1..]
      ensures pos == old(pos) + if old(Remaining()) == "" then 0 else 1
      ensures |buf| == if |old(buf)| > 0 then |old(buf)| - 1 else 0
    {
      if |buf| > 0 {
        ch, buf := buf[0], buf[1..];
        pos := pos + 1;
        assert (buf + input) == text[pos - 1..];
        return;
      }
      if input == "" {
        return EOF_CHAR;
      }
      ch, input := input[0], input[1..];
      pos := pos + 1;
    }

    /** Giving back the rune just read, which is the one before `pos`. The buffer is extended
        at its end, so this is right only when it is empty or holds that same rune. */
    method Unread(ch: char)
      requires Valid()
      requires ch != EOF_CHAR ==> pos > 1 && text[pos - 2] == ch && (buf == "" || (buf == [ch] && ch == '{'))
      modifies this`buf, this`pos
      ensures Valid()
      ensures pos == if ch == EOF_CHAR then old(pos) else old(pos) - 1
      ensures buf == if ch == EOF_CHAR then old(buf) else old(buf) + [ch]
    {
      if ch == EOF_CHAR {
        return;
      }
      assert text[pos - 2..] == [ch] + text[pos - 1..];
      buf := buf + [ch];
      pos := pos - 1;
      assert buf + input == [ch] + (old(buf) + input);
    }

    /** Reads one rune more than the longest prefix satisfying `p`, and gives it back. */
    method SkipSpaces()
      requires Valid() && |buf| <= 1
      modifies this`input, this`buf, this`pos
      ensures Valid() && |buf| <= 1
      ensures pos == old(pos) + Run(IsSpace, old(Remaining()))
    {
      ghost var rest := Remaining();
      ghost var end := pos + Run(IsSpace, rest);
      while true
        invariant Valid() && |buf| <= 1 && rest == Remaining()
        invariant pos + Run(IsSpace, rest) == end
        decreases |text| + 1 - pos
      {
        var more := ReadSpace();
        if !more {
          return;
        }
        rest := rest[1..];
      }
    }

    /** Reads a rune, and gives it back unless it is a space. */
    method ReadSpace() returns (more: bool)
      requires Valid() && |buf| <= 1
      modifies this`input, this`buf, this`pos
      ensures Valid() && more == IsSpace(Peek(old(Remaining()), 0))
      ensures |buf| <= 1 && pos == old(pos) + if more then 1 else 0
    {
      var ch := Read();
      more := ch == ' ' || ch == '\n' || ch == '\r';
      if !more {
        Unread(ch);
      }
    }

    method ScanRawString() returns (start: nat, tok: Token)
      requires Valid()
      modifies this`input, this`buf, this`pos
      ensures Valid() && start == old(pos) <= pos
      ensures Lexed(tok, pos - start) == LexRaw(old(Remaining()))
      ensures |buf| <= 1 || (tok.Lit? && buf == "{{")
      ensures tok.LDBrace? || tok.Eof? ==> buf == ""
    {
      start := pos;
      var b, ch := ReadRawRunes();
      if |b| > 0 && ch != EOF_CHAR {
        UnreadBraces();
      }
      tok := if |b| > 0 then Lit(STRING, b) else if ch == EOF_CHAR then Eof else LDBrace(false);
    }

    method UnreadBraces()
      requires Valid() && buf == "" && pos > 2 && text[pos - 2] == '{' && text[pos - 3] == '{'
      modifies this`buf, this`pos
      ensures Valid() && buf == "{{" && pos == old(pos) - 2
    {
      Unread('{');
      Unread('{');
    }

    /** The loop of `scanRawString`: reads the string and what ends it. */
    method ReadRawRunes() returns (b: string, ch: char)
      requires Valid()
      modifies this`input, this`buf, this`pos
      ensures Valid() && b == RawText(old(Remaining()))
      ensures var len := RawLen(old(Remaining()));
        if ch == EOF_CHAR then pos == old(pos) + len && Remaining() == "" && (b != "" ==> |buf| <= 1)
        else ch == '{' && pos == old(pos) + len + 2 && buf == "" && text[pos - 2] == '{' && text[pos - 3] == '{'
      ensures ch == EOF_CHAR && b == "" ==> old(Remaining()) == ""
      ensures ch != EOF_CHAR && b == "" ==> OpensParameter(old(Remaining()))
    {
      b := "";
      ghost var rest := Remaining();
      ghost var start, whole, len := pos, RawText(rest), RawLen(rest);
      assert b + whole == whole;
      while true
        invariant Valid() && start <= pos && rest == Remaining()
        invariant b == "" ==> pos == start
        invariant b != "" ==> |buf| <= 1
        invariant whole == b + RawText(rest) && len == pos - start + RawLen(rest)
        decreases |text| + 1 - pos
      {
        RawStep(rest, b);
        var end;
        ch, end := ReadRawRune();
        if end {
          assert ch != EOF_CHAR ==> rest[0] == '{' && rest[1] == '{';
          return;
        }
        b := b + [ch];
        rest := rest[RawWidth(rest)..];
      }
    }

    /** The switch of `scanRawString`: reads one rune, resolving its escape. At the end of the
        string it returns the end-of-text rune, or a brace with both braces consumed. */
    method ReadRawRune() returns (ch: char, end: bool)
      requires Valid()
      modifies this`input, this`buf, this`pos
      ensures Valid()
      ensures var rest := old(Remaining());
        if rest == "" then end && ch == EOF_CHAR && pos == old(pos) && buf == old(buf)
        else if OpensParameter(rest) then end && ch == '{' && pos == old(pos) + 2 && buf == ""
        else
          var w := RawWidth(rest);
          !end && ch == rest[w - 1] && Remaining() == rest[w..] && pos == old(pos) + w && |buf| <= 1
    {
      if Remaining() != "" {
        RawCases(Remaining());
      }
      ch := Read();
      end := ch == EOF_CHAR;
      if ch == '{' {
        var next, again := ReadIf(ch, "{");
        end := again;
      } else if ch == '\\' {
        var next, escaped := ReadIf(ch, "\\{");
        if escaped {
          ch := next;
        }
      }
    }

    static lemma RawCases(rest: string)
      requires rest != ""
      ensures OpensParameter(rest) <==> rest[0] == '{' && Peek(rest[1..], 0) == '{'
      ensures RawWidth(rest) == if rest[0] == '\\' && Peek(rest[1..], 0) in "\\{" then 2 else 1
      ensures |rest| > 1 ==> rest[1..][1..] == rest[2..] && Peek(rest[1..], 0) == rest[1]
    {
    }

    /** Reads a rune, and gives it back unless it is one of `wanted`; `before` has just been read. */
    method ReadIf(ghost before: char, wanted: string) returns (next: char, found: bool)
      requires Valid() && pos > 1 && text[pos - 2] == before && |buf| <= 1 && (buf != "" ==> before == '{')
      requires EOF_CHAR !in wanted
      modifies this`input, this`buf, this`pos
      ensures Valid() && |buf| <= 1
      ensures next == Peek(old(Remaining()), 0) && found == (next in wanted)
      ensures pos == old(pos) + if found then 1 else 0
      ensures found ==> buf == ""
      ensures Remaining() == if found then old(Remaining())[1..] else old(Remaining())
    {
      next := Read();
      found := next in wanted;
      if !found {
        Unread(next);
      }
    }

    /** One round of the loop of `scanRawString`. */
    static lemma RawStep(rest: string, b: string)
      ensures rest == "" || OpensParameter(rest) ==> b + RawText(rest) == b
      ensures rest != "" && !OpensParameter(rest) ==> var w := RawWidth(rest);
        && b + RawText(rest) == (b + [rest[w - 1]]) + RawText(rest[w..])
        && RawLen(rest) == w + RawLen(rest[w..])
    {
      if rest != "" && !OpensParameter(rest) {
        var w := RawWidth(rest);
        assert RawText(rest) == [rest[w - 1]] + RawText(rest[w..]);
        Regroup(b, rest[w - 1], RawText(rest[w..]));
      }
    }

    static lemma Regroup(b: string, ch: char, more: string)
      ensures b + ([ch] + more) == (b + [ch]) + more
    {
    }

    /** What remains after `n` more runes. */
    static lemma DropMore(text: string, start: nat, n: nat)
      requires start + n <= |text|
      ensures text[start..][n..] == text[start + n..]
      ensures forall i | 0 <= i < n :: text[start..][i] == text[start + i]
    {
    }

    /** The token whose text begins at position `begin` has been read. */
    ghost predicate Lexes(begin: nat, start: int, tok: Token)
      requires EOF_CHAR !in text
      reads this
    {
      LexesAt(table, text, begin, pos, start, tok)
    }

    /** A quoted string; the opening quote has just been read. */
    method ScanString() returns (start: int, tok: Token)
      requires Valid() && buf == ""
      requires pos > 1 && text[pos - 2] == '"'
      modifies this`input, this`buf, this`pos
      ensures Valid() && buf == "" && old(pos) <= pos
      ensures Lexes(old(pos) - 1, start, tok) && !tok.RDBrace? && !tok.LArrow?
    {
      var b, closed := ReadString();
      start := if closed then pos - |b| - 2 else pos;
      tok := if closed then Lit(STRING, b) else Illegal("");
      StringLexes(old(pos) - 1, |b|, tok);
    }

    /** The loop of `scanString`: reads up to the closing quote, or to the end of the text. */
    method ReadString() returns (b: string, closed: bool)
      requires Valid() && buf == ""
      modifies this`input, this`buf, this`pos
      ensures Valid() && buf == "" && |b| == Run(InString, old(Remaining()))
      ensures closed == (|b| < |old(Remaining())|) && pos == old(pos) + |b| + if closed then 1 else 0
      ensures b == text[old(pos) - 1..old(pos) - 1 + |b|]
    {
      b := "";
      ghost var begin, rest := pos, Remaining();
      ghost var n := Run(InString, rest);
      while true
        invariant Valid() && buf == "" && rest == Remaining()
        invariant begin + |b| == pos && b == text[begin - 1..pos - 1]
        invariant |b| + Run(InString, rest) == n
        decreases |text| + 1 - pos
      {
        var ch, more := ReadStringRune();
        if !more {
          return b, ch != EOF_CHAR;
        }
        SliceGrows(text, begin - 1, pos - 2);
        b, rest := b + [ch], rest[1..];
      }
    }

    /** Reads a rune, and says whether it belongs to the string. */
    method ReadStringRune() returns (ch: char, more: bool)
      requires Valid() && buf == ""
      modifies this`input, this`buf, this`pos
      ensures Valid() && buf == "" && ch == Peek(old(Remaining()), 0)
      ensures more == (ch != EOF_CHAR && InString(ch))
      ensures pos == old(pos) + if ch == EOF_CHAR then 0 else 1
    {
      ch := Read();
      more := ch != EOF_CHAR && ch != '"';
    }

    static lemma SliceGrows(text: string, i: nat, j: nat)
      requires i <= j < |text|
      ensures text[i..j] + [text[j]] == text[i..j + 1] && text[j..][0] == text[j]
    {
    }

    static lemma QuotedLexes(table: UnicodeTable, rest: string, n: nat)
      requires EOF_CHAR !in rest && Peek(rest, 0) == '"' && n == Run(InString, rest[1..])
      ensures LexToken(table, rest) ==
        if n + 1 == |rest| then Lexed(Illegal(""), |rest|) else Lexed(Lit(STRING, rest[1..][..n]), n + 2)
    {
      assert n + 1 < |rest| ==> rest[1..][..n] == rest[1..n + 1];
    }

    lemma StringLexes(begin: nat, n: nat, tok: Token)
      requires Valid() && 1 <= begin < pos && text[begin - 1] == '"'
      requires n == Run(InString, text[begin..])
      requires if begin + n == |text| then pos == |text| + 1 && tok == Illegal("")
               else pos == begin + n + 2 && tok == Lit(STRING, text[begin..begin + n])
      ensures Lexes(begin, if tok.Lit? then begin else pos, tok)
    {
      var rest := text[begin - 1..];
      assert rest[1..] == text[begin..] && text[begin..][..n] == text[begin..begin + n];
      QuotedLexes(table, rest, n);
      QuotedPosition(table, begin, text[begin - 1..pos - 1], tok);
    }

    static lemma QuotedPosition(table: UnicodeTable, begin: nat, lexeme: string, tok: Token)
      requires lexeme != "" && lexeme[0] == '"' && (tok.Lit? || tok == Illegal(""))
      ensures ReportedPosition(table, begin, lexeme, tok) == if tok.Lit? then begin else begin + |lexeme|
    {
    }

    /** A number; its first digit has just been read. The position is computed from the
        encoded length of the number. */
    method ScanInt(head: char) returns (start: int, tok: Token)
      requires Valid() && buf == ""
      requires pos > 1 && text[pos - 2] == head && table.IsDigit(head)
      modifies this`input, this`buf, this`pos
      ensures Valid() && |buf| <= 1 && old(pos) <= pos
      ensures Lexes(old(pos) - 1, start, tok) && !tok.RDBrace? && !tok.LArrow?
    {
      var b, tk, illegal := ReadDigits(head);
      start := pos - ByteLen(b);
      tok := if illegal then Illegal(b)
             else if tk == INT then (if head == '0' && ByteLen(b) != 1 then Illegal(b) else Lit(INT, b))
             else if head == '0' && b[1] != '.' then Illegal(b)
             else if b[|b| - 1] == '.' then Illegal(b)
             else Lit(FLOAT, b);
      assert tok == NumberToken(b) && text[old(pos) - 2..][..|b|] == b;
    }

    /** The loop of `scanInt`: reads digits and dots. */
    method ReadDigits(head: char) returns (b: string, tk: LitKind, illegal: bool)
      requires Valid() && buf == ""
      requires pos > 1 && text[pos - 2] == head && table.IsDigit(head)
      modifies this`input, this`buf, this`pos
      ensures Valid() && |buf| <= 1 && old(pos) <= pos
      ensures b == text[old(pos) - 2..pos - 1] && b != "" && b[0] == head
      ensures |b| == Run(ch => table.InNumber(ch), text[old(pos) - 2..])
      ensures (illegal <==> Dots(b) >= 2) && tk == (if Dots(b) == 0 then INT else FLOAT)
      ensures Dots(b) > 0 ==> |b| > 1
    {
      b, tk, illegal := [head], INT, false;
      ghost var begin, rest := pos - 1, Remaining();
      ghost var n := Run(ch => table.InNumber(ch), text[begin - 1..]);
      assert text[begin - 1..][1..] == rest;
      while true
        invariant Valid() && buf == "" && begin < pos && rest == Remaining()
        invariant |b| == pos - begin && b == text[begin - 1..pos - 1] && b[0] == head
        invariant |b| + Run(ch => table.InNumber(ch), rest) == n
        invariant illegal <==> Dots(b) >= 2
        invariant tk == (if Dots(b) == 0 then INT else FLOAT)
        invariant Dots(b) > 0 ==> |b| > 1
        decreases |text| + 1 - pos
      {
        var ch, more := ReadDigit();
        if !more {
          return;
        }
        if !table.IsDigit(ch) {
          if tk == INT {
            tk := FLOAT;
          } else {
            illegal := true;
          }
        }
        DotsAppend(b, ch);
        SliceGrows(text, begin - 1, pos - 2);
        b, rest := b + [ch], rest[1..];
      }
    }

    /** Reads a rune, and gives it back unless it is a digit or a dot. */
    method ReadDigit() returns (ch: char, more: bool)
      requires Valid() && buf == ""
      modifies this`input, this`buf, this`pos
      ensures Valid() && ch == Peek(old(Remaining()), 0) && more == table.InNumber(ch)
      ensures if more then pos == old(pos) + 1 && buf == "" else pos == old(pos) && |buf| <= 1
    {
      ch := Read();
      more := table.IsDigit(ch) || ch == '.';
      if !more {
        Unread(ch);
      }
    }

    static lemma DotsAppend(b: string, ch: char)
      ensures Dots(b + [ch]) == Dots(b) + if ch == '.' then 1 else 0
    {
      if b == "" {
        assert b + [ch] == [ch] && [ch][1..] == "";
      } else {
        assert (b + [ch])[1..] == b[1..] + [ch];
        DotsAppend(b[1..], ch);
      }
    }

    /** Reads a rune, and gives it back unless it belongs to an identifier. */
    method ReadIdentRune() returns (ch: char, more: bool)
      requires Valid() && buf == ""
      modifies this`input, this`buf, this`pos
      ensures Valid() && ch == Peek(old(Remaining()), 0) && more == table.InIdent(ch)
      ensures if more then pos == old(pos) + 1 && buf == "" else pos == old(pos) && |buf| <= 1
    {
      ch := Read();
      more := ch == '-' || ch == '_' || table.IsLetter(ch) || table.IsDigit(ch);
      if !more {
        Unread(ch);
      }
    }

    method ScanIdent(head: char) returns (start: int, tok: Token)
      requires Valid() && buf == ""
      requires pos > 1 && text[pos - 2] == head && table.IsLetter(head) && !table.IsDigit(head)
      modifies this`input, this`buf, this`pos
      ensures Valid() && |buf| <= 1 && old(pos) <= pos
      ensures Lexes(old(pos) - 1, start, tok) && !tok.RDBrace? && !tok.LArrow?
    {
      var b := ReadIdent(head);
      start, tok := pos - |b|, IdentToken(b);
      assert text[old(pos) - 2..][..|b|] == b;
    }

    /** The loop of `scanIdent`. */
    method ReadIdent(head: char) returns (b: string)
      requires Valid() && buf == ""
      requires pos > 1 && text[pos - 2] == head && table.IsLetter(head)
      modifies this`input, this`buf, this`pos
      ensures Valid() && |buf| <= 1 && old(pos) <= pos
      ensures b == text[old(pos) - 2..pos - 1]
      ensures |b| == Run(ch => table.InIdent(ch), text[old(pos) - 2..])
    {
      b := [head];
      ghost var begin, rest := pos - 1, Remaining();
      ghost var n := Run(ch => table.InIdent(ch), text[begin - 1..]);
      assert text[begin - 1..][1..] == rest;
      while true
        invariant Valid() && buf == "" && begin < pos && rest == Remaining()
        invariant |b| == pos - begin && b == text[begin - 1..pos - 1]
        invariant |b| + Run(ch => table.InIdent(ch), rest) == n
        decreases |text| + 1 - pos
      {
        var ch, more := ReadIdentRune();
        if !more {
          return;
        }
        SliceGrows(text, begin - 1, pos - 2);
        b, rest := b + [ch], rest[1..];
      }
    }

    /** Reads the next rune and gives it back unless it is the wanted one. */
    method Accept(want: char) returns (ok: bool)
      requires Valid() && buf == "" && want != EOF_CHAR
      modifies this`input, this`buf, this`pos
      ensures Valid() && |buf| <= 1
      ensures ok == (Peek(old(Remaining()), 0) == want)
      ensures if ok then pos == old(pos) + 1 && buf == "" else pos == old(pos)
    {
      var next := Read();
      ok := next == want;
      if !ok {
        Unread(next);
      }
    }

    /** The punctuation cases of `scanToken`; `ch` has just been read. */
    method ScanPunctuation(ch: char) returns (tok: Token)
      requires Valid() && buf == ""
      requires pos > 1 && text[pos - 2] == ch && ch != '"' && !table.IsDigit(ch) && !table.IsLetter(ch)
      modifies this`input, this`buf, this`pos, this`isReadingParameter, this`expectColon
      ensures Valid() && |buf| <= 1
      ensures Lexes(old(pos) - 1, old(pos) - 1, tok)
      ensures isReadingParameter == (old(isReadingParameter) && !tok.RDBrace?)
      ensures expectColon == (old(expectColon) || tok.LArrow?)
      ensures tok.RDBrace? ==> buf == ""
    {
      if ch == '?' || ch == '!' || ch == '<' || ch == '>' {
        tok := ScanComparison(ch);
        PunctuationLexes(old(pos) - 1, tok);
        return;
      }
      var doubled := false;
      if ch == '}' || ch == '&' || ch == '|' || ch == '=' {
        doubled := Accept(ch);
      }
      if doubled && ch == '}' {
        isReadingParameter := false;
      }
      tok :=
        if ch == '(' then LParen
        else if ch == ')' then RParen
        else if ch == '[' then LBrack
        else if ch == ']' then RBrack
        else if ch == '}' && doubled then RDBrace
        else if ch == ',' then Comma
        else if ch == '.' then Period
        else if ch == ':' then Colon
        else if ch == '+' then Op(Add)
        else if ch == '-' then Op(Sub)
        else if ch == '*' then Op(Mul)
        else if ch == '/' then Op(Quo)
        else if ch == '%' then Op(Rem)
        else if ch == '&' && doubled then Op(LAnd)
        else if ch == '|' && doubled then Op(LOr)
        else if ch == '=' && doubled then Op(Eql)
        else if ch == '$' then Ident("$")
        else Illegal([ch]);
      PunctuationLexes(old(pos) - 1, tok);
    }

    lemma PunctuationLexes(begin: nat, tok: Token)
      requires Valid() && 1 <= begin < pos
      requires var rest := text[begin - 1..];
        && rest[0] != '"' && !table.IsDigit(rest[0]) && !table.IsLetter(rest[0])
        && Lexed(tok, pos - begin) == LexPunctuation(rest[0], Peek(rest, 1))
      ensures Lexes(begin, begin, tok)
    {
    }

    /** The cases that are tokens with and without a second rune. */
    method ScanComparison(ch: char) returns (tok: Token)
      requires Valid() && buf == ""
      requires ch == '?' || ch == '!' || ch == '<' || ch == '>'
      modifies this`input, this`buf, this`pos, this`expectColon
      ensures Valid() && |buf| <= 1 && old(pos) <= pos
      ensures Lexed(tok, pos + 1 - old(pos)) == LexPunctuation(ch, Peek(old(Remaining()), 0))
      ensures expectColon == (old(expectColon) || tok.LArrow?)
    {
      var next := Read();
      if ch == '?' && next == '?' {
        return Op(Coalescing);
      } else if ch == '!' && next == '=' {
        return Op(Neq);
      } else if ch == '<' && next == '=' {
        return Op(Leq);
      } else if ch == '<' && next == '-' {
        expectColon := true;
        return LArrow;
      } else if ch == '>' && next == '=' {
        return Op(Geq);
      }
      Unread(next);
      tok := if ch == '?' then Question
             else if ch == '!' then Not
             else if ch == '<' then Op(Lss)
             else Op(Gtr);
    }

    method ScanToken() returns (start: int, tok: Token)
      requires Valid() && |buf| <= 1
      modifies this`input, this`buf, this`pos, this`isReadingParameter, this`expectColon
      ensures Valid() && |buf| <= 1
      ensures old(pos) <= pos
      ensures Lexes(old(pos) + Run(IsSpace, old(Remaining())), start, tok)
      ensures isReadingParameter == (old(isReadingParameter) && !tok.RDBrace?)
      ensures expectColon == (old(expectColon) || tok.LArrow?)
      ensures tok.RDBrace? ==> buf == ""
    {
      SkipSpaces();
      start, tok := ScanLexeme();
    }

    lemma EndLexes()
      requires Valid() && Remaining() == ""
      ensures Lexes(pos, pos, Eof)
    {
    }

    /** `scanToken` after the spaces. */
    method ScanLexeme() returns (start: int, tok: Token)
      requires Valid() && |buf| <= 1
      modifies this`input, this`buf, this`pos, this`isReadingParameter, this`expectColon
      ensures Valid() && |buf| <= 1 && old(pos) <= pos
      ensures Lexes(old(pos), start, tok)
      ensures isReadingParameter == (old(isReadingParameter) && !tok.RDBrace?)
      ensures expectColon == (old(expectColon) || tok.LArrow?)
      ensures tok.RDBrace? ==> buf == ""
    {
      start := pos;
      var ch := Read();
      if ch == EOF_CHAR {
        tok := Eof;
        EndLexes();
      } else if ch == '"' || table.IsDigit(ch) || table.IsLetter(ch) {
        start, tok := ScanWord(ch);
      } else {
        tok := ScanPunctuation(ch);
      }
    }

    /** Strings, numbers and identifiers; `ch` has just been read. */
    method ScanWord(ch: char) returns (start: int, tok: Token)
      requires Valid() && buf == ""
      requires pos > 1 && text[pos - 2] == ch && (ch == '"' || table.IsDigit(ch) || table.IsLetter(ch))
      modifies this`input, this`buf, this`pos
      ensures Valid() && |buf| <= 1 && old(pos) <= pos
      ensures Lexes(old(pos) - 1, start, tok) && !tok.RDBrace? && !tok.LArrow?
    {
      if ch == '"' {
        start, tok := ScanString();
      } else if table.IsDigit(ch) {
        start, tok := ScanInt(ch);
      } else {
        start, tok := ScanIdent(ch);
      }
    }

    /** What the scanner may hold between two calls of `Scan`. */
    ghost predicate Ready()
      reads this
    {
      && Valid()
      && (isReadingParameter ==> |buf| <= 1)
      && (!isReadingParameter && expectColon ==> buf == "")
    }

    /** The next token. After the braces of a left-arrow call a colon must follow, and the
        whole rest of the text goes to the YAML scanner. */
    method Scan() returns (start: int, tok: Token, yaml: Option<string>)
      requires Ready()
      modifies this`input, this`buf, this`pos, this`isReadingParameter, this`expectColon
      ensures yaml == (if !old(isReadingParameter) && old(expectColon) then HandOver(old(Remaining())) else None)
      ensures yaml.None? ==> Ready() && old(pos) <= pos
      ensures old(isReadingParameter) ==>
        && Lexes(old(pos) + Run(IsSpace, old(Remaining())), start, tok)
        && isReadingParameter == !tok.RDBrace?
        && expectColon == (old(expectColon) || tok.LArrow?)
      ensures yaml.None? && !old(isReadingParameter) && old(expectColon) ==> MissesColon(start, tok)
      ensures !old(isReadingParameter) && !old(expectColon) ==> ReadsRaw(start, tok)
    {
      yaml := None;
      if !isReadingParameter {
        if expectColon {
          start, tok, yaml := ScanColon();
          return;
        }
        start, tok := ScanRawString();
        if tok.LDBrace? {
          isReadingParameter := true;
        }
        return;
      }
      start, tok := ScanToken();
    }

    static function HandOver(text: string): Option<string> {
      if Peek(text, 0) == ':' then Some(text[1..]) else None
    }

    twostate predicate MissesColon(start: int, tok: Token)
      requires old(Valid()) && Valid()
      reads this
    {
      var next := Peek(old(Remaining()), 0);
      && tok == (if next == EOF_CHAR then Eof else Illegal([next]))
      && start == old(pos)
      && pos == old(pos) + (if next == EOF_CHAR then 0 else 1)
      && !isReadingParameter && !expectColon
    }

    twostate predicate ReadsRaw(start: int, tok: Token)
      requires old(Valid()) && Valid()
      reads this
    {
      && start == old(pos) <= pos
      && Lexed(tok, pos - old(pos)) == LexRaw(old(Remaining()))
      && isReadingParameter == tok.LDBrace?
      && !expectColon
    }

    method ScanColon() returns (start: int, tok: Token, yaml: Option<string>)
      requires Valid() && buf == "" && expectColon && !isReadingParameter
      modifies this`input, this`buf, this`pos, this`expectColon
      ensures yaml == HandOver(old(Remaining()))
      ensures yaml.None? ==> Valid() && old(pos) <= pos && buf == "" && MissesColon(start, tok)
    {
      expectColon := false;
      DropMore(text, pos - 1, if pos - 1 < |text| then 1 else 0);
      var ch := Read();
      if ch == ':' {
        assert buf + input == input;
        yaml := Some(input);
        input := "";
        return 0, Eof, yaml;
      }
      if ch == EOF_CHAR {
        return pos, Eof, None;
      }
      return pos - 1, Illegal([ch]), None;
    }
  }
}
