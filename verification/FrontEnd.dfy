/** From the text of a template to its tree and back. */
module FrontEnd {
  import opened Tokens
  import opened Ast
  import Scanner
  import opened ScannerSpec
  import opened ScannerLemmas
  import opened ParserSpec
  import opened ParserRoundTrip

  /** What one call of the scanner comes to, apart from left-arrow calls, which hand the rest of the
      text to another scanner: the end, or a token, what remains, and whether that is in a parameter. */
  datatype Scanned = AtEnd | More(tok: Token, rest: string, reading: bool)

  /** What is left after the spaces in front of a token. */
  function Skipped(text: string, reading: bool): (from: string)
    ensures |from| <= |text| && (EOF_CHAR !in text ==> EOF_CHAR !in from)
  {
    if reading then text[Run(IsSpace, text)..] else text
  }

  function ScanOne(table: UnicodeTable, text: string, reading: bool): (s: Scanned)
    requires EOF_CHAR !in text
    ensures s.More? ==> |s.rest| < |text| && EOF_CHAR !in s.rest
  {
    var from := Skipped(text, reading);
    if from == "" then AtEnd
    else if reading then
      var l := LexToken(table, from);
      LexTokenSpelling(table, from);
      More(l.tok, from[l.len..], !l.tok.RDBrace?)
    else
      var l := LexRaw(from);
      More(l.tok, from[l.len..], l.tok.LDBrace?)
  }

  /** Spaces and line ends in front of a token of a parameter do not count, and nothing else is left out. */
  lemma SpacesSkipped(table: UnicodeTable, c: char, text: string)
    requires EOF_CHAR !in [c] + text
    ensures c == ' ' || c == '\n' || c == '\r' ==> ScanOne(table, [c] + text, true) == ScanOne(table, text, true)
    ensures !(c == ' ' || c == '\n' || c == '\r') ==>
      var l := LexToken(table, [c] + text);
      ScanOne(table, [c] + text, true) == More(l.tok, ([c] + text)[l.len..], !l.tok.RDBrace?)
  {
    assert EOF_CHAR !in text by {
      assert ([c] + text)[1..] == text;
    }
    assert ([c] + text)[1..] == text;
    if c == ' ' || c == '\n' || c == '\r' {
      assert Skipped([c] + text, true) == Skipped(text, true);
    }
  }

  /** All tokens of a text without left arrows. */
  function LexAll(table: UnicodeTable, text: string, reading: bool): seq<Token>
    requires EOF_CHAR !in text
    decreases |text|
  {
    match ScanOne(table, text, reading)
    case AtEnd => []
    case More(tok, rest, reading') => [tok] + LexAll(table, rest, reading')
  }

  /** The tokens that the scanner object delivers, one call after the other, are those of the text. */
  method ScanAll(table: UnicodeTable, text: string) returns (ts: seq<Token>)
    requires table.Valid() && EOF_CHAR !in text
    requires LArrow !in LexAll(table, text, false)
    ensures ts == LexAll(table, text, false)
  {
    var s := new Scanner.Scanner(table, text);
    ts := [];
    ghost var rest, reading := text, false;
    while true
      invariant fresh(s) && s.Ready() && !s.expectColon && s.table == table
      invariant rest == s.Remaining() && reading == s.isReadingParameter && EOF_CHAR !in rest
      invariant ts + LexAll(table, rest, reading) == LexAll(table, text, false)
      decreases |rest|
    {
      LexAllNext(table, rest, reading, ts);
      var tok := ScanNext(s);
      if tok.Eof? {
        return;
      }
      ts, rest, reading := ts + [tok], s.Remaining(), s.isReadingParameter;
    }
  }

  lemma LexAllNext(table: UnicodeTable, text: string, reading: bool, before: seq<Token>)
    requires EOF_CHAR !in text
    ensures match ScanOne(table, text, reading)
      case AtEnd => before + LexAll(table, text, reading) == before
      case More(tok, rest, reading') =>
        && before + LexAll(table, text, reading) == (before + [tok]) + LexAll(table, rest, reading')
        && tok in before + LexAll(table, text, reading)
  {
    match ScanOne(table, text, reading)
    case AtEnd =>
    case More(tok, rest, reading') => Regroup(before, tok, LexAll(table, rest, reading'));
  }

  lemma Regroup(before: seq<Token>, tok: Token, more: seq<Token>)
    ensures before + ([tok] + more) == (before + [tok]) + more
    ensures tok in before + ([tok] + more)
  {
    assert (before + ([tok] + more))[|before|] == tok;
  }

  /** One call, outside left-arrow calls. */
  method ScanNext(s: Scanner.Scanner) returns (tok: Token)
    requires s.Ready() && !s.expectColon
    modifies s
    ensures s.Ready() && (s.expectColon <==> tok.LArrow?)
    ensures ScanOne(s.table, old(s.Remaining()), old(s.isReadingParameter)) ==
      if tok.Eof? then AtEnd else More(tok, s.Remaining(), s.isReadingParameter)
  {
    if s.isReadingParameter {
      tok := NextToken(s);
    } else {
      tok := NextText(s);
    }
  }

  method NextToken(s: Scanner.Scanner) returns (tok: Token)
    requires s.Ready() && !s.expectColon && s.isReadingParameter
    modifies s
    ensures s.Ready() && (s.expectColon <==> tok.LArrow?)
    ensures ScanOne(s.table, old(s.Remaining()), true) ==
      if tok.Eof? then AtEnd else More(tok, s.Remaining(), s.isReadingParameter)
  {
    ghost var pos := s.pos;
    var start, yaml;
    start, tok, yaml := s.Scan();
    TokenDelivered(s, pos, start, tok);
  }

  method NextText(s: Scanner.Scanner) returns (tok: Token)
    requires s.Ready() && !s.expectColon && !s.isReadingParameter
    modifies s
    ensures s.Ready() && !s.expectColon && !tok.LArrow?
    ensures ScanOne(s.table, old(s.Remaining()), false) ==
      if tok.Eof? then AtEnd else More(tok, s.Remaining(), s.isReadingParameter)
  {
    ghost var pos := s.pos;
    var start, yaml;
    start, tok, yaml := s.Scan();
    TextScanned(s.table, s.text, pos, s.pos, tok);
  }

  lemma TokenDelivered(s: Scanner.Scanner, pos: nat, start: int, tok: Token)
    requires EOF_CHAR !in s.text && 1 <= pos <= |s.text| + 1
    requires s.Lexes(pos + Run(IsSpace, s.text[pos - 1..]), start, tok)
    ensures 1 <= s.pos <= |s.text| + 1
    ensures ScanOne(s.table, s.text[pos - 1..], true) ==
      if tok.Eof? then AtEnd else More(tok, s.text[s.pos - 1..], !tok.RDBrace?)
  {
    TokenAt(s.table, s.text, pos, s.pos, start, tok);
  }

  lemma TokenAt(table: UnicodeTable, text: string, pos: nat, end: nat, start: int, tok: Token)
    requires EOF_CHAR !in text && 1 <= pos <= |text| + 1
    requires LexesAt(table, text, pos + Run(IsSpace, text[pos - 1..]), end, start, tok)
    ensures ScanOne(table, text[pos - 1..], true) ==
      if tok.Eof? then AtEnd else More(tok, text[end - 1..], !tok.RDBrace?)
  {
    var n := Run(IsSpace, text[pos - 1..]);
    var begin := pos + n;
    DropMore(text, pos - 1, n);
    DropMore(text, begin - 1, end - begin);
    TokenScanned(table, text[pos - 1..], n, text[begin - 1..], tok, end - begin, text[end - 1..]);
  }

  lemma DropMore(text: string, i: nat, n: nat)
    requires i + n <= |text|
    ensures text[i..][n..] == text[i + n..]
  {
  }

  lemma TokenScanned(table: UnicodeTable, text: string, n: nat, from: string, tok: Token, len: nat, rest: string)
    requires EOF_CHAR !in text && n == Run(IsSpace, text) && from == text[n..]
    requires Lexed(tok, len) == LexToken(table, from) && rest == from[len..]
    ensures ScanOne(table, text, true) == if tok.Eof? then AtEnd else More(tok, rest, !tok.RDBrace?)
  {
    EofAtEnd(table, from);
  }

  lemma TextScanned(table: UnicodeTable, text: string, pos: nat, pos': nat, tok: Token)
    requires EOF_CHAR !in text && 1 <= pos <= pos' && pos <= |text| + 1
    requires Lexed(tok, pos' - pos) == LexRaw(text[pos - 1..])
    ensures pos' <= |text| + 1
    ensures ScanOne(table, text[pos - 1..], false) ==
      if tok.Eof? then AtEnd else More(tok, text[pos' - 1..], tok.LDBrace?)
  {
    assert text[pos - 1..][pos' - pos..] == text[pos' - 1..];
  }

  lemma EofAtEnd(table: UnicodeTable, text: string)
    requires EOF_CHAR !in text
    ensures LexToken(table, text).tok.Eof? <==> text == ""
  {
  }

  /** Tokens that can be written out: text and parameters alternate, parameters hold no left arrow. */
  predicate Writable(table: UnicodeTable, ts: seq<Token>, reading: bool) {
    ts == [] ||
    if reading then Spellable(table, ts[0]) && Writable(table, ts[1..], !ts[0].RDBrace?)
    else if ts[0] == LDBrace(false) then Writable(table, ts[1..], true)
    else
      && ts[0].Lit? && ts[0].kind == STRING && ts[0].text != "" && EOF_CHAR !in ts[0].text
      && (|ts| > 1 ==> ts[1] == LDBrace(false)) && Writable(table, ts[1..], false)
  }

  /** The text for a list of tokens: escaped outside parameters, and with spaces inside. */
  function Write(ts: seq<Token>, reading: bool): string {
    if ts == [] then ""
    else if reading then
      if ts[0].RDBrace? then "}}" + Write(ts[1..], false)
      else Spelling(ts[0]) + " " + Write(ts[1..], true)
    else if ts[0].Lit? then Escape(ts[0].text) + Write(ts[1..], false)
    else "{{" + Write(ts[1..], true)
  }

  lemma LexSpace(table: UnicodeTable, text: string)
    requires EOF_CHAR !in text
    ensures EOF_CHAR !in " " + text && LexAll(table, " " + text, true) == LexAll(table, text, true)
  {
    var n := Run(IsSpace, text);
    assert (" " + text)[1..] == text;
    assert (" " + text)[1 + n..] == text[n..];
    assert ScanOne(table, " " + text, true) == ScanOne(table, text, true);
  }

  lemma {:induction false} EscapeClean(s: string)
    requires EOF_CHAR !in s
    ensures EOF_CHAR !in Escape(s)
  {
    if s != "" {
      EscapeClean(s[1..]);
    }
  }

  lemma SpellingClean(table: UnicodeTable, t: Token)
    requires table.Valid() && Spellable(table, t)
    ensures EOF_CHAR !in Spelling(t)
  {
  }

  lemma {:induction false} WriteClean(table: UnicodeTable, ts: seq<Token>, reading: bool)
    requires table.Valid() && Writable(table, ts, reading)
    ensures EOF_CHAR !in Write(ts, reading)
    decreases |ts|
  {
    if ts == [] {
    } else if reading {
      SpellingClean(table, ts[0]);
      WriteClean(table, ts[1..], !ts[0].RDBrace?);
    } else if ts[0] == LDBrace(false) {
      WriteClean(table, ts[1..], true);
    } else {
      EscapeClean(ts[0].text);
      WriteClean(table, ts[1..], false);
    }
  }

  /** A spelled token does not begin with a space. */
  lemma SpellingStarts(table: UnicodeTable, t: Token, rest: string)
    requires table.Valid() && Spellable(table, t)
    ensures Spelling(t) != "" && Run(IsSpace, Spelling(t) + rest) == 0
  {
    assert Spelling(t) != "" ==> (Spelling(t) + rest)[0] == Spelling(t)[0];
  }

  lemma LexOne(table: UnicodeTable, t: Token, rest: string)
    requires table.Valid() && Spellable(table, t) && !t.RDBrace?
    requires EOF_CHAR !in Spelling(t) + " " + rest && EOF_CHAR !in rest
    ensures LexAll(table, Spelling(t) + " " + rest, true) == [t] + LexAll(table, rest, true)
  {
    var text := Spelling(t) + " " + rest;
    assert text == Spelling(t) + (" " + rest);
    SpellingStarts(table, t, " " + rest);
    LexSpelling(table, t, rest);
    assert text[0..] == text;
    assert text[|Spelling(t)|..] == " " + rest;
    LexSpace(table, rest);
  }

  lemma LexClose(table: UnicodeTable, rest: string)
    requires EOF_CHAR !in "}}" + rest
    ensures EOF_CHAR !in rest && LexAll(table, "}}" + rest, true) == [RDBrace] + LexAll(table, rest, false)
  {
    var text := "}}" + rest;
    assert text[0..] == text && text[2..] == rest;
    assert forall c <- rest :: c in text;
    assert LexToken(table, text) == Lexed(RDBrace, 2);
  }

  lemma LexOpen(table: UnicodeTable, rest: string)
    requires EOF_CHAR !in "{{" + rest
    ensures EOF_CHAR !in rest && LexAll(table, "{{" + rest, false) == [LDBrace(false)] + LexAll(table, rest, true)
  {
    var text := "{{" + rest;
    assert text[2..] == rest;
    assert forall c <- rest :: c in text;
    assert LexRaw(text) == Lexed(LDBrace(false), 2);
  }

  lemma LexText(table: UnicodeTable, s: string, rest: string)
    requires s != "" && (rest == "" || OpensParameter(rest))
    requires EOF_CHAR !in Escape(s) + rest
    ensures EOF_CHAR !in rest
    ensures LexAll(table, Escape(s) + rest, false) == [Lit(STRING, s)] + LexAll(table, rest, false)
  {
    var text := Escape(s) + rest;
    ScanEscaped(s, rest);
    assert text[|Escape(s)|..] == rest;
    assert forall c <- rest :: c in text;
  }

  /** Whether what follows a token is in a parameter. */
  predicate Reading(t: Token, reading: bool) {
    if reading then !t.RDBrace? else t.LDBrace?
  }

  lemma WritableNext(table: UnicodeTable, ts: seq<Token>, reading: bool)
    requires ts != [] && Writable(table, ts, reading)
    ensures Writable(table, ts[1..], Reading(ts[0], reading))
  {
  }

  lemma LexFirst(table: UnicodeTable, ts: seq<Token>, reading: bool)
    requires table.Valid() && ts != [] && Writable(table, ts, reading)
    requires EOF_CHAR !in Write(ts, reading) && EOF_CHAR !in Write(ts[1..], Reading(ts[0], reading))
    ensures LexAll(table, Write(ts, reading), reading) ==
      [ts[0]] + LexAll(table, Write(ts[1..], Reading(ts[0], reading)), Reading(ts[0], reading))
  {
    var rest := Write(ts[1..], Reading(ts[0], reading));
    if !reading {
      if ts[0].LDBrace? {
        LexOpen(table, rest);
      } else {
        LexText(table, ts[0].text, rest);
      }
    } else if ts[0].RDBrace? {
      LexClose(table, rest);
    } else {
      LexOne(table, ts[0], rest);
    }
  }

  /** Tokens that are written out are scanned back. */
  lemma {:induction false} LexWritten(table: UnicodeTable, ts: seq<Token>, reading: bool)
    requires table.Valid() && Writable(table, ts, reading)
    ensures EOF_CHAR !in Write(ts, reading) && LexAll(table, Write(ts, reading), reading) == ts
    decreases |ts|
  {
    WriteClean(table, ts, reading);
    if ts != [] {
      WritableNext(table, ts, reading);
      LexWritten(table, ts[1..], Reading(ts[0], reading));
      LexRest(table, ts, reading);
    }
  }

  lemma LexRest(table: UnicodeTable, ts: seq<Token>, reading: bool)
    requires table.Valid() && ts != [] && Writable(table, ts, reading)
    requires EOF_CHAR !in Write(ts, reading) && EOF_CHAR !in Write(ts[1..], Reading(ts[0], reading))
    requires LexAll(table, Write(ts[1..], Reading(ts[0], reading)), Reading(ts[0], reading)) == ts[1..]
    ensures LexAll(table, Write(ts, reading), reading) == ts
  {
    LexFirst(table, ts, reading);
    assert [ts[0]] + ts[1..] == ts;
  }

  /** Front end round trip: a tree that respects the precedence table, written out as text, is read
      back as that very tree. */
  lemma TextRoundTrip(table: UnicodeTable, e: Expr)
    requires table.Valid() && Canonical(e) && Writable(table, Listing(e), false)
    ensures EOF_CHAR !in Write(Listing(e), false)
    ensures ParseTemplate(LexAll(table, Write(Listing(e), false), false)) == Parsed(e, Stream([], []))
  {
    LexWritten(table, Listing(e), false);
    TemplateRoundTrip(e);
  }
}
