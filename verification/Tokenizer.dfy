/** Cutting KSON text into tokens. */
module Tokenizing {
  import opened Kson

  datatype Token =
    | ListStart | BlockStart | ListEnd | VectorStart | VectorEnd | TableStart | ParamStart | TableEnd
    | CellStart | MapStart | CellEnd | KvPairTag
    | Keyword(c: Constant)
    | NumberLiteral(num: Number)
    | StringLiteral(content: string)
    | RawStringLiteral(content: string)
    | Symbol(kind: SymbolKind, content: string)
    | Wrapper(w: WrapperKind)
    | SyntaxMarker(m: Marker)
    | Eof
    | NullRead    // the two characters wanted are not there, and are read through a null pointer
    | Spins       // no branch takes the text, and the loop goes round for ever
    | Unmodelled  // comments and the first line of a script

  predicate IsSpace(c: char) { c == ' ' || c == '\t' || c == '\n' || c == '\r' || c == 11 as char || c == 12 as char }

  predicate IsLetter(c: char) { 'A' <= c <= 'Z' || 'a' <= c <= 'z' || c == '_' }

  predicate IsStopWord(c: char) { c in "=:%./|!#$@<>[](){};" || c == 0 as char }

  predicate StopsNumber(c: char) { IsSpace(c) || c in ":%|![](){}<>;" || c == 0 as char }

  // ---------- what is scanned ----------

  /** How much of `t` goes on with an identifier. */
  function WordEnd(t: string): (n: nat)
    ensures n <= |t|
  {
    if t == "" || IsSpace(t[0]) || IsStopWord(t[0]) then 0 else 1 + WordEnd(t[1..])
  }

  /** The length of an identifier: its first character is taken whatever it is. */
  function IdentifierLength(t: string): (n: nat)
    ensures n <= |t| && (t != "" ==> n > 0)
  {
    if t == "" then 0 else 1 + WordEnd(t[1..])
  }

  /** Where the first `q` is, or the end. */
  function Before(t: string, q: char): (n: nat)
    ensures n <= |t|
  {
    if t == "" || t[0] == q then 0 else 1 + Before(t[1..], q)
  }

  datatype Part = Integer | Fraction | Power

  /** One more character of a number. */
  function Take(num: Number, part: Part, c: char): Number {
    if part == Integer && c != '.' && c != 'e' && c != 'E' then num.(before := num.before + [c])
    else if part == Fraction && c != 'e' && c != 'E' then num.(after := num.after + [c])
    else if part == Power && c == '-' then num.(powerPositive := false)
    else if part == Power then num.(power := num.power + [c])
    else num
  }

  function Turn(part: Part, c: char): Part {
    if c == '.' then Fraction else if c == 'e' || c == 'E' then Power else part
  }

  function ScanNumber(t: string, part: Part, num: Number): (r: (Number, nat))
    ensures r.1 <= |t|
  {
    if t == "" || StopsNumber(t[0]) then (num, 0)
    else
      var r := ScanNumber(t[1..], Turn(part, t[0]), Take(num, part, t[0]));
      (r.0, r.1 + 1)
  }

  function FirstOf(c: char): Number { Number(c != '-', if c == '-' || c == '+' then "" else [c], "", true, "") }

  // ---------- which token ----------

  /** What the first characters of a token call for. */
  datatype Look =
    | Fixed(tok: Token, len: nat)
    | ScanIdentifier(kind: SymbolKind, skip: nat)
    | ScanString
    | ScanRawString
    | ScanSymString
    | ScanNumeral

  function LookAt(t: string): (look: Look)
    requires t != "" && !IsSpace(t[0])
    ensures look.Fixed? ==> EndsText(look.tok) || look.len > 0
    ensures look.ScanSymString? ==> |t| >= 3
  {
    var c, two, three := t[0], |t| >= 2, |t| >= 3;
    if c == '(' then Fixed(ParamStart, 1)
    else if c == ')' then Fixed(TableEnd, 1)
    else if c == '<' then
      if !two then Fixed(NullRead, 0)
      else if t[1] == '=' then Fixed(Symbol(Word, "<="), 2)
      else if IsSpace(t[1]) || IsStopWord(t[1]) then Fixed(Symbol(Word, "<"), 1)
      else Fixed(Eof, 0)
    else if c == '>' then
      if !two then Fixed(NullRead, 0)
      else if t[1] == '=' then Fixed(Symbol(Word, ">="), 2)
      else if IsSpace(t[1]) || IsStopWord(t[1]) then Fixed(VectorEnd, 1)
      else Fixed(Eof, 0)
    else if c == '[' then Fixed(ListStart, 1)
    else if c == ']' then Fixed(ListEnd, 1)
    else if c == '{' then Fixed(CellStart, 1)
    else if c == '}' then Fixed(CellEnd, 1)
    else if c == '-' then
      if !two then Fixed(Eof, 0)
      else if IsSpace(t[1]) then Fixed(Symbol(Word, "-"), 1)
      else if IsDigit(t[1]) then ScanNumeral
      else ScanIdentifier(Word, 0)
    else if c == '+' then
      if !two then Fixed(Eof, 0)
      else if IsSpace(t[1]) then Fixed(Symbol(Word, "+"), 1)
      else if IsDigit(t[1]) then ScanNumeral
      else Fixed(Spins, 0)
    else if IsDigit(c) then ScanNumeral
    else if c == '#' then
      if !three then Fixed(Eof, 0) else LookAtHash(t)
    else if c == ':' then
      if !three then Fixed(Eof, 0) else if t[1] == '=' then Fixed(SyntaxMarker(Assign), 2) else Fixed(KvPairTag, 1)
    else if c == '%' then Fixed(SyntaxMarker(Apply), 1)
    else if c == '=' then Fixed(SyntaxMarker(Equal), 1)
    else if c == '.' then Fixed(SyntaxMarker(MsgSignal), 1)
    else if c == '|' then Fixed(SyntaxMarker(ProcPipe), 1)
    else if c == ';' then Fixed(SyntaxMarker(ClauseEnd), 1)
    else if c == '"' then ScanString
    else if c == '\'' then ScanRawString
    else if c == '$' then
      if !three then Fixed(Eof, 0) else LookAtDollar(t)
    else if c == '@' then
      if !three then Fixed(Eof, 0) else LookAtAt(t)
    else if c == '!' then ScanIdentifier(PrefixWord, 1)
    else if c == '^' then ScanIdentifier(SuffixWord, 1)
    else if IsLetter(c) then ScanIdentifier(Word, 0)
    else if c == '`' then
      if !three then Fixed(Eof, 0) else Fixed(Unmodelled, 0)
    else if c == '/' then
      if !three then Fixed(Eof, 0) else if IsSpace(t[1]) then Fixed(Symbol(Word, "/"), 1) else Fixed(SyntaxMarker(GetSlot), 1)
    else if c == '*' then Fixed(Symbol(Word, "*"), 1)
    else Fixed(Eof, 0)
  }

  function LookAtHash(t: string): Look
    requires |t| >= 3
  {
    if t[1] == '!' then Fixed(Unmodelled, 0)
    else if t[1] == '<' then Fixed(VectorStart, 2)
    else if t[1] == '[' then Fixed(BlockStart, 2)
    else if t[1] == '(' then Fixed(TableStart, 2)
    else if t[1] == '{' then Fixed(MapStart, 2)
    else if t[1] == 'n' && t[2] == 'i' then Fixed(Keyword(NIL), 5)
    else if t[1] == 'u' && t[2] == 'n' then Fixed(Keyword(UNDEF), 7)
    else if t[1] == 'u' && t[2] == 'k' then Fixed(Keyword(UKN), 5)
    else if t[1] == 't' && t[2] == ';' then Fixed(Keyword(TRUE), 3)
    else if t[1] == 'f' && t[2] == ';' then Fixed(Keyword(FALSE), 3)
    else Fixed(Spins, 0)
  }

  function LookAtDollar(t: string): Look
    requires |t| >= 3
  {
    if t[1] == '.' then Fixed(Wrapper(UnquoteReplace), 2)
    else if t[1] == '%' && t[2] == '.' then Fixed(Wrapper(UnquoteKv), 3)
    else if t[1] == '~' && t[2] == '.' then Fixed(Wrapper(UnquoteSeq), 3)
    else if t[1] == '{' then Fixed(Wrapper(QuoteCell), 1)
    else if t[1] == '[' then Fixed(Wrapper(QuoteList), 1)
    else if t[1] == '\'' then ScanSymString
    else ScanIdentifier(Identifier, 1)
  }

  function LookAtAt(t: string): Look
    requires |t| >= 3
  {
    if t[1] == '.' then Fixed(Wrapper(ExpandReplace), 2)
    else if t[1] == '%' && t[2] == '.' then Fixed(Wrapper(ExpandKv), 3)
    else if t[1] == '~' && t[2] == '.' then Fixed(Wrapper(ExpandSeq), 3)
    else if t[1] == '{' then Fixed(Wrapper(QuasiCell), 1)
    else if t[1] == '[' then Fixed(Wrapper(QuasiList), 1)
    else ScanIdentifier(Variable, 1)
  }

  /** A piece in quotes, from the opening one on, and its length with both quotes. */
  function Quoted(t: string, q: char): (r: (string, nat))
    requires t != ""
    ensures 0 < r.1 <= |t|
  {
    var n := Before(t[1..], q);
    (t[1..1 + n], if 1 + n < |t| then n + 2 else n + 1)
  }

  /** The token that starts at the start of `t`, and its length; a token that ends the text has none. */
  function TokenAt(t: string): (r: (Token, nat))
    requires t != "" && !IsSpace(t[0])
    ensures r.1 <= |t|
  {
    match LookAt(t)
    case Fixed(tok, len) => (tok, if len <= |t| then len else |t|)
    case ScanIdentifier(kind, skip) =>
      var from := if skip <= |t| then skip else |t|;
      var n := IdentifierLength(t[from..]);
      (Symbol(kind, t[from..from + n]), from + n)
    case ScanString => var r := Quoted(t, '"'); (StringLiteral(r.0), r.1)
    case ScanRawString => var r := Quoted(t, '\''); (RawStringLiteral(r.0), r.1)
    case ScanSymString =>
      var r := Quoted(t[1..], '\''); (Symbol(SymString, r.0), r.1 + 1)
    case ScanNumeral => var r := ScanNumber(t[1..], Integer, FirstOf(t[0])); (NumberLiteral(r.0), r.1 + 1)
  }

  predicate EndsText(tok: Token) { tok.Eof? || tok.NullRead? || tok.Spins? || tok.Unmodelled? }

  /** The next token, and how far it takes the cursor. */
  function NextToken(t: string): (r: (Token, nat))
    ensures r.1 <= |t|
  {
    if t == "" then (Eof, 0)
    else if IsSpace(t[0]) then
      var r := NextToken(t[1..]);
      (r.0, r.1 + 1)
    else TokenAt(t)
  }

  /** Every token but a last one takes the cursor on. */
  lemma {:induction false} TokenAdvances(t: string)
    ensures EndsText(NextToken(t).0) || NextToken(t).1 > 0
  {
    if t != "" && IsSpace(t[0]) {
      TokenAdvances(t[1..]);
    }
  }

  lemma Slices(t: string, a: nat, n: nat)
    requires a + n <= |t|
    ensures t[a..][..n] == t[a..a + n] && t[a..][n..] == t[a + n..]
  {
  }

  // ---------- the tokenizer ----------

  class Tokenizer {
    var codeString: string
    var readCursor: nat
    var content: string
    var num: Number

    constructor (code: string)
      ensures codeString == code && readCursor == 0
    {
      codeString, readCursor, content, num := code, 0, "", Number(true, "", "", true, "");
    }

    predicate Valid() reads this { readCursor <= |codeString| }

    /** What is still to be read. */
    function Left(): string
      requires Valid()
      reads this
    {
      codeString[readCursor..]
    }

    method ForwardChar() returns (ch: char)
      requires Valid() && Left() != ""
      modifies this`readCursor
      ensures Valid() && ch == old(Left()[0]) && Left() == old(Left()[1..])
    {
      ch := codeString[readCursor];
      readCursor := readCursor + 1;
    }

    method ForwardToken(len: nat)
      requires Valid()
      modifies this`readCursor
      ensures Valid() && Left() == old(Left())[if len <= |old(Left())| then len else |old(Left())|..]
    {
      readCursor := if readCursor + len <= |codeString| then readCursor + len else |codeString|;
    }

    method ParseIdentifier()
      requires Valid()
      modifies this`readCursor, this`content
      ensures Valid()
      ensures var n := IdentifierLength(old(Left())); content == old(Left())[..n] && Left() == old(Left())[n..]
    {
      content := "";
      ghost var t := Left();
      if readCursor < |codeString| {
        var ch := ForwardChar();
        content := [ch];
        while readCursor < |codeString|
          invariant Valid() && 0 < |content| <= |t| && content == t[..|content|] && Left() == t[|content|..]
          invariant IdentifierLength(t) == |content| + WordEnd(Left())
        {
          if IsSpace(codeString[readCursor]) || IsStopWord(codeString[readCursor]) {
            break;
          }
          ch := ForwardChar();
          content := content + [ch];
        }
      }
    }

    /** A piece in quotes; the closing quote is dropped, or the text ends without one. */
    method ParseQuoted(q: char)
      requires Valid() && Left() != ""
      modifies this`readCursor, this`content
      ensures Valid()
      ensures var r := Quoted(old(Left()), q); content == r.0 && Left() == old(Left())[r.1..]
    {
      content := "";
      ghost var t := Left();
      var ch := ForwardChar();
      while readCursor < |codeString|
        invariant Valid() && 1 + |content| <= |t| && content == t[1..1 + |content|] && Left() == t[1 + |content|..]
        invariant Before(t[1..], q) == |content| + Before(Left(), q)
      {
        if codeString[readCursor] == q {
          ch := ForwardChar();
          return;
        }
        ch := ForwardChar();
        content := content + [ch];
      }
    }

    method ParseNumber()
      requires Valid() && Left() != ""
      modifies this`readCursor, this`num
      ensures Valid()
      ensures var r := ScanNumber(old(Left())[1..], Integer, FirstOf(old(Left())[0])); num == r.0 && Left() == old(Left())[1 + r.1..]
    {
      ghost var t := Left();
      var ch := ForwardChar();
      num := FirstOf(ch);
      var part, n := Integer, 0;
      while readCursor < |codeString|
        invariant Valid() && 1 + n <= |t| && Left() == t[1 + n..]
        invariant var r := ScanNumber(t[1..], Integer, FirstOf(t[0])); r == (ScanNumber(Left(), part, num).0, n + ScanNumber(Left(), part, num).1)
      {
        if StopsNumber(codeString[readCursor]) {
          break;
        }
        ch := ForwardChar();
        num := Take(num, part, ch);
        part, n := Turn(part, ch), n + 1;
      }
    }

    method ScanName(skip: nat)
      requires Valid()
      modifies this`readCursor, this`content
      ensures Valid()
      ensures var t := old(Left());
        var from := if skip <= |t| then skip else |t|;
        var n := IdentifierLength(t[from..]);
        content == t[from..from + n] && Left() == t[from + n..]
    {
      ghost var t := Left();
      ghost var from := if skip <= |t| then skip else |t|;
      ForwardToken(skip);
      ParseIdentifier();
      Slices(t, from, |content|);
    }

    /** The token that starts at the cursor. */
    method Scan() returns (tok: Token)
      requires Valid() && Left() != "" && !IsSpace(Left()[0])
      modifies this`readCursor, this`content, this`num
      ensures Valid() && tok == TokenAt(old(Left())).0 && Left() == old(Left())[TokenAt(old(Left())).1..]
    {
      hide IdentifierLength, Quoted, ScanNumber, LookAt, FirstOf;
      ghost var t := Left();
      match LookAt(codeString[readCursor..])
      case Fixed(fixedTok, len) =>
        ForwardToken(len);
        tok := fixedTok;
      case ScanIdentifier(kind, skip) =>
        ScanName(skip);
        tok := Symbol(kind, content);
      case ScanString =>
        ParseQuoted('"');
        tok := StringLiteral(content);
      case ScanRawString =>
        ParseQuoted('\'');
        tok := RawStringLiteral(content);
      case ScanSymString =>
        ForwardToken(1);
        ParseQuoted('\'');
        Slices(t, 1, Quoted(t[1..], '\'').1);
        tok := Symbol(SymString, content);
      case ScanNumeral =>
        ParseNumber();
        tok := NumberLiteral(num);
    }

    method Next() returns (tok: Token)
      requires Valid()
      modifies this`readCursor, this`content, this`num
      ensures Valid() && tok == NextToken(old(Left())).0 && Left() == old(Left())[NextToken(old(Left())).1..]
      ensures !EndsText(tok) ==> |Left()| < |old(Left())|
    {
      hide TokenAt;
      ghost var t := Left();
      TokenAdvances(t);
      ghost var n := 0;
      while readCursor < |codeString| && IsSpace(codeString[readCursor])
        invariant Valid() && n <= |t| && Left() == t[n..]
        invariant NextToken(t) == (NextToken(t[n..]).0, n + NextToken(t[n..]).1)
      {
        assert t[n..][1..] == t[n + 1..];
        readCursor, n := readCursor + 1, n + 1;
      }
      if readCursor == |codeString| {
        return Eof;
      }
      tok := Scan();
    }
  }
}
