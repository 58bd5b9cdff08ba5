/** Which values have texts of their kind, said by character codes, and how texts end. */
module Spellings {
  import opened Kson
  import opened Tokenizing
  import opened Reading
  import opened RoundTrip

  /** A letter, a digit, or one of _ - ? * + ~ ^ & */
  predicate NameChar(c: char) {
    65 <= c as int <= 90 || 97 <= c as int <= 122 || 48 <= c as int <= 57
    || c as int == 95 || c as int == 45 || c as int == 63 || c as int == 42 || c as int == 43 || c as int == 126 || c as int == 94 || c as int == 38
  }

  /** A name of such characters; a word starts with a letter, an underscore, or a minus sign before
      something else than a digit, or is an operator. */
  predicate PlainName(d: string) { d != "" && forall i :: 0 <= i < |d| ==> NameChar(d[i]) }

  predicate PlainWord(d: string) {
    (PlainName(d) && (65 <= d[0] as int <= 90 || 97 <= d[0] as int <= 122 || d[0] as int == 95))
    || (PlainName(d) && d[0] as int == 45 && |d| > 1 && !(48 <= d[1] as int <= 57))
    || d in ["-", "+", "*", "/", "<", "<=", ">", ">="]
  }

  predicate PlainSymbol(kind: SymbolKind, d: string) {
    if kind == Word then PlainWord(d) else if kind == SymString then forall i :: 0 <= i < |d| ==> d[i] != '\'' && d[i] as int != 0 else PlainName(d)
  }

  /** Values made of 32-bit integers, strings without a quotation mark, plain names, markers, constants,
      lists, vectors and wrappers; a quoted one is a list. */
  predicate PlainValue(v: Value) {
    match v
    case Fixnum(n) => -2147483648 <= n <= 2147483647
    case Flonum(_) => false
    case Str(s) => forall i :: 0 <= i < |s| ==> s[i] != '"' && s[i] as int != 0
    case Sym(kind, d) => PlainSymbol(kind, d)
    case Syntax(_) => true
    case Const(_) => true
    case List(items) => |items| > 0 && forall i :: 0 <= i < |items| ==> PlainValue(items[i])
    case Vector(items) => forall i :: 0 <= i < |items| ==> PlainValue(items[i])
    case Wrapped(w, inner) => PlainValue(inner) && w != QuoteCell && w != QuasiCell && (inner.List? || (w != QuoteList && w != QuasiList))
  }

  lemma NameGoesOn(d: string, from: nat)
    requires PlainName(d) && from <= |d|
    ensures GoesOn(d[from..])
  {
    forall c <- d[from..] ensures !IsSpace(c) && !IsStopWord(c) {
      var i :| 0 <= i < |d[from..]| && d[from..][i] == c;
      assert NameChar(d[from + i]);
    }
  }

  lemma SymbolIsSpelled(kind: SymbolKind, d: string)
    requires PlainSymbol(kind, d)
    ensures IsSymbol(kind, d)
  {
    if kind == Word {
      if PlainName(d) {
        NameGoesOn(d, 1);
        assert NameChar(d[0]);
      }
    } else if kind != SymString {
      NameGoesOn(d, 1);
      assert NameChar(d[0]);
    }
  }

  /** All of these are spelled. */
  lemma {:induction false} PlainIsSpelled(v: Value)
    requires PlainValue(v)
    ensures Spelled(v)
    decreases v
  {
    match v
    case Sym(kind, d) => SymbolIsSpelled(kind, d);
    case List(items) =>
      forall x <- items ensures Spelled(x) {
        PlainIsSpelled(x);
      }
    case Vector(items) =>
      forall x <- items ensures Spelled(x) {
        PlainIsSpelled(x);
      }
    case Wrapped(_, inner) => PlainIsSpelled(inner);
    case _ =>
  }

  /** How the reader ends: well at the end of a text, by a null pointer behind a lone bracket of a vector,
      never at a plus sign before a letter. */
  lemma HowTextsEnd(s: Stacks)
    ensures Parse("", s) == (Finished, s)
    ensures Parse("<", s) == (Crashed, s) && Parse(">", s) == (Crashed, s)
    ensures Parse("+a", s) == (Hangs, s) && Parse("#a.", s) == (Hangs, s)
    ensures Parse("`a`", s) == (NotModelled, s)
  {
    assert NextToken("") == (Eof, 0);
    EndsHere("<", NullRead, s);
    EndsHere(">", NullRead, s);
    EndsHere("+a", Spins, s);
    EndsHere("#a.", Spins, s);
    EndsHere("`a`", Unmodelled, s);
  }

  lemma EndsHere(t: string, tok: Token, s: Stacks)
    requires t != "" && !IsSpace(t[0]) && LookAt(t) == Fixed(tok, 0) && EndsText(tok)
    ensures Parse(t, s) == (Ending(tok), s)
  {
    hide LookAt;
  }
}
