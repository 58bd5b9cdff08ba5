/** Exactly which values are read back from their texts. */
module ReadBack {
  import opened Options
  import opened Kson
  import opened Tokenizing
  import opened Reading
  import opened RoundTrip

  // ---------- what a text means ----------

  lemma {:induction false} AllReadAt(items: seq<Value>, i: nat)
    requires i < |items|
    ensures AllRead(items)[i] == AsRead(items[i])
  {
    if i > 0 {
      AllReadAt(items[1..], i - 1);
    }
  }

  /** A value whose text means it again is one the reader can build, with nothing in it that means
      something else. */
  lemma {:induction false} ReadableIs(v: Value)
    requires Spelled(v)
    ensures Readable(v) <==> Buildable(v) && AsRead(v) == v
    decreases v
  {
    match v
    case Str(s) => StringMeansItself(s);
    case List(items) => ItemsReadable(items);
    case Vector(items) => ItemsReadable(items);
    case Wrapped(_, inner) => ReadableIs(inner);
    case Fixnum(_) =>
    case Flonum(_) =>
    case Sym(_, _) =>
    case Syntax(_) =>
    case Const(_) =>
  }

  lemma {:induction false} ItemsReadable(items: seq<Value>)
    requires forall v <- items :: Spelled(v)
    ensures (forall v <- items :: Readable(v)) <==> (forall v <- items :: Buildable(v)) && AllRead(items) == items
    decreases items
  {
    hide Readable, Buildable, AsRead, Spelled;
    if items != [] {
      var first, rest := items[0], items[1..];
      ReadableIs(first);
      ItemsReadable(rest);
      assert items == [first] + rest && AllRead(items) == [AsRead(first)] + AllRead(rest);
      assert AllRead(items) == items <==> AsRead(first) == first && AllRead(rest) == rest by {
        assert AllRead(items)[0] == AsRead(first) && AllRead(items)[1..] == AllRead(rest);
      }
    }
  }

  predicate HasSlotMarker(v: Value) {
    match v
    case Syntax(m) => m == GetSlot
    case List(items) => exists x <- items :: HasSlotMarker(x)
    case Vector(items) => exists x <- items :: HasSlotMarker(x)
    case Wrapped(_, inner) => HasSlotMarker(inner)
    case Fixnum(_) => false
    case Flonum(_) => false
    case Str(_) => false
    case Sym(_, _) => false
    case Const(_) => false
  }

  lemma {:induction false} SlotMarkerMeansAnother(v: Value)
    requires HasSlotMarker(v)
    ensures AsRead(v) != v
    decreases v
  {
    if v.List? || v.Vector? {
      var i :| 0 <= i < |v.items| && HasSlotMarker(v.items[i]);
      SlotMarkerMeansAnother(v.items[i]);
      AllReadAt(v.items, i);
    } else if v.Wrapped? {
      SlotMarkerMeansAnother(v.inner);
    }
  }

  // ---------- what the reader builds ----------

  predicate AllBuildable(items: seq<Value>) { forall v <- items :: Buildable(v) }

  predicate BuilderOk(b: Builder) {
    match b
    case ListBuilder(items) => AllBuildable(items)
    case VectorBuilder(items) => AllBuildable(items) && forall v <- items :: !ClosesVector(v)
    case WrapperBuilder(_, inner) => Buildable(inner)
  }

  /** What stands alone in a text opens something; the empty list is NIL. */
  predicate CanBeRoot(v: Value) { Buildable(v) && (!IsAtom(v) || v == Const(NIL)) }

  predicate StacksOk(s: Stacks) {
    (forall b <- s.builders :: BuilderOk(b)) && (s.root.Some? ==> CanBeRoot(s.root.value))
  }

  lemma {:induction false} AddKeepsOk(s: Stacks, v: Value)
    requires StacksOk(s) && Buildable(v) && !(ClosesVector(v) && InVector(s)) && (s.builders == [] ==> CanBeRoot(v))
    ensures StacksOk(AddValue(s, v))
    decreases |s.builders|, 1
  {
    hide Buildable, ExitTop;
    if s.builders != [] {
      var top := |s.builders| - 1;
      assert BuilderOk(s.builders[top]);
      if s.builders[top].WrapperBuilder? {
        var s1 := s.(builders := s.builders[top := WrapperBuilder(s.builders[top].w, v)]);
        assert StacksOk(s1);
        ExitKeepsOk(s1);
      }
    }
  }

  lemma {:induction false} ExitKeepsOk(s: Stacks)
    requires StacksOk(s) && s.builders != []
    ensures StacksOk(ExitTop(s))
    decreases |s.builders|, 0
  {
    var top := |s.builders| - 1;
    assert BuilderOk(s.builders[top]);
    AddKeepsOk(Stacks(s.states[..top + 1], s.builders[..top], s.root), BuiltValue(s.builders[top]));
  }

  /** The word `>` is not among the tokens: the character always closes a vector. */
  lemma {:induction false} NoCloserToken(t: string)
    ensures var tok := NextToken(t).0; tok.Symbol? && tok.kind == Word ==> tok.content != ">"
  {
    if t != "" && IsSpace(t[0]) {
      NoCloserToken(t[1..]);
    } else if t != "" {
      NoCloserLook(t);
    }
  }

  lemma NoCloserLook(t: string)
    requires t != "" && !IsSpace(t[0])
    ensures var look := LookAt(t);
      && (look.Fixed? && look.tok.Symbol? ==> look.tok.content != ">")
      && (look.ScanIdentifier? && look.kind == Word ==> look.skip == 0 && t[0] != '>')
  {
    hide IsStopWord, IsSpace;
  }

  predicate StartsWithDigit(s: string) { s != "" && IsDigit(s[0]) }

  /** A number has a digit before its dot, so it is never read as the error value, or with a sign. */
  lemma {:induction false} NumberStarts(t: string)
    ensures var tok := NextToken(t).0; tok.NumberLiteral? ==> StartsWithDigit(tok.num.before)
  {
    hide LookAt, ScanNumber;
    if t != "" && IsSpace(t[0]) {
      NumberStarts(t[1..]);
    } else if t != "" {
      NumeralLook(t);
      if LookAt(t).ScanNumeral? {
        DigitComesFirst(t);
      }
    }
  }

  lemma NumeralLook(t: string)
    requires t != "" && !IsSpace(t[0])
    ensures var look := LookAt(t);
      && (look.Fixed? ==> !look.tok.NumberLiteral?)
      && (look.ScanNumeral? ==> IsDigit(t[0]) || (|t| > 1 && (t[0] == '+' || t[0] == '-') && IsDigit(t[1])))
  {
    hide IsStopWord, IsSpace;
  }

  lemma DigitComesFirst(t: string)
    requires t != "" && (IsDigit(t[0]) || (|t| > 1 && (t[0] == '+' || t[0] == '-') && IsDigit(t[1])))
    ensures StartsWithDigit(ScanNumber(t[1..], Integer, FirstOf(t[0])).0.before)
  {
    hide StartsWithDigit;
    var num := FirstOf(t[0]);
    if IsDigit(t[0]) {
      assert StartsWithDigit(num.before) by { OneDigit(t[0]); }
      ScanKeepsStart(t[1..], Integer, num);
    } else {
      var rest := t[1..];
      var num1 := Take(num, Integer, rest[0]);
      assert StartsWithDigit(num1.before) by { OneDigit(rest[0]); assert num1.before == [rest[0]]; }
      ScanKeepsStart(rest[1..], Integer, num1);
    }
  }

  lemma OneDigit(c: char)
    requires IsDigit(c)
    ensures StartsWithDigit([c])
  {
  }

  lemma {:induction false} ScanKeepsStart(t: string, part: Part, num: Number)
    requires StartsWithDigit(num.before)
    ensures StartsWithDigit(ScanNumber(t, part, num).0.before)
  {
    if t != "" && !StopsNumber(t[0]) {
      ScanKeepsStart(t[1..], Turn(part, t[0]), Take(num, part, t[0]));
    }
  }

  lemma DigitIsNatural(s: string)
    requires StartsWithDigit(s)
    ensures IntegerOf(s) >= 0
  {
  }

  lemma ReadKeepsOk(s: Stacks, tok: Token)
    requires StacksOk(s) && !EndsText(tok)
    requires tok.Symbol? && tok.kind == Word ==> tok.content != ">"
    requires tok.NumberLiteral? ==> StartsWithDigit(tok.num.before)
    ensures StacksOk(Read(s, tok).1)
  {
    hide AddValue, ExitTop;
    if s.builders != [] {
      if tok.SyntaxMarker? {
        AddKeepsOk(s, Syntax(tok.m));
      } else if tok.Symbol? && tok.kind != SuffixWord {
        AddKeepsOk(s, Sym(tok.kind, tok.content));
      } else if tok.Keyword? {
        AddKeepsOk(s, Const(tok.c));
      } else if tok.NumberLiteral? {
        DigitIsNatural(tok.num.before);
        AddKeepsOk(s, NumberValue(tok.num));
      } else if tok.StringLiteral? {
        AddKeepsOk(s, Str(Unescape(tok.content)));
      } else if tok.RawStringLiteral? {
        AddKeepsOk(s, Str(tok.content));
      } else if tok.VectorEnd? && ClosesNothing(s) {
        AddKeepsOk(s, Sym(Word, ">"));
      } else {
        ExitKeepsOk(s);
      }
    }
  }

  /** Whatever the text, what the reader builds is buildable, and what it delivers is not an atom. */
  lemma {:induction false} ReaderBuilds(t: string, s: Stacks)
    requires StacksOk(s)
    ensures StacksOk(Parse(t, s).1)
    decreases |t|
  {
    hide NextToken, Read, StacksOk;
    var (tok, n) := NextToken(t);
    TokenAdvances(t);
    if !EndsText(tok) {
      NoCloserToken(t);
      NumberStarts(t);
      ReadKeepsOk(s, tok);
      var (status, s1) := Read(s, tok);
      if status == Finished {
        ReaderBuilds(t[n..], s1);
      }
    }
  }

  // ---------- the end of a text ----------

  /** The reader does not come to a good end: something is unfinished, or it fails. */
  predicate Fails(r: (Status, Stacks)) { r.0 != Finished || r.1.builders != [] }

  lemma LastBracket(s: Stacks)
    ensures Parse(">", s).0 == Crashed
  {
    FixedToken(">", NullRead, 0);
  }

  lemma AtomEndLook(v: Value)
    requires IsAtom(v) && Legible(v) && !EndsItself(v)
    ensures var t := AtomText(v); t != "" && !IsSpace(t[0]) && (LookAt(t) == Fixed(Eof, 0) || LookAt(t) == Fixed(NullRead, 0))
  {
    if v.Sym? {
      var t := AtomText(v);
      assert v.kind == Variable ==> t == "@" + v.data;
      assert v.kind == Identifier ==> t == "$" + v.data;
    }
  }

  lemma AtomEnds(v: Value, s: Stacks)
    requires IsAtom(v) && Legible(v) && !EndsItself(v) && s.builders != []
    ensures Fails(Parse(AtomText(v), s))
  {
    hide LookAt, Legible, EndsItself, AtomText;
    AtomHasText(v);
    AtomEndLook(v);
    FixedToken(AtomText(v), LookAt(AtomText(v)).tok, 0);
  }

  /** A value at the very end of a text, whose end the reader looks past. */
  lemma {:induction false} EndIsFatal(v: Value, newLine: bool, depth: nat, pad: string, f: FlonumText, s: Stacks)
    requires Legible(v) && AllSpace(pad) && !EndsItself(v) && (s.builders != [] || !IsAtom(v))
    ensures Fails(Parse(Print(v, newLine, depth, pad, f), s))
    decreases v
  {
    hide NextToken, Parse, AddValue, PrintItems, IsSpace;
    var whole := Print(v, newLine, depth, pad, f);
    if v.Vector? {
      var s1 := Push(s, ParseVector, VectorBuilder([]));
      var lead, close := if newLine then "\n" else "", if newLine then Padding(depth, pad) else "";
      var body := PrintItems(v.items, newLine, depth, pad, f) + (close + ">");
      PrintSequence(v, newLine, depth, pad, f, "");
      assert whole + "" == whole && Closing(v) + "" == ">";
      Opens(v, lead + body, s);
      LineIsSpace(newLine, depth, pad);
      SkipsSpaces(lead, body, s1);
      ReadsItemsBack(v.items, newLine, depth, pad, f, close + ">", s1);
      SkipsSpaces(close, ">", AddAll(s1, AllRead(v.items)));
      LastBracket(AddAll(s1, AllRead(v.items)));
    } else if v.Wrapped? {
      var text, s1 := Print(v.inner, newLine, depth, pad, f), Push(s, StateOf(v.w), WrapperBuilder(v.w, Const(UNDEF)));
      PrintIsNotEmpty(v.inner, newLine, depth, pad, f);
      WrapperToken(v.w, text);
      ReadsOne(WrapperText(v.w) + text, s, Wrapper(v.w), |WrapperText(v.w)|, s1);
      assert (WrapperText(v.w) + text)[|WrapperText(v.w)|..] == text;
      EndIsFatal(v.inner, newLine, depth, pad, f, s1);
    } else {
      AtomEnds(v, s);
    }
  }

  /** An atom is not read where nothing is open. */
  lemma AtomAtTop(v: Value, s: Stacks)
    requires IsAtom(v) && Legible(v) && s.builders == []
    ensures Parse(AtomText(v), s).1 == s
  {
    hide NextToken, Legible, EndsItself, AtomText, AtomToken;
    AtomHasText(v);
    var t := AtomText(v);
    if EndsItself(v) {
      AtomIsOneToken(v, "");
      assert t + "" == t;
      OpensNothing(v);
      TokenAdvances(t);
    } else {
      AtomEndLook(v);
      FixedToken(t, LookAt(t).tok, 0);
    }
  }

  lemma AtomHasText(v: Value)
    requires IsAtom(v) && Legible(v)
    ensures !v.Flonum? && (v.Fixnum? ==> v.n >= 0)
  {
  }

  lemma OpensNothing(v: Value)
    requires IsAtom(v) && Legible(v)
    ensures var tok := AtomToken(v); !EndsText(tok) && !tok.ListStart? && !tok.VectorStart? && !tok.Wrapper?
  {
  }

  lemma NothingLeft(s: Stacks)
    ensures Parse("", s) == (Finished, s)
  {
  }

  // ---------- print, then read ----------

  /** What printing and parsing again gives, on one line or many: what the text means, and both
      stacks as they started. */
  lemma ReadsAsMeant(v: Value, newLine: bool, depth: nat, pad: string, f: FlonumText)
    requires Legible(v) && AllSpace(pad) && !IsAtom(v) && EndsItself(v)
    ensures Parse(Print(v, newLine, depth, pad, f), Empty) == (Finished, Empty.(root := Some(AsRead(v))))
  {
    hide Parse, Print, Legible, EndsItself, AsRead, IsAtom;
    ReadsBack(v, newLine, depth, pad, f, "", Empty);
    assert Print(v, newLine, depth, pad, f) + "" == Print(v, newLine, depth, pad, f);
    NothingLeft(AddValue(Empty, AsRead(v)));
  }

  /** Printing and parsing again is the identity exactly for the values whose text means them, that
      open something, and that do not end where the reader looks further. */
  lemma PrintThenParse(v: Value, newLine: bool, depth: nat, pad: string, f: FlonumText)
    requires Spelled(v) && AllSpace(pad)
    ensures Parse(Print(v, newLine, depth, pad, f), Empty) == (Finished, Empty.(root := Some(v)))
      <==> Readable(v) && !IsAtom(v) && EndsItself(v)
  {
    hide Parse, Print, EndsItself, AsRead, Spelled, Buildable, Readable;
    var text := Print(v, newLine, depth, pad, f);
    ReadableIs(v);
    if !Buildable(v) {
      ReaderBuilds(text, Empty);
    } else if IsAtom(v) {
      PrintAtom(v, newLine, depth, pad, f);
      AtomAtTop(v, Empty);
    } else if EndsItself(v) {
      ReadsAsMeant(v, newLine, depth, pad, f);
    } else {
      EndIsFatal(v, newLine, depth, pad, f, Empty);
    }
  }

  lemma PrintAtom(v: Value, newLine: bool, depth: nat, pad: string, f: FlonumText)
    requires IsAtom(v) && Legible(v)
    ensures Print(v, newLine, depth, pad, f) == AtomText(v)
  {
  }

  /** A file is read as the items of one list, with a character behind each text. A file that holds
      the text of a value, a vector or a single word too, is read as the list of what the text
      means; that is the value exactly if its text means it. */
  lemma FileReadsBack(v: Value, newLine: bool, depth: nat, pad: string, f: FlonumText)
    requires Spelled(v) && AllSpace(pad)
    ensures var r := Parse("[" + Print(v, newLine, depth, pad, f) + "\n]", Empty);
      && (Buildable(v) ==> r == (Finished, Empty.(root := Some(List([AsRead(v)])))))
      && (r == (Finished, Empty.(root := Some(List([v])))) <==> Readable(v))
  {
    hide Parse, Print, Spelled, IsSpace, AsRead, Readable;
    var text := Print(v, newLine, depth, pad, f);
    ReadableIs(v);
    if Buildable(v) {
      FileReads(v, newLine, depth, pad, f);
    } else {
      ReaderBuilds("[" + text + "\n]", Empty);
      assert v in [v];
    }
  }

  lemma FileReads(v: Value, newLine: bool, depth: nat, pad: string, f: FlonumText)
    requires Legible(v) && AllSpace(pad)
    ensures Parse("[" + Print(v, newLine, depth, pad, f) + "\n]", Empty) == (Finished, Empty.(root := Some(List([AsRead(v)]))))
  {
    hide Parse, Print, Legible, IsSpace, AsRead;
    var u := AsRead(v);
    var all, s1 := List([u]), Push(Empty, ParseList, ListBuilder([]));
    var text := Print(v, newLine, depth, pad, f);
    assert "[" + text + "\n]" == Opening(all) + (text + "\n]");
    Opens(all, text + "\n]", Empty);
    LineIsSpace(true, 0, "");
    ReadsBack(v, newLine, depth, pad, f, "\n]", s1);
    assert "\n" + "]" == "\n]";
    SkipsSpaces("\n", "]", AddValue(s1, u));
    assert AddAll(AddValue(s1, u), [u][1..]) == AddValue(s1, u);
    assert Closing(all) + "" == "]";
    Ends(all, "", Empty);
    NothingLeft(AddValue(Empty, all));
  }

  /** Whatever the whitespace between items, one thing is meant. */
  lemma LayoutDoesNotMatter(v: Value, pad: string, f: FlonumText)
    requires Legible(v) && AllSpace(pad) && !IsAtom(v) && EndsItself(v)
    ensures Parse(Print(v, true, 0, pad, f), Empty) == Parse(Print(v, false, 0, " ", f), Empty)
  {
    hide Parse, Print, Legible, EndsItself, AsRead, IsAtom;
    ReadsAsMeant(v, true, 0, pad, f);
    ReadsAsMeant(v, false, 0, " ", f);
  }

  /** Legible values have one text exactly if it means the same for both. */
  lemma TextsDiffer(v: Value, u: Value, newLine: bool, depth: nat, pad: string, f: FlonumText)
    requires Legible(v) && Legible(u) && AllSpace(pad)
    requires Print(v, newLine, depth, pad, f) == Print(u, newLine, depth, pad, f)
    ensures AsRead(v) == AsRead(u)
    ensures Readable(v) && Readable(u) ==> v == u
  {
    hide Parse, Print, Legible, AsRead, Readable;
    FileReads(v, newLine, depth, pad, f);
    FileReads(u, newLine, depth, pad, f);
    assert [AsRead(v)][0] == [AsRead(u)][0];
    LegibleIsSpelled(v);
    LegibleIsSpelled(u);
    ReadableIs(v);
    ReadableIs(u);
  }

  lemma LegibleIsSpelled(v: Value)
    ensures Legible(v) <==> Spelled(v) && Buildable(v)
  {
  }

  /** A slot marker, wherever it stands in a value, is read as the word for division. */
  lemma SlotMarkerIsLost(v: Value, newLine: bool, depth: nat, pad: string, f: FlonumText)
    requires Legible(v) && AllSpace(pad) && !IsAtom(v) && EndsItself(v) && HasSlotMarker(v)
    ensures Parse(Print(v, newLine, depth, pad, f), Empty) == (Finished, Empty.(root := Some(AsRead(v)))) && AsRead(v) != v
  {
    hide Parse, Print, Legible, EndsItself, AsRead, IsAtom;
    ReadsAsMeant(v, newLine, depth, pad, f);
    SlotMarkerMeansAnother(v);
  }

  /** The other way round: printing what was read, and reading that, gives the same again exactly if
      the value's text means it and ends itself. What is read from a text need not be spelled as its
      own text: a string from between apostrophes can hold a quotation mark. */
  lemma ParseThenPrint(t: string, v: Value, newLine: bool, depth: nat, pad: string, f: FlonumText)
    requires Parse(t, Empty) == (Finished, Empty.(root := Some(v))) && Spelled(v) && AllSpace(pad)
    ensures Parse(Print(v, newLine, depth, pad, f), Empty) == Parse(t, Empty)
      <==> Readable(v) && v != Const(NIL) && EndsItself(v)
  {
    hide Parse, Print, Spelled, Readable, EndsItself, Buildable;
    ReaderBuilds(t, Empty);
    PrintThenParse(v, newLine, depth, pad, f);
  }
}
