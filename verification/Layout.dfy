/** How texts are laid out: on one line without a line end, or with every item on a line of its own, one
    step further in than its brackets. */
module Layouts {
  import opened Kson

  predicate OneLine(s: string) { forall i :: 0 <= i < |s| ==> s[i] != '\n' }

  /** No name, string or number in the value holds a line end. */
  predicate Lineless(v: Value, f: FlonumText) {
    match v
    case Fixnum(_) => true
    case Flonum(num) => OneLine(f(num))
    case Str(s) => OneLine(s)
    case Sym(_, d) => OneLine(d)
    case Syntax(_) => true
    case Const(_) => true
    case List(items) => forall x <- items :: Lineless(x, f)
    case Vector(items) => forall x <- items :: Lineless(x, f)
    case Wrapped(_, inner) => Lineless(inner, f)
  }

  lemma DecimalIsOneLine(n: nat)
    ensures OneLine(Decimal(n))
  {
    forall i | 0 <= i < |Decimal(n)| ensures Decimal(n)[i] != '\n' {
      assert IsDigit(Decimal(n)[i]);
    }
  }

  lemma AtomsAreOneLine(v: Value, newLine: bool, depth: nat, pad: string, f: FlonumText)
    requires Lineless(v, f) && !v.List? && !v.Vector? && !v.Wrapped?
    ensures OneLine(Print(v, newLine, depth, pad, f))
  {
    if v.Fixnum? {
      DecimalIsOneLine(if v.n < 0 then -v.n else v.n);
    }
  }

  /** A text on one line has no line end. */
  lemma {:induction false} TextIsOneLine(v: Value, depth: nat, pad: string, f: FlonumText)
    requires Lineless(v, f)
    ensures OneLine(Print(v, false, depth, pad, f))
    decreases v, 0
  {
    match v
    case List(items) => ItemsAreOneLine(items, depth, pad, f);
    case Vector(items) => ItemsAreOneLine(items, depth, pad, f);
    case Wrapped(w, inner) => TextIsOneLine(inner, depth, pad, f);
    case _ => AtomsAreOneLine(v, false, depth, pad, f);
  }

  lemma {:induction false} ItemsAreOneLine(items: seq<Value>, depth: nat, pad: string, f: FlonumText)
    requires forall x <- items :: Lineless(x, f)
    ensures OneLine(PrintItems(items, false, depth, pad, f))
    decreases items, 0
  {
    hide Print, Lineless;
    if items != [] {
      TextIsOneLine(items[0], depth + 1, pad, f);
      ItemsAreOneLine(items[1..], depth, pad, f);
    }
  }

  // ---------- many lines ----------

  /** The text with every line but the first moved in. */
  function Indented(s: string, pad: string): string {
    if s == "" then "" else (if s[0] == '\n' then "\n" + pad else [s[0]]) + Indented(s[1..], pad)
  }

  lemma {:induction false} IndentedConcat(a: string, b: string, pad: string)
    ensures Indented(a + b, pad) == Indented(a, pad) + Indented(b, pad)
  {
    if a == "" {
      assert a + b == b;
    } else {
      IndentedConcat(a[1..], b, pad);
      assert (a + b)[1..] == a[1..] + b;
    }
  }

  lemma {:induction false} IndentedOneLine(s: string, pad: string)
    requires OneLine(s)
    ensures Indented(s, pad) == s
  {
    if s != "" {
      IndentedOneLine(s[1..], pad);
      assert s == [s[0]] + s[1..] && s[0] in s;
    }
  }

  /** The text of a value on many lines, from the texts of its parts: brackets around lines, each a step
      further in. */
  function Laid(v: Value, pad: string, f: FlonumText): string
    decreases v, 0
  {
    match v
    case List(items) => if items == [] then ConstantText(NIL) else "[\n" + Lines(items, pad, f) + "]"
    case Vector(items) => "#<\n" + Lines(items, pad, f) + ">"
    case Wrapped(w, inner) => WrapperText(w) + Laid(inner, pad, f)
    case _ => Print(v, false, 0, "", f)
  }

  function Lines(items: seq<Value>, pad: string, f: FlonumText): string
    decreases items, 0
  {
    if items == [] then "" else pad + Indented(Laid(items[0], pad, f), pad) + "\n" + Lines(items[1..], pad, f)
  }

  /** A text moved in by `depth` steps. */
  function Moved(s: string, depth: nat, pad: string): string { Indented(s, Padding(depth, pad)) }

  lemma LineEnd(q: string)
    ensures Indented("\n", q) == "\n" + q
  {
    assert "\n"[1..] == "" && Indented("", q) == "";
  }

  lemma IndentedFirst(s: string, pad: string)
    requires s != ""
    ensures Indented(s, pad) == (if s[0] == '\n' then "\n" + pad else [s[0]]) + Indented(s[1..], pad)
  {
  }

  lemma {:induction false} IndentedTwice(s: string, p: string, q: string)
    requires OneLine(p)
    ensures Indented(Indented(s, p), q) == Indented(s, q + p)
  {
    hide Indented;
    if s == "" {
      IndentedNothing(p);
      IndentedNothing(q);
      IndentedNothing(q + p);
    } else {
      IndentedTwice(s[1..], p, q);
      IndentedFirst(s, p);
      IndentedFirst(s, q + p);
      var first := if s[0] == '\n' then "\n" + p else [s[0]];
      IndentedConcat(first, Indented(s[1..], p), q);
      if s[0] == '\n' {
        IndentedConcat("\n", p, q);
        IndentedOneLine(p, q);
        LineEnd(q);
        assert "\n" + q + p == "\n" + (q + p);
      } else {
        IndentedOneLine([s[0]], q);
      }
    }
  }

  lemma IndentedNothing(pad: string)
    ensures Indented("", pad) == ""
  {
  }

  /** The printer lays a text out so, moved in by the depth it is printed at. */
  lemma {:induction false} PrintsLaid(v: Value, depth: nat, pad: string, f: FlonumText)
    requires Lineless(v, f) && OneLine(pad)
    ensures Print(v, true, depth, pad, f) == Moved(Laid(v, pad, f), depth, pad)
    decreases v, 0
  {
    hide Indented, Padding, Print, Laid, Lines, PrintItems, Moved;
    var p := Padding(depth, pad);
    if v.List? && v.items != [] {
      SequencePrints("[", v, "]", depth, pad, f);
      BracketsLaid("[", v.items, "]", depth, pad, f);
    } else if v.Vector? {
      SequencePrints("#<", v, ">", depth, pad, f);
      BracketsLaid("#<", v.items, ">", depth, pad, f);
    } else if v.Wrapped? {
      PrintsLaid(v.inner, depth, pad, f);
      WrapperLaid(v, depth, pad, f);
    } else {
      AtomTextSame(v, depth, pad, f);
      AtomLaid(v, f);
      IndentedOneLine(Print(v, false, 0, "", f), p);
      MovedIs(Print(v, false, 0, "", f), depth, pad);
    }
  }

  lemma MovedIs(s: string, depth: nat, pad: string)
    ensures Moved(s, depth, pad) == Indented(s, Padding(depth, pad))
  {
  }

  lemma AtomLaid(v: Value, f: FlonumText)
    requires Lineless(v, f) && !v.Vector? && !v.Wrapped? && (v.List? ==> v.items == [])
    ensures OneLine(Print(v, false, 0, "", f)) && (forall pad :: Laid(v, pad, f) == Print(v, false, 0, "", f))
  {
    if !v.List? {
      AtomsAreOneLine(v, false, 0, "", f);
    }
  }

  lemma SequencePrints(open: string, v: Value, close: string, depth: nat, pad: string, f: FlonumText)
    requires (v.List? && v.items != [] && open == "[" && close == "]") || (v.Vector? && open == "#<" && close == ">")
    ensures Print(v, true, depth, pad, f) == open + "\n" + PrintItems(v.items, true, depth, pad, f) + Padding(depth, pad) + close
    ensures Laid(v, pad, f) == open + "\n" + Lines(v.items, pad, f) + close
  {
    hide PrintItems, Lines, Padding;
    assert "[" + "\n" == "[\n" && "#<" + "\n" == "#<\n";
  }

  lemma WrapperLaid(v: Value, depth: nat, pad: string, f: FlonumText)
    requires v.Wrapped? && Print(v.inner, true, depth, pad, f) == Moved(Laid(v.inner, pad, f), depth, pad)
    ensures Print(v, true, depth, pad, f) == Moved(Laid(v, pad, f), depth, pad)
  {
    hide Indented;
    IndentedConcat(WrapperText(v.w), Laid(v.inner, pad, f), Padding(depth, pad));
    IndentedOneLine(WrapperText(v.w), Padding(depth, pad));
  }

  lemma AtomTextSame(v: Value, depth: nat, pad: string, f: FlonumText)
    requires !v.Vector? && !v.Wrapped? && (v.List? ==> v.items == [])
    ensures Print(v, true, depth, pad, f) == Print(v, false, 0, "", f)
  {
  }

  /** Brackets, with the closing one behind the padding of the opening one. */
  lemma BracketsLaid(open: string, items: seq<Value>, close: string, depth: nat, pad: string, f: FlonumText)
    requires (forall x <- items :: Lineless(x, f)) && OneLine(pad) && OneLine(open) && OneLine(close)
    ensures open + "\n" + PrintItems(items, true, depth, pad, f) + Padding(depth, pad) + close == Moved(open + "\n" + Lines(items, pad, f) + close, depth, pad)
    decreases items, 1
  {
    hide Print, PrintItems, Lines, Lineless, Indented, Padding;
    var p, lines := Padding(depth, pad), Lines(items, pad, f);
    ItemsLaid(items, depth, pad, f);
    IndentedConcat(open + "\n" + lines, close, p);
    IndentedConcat(open + "\n", lines, p);
    IndentedConcat(open, "\n", p);
    IndentedOneLine(open, p);
    IndentedOneLine(close, p);
    LineEnd(p);
    assert open + ("\n" + p) + Indented(lines, p) == open + "\n" + (p + Indented(lines, p));
  }

  lemma {:induction false} ItemsLaid(items: seq<Value>, depth: nat, pad: string, f: FlonumText)
    requires (forall x <- items :: Lineless(x, f)) && OneLine(pad)
    ensures PrintItems(items, true, depth, pad, f) + Padding(depth, pad) == Padding(depth, pad) + Indented(Lines(items, pad, f), Padding(depth, pad))
    decreases items, 0
  {
    hide Print, Lineless, Laid;
    var p := Padding(depth, pad);
    if items != [] {
      PrintsLaid(items[0], depth + 1, pad, f);
      ItemsLaid(items[1..], depth, pad, f);
      ItemLaid(items[0], depth, pad, f);
      var line, rest := pad + Indented(Laid(items[0], pad, f), pad) + "\n", Lines(items[1..], pad, f);
      IndentedConcat(line, rest, p);
      LinesTogether(PrintItem(items[0], true, depth, pad, f), PrintItems(items[1..], true, depth, pad, f), p, Indented(line, p), Indented(rest, p));
    } else {
      assert PrintItems(items, true, depth, pad, f) == "" && Lines(items, pad, f) == "" && Indented("", p) == "";
    }
  }

  lemma LinesTogether(a: string, b: string, p: string, x: string, y: string)
    requires a + p == p + x && b + p == p + y
    ensures (a + b) + p == p + (x + y)
  {
    assert (a + b) + p == a + (b + p) && a + (p + y) == (a + p) + y && (p + x) + y == p + (x + y);
  }

  /** One item: its line, and the padding of the next. */
  lemma ItemLaid(item: Value, depth: nat, pad: string, f: FlonumText)
    requires OneLine(pad) && Print(item, true, depth + 1, pad, f) == Moved(Laid(item, pad, f), depth + 1, pad)
    ensures PrintItem(item, true, depth, pad, f) + Padding(depth, pad)
      == Padding(depth, pad) + Indented(pad + Indented(Laid(item, pad, f), pad) + "\n", Padding(depth, pad))
  {
    hide Print, Laid, Indented;
    var p, text := Padding(depth, pad), Laid(item, pad, f);
    IndentedConcat(pad + Indented(text, pad), "\n", p);
    IndentedConcat(pad, Indented(text, pad), p);
    IndentedOneLine(pad, p);
    IndentedTwice(text, pad, p);
    LineEnd(p);
    assert PrintItem(item, true, depth, pad, f) == p + pad + Indented(text, p + pad) + "\n";
    assert p + pad + Indented(text, p + pad) + "\n" + p == p + (pad + Indented(text, p + pad) + ("\n" + p));
  }
}
