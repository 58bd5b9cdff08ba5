/** KSON data: the values that are written and read, and the printer. */
module Kson {
  import opened Lists

  datatype SymbolKind = Word | PrefixWord | SuffixWord | Variable | Identifier | SymString

  datatype Marker = Apply | Equal | Assign | MsgSignal | GetSlot | ProcPipe | ClauseEnd

  datatype Constant = NIL | TRUE | FALSE | UKN | UNDEF

  datatype WrapperKind =
    | QuoteList | QuoteCell | QuasiList | QuasiCell
    | ExpandReplace | ExpandKv | ExpandSeq
    | UnquoteReplace | UnquoteKv | UnquoteSeq

  /** A number as it is written: what stands before the dot, after it, and after the e. */
  datatype Number = Number(positive: bool, before: string, after: string, powerPositive: bool, power: string)

  /** `List` is a chain of pairs; the empty one is NIL. */
  datatype Value =
    | Fixnum(n: int)
    | Flonum(num: Number)
    | Str(s: string)
    | Sym(kind: SymbolKind, data: string)
    | Syntax(m: Marker)
    | Const(c: Constant)
    | List(items: seq<Value>)
    | Vector(items: seq<Value>)
    | Wrapped(w: WrapperKind, inner: Value)

  // ---------- numbers ----------

  function Digit(d: nat): char requires d < 10 { '0' + d as char }

  predicate IsDigit(c: char) { '0' <= c <= '9' }

  function Decimal(n: nat): (s: string)
    ensures |s| > 0 && forall i | 0 <= i < |s| :: IsDigit(s[i])
  {
    if n < 10 then [Digit(n)] else Decimal(n / 10) + [Digit(n % 10)]
  }

  /** Digits are put down from the right and reversed at the end. */
  method Itoa(a: int) returns (s: string)
    ensures s == if a < 0 then "-" + Decimal(-a) else Decimal(a)
  {
    var n: nat := if a < 0 then -a else a;
    ghost var digits := Decimal(n);
    var buff: string := [Digit(n % 10)];
    n := n / 10;
    while n > 0
      invariant digits == if n == 0 then Reverse(buff) else Decimal(n) + Reverse(buff)
    {
      ReverseAppend(buff, Digit(n % 10));
      buff := buff + [Digit(n % 10)];
      n := n / 10;
    }
    if a < 0 {
      ReverseAppend(buff, '-');
      buff := buff + "-";
    }
    s := [];
    var i: int := |buff|;
    while i > 0
      invariant 0 <= i <= |buff| && s == Reverse(buff[i..])
    {
      i := i - 1;
      assert buff[i..][1..] == buff[i + 1..];
      s := s + [buff[i]];
    }
    assert buff[0..] == buff;
  }

  function Value10(s: string, i: nat, acc: nat): nat
    requires i <= |s|
    decreases |s| - i
  {
    if i < |s| && IsDigit(s[i]) then Value10(s, i + 1, 10 * acc + (s[i] - '0') as nat) else acc
  }

  function Spaces(s: string): (n: nat)
    ensures n <= |s|
  {
    if s == [] || s[0] != ' ' then 0 else 1 + Spaces(s[1..])
  }

  predicate IsSign(c: char) { c == '+' || c == '-' }

  /** Spaces are passed over, and a sign; what does not go on with a digit then is 2147483647, unless
      there was a sign. */
  function IntegerOf(s: string): int {
    var i := Spaces(s);
    if i < |s| && IsSign(s[i]) then (if s[i] == '-' then -1 else 1) * Value10(s, i + 1, 0)
    else if i == |s| || !IsDigit(s[i]) then 2147483647
    else Value10(s, i, 0)
  }

  method Atoi(src: string) returns (s: int)
    ensures s == IntegerOf(src)
  {
    var i := 0;
    while i < |src| && src[i] == ' '
      invariant i <= |src| && Spaces(src) == i + Spaces(src[i..])
    {
      assert src[i..][1..] == src[i + 1..];
      i := i + 1;
    }
    var isMinus := false;
    if i < |src| && IsSign(src[i]) {
      isMinus := src[i] == '-';
      i := i + 1;
    } else if i == |src| || !IsDigit(src[i]) {
      return 2147483647;
    }
    ghost var start := i;
    var n: nat := 0;
    while i < |src| && IsDigit(src[i])
      invariant i <= |src| && Value10(src, start, 0) == Value10(src, i, n)
    {
      n, i := n * 10 + (src[i] - '0') as nat, i + 1;
    }
    s := n * if isMinus then -1 else 1;
  }

  lemma {:induction false} Value10Append(s: string, c: char, i: nat, acc: nat)
    requires i <= |s| && (forall j | i <= j < |s| :: IsDigit(s[j])) && IsDigit(c)
    ensures Value10(s + [c], i, acc) == 10 * Value10(s, i, acc) + (c - '0') as nat
    decreases |s| - i
  {
    if i < |s| {
      Value10Append(s, c, i + 1, 10 * acc + (s[i] - '0') as nat);
    } else {
      assert Value10(s + [c], i + 1, 10 * acc + (c - '0') as nat) == 10 * acc + (c - '0') as nat;
    }
  }

  /** Reading back what was written. */
  lemma {:induction false} DecimalReadsBack(n: nat)
    ensures IntegerOf(Decimal(n)) == n
  {
    if n < 10 {
      assert Value10([Digit(n)], 1, n) == n;
    } else {
      DecimalReadsBack(n / 10);
      Value10Append(Decimal(n / 10), Digit(n % 10), 0, 0);
      assert (Decimal(n / 10) + [Digit(n % 10)])[0] == Decimal(n / 10)[0];
    }
  }

  // ---------- the printer ----------

  function Padding(depth: nat, pad: string): string {
    if depth == 0 then "" else Padding(depth - 1, pad) + pad
  }

  function SymbolText(kind: SymbolKind, data: string): string {
    match kind
    case PrefixWord => "!" + data
    case SuffixWord => "^" + data
    case Word => data
    case Variable => "@" + data
    case Identifier => "$" + data
    case SymString => "$'" + data + "'"
  }

  function MarkerText(m: Marker): string {
    match m
    case Apply => "%"
    case Equal => "="
    case Assign => ":="
    case MsgSignal => "."
    case GetSlot => "/"
    case ProcPipe => "|"
    case ClauseEnd => ";"
  }

  function ConstantText(c: Constant): string {
    match c
    case NIL => "#nil;"
    case TRUE => "#t;"
    case FALSE => "#f;"
    case UKN => "#ukn;"
    case UNDEF => "#undef;"
  }

  function WrapperText(w: WrapperKind): string {
    match w
    case QuoteList => "$"
    case QuoteCell => "$"
    case QuasiList => "@"
    case QuasiCell => "@"
    case ExpandReplace => "@."
    case ExpandKv => "@%."
    case ExpandSeq => "@~."
    case UnquoteReplace => "$."
    case UnquoteKv => "$%."
    case UnquoteSeq => "$~."
  }

  /** How a number that is not a fixnum is shown is not part of this model. */
  type FlonumText = Number -> string

  /** The text of a value, on one line or with every item on its own, indented line. */
  function Print(v: Value, newLine: bool, depth: nat, pad: string, f: FlonumText): string
    decreases v, 0
  {
    match v
    case Fixnum(n) => if n < 0 then "-" + Decimal(-n) else Decimal(n)
    case Flonum(num) => f(num)
    case Str(s) => "\"" + s + "\""
    case Sym(kind, data) => SymbolText(kind, data)
    case Syntax(m) => MarkerText(m)
    case Const(c) => ConstantText(c)
    case List(items) =>
      if items == [] then "#nil;"
      else if newLine then "[\n" + PrintItems(items, newLine, depth, pad, f) + Padding(depth, pad) + "]"
      else "[" + PrintItems(items, newLine, depth, pad, f) + "]"
    case Vector(items) =>
      if newLine then "#<\n" + PrintItems(items, newLine, depth, pad, f) + Padding(depth, pad) + ">"
      else "#<" + PrintItems(items, newLine, depth, pad, f) + ">"
    case Wrapped(w, inner) => WrapperText(w) + Print(inner, newLine, depth, pad, f)
  }

  function PrintItem(item: Value, newLine: bool, depth: nat, pad: string, f: FlonumText): string
    decreases item, 1
  {
    if newLine then Padding(depth, pad) + pad + Print(item, true, depth + 1, pad, f) + "\n"
    else Print(item, false, depth + 1, pad, f) + " "
  }

  function PrintItems(items: seq<Value>, newLine: bool, depth: nat, pad: string, f: FlonumText): string
    decreases items, 0
  {
    if items == [] then "" else PrintItem(items[0], newLine, depth, pad, f) + PrintItems(items[1..], newLine, depth, pad, f)
  }

  lemma PrintNone(newLine: bool, depth: nat, pad: string, f: FlonumText)
    ensures PrintItems([], newLine, depth, pad, f) == ""
  {
  }

  lemma {:induction false} PrintOneMore(items: seq<Value>, item: Value, newLine: bool, depth: nat, pad: string, f: FlonumText)
    ensures PrintItems(items + [item], newLine, depth, pad, f) == PrintItems(items, newLine, depth, pad, f) + PrintItem(item, newLine, depth, pad, f)
  {
    if items == [] {
      assert [item][1..] == [];
    } else {
      PrintOneMore(items[1..], item, newLine, depth, pad, f);
      assert (items + [item])[1..] == items[1..] + [item];
    }
  }

  method AddLeftPadding(str: string, depth: nat, pad: string) returns (s: string)
    ensures s == str + Padding(depth, pad)
  {
    s := str;
    for i := 0 to depth
      invariant s == str + Padding(i, pad)
    {
      s := s + pad;
    }
  }

  method ToFormatString(v: Value, newLine: bool, depth: nat, pad: string, f: FlonumText) returns (s: string)
    ensures s == Print(v, newLine, depth, pad, f)
    decreases v, 0
  {
    match v
    case Fixnum(n) => s := Itoa(n);
    case Flonum(num) => s := f(num);
    case Str(t) => s := "\"" + t + "\"";
    case Sym(kind, data) => s := SymbolText(kind, data);
    case Syntax(m) => s := MarkerText(m);
    case Const(c) => s := ConstantText(c);
    case List(items) =>
      if items == [] {
        s := "#nil;";
      } else {
        s := Items("[", items, newLine, depth, pad, f);
        s := s + "]";
      }
    case Vector(items) =>
      s := Items("#<", items, newLine, depth, pad, f);
      s := s + ">";
    case Wrapped(w, inner) =>
      var text := ToFormatString(inner, newLine, depth, pad, f);
      s := WrapperText(w) + text;
  }

  /** The items of a list or a vector, and the padding before its closing bracket. */
  method Items(open: string, items: seq<Value>, newLine: bool, depth: nat, pad: string, f: FlonumText) returns (s: string)
    ensures s == if newLine then open + "\n" + PrintItems(items, newLine, depth, pad, f) + Padding(depth, pad)
                 else open + PrintItems(items, newLine, depth, pad, f)
    decreases items, 1
  {
    hide PrintItem, PrintItems, Padding;
    PrintNone(newLine, depth, pad, f);
    s := if newLine then open + "\n" else open;
    ghost var start := s;
    for i := 0 to |items|
      invariant s == start + PrintItems(items[..i], newLine, depth, pad, f)
    {
      PrintOneMore(items[..i], items[i], newLine, depth, pad, f);
      assert items[..i] + [items[i]] == items[..i + 1];
      var text := Item(items[i], newLine, depth, pad, f);
      s := s + text;
    }
    assert items[..|items|] == items;
    if newLine {
      s := AddLeftPadding(s, depth, pad);
    }
  }

  method Item(item: Value, newLine: bool, depth: nat, pad: string, f: FlonumText) returns (s: string)
    ensures s == PrintItem(item, newLine, depth, pad, f)
    decreases item, 1
  {
    s := ToFormatString(item, newLine, depth + 1, pad, f);
    if newLine {
      var t := AddLeftPadding("", depth, pad);
      s := t + pad + s + "\n";
    } else {
      s := s + " ";
    }
  }
}
