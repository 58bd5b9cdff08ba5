/** Building KSON values out of tokens, with a stack of unfinished values and a stack of states. */
module Reading {
  import opened Options
  import opened Kson
  import opened Tokenizing

  datatype ReaderState =
    | Root | ParseVector | ParseList | ParseQuote | ParseQuasiquote | ParseUnquote
    | ParseExpandReplace | ParseExpandKv | ParseExpandSeq

  datatype Builder =
    | VectorBuilder(items: seq<Value>)
    | ListBuilder(items: seq<Value>)
    | WrapperBuilder(w: WrapperKind, inner: Value)

  datatype RawStacks = Stacks(states: seq<ReaderState>, builders: seq<Builder>, root: Option<Value>)

  /** The two stacks, tops last; a state is kept below each builder. */
  type Stacks = s: RawStacks | |s.states| == |s.builders| + 1 witness Stacks([Root], [], None)

  datatype Status = Finished | Crashed | Hangs | NotModelled

  // ---------- values ----------

  /** The escapes \n, \r and \t; any other backslash is kept. */
  predicate StartsEscape(s: string) { |s| > 1 && s[0] == '\\' && (s[1] == 'n' || s[1] == 'r' || s[1] == 't') }

  function FirstMeant(s: string): char
    requires s != ""
  {
    if !StartsEscape(s) then s[0] else if s[1] == 'n' then '\n' else if s[1] == 'r' then '\r' else '\t'
  }

  function Unescape(s: string): string {
    if s == "" then "" else [FirstMeant(s)] + Unescape(s[if StartsEscape(s) then 2 else 1..])
  }

  method MakeString(origin: string) returns (sb: string)
    ensures sb == Unescape(origin)
  {
    sb := "";
    var index := 0;
    while index < |origin|
      invariant index <= |origin| && Unescape(origin) == sb + Unescape(origin[index..])
    {
      ghost var rest := origin[index..];
      ghost var used := if StartsEscape(rest) then 2 else 1;
      assert rest[used..] == origin[index + used..];
      if origin[index] == '\\' && index + 1 < |origin| {
        if origin[index + 1] == 'n' {
          sb, index := sb + "\n", index + 2;
          continue;
        } else if origin[index + 1] == 'r' {
          sb, index := sb + "\r", index + 2;
          continue;
        } else if origin[index + 1] == 't' {
          sb, index := sb + "\t", index + 2;
          continue;
        }
      }
      sb, index := sb + [origin[index]], index + 1;
    }
  }

  /** A positive number without fraction or power is a fixnum. */
  function NumberValue(num: Number): Value {
    if num.positive && num.after == "" && num.power == "" then Fixnum(IntegerOf(num.before)) else Flonum(num)
  }

  function BuiltValue(b: Builder): Value {
    match b
    case VectorBuilder(items) => Vector(items)
    case ListBuilder(items) => if items == [] then Const(NIL) else List(items)
    case WrapperBuilder(w, inner) => Wrapped(w, inner)
  }

  // ---------- the stacks ----------

  function Push(s: Stacks, state: ReaderState, b: Builder): Stacks {
    s.(states := s.states + [state], builders := s.builders + [b])
  }

  /** A value goes into the builder on top; a wrapper takes one value and is finished. */
  function AddValue(s: Stacks, v: Value): (r: Stacks)
    decreases |s.builders|, 1
  {
    if s.builders == [] then s.(root := Some(v))
    else
      var top := |s.builders| - 1;
      match s.builders[top]
      case VectorBuilder(items) => s.(builders := s.builders[top := VectorBuilder(items + [v])])
      case ListBuilder(items) => s.(builders := s.builders[top := ListBuilder(items + [v])])
      case WrapperBuilder(w, _) => ExitTop(s.(builders := s.builders[top := WrapperBuilder(w, v)]))
  }

  /** The builder on top is finished, and its value goes into the one below. */
  function ExitTop(s: Stacks): (r: Stacks)
    requires s.builders != []
    decreases |s.builders|, 0
  {
    var top := |s.builders| - 1;
    AddValue(Stacks(s.states[..top + 1], s.builders[..top], s.root), BuiltValue(s.builders[top]))
  }

  function StateOf(w: WrapperKind): ReaderState {
    match w
    case QuoteList => ParseQuote
    case QuoteCell => ParseQuote
    case QuasiList => ParseQuasiquote
    case QuasiCell => ParseQuasiquote
    case ExpandReplace => ParseExpandReplace
    case ExpandKv => ParseExpandKv
    case ExpandSeq => ParseExpandSeq
    case UnquoteReplace => ParseUnquote
    case UnquoteKv => ParseUnquote
    case UnquoteSeq => ParseUnquote
  }

  // ---------- tokens ----------

  /** Tables, parameters, maps, cells and blocks are not part of this model. */
  predicate IsUnmodelled(tok: Token) {
    tok.BlockStart? || tok.TableStart? || tok.ParamStart? || tok.CellStart? || tok.MapStart? || tok.KvPairTag? || tok.Unmodelled?
  }

  predicate ClosesNothing(s: Stacks) { s.builders != [] && !s.builders[|s.builders| - 1].VectorBuilder? }

  /** What a token does. Only the start of something is accepted when nothing is open. */
  function Read(s: Stacks, tok: Token): (r: (Status, Stacks))
    requires !EndsText(tok)
  {
    if tok.ListStart? then (Finished, Push(s, ParseList, ListBuilder([])))
    else if tok.VectorStart? then (Finished, Push(s, ParseVector, VectorBuilder([])))
    else if tok.Wrapper? then (Finished, Push(s, StateOf(tok.w), WrapperBuilder(tok.w, Const(UNDEF))))
    else if IsUnmodelled(tok) then (NotModelled, s)
    else if s.builders == [] then (Crashed, s)
    else (Finished,
      if tok.SyntaxMarker? then AddValue(s, Syntax(tok.m))
      else if tok.Symbol? then if tok.kind == SuffixWord then s else AddValue(s, Sym(tok.kind, tok.content))
      else if tok.Keyword? then AddValue(s, Const(tok.c))
      else if tok.NumberLiteral? then AddValue(s, NumberValue(tok.num))
      else if tok.StringLiteral? then AddValue(s, Str(Unescape(tok.content)))
      else if tok.RawStringLiteral? then AddValue(s, Str(tok.content))
      else if tok.VectorEnd? && ClosesNothing(s) then AddValue(s, Sym(Word, ">"))
      else ExitTop(s))
  }

  function Ending(tok: Token): Status
    requires EndsText(tok)
  {
    if tok.Eof? then Finished else if tok.NullRead? then Crashed else if tok.Spins? then Hangs else NotModelled
  }

  /** The whole of a text. */
  function Parse(t: string, s: Stacks): (Status, Stacks)
    decreases |t|
  {
    var (tok, n) := NextToken(t);
    TokenAdvances(t);
    if EndsText(tok) then (Ending(tok), s)
    else
      var (status, s1) := Read(s, tok);
      if status == Finished then Parse(t[n..], s1) else (status, s1)
  }

  const Empty: Stacks := Stacks([Root], [], None)

  // ---------- the reader ----------

  class Reader {
    const tokenizer: Tokenizer
    var stateStack: seq<ReaderState>
    var builderStack: seq<Builder>
    var root: Option<Value>

    constructor (code: string)
      ensures Valid() && stateStack == [] && builderStack == [] && root == None
      ensures fresh(tokenizer) && tokenizer.Left() == code
    {
      tokenizer := new Tokenizer(code);
      stateStack, builderStack, root := [], [], None;
    }

    predicate Valid() reads this, tokenizer { tokenizer.Valid() }

    predicate Matched() reads this`stateStack, this`builderStack { |stateStack| == |builderStack| + 1 }

    function State(): Stacks
      requires Matched()
      reads this`stateStack, this`builderStack, this`root
    {
      Stacks(stateStack, builderStack, root)
    }

    method AddValueToTopBuilder(value: Value)
      requires Matched()
      modifies this`stateStack, this`builderStack, this`root
      ensures Matched() && State() == AddValue(old(State()), value)
      decreases |builderStack|, 1
    {
      if |builderStack| == 0 {
        root := Some(value);
        return;
      }
      var top := |builderStack| - 1;
      match builderStack[top]
      case VectorBuilder(items) => builderStack := builderStack[top := VectorBuilder(items + [value])];
      case ListBuilder(items) => builderStack := builderStack[top := ListBuilder(items + [value])];
      case WrapperBuilder(w, _) =>
        builderStack := builderStack[top := WrapperBuilder(w, value)];
        ExitTopBuilder();
    }

    method ExitTopBuilder()
      requires Matched() && builderStack != []
      modifies this`stateStack, this`builderStack, this`root
      ensures Matched() && State() == ExitTop(old(State()))
      decreases |builderStack|, 0
    {
      var top := |builderStack| - 1;
      var value := MakeValue(builderStack[top]);
      builderStack, stateStack := builderStack[..top], stateStack[..top + 1];
      AddValueToTopBuilder(value);
    }

    method ReadToken(tok: Token) returns (status: Status)
      requires Matched() && !EndsText(tok)
      modifies this`stateStack, this`builderStack, this`root
      ensures Matched() && (status, State()) == Read(old(State()), tok)
    {
      if tok.ListStart? {
        stateStack, builderStack := stateStack + [ParseList], builderStack + [ListBuilder([])];
      } else if tok.VectorStart? {
        stateStack, builderStack := stateStack + [ParseVector], builderStack + [VectorBuilder([])];
      } else if tok.Wrapper? {
        stateStack, builderStack := stateStack + [StateOf(tok.w)], builderStack + [WrapperBuilder(tok.w, Const(UNDEF))];
      } else if IsUnmodelled(tok) {
        return NotModelled;
      } else if builderStack == [] {
        return Crashed;
      } else if tok.SyntaxMarker? {
        AddValueToTopBuilder(Syntax(tok.m));
      } else if tok.Symbol? && tok.kind == SuffixWord {
      } else if tok.Symbol? {
        AddValueToTopBuilder(Sym(tok.kind, tok.content));
      } else if tok.VectorEnd? && !builderStack[|builderStack| - 1].VectorBuilder? {
        AddValueToTopBuilder(Sym(Word, ">"));
      } else if tok.Keyword? || tok.NumberLiteral? || tok.StringLiteral? || tok.RawStringLiteral? {
        var value := MakeLiteral(tok);
        AddValueToTopBuilder(value);
      } else {
        ExitTopBuilder();
      }
      return Finished;
    }

    /** The token loop, from a fresh state stack. */
    method KsonParse() returns (status: Status)
      requires Valid() && stateStack == [] && builderStack == []
      modifies this`stateStack, this`builderStack, this`root, tokenizer
      ensures Matched() && (status, State()) == Parse(old(tokenizer.Left()), Stacks([Root], [], old(root)))
    {
      hide Read;
      stateStack := stateStack + [Root];
      assert State() == Stacks([Root], [], root);
      ghost var whole := Parse(tokenizer.Left(), State());
      while true
        invariant Valid() && Matched() && whole == Parse(tokenizer.Left(), State())
        decreases |tokenizer.Left()|
      {
        var tok := tokenizer.Next();
        if EndsText(tok) {
          return Ending(tok);
        }
        status := ReadToken(tok);
        if status != Finished {
          return;
        }
      }
    }
  }

  method MakeValue(b: Builder) returns (v: Value)
    ensures v == BuiltValue(b)
  {
    if b.ListBuilder? {
      v := MakeListByBuilder(b.items);
    } else {
      v := BuiltValue(b);
    }
  }

  /** A list is made by consing from the last item down. */
  method MakeListByBuilder(list: seq<Value>) returns (v: Value)
    ensures v == BuiltValue(ListBuilder(list))
  {
    var pair: seq<Value>, i: int := [], |list|;
    while i > 0
      invariant 0 <= i <= |list| && pair == list[i..]
    {
      i := i - 1;
      pair := [list[i]] + pair;
    }
    v := if pair == [] then Const(NIL) else List(pair);
  }

  method MakeLiteral(tok: Token) returns (v: Value)
    requires tok.Keyword? || tok.NumberLiteral? || tok.StringLiteral? || tok.RawStringLiteral?
    ensures v == match tok
                 case Keyword(c) => Const(c)
                 case NumberLiteral(num) => NumberValue(num)
                 case StringLiteral(content) => Str(Unescape(content))
                 case RawStringLiteral(content) => Str(content)
  {
    match tok
    case Keyword(c) => v := Const(c);
    case NumberLiteral(num) =>
      if num.positive && num.after == "" && num.power == "" {
        var n := Atoi(num.before);
        v := Fixnum(n);
      } else {
        v := Flonum(num);
      }
    case StringLiteral(content) =>
      var sb := MakeString(content);
      v := Str(sb);
    case RawStringLiteral(content) => v := Str(content);
  }
}
