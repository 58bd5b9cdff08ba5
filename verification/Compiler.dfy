/** The regex compiler: two-pass emission with back-patched jumps, the layout it produces,
    and the proof that the paths through that layout are exactly the matches of the regex. */
module Compiler {
  import opened Regexes
  import opened Bytecode

  /** The number of instructions `r` takes. */
  function ProgramLen(r: Regex): nat {
    match r
    case Nil => 0
    case Alt(l, r') => 2 + ProgramLen(l) + ProgramLen(r')
    case Cat(l, r') => ProgramLen(l) + ProgramLen(r')
    case Paren(_, b) => 2 + ProgramLen(b)
    case Quest(_, b) => 1 + ProgramLen(b)
    case Star(_, b) => 2 + ProgramLen(b)
    case Plus(_, b) => 1 + ProgramLen(b)
    case Toplevel(_, b) => 1 + ProgramLen(b)
    case _ => 1
  }

  function Prefer(greedy: bool, first: nat, second: nat): Instr {
    if greedy then Split(first, second) else Split(second, first)
  }

  /** The code of `r` stands at P[lo..lo + ProgramLen(r)]. */
  ghost predicate CodeAt(P: Program, r: Regex, lo: nat) {
    var hi := lo + ProgramLen(r);
    hi <= |P| &&
    match r
    case Nil => true
    case Alt(l, r') =>
      var mid := lo + 1 + ProgramLen(l);
      P[lo] == Split(lo + 1, mid + 1) && CodeAt(P, l, lo + 1) && P[mid] == Jmp(hi) && CodeAt(P, r', mid + 1)
    case Cat(l, r') => CodeAt(P, l, lo) && CodeAt(P, r', lo + ProgramLen(l))
    case Lit(c) => P[lo] == Char(c)
    case Dot => P[lo] == Any
    case Paren(g, b) => P[lo] == Save(2 * g) && CodeAt(P, b, lo + 1) && P[hi - 1] == Save(2 * g + 1)
    case Quest(greedy, b) => P[lo] == Prefer(greedy, lo + 1, hi) && CodeAt(P, b, lo + 1)
    case Star(greedy, b) => P[lo] == Prefer(greedy, lo + 1, hi) && CodeAt(P, b, lo + 1) && P[hi - 1] == Jmp(lo)
    case Plus(greedy, b) => CodeAt(P, b, lo) && P[hi - 1] == Prefer(greedy, lo, hi)
    case Class(rs) => P[lo] == In(rs)
    case NClass(rs) => P[lo] == NotIn(rs)
    case Assert(a) => P[lo] == Check(a)
    case Toplevel(id, b) => CodeAt(P, b, lo) && P[hi - 1] == Match(id)
  }

  predicate IsUnary(r: Regex) { r.Paren? || r.Quest? || r.Star? || r.Plus? || r.Toplevel? }

  /** Where the code of a body starts. */
  function BodyAt(r: Regex, lo: nat): nat
    requires IsUnary(r)
  {
    if r.Plus? || r.Toplevel? then lo else lo + 1
  }

  /** The code of the parts of `r` is inside the code of `r`. */
  lemma CodeOfParts(P: Program, r: Regex, lo: nat)
    requires CodeAt(P, r, lo)
    ensures lo + ProgramLen(r) <= |P|
    ensures r.Alt? ==>
      CodeAt(P, r.left, lo + 1) && CodeAt(P, r.right, lo + 2 + ProgramLen(r.left))
      && ProgramLen(r) == 2 + ProgramLen(r.left) + ProgramLen(r.right)
    ensures r.Cat? ==>
      CodeAt(P, r.left, lo) && CodeAt(P, r.right, lo + ProgramLen(r.left))
      && ProgramLen(r) == ProgramLen(r.left) + ProgramLen(r.right)
    ensures IsUnary(r) ==> CodeAt(P, r.body, BodyAt(r, lo)) && BodyAt(r, lo) + ProgramLen(r.body) <= lo + ProgramLen(r)
  {
  }

  /** A choice: a split to the two sides, and a jump over the right one behind the left one. */
  lemma ChoiceCode(P: Program, r: Regex, lo: nat)
    requires r.Alt? && CodeAt(P, r, lo)
    ensures var mid, hi := lo + 1 + ProgramLen(r.left), lo + ProgramLen(r);
      mid < hi <= |P| && P[lo] == Split(lo + 1, mid + 1) && P[mid] == Jmp(hi)
  {
  }

  lemma StarCode(P: Program, r: Regex, lo: nat)
    requires r.Star? && CodeAt(P, r, lo)
    ensures var hi := lo + ProgramLen(r);
      hi == lo + 2 + ProgramLen(r.body) <= |P| && P[lo] == Prefer(r.greedy, lo + 1, hi) && P[hi - 1] == Jmp(lo)
  {
  }

  /** The code of `r` where the code of its parts is, and the same instructions around them. */
  lemma CodeFromParts(P: Program, P': Program, r: Regex, lo: nat)
    requires CodeAt(P, r, lo) && |P'| == |P|
    requires forall k :: lo <= k < lo + ProgramLen(r) ==> P'[k] == P[k]
    requires r.Alt? ==> CodeAt(P', r.left, lo + 1) && CodeAt(P', r.right, lo + 2 + ProgramLen(r.left))
    requires r.Cat? ==> CodeAt(P', r.left, lo) && CodeAt(P', r.right, lo + ProgramLen(r.left))
    requires IsUnary(r) ==> CodeAt(P', r.body, BodyAt(r, lo))
    ensures CodeAt(P', r, lo)
  {
  }

  lemma {:induction false} CodeAtFrame(P: Program, P': Program, r: Regex, lo: nat)
    requires CodeAt(P, r, lo) && |P'| == |P|
    requires forall k :: lo <= k < lo + ProgramLen(r) ==> P'[k] == P[k]
    ensures CodeAt(P', r, lo)
  {
    hide CodeAt, ProgramLen;
    CodeOfParts(P, r, lo);
    if r.Alt? {
      CodeAtFrame(P, P', r.left, lo + 1);
      CodeAtFrame(P, P', r.right, lo + 2 + ProgramLen(r.left));
    } else if r.Cat? {
      CodeAtFrame(P, P', r.left, lo);
      CodeAtFrame(P, P', r.right, lo + ProgramLen(r.left));
    } else if IsUnary(r) {
      CodeAtFrame(P, P', r.body, BodyAt(r, lo));
    }
    CodeFromParts(P, P', r, lo);
  }

  /** Emits `r` from `pc` on, case by case; a forward target is patched once its address is
      known. Every case promises the same: the code of `r` and nothing else changed. */
  method Emit(code: array<Instr>, pc: nat, r: Regex) returns (end: nat)
    requires pc + ProgramLen(r) <= code.Length
    modifies code
    ensures Emitted(old(code[..]), code[..], pc, r, end)
    decreases r, 1
  {
    match r {
      case Nil => end := pc;
      case Alt(_, _) => end := EmitAlt(code, pc, r);
      case Cat(_, _) => end := EmitCat(code, pc, r);
      case Lit(_) => end := EmitLeaf(code, pc, r);
      case Dot => end := EmitLeaf(code, pc, r);
      case Class(_) => end := EmitLeaf(code, pc, r);
      case NClass(_) => end := EmitLeaf(code, pc, r);
      case Assert(_) => end := EmitLeaf(code, pc, r);
      case Paren(_, _) => end := EmitParen(code, pc, r);
      case Quest(_, _) => end := EmitQuest(code, pc, r);
      case Star(_, _) => end := EmitStar(code, pc, r);
      case Plus(_, _) => end := EmitPlus(code, pc, r);
      case Toplevel(_, _) => end := EmitToplevel(code, pc, r);
    }
  }

  ghost predicate Emitted(before: Program, after: Program, pc: nat, r: Regex, end: nat) {
    && end == pc + ProgramLen(r) <= |before| == |after|
    && CodeAt(after, r, pc)
    && forall k :: 0 <= k < |before| && !(pc <= k < end) ==> after[k] == before[k]
  }

  method EmitLeaf(code: array<Instr>, pc: nat, r: Regex) returns (end: nat)
    requires r.Lit? || r.Dot? || r.Class? || r.NClass? || r.Assert?
    requires pc + ProgramLen(r) <= code.Length
    modifies code
    ensures Emitted(old(code[..]), code[..], pc, r, end)
  {
    match r {
      case Lit(c) => code[pc] := Char(c);
      case Dot => code[pc] := Any;
      case Class(rs) => code[pc] := In(rs);
      case NClass(rs) => code[pc] := NotIn(rs);
      case Assert(a) => code[pc] := Check(a);
    }
    end := pc + 1;
  }

  method EmitAlt(code: array<Instr>, pc: nat, r: Regex) returns (end: nat)
    requires r.Alt? && pc + ProgramLen(r) <= code.Length
    modifies code
    ensures Emitted(old(code[..]), code[..], pc, r, end)
    decreases r, 0
  {
    hide CodeAt, ProgramLen;
    AltLen(r);
    code[pc] := Split(pc + 1, 0);
    var p2 := Emit(code, pc + 1, r.left);
    ghost var afterLeft := code[..];
    code[p2] := Jmp(0);
    code[pc] := code[pc].(y := p2 + 1);
    end := Emit(code, p2 + 1, r.right);
    ghost var afterRight := code[..];
    code[p2] := Jmp(end);
    CodeAtFrame(afterLeft, code[..], r.left, pc + 1);
    CodeAtFrame(afterRight, code[..], r.right, p2 + 1);
    AltCode(code[..], r, pc);
  }

  lemma AltLen(r: Regex)
    requires r.Alt?
    ensures ProgramLen(r) == 2 + ProgramLen(r.left) + ProgramLen(r.right)
  {
  }

  lemma AltCode(P: Program, r: Regex, lo: nat)
    requires r.Alt? && lo + ProgramLen(r) <= |P|
    requires var mid := lo + 1 + ProgramLen(r.left);
      P[lo] == Split(lo + 1, mid + 1) && CodeAt(P, r.left, lo + 1)
      && P[mid] == Jmp(lo + ProgramLen(r)) && CodeAt(P, r.right, mid + 1)
    ensures CodeAt(P, r, lo)
  {
  }

  method EmitCat(code: array<Instr>, pc: nat, r: Regex) returns (end: nat)
    requires r.Cat? && pc + ProgramLen(r) <= code.Length
    modifies code
    ensures Emitted(old(code[..]), code[..], pc, r, end)
    decreases r, 0
  {
    var mid := Emit(code, pc, r.left);
    ghost var afterLeft := code[..];
    end := Emit(code, mid, r.right);
    CodeAtFrame(afterLeft, code[..], r.left, pc);
  }

  method EmitParen(code: array<Instr>, pc: nat, r: Regex) returns (end: nat)
    requires r.Paren? && pc + ProgramLen(r) <= code.Length
    modifies code
    ensures Emitted(old(code[..]), code[..], pc, r, end)
    decreases r, 0
  {
    code[pc] := Save(2 * r.group);
    var p2 := Emit(code, pc + 1, r.body);
    ghost var afterBody := code[..];
    code[p2] := Save(2 * r.group + 1);
    end := p2 + 1;
    CodeAtFrame(afterBody, code[..], r.body, pc + 1);
  }

  method EmitQuest(code: array<Instr>, pc: nat, r: Regex) returns (end: nat)
    requires r.Quest? && pc + ProgramLen(r) <= code.Length
    modifies code
    ensures Emitted(old(code[..]), code[..], pc, r, end)
    decreases r, 0
  {
    code[pc] := Split(pc + 1, 0);
    end := Emit(code, pc + 1, r.body);
    ghost var afterBody := code[..];
    code[pc] := code[pc].(y := end);
    if !r.greedy {
      code[pc] := Split(code[pc].y, code[pc].x);
    }
    CodeAtFrame(afterBody, code[..], r.body, pc + 1);
  }

  method EmitStar(code: array<Instr>, pc: nat, r: Regex) returns (end: nat)
    requires r.Star? && pc + ProgramLen(r) <= code.Length
    modifies code
    ensures Emitted(old(code[..]), code[..], pc, r, end)
    decreases r, 0
  {
    code[pc] := Split(pc + 1, 0);
    var p2 := Emit(code, pc + 1, r.body);
    ghost var afterBody := code[..];
    code[p2] := Jmp(pc);
    end := p2 + 1;
    code[pc] := code[pc].(y := end);
    if !r.greedy {
      code[pc] := Split(code[pc].y, code[pc].x);
    }
    CodeAtFrame(afterBody, code[..], r.body, pc + 1);
  }

  method EmitPlus(code: array<Instr>, pc: nat, r: Regex) returns (end: nat)
    requires r.Plus? && pc + ProgramLen(r) <= code.Length
    modifies code
    ensures Emitted(old(code[..]), code[..], pc, r, end)
    decreases r, 0
  {
    var p2 := Emit(code, pc, r.body);
    ghost var afterBody := code[..];
    code[p2] := Split(pc, 0);
    end := p2 + 1;
    code[p2] := code[p2].(y := end);
    if !r.greedy {
      code[p2] := Split(code[p2].y, code[p2].x);
    }
    CodeAtFrame(afterBody, code[..], r.body, pc);
  }

  method EmitToplevel(code: array<Instr>, pc: nat, r: Regex) returns (end: nat)
    requires r.Toplevel? && pc + ProgramLen(r) <= code.Length
    modifies code
    ensures Emitted(old(code[..]), code[..], pc, r, end)
    decreases r, 0
  {
    var p2 := Emit(code, pc, r.body);
    ghost var afterBody := code[..];
    code[p2] := Match(r.regexId);
    end := p2 + 1;
    CodeAtFrame(afterBody, code[..], r.body, pc);
  }

  /** The emitted code is closed: jumps and fall-throughs stay in [lo, hi], so control leaves
      a piece of code only through its end. */
  lemma {:induction false} CodeIsSegment(P: Program, r: Regex, lo: nat)
    requires CodeAt(P, r, lo)
    ensures Segment(P, lo, lo + ProgramLen(r))
    decreases r, 1
  {
    match r
    case Alt(_, _) => BranchesAreSegment(P, r, lo);
    case Cat(_, _) => BranchesAreSegment(P, r, lo);
    case Paren(_, b) => CodeIsSegment(P, b, lo + 1);
    case Quest(_, b) => CodeIsSegment(P, b, lo + 1);
    case Star(_, b) => CodeIsSegment(P, b, lo + 1);
    case Plus(_, b) => CodeIsSegment(P, b, lo);
    case Toplevel(_, b) => CodeIsSegment(P, b, lo);
    case _ =>
  }

  lemma {:induction false} BranchesAreSegment(P: Program, r: Regex, lo: nat)
    requires (r.Alt? || r.Cat?) && CodeAt(P, r, lo)
    ensures Segment(P, lo, lo + ProgramLen(r))
    decreases r, 0
  {
    var at, mid, hi := if r.Alt? then lo + 1 else lo, 0, lo + ProgramLen(r);
    mid := at + ProgramLen(r.left);
    CodeIsSegment(P, r.left, at);
    CodeIsSegment(P, r.right, if r.Alt? then mid + 1 else mid);
    forall pc | lo <= pc < hi
      ensures JumpsInto(P[pc], lo, hi)
    {
      if at <= pc < mid {
        assert JumpsInto(P[pc], at, mid);
      }
    }
  }

  // ---------- soundness: a path through the code is a match ----------

  lemma {:induction false} PathIsMatch(P: Program, r: Regex, s: seq<Byte>, lo: nat, n: nat, i: nat, j: nat)
    requires Plain(r) && CodeAt(P, r, lo) && i <= |s|
    requires Path(P, s, lo, lo + ProgramLen(r), n, Conf(lo, i), Conf(lo + ProgramLen(r), j))
    ensures Matches(r, s, i, j)
    decreases r, 1, n
  {
    match r {
      case Nil =>
      case Alt(_, _) => AltPathIsMatch(P, r, s, lo, n, i, j);
      case Cat(_, _) => CatPathIsMatch(P, r, s, lo, n, i, j);
      case Paren(_, _) => ParenPathIsMatch(P, r, s, lo, n, i, j);
      case Quest(_, _) => QuestPathIsMatch(P, r, s, lo, n, i, j);
      case Star(_, _) => var k := StarPathReps(P, r, s, lo, n, i, j);
      case Plus(_, _) => var k := PlusPathReps(P, r, s, lo, n, i, j);
      case Toplevel(_, _) => assert false;
      case _ => LeafPathIsMatch(P, r, s, lo, n, i, j);
    }
    PathPositions(P, s, lo, lo + ProgramLen(r), n, Conf(lo, i), Conf(lo + ProgramLen(r), j));
  }

  /** The first step of a nonempty path. */
  lemma FirstStep(P: Program, s: seq<Byte>, lo: nat, hi: nat, n: nat, c: Conf, d: Conf) returns (e: Conf)
    requires Path(P, s, lo, hi, n, c, d) && c.pc != d.pc && c.pos <= |s|
    ensures n > 0 && Step(P, s, c, e) && Path(P, s, lo, hi, n - 1, e, d) && e.pos <= |s|
  {
    e :| Step(P, s, c, e) && Path(P, s, lo, hi, n - 1, e, d);
  }

  lemma NoStepsLeft(P: Program, s: seq<Byte>, lo: nat, hi: nat, n: nat, c: Conf, d: Conf)
    requires Path(P, s, lo, hi, n, c, d) && !(lo <= c.pc < hi)
    ensures n == 0 && c == d
  {}

  /** A path that enters the code of `b` and ends outside of it matches `b` on the way. */
  lemma ThroughBody(P: Program, b: Regex, s: seq<Byte>, lo: nat, hi: nat, n: nat, c: Conf, d: Conf)
    returns (m: nat, e: Conf)
    requires Plain(b) && CodeAt(P, b, c.pc) && c.pos <= |s|
    requires Path(P, s, lo, hi, n, c, d) && !(c.pc <= d.pc < c.pc + ProgramLen(b))
    ensures m <= n && e.pc == c.pc + ProgramLen(b) && e.pos <= |s|
    ensures Matches(b, s, c.pos, e.pos) && Path(P, s, lo, hi, n - m, e, d)
    decreases b, 2
  {
    CodeIsSegment(P, b, c.pc);
    m, e := PathExit(P, s, lo, hi, c.pc, c.pc + ProgramLen(b), n, c, d);
    PathPositions(P, s, c.pc, c.pc + ProgramLen(b), m, c, e);
    PathIsMatch(P, b, s, c.pc, m, c.pos, e.pos);
  }

  lemma LeafPathIsMatch(P: Program, r: Regex, s: seq<Byte>, lo: nat, n: nat, i: nat, j: nat)
    requires r.Lit? || r.Dot? || r.Class? || r.NClass? || r.Assert?
    requires CodeAt(P, r, lo) && i <= |s|
    requires Path(P, s, lo, lo + 1, n, Conf(lo, i), Conf(lo + 1, j))
    ensures Matches(r, s, i, j)
  {
    var c := FirstStep(P, s, lo, lo + 1, n, Conf(lo, i), Conf(lo + 1, j));
    NoStepsLeft(P, s, lo, lo + 1, n - 1, c, Conf(lo + 1, j));
  }

  lemma AltPathIsMatch(P: Program, r: Regex, s: seq<Byte>, lo: nat, n: nat, i: nat, j: nat)
    requires r.Alt? && Plain(r) && CodeAt(P, r, lo) && i <= |s|
    requires Path(P, s, lo, lo + ProgramLen(r), n, Conf(lo, i), Conf(lo + ProgramLen(r), j))
    ensures Matches(r, s, i, j)
    decreases r, 0
  {
    hide CodeAt, Matches, Path, Step;
    CodeOfParts(P, r, lo);
    ChoiceCode(P, r, lo);
    var hi := lo + ProgramLen(r);
    var end := Conf(hi, j);
    var c := FirstStep(P, s, lo, hi, n, Conf(lo, i), end);
    JumpStep(P, s, Conf(lo, i), c);
    if c.pc == lo + 1 {
      var m, e := ThroughBody(P, r.left, s, lo, hi, n - 1, c, end);
      var f := FirstStep(P, s, lo, hi, n - 1 - m, e, end);
      JumpStep(P, s, e, f);
      NoStepsLeft(P, s, lo, hi, n - 2 - m, f, end);
    } else {
      var m, e := ThroughBody(P, r.right, s, lo, hi, n - 1, c, end);
      NoStepsLeft(P, s, lo, hi, n - 1 - m, e, end);
    }
    AltMatches(r, s, i, j);
  }

  lemma AltMatches(r: Regex, s: seq<Byte>, i: nat, j: nat)
    requires r.Alt? && i <= |s| && (Matches(r.left, s, i, j) || Matches(r.right, s, i, j))
    ensures Matches(r, s, i, j)
  {
  }

  /** What a step at a jump or a split does. */
  lemma JumpStep(P: Program, s: seq<Byte>, c: Conf, d: Conf)
    requires c.pc < |P| && (P[c.pc].Jmp? || P[c.pc].Split?) && Step(P, s, c, d)
    ensures d.pos == c.pos && (d.pc == P[c.pc].x || (P[c.pc].Split? && d.pc == P[c.pc].y))
  {
  }

  lemma CatPathIsMatch(P: Program, r: Regex, s: seq<Byte>, lo: nat, n: nat, i: nat, j: nat)
    requires r.Cat? && Plain(r) && CodeAt(P, r, lo) && i <= |s|
    requires Path(P, s, lo, lo + ProgramLen(r), n, Conf(lo, i), Conf(lo + ProgramLen(r), j))
    ensures Matches(r, s, i, j)
    decreases r, 0
  {
    var hi := lo + ProgramLen(r);
    var end := Conf(hi, j);
    var m, e := ThroughBody(P, r.left, s, lo, hi, n, Conf(lo, i), end);
    var m', e' := ThroughBody(P, r.right, s, lo, hi, n - m, e, end);
    NoStepsLeft(P, s, lo, hi, n - m - m', e', end);
  }

  lemma ParenPathIsMatch(P: Program, r: Regex, s: seq<Byte>, lo: nat, n: nat, i: nat, j: nat)
    requires r.Paren? && Plain(r) && CodeAt(P, r, lo) && i <= |s|
    requires Path(P, s, lo, lo + ProgramLen(r), n, Conf(lo, i), Conf(lo + ProgramLen(r), j))
    ensures Matches(r, s, i, j)
    decreases r, 0
  {
    var hi := lo + ProgramLen(r);
    var end := Conf(hi, j);
    var c := FirstStep(P, s, lo, hi, n, Conf(lo, i), end);
    var m, e := ThroughBody(P, r.body, s, lo, hi, n - 1, c, end);
    var f := FirstStep(P, s, lo, hi, n - 1 - m, e, end);
    NoStepsLeft(P, s, lo, hi, n - 2 - m, f, end);
  }

  lemma QuestPathIsMatch(P: Program, r: Regex, s: seq<Byte>, lo: nat, n: nat, i: nat, j: nat)
    requires r.Quest? && Plain(r) && CodeAt(P, r, lo) && i <= |s|
    requires Path(P, s, lo, lo + ProgramLen(r), n, Conf(lo, i), Conf(lo + ProgramLen(r), j))
    ensures Matches(r, s, i, j)
    decreases r, 0
  {
    var hi := lo + ProgramLen(r);
    var end := Conf(hi, j);
    var c := FirstStep(P, s, lo, hi, n, Conf(lo, i), end);
    if c.pc == hi {
      NoStepsLeft(P, s, lo, hi, n - 1, c, end);
    } else {
      var m, e := ThroughBody(P, r.body, s, lo, hi, n - 1, c, end);
      NoStepsLeft(P, s, lo, hi, n - 1 - m, e, end);
    }
  }

  lemma {:induction false} StarPathReps(P: Program, r: Regex, s: seq<Byte>, lo: nat, n: nat, i: nat, j: nat)
    returns (k: nat)
    requires r.Star? && Plain(r) && CodeAt(P, r, lo) && i <= |s|
    requires Path(P, s, lo, lo + ProgramLen(r), n, Conf(lo, i), Conf(lo + ProgramLen(r), j))
    ensures Reps(r.body, k, s, i, j)
    decreases r, 0, n
  {
    hide CodeAt, Matches;
    CodeOfParts(P, r, lo);
    StarCode(P, r, lo);
    var hi := lo + ProgramLen(r);
    var end := Conf(hi, j);
    var c := FirstStep(P, s, lo, hi, n, Conf(lo, i), end);
    if c.pc == hi {
      NoStepsLeft(P, s, lo, hi, n - 1, c, end);
      k := 0;
    } else {
      var m, e := ThroughBody(P, r.body, s, lo, hi, n - 1, c, end);
      var f := FirstStep(P, s, lo, hi, n - 1 - m, e, end);
      k := StarPathReps(P, r, s, lo, n - 2 - m, e.pos, j);
      k := k + 1;
    }
  }

  lemma {:induction false} PlusPathReps(P: Program, r: Regex, s: seq<Byte>, lo: nat, n: nat, i: nat, j: nat)
    returns (k: nat)
    requires r.Plus? && Plain(r) && CodeAt(P, r, lo) && i <= |s|
    requires Path(P, s, lo, lo + ProgramLen(r), n, Conf(lo, i), Conf(lo + ProgramLen(r), j))
    ensures k > 0 && Reps(r.body, k, s, i, j)
    decreases r, 0, n
  {
    var hi := lo + ProgramLen(r);
    var end := Conf(hi, j);
    var m, e := ThroughBody(P, r.body, s, lo, hi, n, Conf(lo, i), end);
    var f := FirstStep(P, s, lo, hi, n - m, e, end);
    if f.pc == hi {
      NoStepsLeft(P, s, lo, hi, n - 1 - m, f, end);
      assert Reps(r.body, 0, s, j, j);
      k := 1;
    } else {
      k := PlusPathReps(P, r, s, lo, n - 1 - m, e.pos, j);
      k := k + 1;
    }
  }

  // ---------- completeness: a match is a path through the code ----------

  lemma {:induction false} MatchRuns(P: Program, r: Regex, s: seq<Byte>, lo: nat, i: nat, j: nat)
    requires Plain(r) && CodeAt(P, r, lo) && i <= |s| && Matches(r, s, i, j)
    ensures Runs(P, s, lo, lo + ProgramLen(r), Conf(lo, i), Conf(lo + ProgramLen(r), j))
    decreases r, 1
  {
    hide Matches, CodeAt, Runs, Reps;
    if r.Nil? || r.Lit? || r.Dot? || r.Class? || r.NClass? || r.Assert? {
      LeafRuns(P, r, s, lo, i, j);
    } else if r.Alt? {
      AltRuns(P, r, s, lo, i, j);
    } else if r.Cat? {
      CatRuns(P, r, s, lo, i, j);
    } else if r.Paren? {
      ParenRuns(P, r, s, lo, i, j);
    } else if r.Quest? {
      QuestRuns(P, r, s, lo, i, j);
    } else if r.Star? {
      var k := StarReps(r, s, i, j);
      StarRuns(P, r, s, lo, k, i, j);
    } else if r.Plus? {
      var k := PlusReps(r, s, i, j);
      PlusRuns(P, r, s, lo, k, i, j);
    }
  }

  lemma StarReps(r: Regex, s: seq<Byte>, i: nat, j: nat) returns (k: nat)
    requires r.Star? && i <= |s| && Matches(r, s, i, j)
    ensures Reps(r.body, k, s, i, j)
  {
    k :| Reps(r.body, k, s, i, j);
  }

  lemma PlusReps(r: Regex, s: seq<Byte>, i: nat, j: nat) returns (k: nat)
    requires r.Plus? && i <= |s| && Matches(r, s, i, j)
    ensures k > 0 && Reps(r.body, k, s, i, j)
  {
    k :| k > 0 && Reps(r.body, k, s, i, j);
  }

  lemma LeafRuns(P: Program, r: Regex, s: seq<Byte>, lo: nat, i: nat, j: nat)
    requires r.Nil? || r.Lit? || r.Dot? || r.Class? || r.NClass? || r.Assert?
    requires CodeAt(P, r, lo) && i <= |s| && Matches(r, s, i, j)
    ensures Runs(P, s, lo, lo + ProgramLen(r), Conf(lo, i), Conf(lo + ProgramLen(r), j))
  {
    var hi := lo + ProgramLen(r);
    if r.Nil? {
      assert Path(P, s, lo, hi, 0, Conf(lo, i), Conf(hi, j));
    } else {
      RunsStep(P, s, lo, hi, Conf(lo, i), Conf(hi, j));
    }
  }

  lemma CatRuns(P: Program, r: Regex, s: seq<Byte>, lo: nat, i: nat, j: nat)
    requires r.Cat? && Plain(r) && CodeAt(P, r, lo) && i <= |s| && Matches(r, s, i, j)
    ensures Runs(P, s, lo, lo + ProgramLen(r), Conf(lo, i), Conf(lo + ProgramLen(r), j))
    decreases r, 0
  {
    var hi := lo + ProgramLen(r);
    var k: nat :| i <= k <= |s| && Matches(r.left, s, i, k) && Matches(r.right, s, k, j);
    BodyRuns(P, r.left, s, lo, lo, hi, i, k);
    BodyRuns(P, r.right, s, lo + ProgramLen(r.left), lo, hi, k, j);
    RunsTrans(P, s, lo, hi, Conf(lo, i), Conf(lo + ProgramLen(r.left), k), Conf(hi, j));
  }

  lemma ParenRuns(P: Program, r: Regex, s: seq<Byte>, lo: nat, i: nat, j: nat)
    requires r.Paren? && Plain(r) && CodeAt(P, r, lo) && i <= |s| && Matches(r, s, i, j)
    ensures Runs(P, s, lo, lo + ProgramLen(r), Conf(lo, i), Conf(lo + ProgramLen(r), j))
    decreases r, 0
  {
    var hi := lo + ProgramLen(r);
    RunsStep(P, s, lo, hi, Conf(lo, i), Conf(lo + 1, i));
    BodyRuns(P, r.body, s, lo + 1, lo, hi, i, j);
    RunsStep(P, s, lo, hi, Conf(hi - 1, j), Conf(hi, j));
    RunsTrans(P, s, lo, hi, Conf(lo, i), Conf(lo + 1, i), Conf(hi - 1, j));
    RunsTrans(P, s, lo, hi, Conf(lo, i), Conf(hi - 1, j), Conf(hi, j));
  }

  lemma BodyRuns(P: Program, b: Regex, s: seq<Byte>, at: nat, lo: nat, hi: nat, i: nat, j: nat)
    requires Plain(b) && CodeAt(P, b, at) && lo <= at && at + ProgramLen(b) <= hi
    requires i <= |s| && Matches(b, s, i, j)
    ensures Runs(P, s, lo, hi, Conf(at, i), Conf(at + ProgramLen(b), j))
    decreases b, 2
  {
    MatchRuns(P, b, s, at, i, j);
    RunsWiden(P, s, at, at + ProgramLen(b), lo, hi, Conf(at, i), Conf(at + ProgramLen(b), j));
  }

  lemma AltRuns(P: Program, r: Regex, s: seq<Byte>, lo: nat, i: nat, j: nat)
    requires r.Alt? && Plain(r) && CodeAt(P, r, lo) && i <= |s| && Matches(r, s, i, j)
    ensures Runs(P, s, lo, lo + ProgramLen(r), Conf(lo, i), Conf(lo + ProgramLen(r), j))
    decreases r, 0
  {
    var mid, hi := lo + 1 + ProgramLen(r.left), lo + ProgramLen(r);
    if Matches(r.left, s, i, j) {
      RunsStep(P, s, lo, hi, Conf(lo, i), Conf(lo + 1, i));
      BodyRuns(P, r.left, s, lo + 1, lo, hi, i, j);
      RunsStep(P, s, lo, hi, Conf(mid, j), Conf(hi, j));
      RunsTrans(P, s, lo, hi, Conf(lo, i), Conf(lo + 1, i), Conf(mid, j));
      RunsTrans(P, s, lo, hi, Conf(lo, i), Conf(mid, j), Conf(hi, j));
    } else {
      RunsStep(P, s, lo, hi, Conf(lo, i), Conf(mid + 1, i));
      BodyRuns(P, r.right, s, mid + 1, lo, hi, i, j);
      RunsTrans(P, s, lo, hi, Conf(lo, i), Conf(mid + 1, i), Conf(hi, j));
    }
  }

  lemma QuestRuns(P: Program, r: Regex, s: seq<Byte>, lo: nat, i: nat, j: nat)
    requires r.Quest? && Plain(r) && CodeAt(P, r, lo) && i <= |s| && Matches(r, s, i, j)
    ensures Runs(P, s, lo, lo + ProgramLen(r), Conf(lo, i), Conf(lo + ProgramLen(r), j))
    decreases r, 0
  {
    var hi := lo + ProgramLen(r);
    if i == j {
      RunsStep(P, s, lo, hi, Conf(lo, i), Conf(hi, j));
    } else {
      RunsStep(P, s, lo, hi, Conf(lo, i), Conf(lo + 1, i));
      BodyRuns(P, r.body, s, lo + 1, lo, hi, i, j);
      RunsTrans(P, s, lo, hi, Conf(lo, i), Conf(lo + 1, i), Conf(hi, j));
    }
  }

  lemma {:induction false} StarRuns(P: Program, r: Regex, s: seq<Byte>, lo: nat, k: nat, i: nat, j: nat)
    requires r.Star? && Plain(r) && CodeAt(P, r, lo) && i <= |s| && Reps(r.body, k, s, i, j)
    ensures Runs(P, s, lo, lo + ProgramLen(r), Conf(lo, i), Conf(lo + ProgramLen(r), j))
    decreases r, 0, k
  {
    var hi := lo + ProgramLen(r);
    if k == 0 {
      RunsStep(P, s, lo, hi, Conf(lo, i), Conf(hi, j));
    } else {
      var h: nat :| i <= h <= |s| && Matches(r.body, s, i, h) && Reps(r.body, k - 1, s, h, j);
      RunsStep(P, s, lo, hi, Conf(lo, i), Conf(lo + 1, i));
      BodyRuns(P, r.body, s, lo + 1, lo, hi, i, h);
      RunsStep(P, s, lo, hi, Conf(hi - 1, h), Conf(lo, h));
      StarRuns(P, r, s, lo, k - 1, h, j);
      RunsTrans(P, s, lo, hi, Conf(lo, i), Conf(lo + 1, i), Conf(hi - 1, h));
      RunsTrans(P, s, lo, hi, Conf(lo, i), Conf(hi - 1, h), Conf(lo, h));
      RunsTrans(P, s, lo, hi, Conf(lo, i), Conf(lo, h), Conf(hi, j));
    }
  }

  lemma {:induction false} PlusRuns(P: Program, r: Regex, s: seq<Byte>, lo: nat, k: nat, i: nat, j: nat)
    requires r.Plus? && Plain(r) && CodeAt(P, r, lo) && i <= |s| && k > 0 && Reps(r.body, k, s, i, j)
    ensures Runs(P, s, lo, lo + ProgramLen(r), Conf(lo, i), Conf(lo + ProgramLen(r), j))
    decreases r, 0, k
  {
    var hi := lo + ProgramLen(r);
    var h: nat :| i <= h <= |s| && Matches(r.body, s, i, h) && Reps(r.body, k - 1, s, h, j);
    BodyRuns(P, r.body, s, lo, lo, hi, i, h);
    if k == 1 {
      RunsStep(P, s, lo, hi, Conf(hi - 1, h), Conf(hi, h));
      RunsTrans(P, s, lo, hi, Conf(lo, i), Conf(hi - 1, h), Conf(hi, h));
    } else {
      RunsStep(P, s, lo, hi, Conf(hi - 1, h), Conf(lo, h));
      PlusRuns(P, r, s, lo, k - 1, h, j);
      RunsTrans(P, s, lo, hi, Conf(lo, i), Conf(hi - 1, h), Conf(lo, h));
      RunsTrans(P, s, lo, hi, Conf(lo, i), Conf(lo, h), Conf(hi, j));
    }
  }

  /** Control enters the code of `r` at position i and leaves it at position j exactly when
      `r` matches s[i..j]; loops with nullable bodies, whose code has silent cycles, included. */
  lemma CodeMeansRegex(P: Program, r: Regex, s: seq<Byte>, lo: nat, i: nat, j: nat)
    requires Plain(r) && CodeAt(P, r, lo) && i <= |s|
    ensures Matches(r, s, i, j) <==> Runs(P, s, lo, lo + ProgramLen(r), Conf(lo, i), Conf(lo + ProgramLen(r), j))
  {
    var hi := lo + ProgramLen(r);
    if Matches(r, s, i, j) {
      MatchRuns(P, r, s, lo, i, j);
    }
    if Runs(P, s, lo, hi, Conf(lo, i), Conf(hi, j)) {
      var n: nat :| Path(P, s, lo, hi, n, Conf(lo, i), Conf(hi, j));
      PathIsMatch(P, r, s, lo, n, i, j);
    }
  }
}
