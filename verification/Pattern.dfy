/** What the parser wraps around the parsed regexes, the group numbers it hands out, and
    what the compiled pattern accepts. */
module Patterns {
  import opened Regexes
  import opened Bytecode
  import opened Compiler

  /** The first capture group of regex `i`: each regex before it owns its groups and a $0. */
  function Base(caps: seq<nat>, i: nat): nat
    requires i <= |caps|
  {
    if i == 0 then 0 else Base(caps, i - 1) + caps[i - 1] + 1
  }

  function Piece(trees: seq<Regex>, caps: seq<nat>, i: nat): Regex
    requires i < |trees| == |caps|
  {
    Toplevel(i, Paren(Base(caps, i), trees[i]))
  }

  /** re0 | re1 | ... , nested to the left. */
  function Alternatives(trees: seq<Regex>, caps: seq<nat>, n: nat): Regex
    requires 0 < n <= |trees| == |caps|
  {
    if n == 1 then Piece(trees, caps, 0)
    else Alt(Alternatives(trees, caps, n - 1), Piece(trees, caps, n - 1))
  }

  /** .*?(re0|re1|...) */
  function Wrapped(trees: seq<Regex>, caps: seq<nat>): Regex
    requires 0 < |trees| == |caps|
  {
    Cat(Star(false, Dot), Alternatives(trees, caps, |trees|))
  }

  /** Assembles the pattern; `trees[i]` is what the grammar made of regex i and `caps[i]` the
      number of capture groups it counted there. */
  method ParseMulti(trees: seq<Regex>, caps: seq<nat>) returns (re: Regex, multiNcaps: seq<nat>, maxNcaps: nat)
    requires 0 < |trees| == |caps|
    ensures re == Wrapped(trees, caps)
    ensures multiNcaps == caps
    ensures maxNcaps in caps && forall c <- caps :: c <= maxNcaps
  {
    var ncaps, saved := 0, 0;
    var r := Nil;
    multiNcaps, maxNcaps := [], 0;
    for i := 0 to |trees|
      invariant i > 0 ==> r == Alternatives(trees, caps, i)
      invariant ncaps == saved == Base(caps, i)
      invariant multiNcaps == caps[..i]
      invariant i > 0 ==> maxNcaps in caps[..i]
      invariant forall c <- caps[..i] :: c <= maxNcaps
    {
      var group := ncaps;
      ncaps := ncaps + caps[i];
      re := Toplevel(i, Paren(group, trees[i]));
      if i == 0 {
        r := re;
        multiNcaps := multiNcaps + [ncaps];
        maxNcaps := ncaps;
      } else {
        r := Alt(r, re);
        multiNcaps := multiNcaps + [ncaps - saved];
        if multiNcaps[i] > maxNcaps {
          maxNcaps := multiNcaps[i];
        }
      }
      ncaps := ncaps + 1;
      saved := ncaps;
      assert caps[..i + 1] == caps[..i] + [caps[i]];
    }
    assert caps[..|trees|] == caps;
    re := Cat(Star(false, Dot), r);
  }

  /** The compiled program, and the size of a capture vector in slots. */
  method Compile(re: Regex, multiNcaps: seq<nat>) returns (prog: Program, ovecsize: nat)
    ensures |prog| == ProgramLen(re) && CodeAt(prog, re, 0)
    ensures ovecsize == 2 * Base(multiNcaps, |multiNcaps|)
  {
    var n := ProgramLen(re);
    var code := new Instr[n];
    var end := Emit(code, 0, re);
    prog := code[..end];
    assert prog == code[..];
    ovecsize := 0;
    for i := 0 to |multiNcaps|
      invariant ovecsize == Base(multiNcaps, i)
    {
      ovecsize := ovecsize + multiNcaps[i] + 1;
    }
    ovecsize := 2 * ovecsize;
  }

  // ---------- what the compiled pattern accepts ----------

  /** `P` is the compiled form of the pattern made of `trees`. */
  ghost predicate IsCompiled(P: Program, trees: seq<Regex>, caps: seq<nat>) {
    && 0 < |trees| == |caps|
    && (forall t <- trees :: Plain(t))
    && |P| == ProgramLen(Wrapped(trees, caps))
    && CodeAt(P, Wrapped(trees, caps), 0)
  }

  lemma {:induction false} PlainCodeHasNoMatch(P: Program, r: Regex, lo: nat)
    requires Plain(r) && CodeAt(P, r, lo)
    ensures forall pc :: lo <= pc < lo + ProgramLen(r) ==> !P[pc].Match?
  {
    hide CodeAt;
    CodeOfParts(P, r, lo);
    OwnCodeHasNoMatch(P, r, lo);
    if r.Alt? {
      PlainCodeHasNoMatch(P, r.left, lo + 1);
      PlainCodeHasNoMatch(P, r.right, lo + 2 + ProgramLen(r.left));
    } else if r.Cat? {
      PlainCodeHasNoMatch(P, r.left, lo);
      PlainCodeHasNoMatch(P, r.right, lo + ProgramLen(r.left));
    } else if IsUnary(r) {
      PlainCodeHasNoMatch(P, r.body, BodyAt(r, lo));
    }
  }

  lemma OwnCodeHasNoMatch(P: Program, r: Regex, lo: nat)
    requires Plain(r) && CodeAt(P, r, lo)
    ensures r.Alt? ==> !P[lo].Match? && !P[lo + 1 + ProgramLen(r.left)].Match?
    ensures IsUnary(r) ==> forall pc | lo <= pc < lo + ProgramLen(r) ::
      !P[pc].Match? || BodyAt(r, lo) <= pc < BodyAt(r, lo) + ProgramLen(r.body)
    ensures !r.Alt? && !r.Cat? && !IsUnary(r) ==> forall pc | lo <= pc < lo + ProgramLen(r) :: !P[pc].Match?
  {
  }

  /** The code of several alternatives: a split, the earlier ones, a jump and the last one. */
  lemma AlternativesCode(P: Program, trees: seq<Regex>, caps: seq<nat>, t: nat, lo: nat)
    requires 0 < t <= |trees| == |caps| && CodeAt(P, Alternatives(trees, caps, t), lo)
    ensures lo + ProgramLen(Alternatives(trees, caps, t)) <= |P|
    ensures t == 1 ==> CodeAt(P, Piece(trees, caps, 0), lo)
    ensures t > 1 ==>
      var mid, hi := lo + 1 + ProgramLen(Alternatives(trees, caps, t - 1)), lo + ProgramLen(Alternatives(trees, caps, t));
      mid < hi && P[lo] == Split(lo + 1, mid + 1) && P[mid] == Jmp(hi) && hi == mid + 1 + ProgramLen(Piece(trees, caps, t - 1))
      && CodeAt(P, Alternatives(trees, caps, t - 1), lo + 1) && CodeAt(P, Piece(trees, caps, t - 1), mid + 1)
  {
    hide CodeAt;
    CodeOfParts(P, Alternatives(trees, caps, t), lo);
    if t > 1 {
      ChoiceCode(P, Alternatives(trees, caps, t), lo);
    }
  }

  lemma PieceSound(P: Program, trees: seq<Regex>, caps: seq<nat>, k: nat, s: seq<Byte>, n: nat, c: Conf, d: Conf)
    requires k < |trees| == |caps| && Plain(trees[k]) && CodeAt(P, Piece(trees, caps, k), c.pc)
    requires c.pos <= |s| && d.pc < |P| && P[d.pc].Match? && Path(P, s, 0, |P|, n, c, d)
    ensures P[d.pc] == Match(k) && Matches(trees[k], s, c.pos, d.pos)
  {
    var body := Paren(Base(caps, k), trees[k]);
    PlainCodeHasNoMatch(P, body, c.pc);
    var m, e := ThroughBody(P, body, s, 0, |P|, n, c, d);
    assert n == m;
  }

  lemma PieceCode(P: Program, trees: seq<Regex>, caps: seq<nat>, k: nat, lo: nat)
    requires k < |trees| == |caps| && CodeAt(P, Piece(trees, caps, k), lo)
    ensures var body := Paren(Base(caps, k), trees[k]);
      CodeAt(P, body, lo) && lo + ProgramLen(body) < |P| && P[lo + ProgramLen(body)] == Match(k)
  {
  }

  lemma {:induction false} AlternativesSound(P: Program, trees: seq<Regex>, caps: seq<nat>, t: nat,
                                             s: seq<Byte>, n: nat, c: Conf, d: Conf) returns (k: nat)
    requires 0 < t <= |trees| == |caps| && (forall t <- trees :: Plain(t))
    requires CodeAt(P, Alternatives(trees, caps, t), c.pc)
    requires c.pos <= |s| && d.pc < |P| && P[d.pc].Match? && Path(P, s, 0, |P|, n, c, d)
    ensures k < t && P[d.pc] == Match(k) && Matches(trees[k], s, c.pos, d.pos)
    decreases t
  {
    hide CodeAt, Alternatives;
    AlternativesCode(P, trees, caps, t, c.pc);
    if t == 1 {
      PieceSound(P, trees, caps, 0, s, n, c, d);
      k := 0;
    } else {
      var e :| Step(P, s, c, e) && Path(P, s, 0, |P|, n - 1, e, d);
      if e.pc == c.pc + 1 {
        k := AlternativesSound(P, trees, caps, t - 1, s, n - 1, e, d);
      } else {
        PieceSound(P, trees, caps, t - 1, s, n - 1, e, d);
        k := t - 1;
      }
    }
  }

  lemma {:induction false} AlternativesComplete(P: Program, trees: seq<Regex>, caps: seq<nat>, t: nat, lo: nat,
                                                s: seq<Byte>, k: nat, i: nat, j: nat) returns (pc: nat)
    requires 0 < t <= |trees| == |caps| && (forall t <- trees :: Plain(t))
    requires CodeAt(P, Alternatives(trees, caps, t), lo)
    requires k < t && i <= |s| && Matches(trees[k], s, i, j)
    ensures pc < |P| && P[pc] == Match(k) && Runs(P, s, 0, |P|, Conf(lo, i), Conf(pc, j))
    decreases t
  {
    hide CodeAt, Alternatives;
    AlternativesCode(P, trees, caps, t, lo);
    if k == t - 1 {
      var at := lo;
      if t > 1 {
        at := lo + 2 + ProgramLen(Alternatives(trees, caps, t - 1));
        RunsStep(P, s, 0, |P|, Conf(lo, i), Conf(at, i));
      } else {
        assert Path(P, s, 0, |P|, 0, Conf(lo, i), Conf(at, i));
      }
      var body := Paren(Base(caps, k), trees[k]);
      PieceCode(P, trees, caps, k, at);
      BodyRuns(P, body, s, at, 0, |P|, i, j);
      pc := at + ProgramLen(body);
      RunsTrans(P, s, 0, |P|, Conf(lo, i), Conf(at, i), Conf(pc, j));
    } else {
      RunsStep(P, s, 0, |P|, Conf(lo, i), Conf(lo + 1, i));
      pc := AlternativesComplete(P, trees, caps, t - 1, lo + 1, s, k, i, j);
      RunsTrans(P, s, 0, |P|, Conf(lo, i), Conf(lo + 1, i), Conf(pc, j));
    }
  }

  lemma {:induction false} DotsReach(s: seq<Byte>, i: nat, j: nat)
    requires i <= j <= |s|
    ensures Reps(Dot, j - i, s, i, j)
    decreases j - i
  {
    if i < j {
      DotsReach(s, i + 1, j);
      assert Matches(Dot, s, i, i + 1);
    }
  }

  lemma PrefixCode(P: Program, trees: seq<Regex>, caps: seq<nat>)
    requires IsCompiled(P, trees, caps)
    ensures 3 < |P| && P[0] == Split(3, 1) && P[1] == Any && P[2] == Jmp(0)
    ensures ProgramLen(Star(false, Dot)) == 3 && CodeAt(P, Star(false, Dot), 0)
    ensures CodeAt(P, Alternatives(trees, caps, |trees|), 3)
    ensures |P| == 3 + ProgramLen(Alternatives(trees, caps, |trees|))
  {
    var dots := Star(false, Dot);
    assert ProgramLen(Dot) == 1 && ProgramLen(dots) == 3;
    assert CodeAt(P, dots, 0);
    assert CodeAt(P, Dot, 1);
    assert CodeAt(P, Alternatives(trees, caps, |trees|), 3);
  }

  lemma PatternSound(P: Program, trees: seq<Regex>, caps: seq<nat>, s: seq<Byte>, n: nat, d: Conf) returns (k: nat, i: nat)
    requires IsCompiled(P, trees, caps) && d.pc < |P| && P[d.pc].Match?
    requires Path(P, s, 0, |P|, n, Conf(0, 0), d)
    ensures k < |trees| && P[d.pc] == Match(k) && i <= d.pos <= |s| && Matches(trees[k], s, i, d.pos)
  {
    PrefixCode(P, trees, caps);
    var m, e := ThroughBody(P, Star(false, Dot), s, 0, |P|, n, Conf(0, 0), d);
    PathPositions(P, s, 0, |P|, n - m, e, d);
    k := AlternativesSound(P, trees, caps, |trees|, s, n - m, e, d);
    i := e.pos;
  }

  lemma PatternComplete(P: Program, trees: seq<Regex>, caps: seq<nat>, s: seq<Byte>, k: nat, i: nat, j: nat) returns (pc: nat)
    requires IsCompiled(P, trees, caps) && k < |trees| && i <= |s| && Matches(trees[k], s, i, j)
    ensures pc < |P| && P[pc] == Match(k) && At(P, s, pc, j)
  {
    var dots := Star(false, Dot);
    PrefixCode(P, trees, caps);
    DotsReach(s, 0, i);
    assert Matches(dots, s, 0, i);
    BodyRuns(P, dots, s, 0, 0, |P|, 0, i);
    pc := AlternativesComplete(P, trees, caps, |trees|, 3, s, k, i, j);
    RunsTrans(P, s, 0, |P|, Conf(0, 0), Conf(3, i), Conf(pc, j));
  }

  /** Some path reads j bytes and arrives at the MATCH of regex k. */
  ghost predicate Hits(P: Program, s: seq<Byte>, k: nat, j: nat) {
    exists pc: nat :: pc < |P| && P[pc] == Match(k) && At(P, s, pc, j)
  }

  /** Regex k matches a stretch of the input that ends at j. */
  ghost predicate Occurs(trees: seq<Regex>, s: seq<Byte>, k: nat, j: nat) {
    k < |trees| && exists i: nat :: i <= j <= |s| && Matches(trees[k], s, i, j)
  }

  /** The compiled pattern reaches the MATCH of regex k after j bytes exactly when regex k
      matches some stretch of the input that ends at j. */
  lemma PatternMeansSubstring(P: Program, trees: seq<Regex>, caps: seq<nat>, s: seq<Byte>, k: nat, j: nat)
    requires IsCompiled(P, trees, caps)
    ensures Hits(P, s, k, j) <==> Occurs(trees, s, k, j)
  {
    if Hits(P, s, k, j) {
      var pc: nat :| pc < |P| && P[pc] == Match(k) && At(P, s, pc, j);
      var n: nat :| Path(P, s, 0, |P|, n, Conf(0, 0), Conf(pc, j));
      var k', i := PatternSound(P, trees, caps, s, n, Conf(pc, j));
    }
    if Occurs(trees, s, k, j) {
      var i: nat :| i <= j <= |s| && Matches(trees[k], s, i, j);
      var pc := PatternComplete(P, trees, caps, s, k, i, j);
    }
  }

  /** A pattern accepts an input exactly when one of its regexes matches some stretch of it. */
  lemma PatternAccepts(P: Program, trees: seq<Regex>, caps: seq<nat>, s: seq<Byte>)
    requires IsCompiled(P, trees, caps)
    ensures Accepts(P, s) <==> exists k: nat, j: nat :: Occurs(trees, s, k, j)
  {
    forall k: nat, j: nat {
      PatternMeansSubstring(P, trees, caps, s, k, j);
    }
    if Accepts(P, s) {
      var pc: nat, j: nat :| pc < |P| && P[pc].Match? && At(P, s, pc, j);
      assert Hits(P, s, P[pc].regexId, j);
    }
    if k: nat, j: nat :| Occurs(trees, s, k, j) {
      assert Hits(P, s, k, j);
    }
  }

  // ---------- the compiled pattern is closed ----------

  /** From live code of [a, b) control only moves to live code of [a, b). */
  ghost predicate Contained(P: Program, a: nat, b: nat) {
    a < b <= |P| && Live(P, a) &&
    forall pc: nat, q: nat :: a <= pc < b && Live(P, pc) && Flows(P, pc, q) ==> a <= q < b && Live(P, q)
  }

  lemma PieceContained(P: Program, trees: seq<Regex>, caps: seq<nat>, k: nat, lo: nat)
    requires k < |trees| == |caps| && Plain(trees[k]) && CodeAt(P, Piece(trees, caps, k), lo)
    ensures Contained(P, lo, lo + ProgramLen(Piece(trees, caps, k)))
    ensures P[lo].Save? && P[lo + ProgramLen(Piece(trees, caps, k)) - 1] == Match(k)
  {
    var body := Paren(Base(caps, k), trees[k]);
    var end := lo + ProgramLen(body);
    assert lo + ProgramLen(Piece(trees, caps, k)) == end + 1;
    assert CodeAt(P, body, lo) && P[lo].Save? && P[end] == Match(k);
    PlainCodeHasNoMatch(P, body, lo);
    CodeIsSegment(P, body, lo);
    forall pc: nat, q: nat | lo <= pc < end + 1 && Live(P, pc) && Flows(P, pc, q)
      ensures lo <= q < end + 1 && Live(P, q)
    {
      assert pc < end && JumpsInto(P[pc], lo, end);
      assert q == lo || !P[q - 1].Match?;
    }
    assert Contained(P, lo, end + 1);
  }

  lemma {:induction false} AlternativesContained(P: Program, trees: seq<Regex>, caps: seq<nat>, t: nat, lo: nat)
    requires 0 < t <= |trees| == |caps| && (forall t <- trees :: Plain(t))
    requires CodeAt(P, Alternatives(trees, caps, t), lo)
    ensures Contained(P, lo, lo + ProgramLen(Alternatives(trees, caps, t)))
    ensures P[lo + ProgramLen(Alternatives(trees, caps, t)) - 1].Match?
    ensures !P[lo].Jmp?
    decreases t
  {
    hide Contained, Flows, CodeAt;
    AlternativesCode(P, trees, caps, t, lo);
    if t == 1 {
      PieceContained(P, trees, caps, 0, lo);
    } else {
      var mid := lo + 1 + ProgramLen(Alternatives(trees, caps, t - 1));
      AlternativesContained(P, trees, caps, t - 1, lo + 1);
      PieceContained(P, trees, caps, t - 1, mid + 1);
      assert P[lo] == Split(lo + 1, mid + 1) && P[mid].Jmp?;
      ContainedJoin(P, lo, mid, lo + ProgramLen(Alternatives(trees, caps, t)));
    }
  }

  lemma ContainedJoin(P: Program, lo: nat, mid: nat, hi: nat)
    requires Contained(P, lo + 1, mid) && Contained(P, mid + 1, hi)
    requires P[lo] == Split(lo + 1, mid + 1) && P[mid - 1].Match? && P[mid].Jmp?
    ensures Contained(P, lo, hi)
  {
    assert !Live(P, mid);
    assert Live(P, lo);
    forall pc: nat, q: nat | lo <= pc < hi && Live(P, pc) && Flows(P, pc, q)
      ensures lo <= q < hi && Live(P, q)
    {
      if pc == lo {
      } else if pc < mid {
        assert lo + 1 <= q < mid && Live(P, q);
      } else {
        assert mid + 1 <= q < hi && Live(P, q);
      }
    }
  }

  lemma PatternIsClosed(P: Program, trees: seq<Regex>, caps: seq<nat>)
    requires IsCompiled(P, trees, caps)
    ensures Closed(P)
  {
    PrefixCode(P, trees, caps);
    AlternativesContained(P, trees, caps, |trees|, 3);
    assert Contained(P, 3, |P|);
  }

  /** Every jump lands inside the program exactly when there is one regex: with more, the
      jump behind each MATCH but the last leads to the very end, where no code is. */
  lemma TargetsInside(P: Program, trees: seq<Regex>, caps: seq<nat>)
    requires IsCompiled(P, trees, caps)
    ensures (forall pc: nat, q: nat :: pc < |P| && Flows(P, pc, q) ==> q < |P|) <==> |trees| == 1
  {
    PrefixCode(P, trees, caps);
    PatternIsClosed(P, trees, caps);
    if |trees| == 1 {
      assert CodeAt(P, Piece(trees, caps, 0), 3);
      assert CodeAt(P, Paren(0, trees[0]), 3);
      PlainCodeHasNoMatch(P, Paren(0, trees[0]), 3);
      forall pc: nat, q: nat | pc < |P| && Flows(P, pc, q)
        ensures q < |P|
      {
        assert Live(P, pc) && Live(P, q);
      }
    } else {
      var last := Alternatives(trees, caps, |trees|);
      var mid := 4 + ProgramLen(Alternatives(trees, caps, |trees| - 1));
      assert last.Alt? && CodeAt(P, last, 3);
      assert P[mid] == Jmp(|P|);
      assert Flows(P, mid, |P|);
    }
  }

  // ---------- capture slots ----------

  predicate GroupsIn(r: Regex, a: nat, b: nat) {
    match r
    case Alt(l, r') => GroupsIn(l, a, b) && GroupsIn(r', a, b)
    case Cat(l, r') => GroupsIn(l, a, b) && GroupsIn(r', a, b)
    case Paren(g, t) => a <= g < b && GroupsIn(t, a, b)
    case Quest(_, t) => GroupsIn(t, a, b)
    case Star(_, t) => GroupsIn(t, a, b)
    case Plus(_, t) => GroupsIn(t, a, b)
    case Toplevel(_, t) => GroupsIn(t, a, b)
    case _ => true
  }

  /** The groups of regex i are numbered after its $0. */
  ghost predicate Numbered(trees: seq<Regex>, caps: seq<nat>) {
    |trees| == |caps| &&
    forall i :: 0 <= i < |trees| ==> GroupsIn(trees[i], Base(caps, i) + 1, Base(caps, i + 1))
  }

  predicate SlotsIn(P: Program, lo: nat, hi: nat, a: nat, b: nat) {
    hi <= |P| && forall pc :: lo <= pc < hi && P[pc].Save? ==> a <= P[pc].group < b
  }

  lemma {:induction false} CodeSlots(P: Program, r: Regex, lo: nat, a: nat, b: nat)
    requires CodeAt(P, r, lo) && GroupsIn(r, a, b)
    ensures SlotsIn(P, lo, lo + ProgramLen(r), 2 * a, 2 * b)
  {
    hide CodeAt, SlotsIn;
    CodeOfParts(P, r, lo);
    if r.Alt? {
      CodeSlots(P, r.left, lo + 1, a, b);
      CodeSlots(P, r.right, lo + 2 + ProgramLen(r.left), a, b);
    } else if r.Cat? {
      CodeSlots(P, r.left, lo, a, b);
      CodeSlots(P, r.right, lo + ProgramLen(r.left), a, b);
    } else if IsUnary(r) {
      CodeSlots(P, r.body, BodyAt(r, lo), a, b);
    }
    OwnSlots(P, r, lo, a, b);
  }

  lemma OwnSlots(P: Program, r: Regex, lo: nat, a: nat, b: nat)
    requires CodeAt(P, r, lo) && GroupsIn(r, a, b)
    requires r.Alt? ==>
      SlotsIn(P, lo + 1, lo + 1 + ProgramLen(r.left), 2 * a, 2 * b)
      && SlotsIn(P, lo + 2 + ProgramLen(r.left), lo + ProgramLen(r), 2 * a, 2 * b)
    requires r.Cat? ==>
      SlotsIn(P, lo, lo + ProgramLen(r.left), 2 * a, 2 * b)
      && SlotsIn(P, lo + ProgramLen(r.left), lo + ProgramLen(r), 2 * a, 2 * b)
    requires IsUnary(r) ==> SlotsIn(P, BodyAt(r, lo), BodyAt(r, lo) + ProgramLen(r.body), 2 * a, 2 * b)
    ensures SlotsIn(P, lo, lo + ProgramLen(r), 2 * a, 2 * b)
  {
  }

  lemma {:induction false} BaseGrows(caps: seq<nat>, i: nat, j: nat)
    requires i <= j <= |caps|
    ensures Base(caps, i) + (j - i) <= Base(caps, j)
    decreases j
  {
    if i < j { BaseGrows(caps, i, j - 1); }
  }

  lemma {:induction false} GroupsWiden(r: Regex, a: nat, b: nat, a': nat, b': nat)
    requires GroupsIn(r, a, b) && a' <= a && b <= b'
    ensures GroupsIn(r, a', b')
  {
    match r
    case Alt(l, r') => GroupsWiden(l, a, b, a', b'); GroupsWiden(r', a, b, a', b');
    case Cat(l, r') => GroupsWiden(l, a, b, a', b'); GroupsWiden(r', a, b, a', b');
    case Paren(_, t) => GroupsWiden(t, a, b, a', b');
    case Quest(_, t) => GroupsWiden(t, a, b, a', b');
    case Star(_, t) => GroupsWiden(t, a, b, a', b');
    case Plus(_, t) => GroupsWiden(t, a, b, a', b');
    case Toplevel(_, t) => GroupsWiden(t, a, b, a', b');
    case _ =>
  }

  lemma {:induction false} AlternativesGroups(trees: seq<Regex>, caps: seq<nat>, n: nat)
    requires 0 < n <= |trees| && Numbered(trees, caps)
    ensures GroupsIn(Alternatives(trees, caps, n), 0, Base(caps, n))
    decreases n
  {
    BaseGrows(caps, 0, n - 1);
    BaseGrows(caps, n - 1, n);
    GroupsWiden(trees[n - 1], Base(caps, n - 1) + 1, Base(caps, n), Base(caps, n - 1), Base(caps, n));
    GroupsWiden(Piece(trees, caps, n - 1), Base(caps, n - 1), Base(caps, n), 0, Base(caps, n));
    if n > 1 {
      AlternativesGroups(trees, caps, n - 1);
      GroupsWiden(Alternatives(trees, caps, n - 1), 0, Base(caps, n - 1), 0, Base(caps, n));
    }
  }

  /** Every slot the program saves to lies in a capture vector of the compiled size. */
  lemma PatternSlotsFit(P: Program, trees: seq<Regex>, caps: seq<nat>)
    requires IsCompiled(P, trees, caps) && Numbered(trees, caps)
    ensures SlotsIn(P, 0, |P|, 0, 2 * Base(caps, |caps|))
  {
    AlternativesGroups(trees, caps, |trees|);
    assert GroupsIn(Star(false, Dot), 0, Base(caps, |caps|));
    CodeSlots(P, Wrapped(trees, caps), 0, 0, Base(caps, |caps|));
  }
}
