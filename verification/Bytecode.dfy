/** The instruction set of the two machines and its path semantics: a configuration is a
    program counter and an input position, and a path is a chain of single steps. */
module Bytecode {
  import opened Regexes

  datatype Instr =
    | Char(ch: Byte)
    | Match(regexId: nat)
    | Jmp(x: nat)
    | Split(x: nat, y: nat)
    | Any
    | Save(group: nat)
    | In(ranges: seq<Range>)
    | NotIn(ranges: seq<Range>)
    | Check(assertion: LookBehind)

  type Program = seq<Instr>

  datatype Conf = Conf(pc: nat, pos: nat)

  /** The instructions both machines keep on a thread list; the others are followed at once. */
  predicate IsStop(ins: Instr) {
    ins.Char? || ins.Any? || ins.In? || ins.NotIn? || ins.Match?
  }

  /** A byte-eating instruction takes `c`. */
  predicate Eats(ins: Instr, c: Byte) {
    match ins
    case Char(ch) => ch == c
    case Any => true
    case In(rs) => InRanges(rs, c)
    case NotIn(rs) => !InRanges(rs, c)
    case _ => false
  }

  /** The addresses below n. */
  function UpTo(n: nat): (r: set<nat>)
    ensures |r| == n && forall p: nat :: p in r <==> p < n
  {
    if n == 0 then {} else UpTo(n - 1) + {n - 1}
  }

  /** `q` is an address the instruction at `pc` can hand control to. */
  predicate Flows(P: Program, pc: nat, q: nat)
    requires pc < |P|
  {
    match P[pc]
    case Match(_) => false
    case Jmp(x) => q == x
    case Split(x, y) => q == x || q == y
    case _ => q == pc + 1
  }

  /** The jump that stands right behind a MATCH is never reached; all other code is live. */
  predicate Live(P: Program, pc: nat) {
    pc < |P| && !(pc > 0 && P[pc].Jmp? && P[pc - 1].Match?)
  }

  /** Control starts in live code and never leaves it, so it stays inside the program. */
  ghost predicate Closed(P: Program) {
    Live(P, 0) && forall pc: nat, q: nat :: Live(P, pc) && Flows(P, pc, q) ==> Live(P, q)
  }

  ghost predicate EpsStep(P: Program, s: seq<Byte>, pos: nat, p: nat, q: nat)
  {
    p < |P| && pos <= |s| &&
    match P[p]
    case Jmp(x) => q == x
    case Split(x, y) => q == x || q == y
    case Save(_) => q == p + 1
    case Check(a) => Holds(a, s, pos) && q == p + 1
    case _ => false
  }

  ghost predicate Step(P: Program, s: seq<Byte>, c: Conf, d: Conf)
  {
    || (d.pos == c.pos && EpsStep(P, s, c.pos, c.pc, d.pc))
    || (c.pc < |P| && c.pos < |s| && Eats(P[c.pc], s[c.pos]) && d == Conf(c.pc + 1, c.pos + 1))
  }

  /** `n` steps lead from `c` to `d`, and all but the last configuration lie in [lo, hi). */
  ghost predicate Path(P: Program, s: seq<Byte>, lo: nat, hi: nat, n: nat, c: Conf, d: Conf)
    decreases n
  {
    if n == 0 then c == d
    else lo <= c.pc < hi && exists e :: Step(P, s, c, e) && Path(P, s, lo, hi, n - 1, e, d)
  }

  /** The machine can be at `pc` after reading the first `pos` bytes. */
  ghost predicate At(P: Program, s: seq<Byte>, pc: nat, pos: nat) {
    exists n: nat :: Path(P, s, 0, |P|, n, Conf(0, 0), Conf(pc, pos))
  }

  ghost predicate Accepts(P: Program, s: seq<Byte>) {
    exists pc: nat, pos: nat :: pc < |P| && P[pc].Match? && At(P, s, pc, pos)
  }

  lemma {:induction false} PathConcat(P: Program, s: seq<Byte>, lo: nat, hi: nat,
                                      n: nat, c: Conf, d: Conf, m: nat, e: Conf)
    requires Path(P, s, lo, hi, n, c, d) && Path(P, s, lo, hi, m, d, e)
    ensures Path(P, s, lo, hi, n + m, c, e)
    decreases n
  {
    if n > 0 {
      var c' :| Step(P, s, c, c') && Path(P, s, lo, hi, n - 1, c', d);
      PathConcat(P, s, lo, hi, n - 1, c', d, m, e);
    }
  }

  /** Some number of steps leads from `c` to `d` inside [lo, hi). */
  ghost predicate Runs(P: Program, s: seq<Byte>, lo: nat, hi: nat, c: Conf, d: Conf) {
    exists n: nat :: Path(P, s, lo, hi, n, c, d)
  }

  lemma RunsStep(P: Program, s: seq<Byte>, lo: nat, hi: nat, c: Conf, d: Conf)
    requires lo <= c.pc < hi && Step(P, s, c, d)
    ensures Runs(P, s, lo, hi, c, d)
  {
    assert Path(P, s, lo, hi, 0, d, d);
    assert Path(P, s, lo, hi, 1, c, d);
  }

  lemma RunsTrans(P: Program, s: seq<Byte>, lo: nat, hi: nat, c: Conf, d: Conf, e: Conf)
    requires Runs(P, s, lo, hi, c, d) && Runs(P, s, lo, hi, d, e)
    ensures Runs(P, s, lo, hi, c, e)
  {
    var n: nat :| Path(P, s, lo, hi, n, c, d);
    var m: nat :| Path(P, s, lo, hi, m, d, e);
    PathConcat(P, s, lo, hi, n, c, d, m, e);
  }

  lemma RunsWiden(P: Program, s: seq<Byte>, lo: nat, hi: nat, lo': nat, hi': nat, c: Conf, d: Conf)
    requires lo' <= lo && hi <= hi' && Runs(P, s, lo, hi, c, d)
    ensures Runs(P, s, lo', hi', c, d)
  {
    var n: nat :| Path(P, s, lo, hi, n, c, d);
    PathWiden(P, s, lo, hi, lo', hi', n, c, d);
  }

  lemma {:induction false} PathWiden(P: Program, s: seq<Byte>, lo: nat, hi: nat, lo': nat, hi': nat,
                                     n: nat, c: Conf, d: Conf)
    requires lo' <= lo && hi <= hi' && Path(P, s, lo, hi, n, c, d)
    ensures Path(P, s, lo', hi', n, c, d)
    decreases n
  {
    if n > 0 {
      var c' :| Step(P, s, c, c') && Path(P, s, lo, hi, n - 1, c', d);
      PathWiden(P, s, lo, hi, lo', hi', n - 1, c', d);
    }
  }

  lemma {:induction false} PathPositions(P: Program, s: seq<Byte>, lo: nat, hi: nat, n: nat, c: Conf, d: Conf)
    requires Path(P, s, lo, hi, n, c, d) && c.pos <= |s|
    ensures c.pos <= d.pos <= |s|
    decreases n
  {
    if n > 0 {
      var c' :| Step(P, s, c, c') && Path(P, s, lo, hi, n - 1, c', d);
      PathPositions(P, s, lo, hi, n - 1, c', d);
    }
  }

  lemma {:induction false} PathStaysLive(P: Program, s: seq<Byte>, n: nat, c: Conf, d: Conf)
    requires Closed(P) && Live(P, c.pc) && Path(P, s, 0, |P|, n, c, d)
    ensures Live(P, d.pc)
    decreases n
  {
    if n > 0 {
      var c' :| Step(P, s, c, c') && Path(P, s, 0, |P|, n - 1, c', d);
      assert Flows(P, c.pc, c'.pc);
      PathStaysLive(P, s, n - 1, c', d);
    }
  }

  /** [a, b) is left only through b. */
  ghost predicate Segment(P: Program, a: nat, b: nat) {
    a <= b <= |P| && forall pc :: a <= pc < b ==> JumpsInto(P[pc], a, b)
  }

  predicate JumpsInto(ins: Instr, a: nat, b: nat) {
    match ins
    case Jmp(x) => a <= x <= b
    case Split(x, y) => a <= x <= b && a <= y <= b
    case _ => true
  }

  /** A path that leaves a segment does so at the segment's end. */
  lemma {:induction false} PathExit(P: Program, s: seq<Byte>, lo: nat, hi: nat, a: nat, b: nat,
                                    n: nat, c: Conf, d: Conf) returns (m: nat, e: Conf)
    requires Segment(P, a, b) && a <= c.pc <= b
    requires Path(P, s, lo, hi, n, c, d) && !(a <= d.pc < b)
    ensures m <= n && e.pc == b
    ensures Path(P, s, a, b, m, c, e) && Path(P, s, lo, hi, n - m, e, d)
    decreases n
  {
    if c.pc == b {
      m, e := 0, c;
    } else {
      var c' :| Step(P, s, c, c') && Path(P, s, lo, hi, n - 1, c', d);
      m, e := PathExit(P, s, lo, hi, a, b, n - 1, c', d);
      m := m + 1;
    }
  }
}
