/** Which bytes can start a match: the search through the compiled program that collects the
    leading instructions, what it guarantees, and when the shortcut built on it is right. */
module LeadingBytes {
  import opened Regexes
  import opened Bytecode
  import opened Patterns
  import opened PikeSpec
  import opened Marks
  import opened Compiler
  import PikeExec

  datatype Rc = Ok | Done | Declined

  /** Instruction `p` is dealt with: its stops are collected, its successors marked. */
  ghost predicate Settles(P: Program, p: nat, marked: set<nat>, found: seq<nat>) {
    p < |P| && !P[p].Match? &&
    if IsStop(P[p]) then PikeExec.IsLeading(P[p]) && forall c: Byte :: Eats(P[p], c) ==> Leads(P, found, c)
    else forall q: nat :: Flows(P, p, q) ==> q in marked || q == 1
  }

  ghost predicate Extends(P: Program, small: seq<nat>, big: seq<nat>) {
    forall c: Byte :: Leads(P, small, c) ==> Leads(P, big, c)
  }

  /** Going from `marked` to `marked'` has dealt with every instruction marked on the way. */
  ghost predicate AllSettle(P: Program, marked: set<nat>, marked': set<nat>, found': seq<nat>) {
    marked <= marked' && forall p :: p in marked' && p !in marked ==> Settles(P, p, marked', found')
  }

  // ---------- what is met first ----------

  /** `n` silent steps lead from the start to `p`, not through the byte that the wrapping loop skips. */
  ghost predicate MetIn(P: Program, n: nat, p: nat) {
    if n == 0 then p == 0
    else p != 1 && exists q: nat :: MetIn(P, n - 1, q) && GoesSilently(P, q, p)
  }

  ghost predicate GoesSilently(P: Program, q: nat, p: nat) { q < |P| && !IsStop(P[q]) && Flows(P, q, p) }

  /** The pattern can come to `p` before it reads anything. */
  ghost predicate Met(P: Program, p: nat) { exists n: nat :: MetIn(P, n, p) }

  ghost predicate MetStop(P: Program, p: nat) { p < |P| && Met(P, p) && IsStop(P[p]) }

  lemma GoesOn(P: Program, q: nat, p: nat)
    requires Met(P, q) && GoesSilently(P, q, p)
    ensures Met(P, p) || p == 1
  {
    var n: nat :| MetIn(P, n, q);
    assert p != 1 ==> MetIn(P, n + 1, p);
  }

  /** The pattern can match without reading. */
  ghost predicate MatchMet(P: Program) { exists p: nat :: MetStop(P, p) && P[p].Match? }

  /** The pattern can start with any byte. */
  ghost predicate AnyMet(P: Program) { exists p: nat :: MetStop(P, p) && P[p].Any? }

  /** The bytes a match can start with are told by instructions. */
  ghost predicate LeadsKnown(P: Program) { (exists p: nat :: MetStop(P, p)) && !MatchMet(P) && !AnyMet(P) }

  /** An instruction met first accepts `c`. */
  ghost predicate MetEats(P: Program, c: Byte) { exists p: nat :: MetStop(P, p) && Eats(P[p], c) }

  /** No stop has been marked from `marked` to `marked'`. */
  ghost predicate NoStops(P: Program, marked: set<nat>, marked': set<nat>) {
    forall p: nat :: p in marked' && p !in marked ==> p < |P| && !IsStop(P[p])
  }

  ghost predicate AllMet(P: Program, l: seq<nat>) { forall p <- l :: MetStop(P, p) }

  /** A marked set that has dealt with everything in it holds everything met. */
  lemma {:induction false} MetIsMarked(P: Program, marked: set<nat>, found: seq<nat>, n: nat, p: nat)
    requires 0 in marked && (forall q :: q in marked ==> Settles(P, q, marked, found)) && MetIn(P, n, p)
    ensures p in marked
    decreases n
  {
    if n > 0 {
      var q: nat :| MetIn(P, n - 1, q) && GoesSilently(P, q, p);
      MetIsMarked(P, marked, found, n - 1, q);
      assert Settles(P, q, marked, found);
    }
  }

  /** When the search has come to its end. */
  lemma AllFound(P: Program, marked: set<nat>, found: seq<nat>)
    requires 0 in marked && (forall q :: q in marked ==> Settles(P, q, marked, found))
    requires AllMet(P, found) && PikeExec.LeadingOk(P, found) && (found == [] ==> NoStops(P, {}, marked))
    ensures found != [] <==> LeadsKnown(P)
    ensures forall c: Byte :: Leads(P, found, c) <==> MetEats(P, c)
  {
    forall p: nat | MetStop(P, p)
      ensures p in marked
    {
      var n: nat :| MetIn(P, n, p);
      MetIsMarked(P, marked, found, n, p);
    }
    if found != [] {
      assert MetStop(P, found[0]);
    }
    forall c: Byte
      ensures Leads(P, found, c) <==> MetEats(P, c)
    {
      if MetEats(P, c) {
        var p: nat :| MetStop(P, p) && Eats(P[p], c);
        assert Settles(P, p, marked, found);
      }
    }
  }

  class Search {
    const program: MarkedProgram
    const code: Program
    const tags: array<nat>
    const tag: nat
    var nullable: bool
    var found: seq<nat>

    constructor (program: MarkedProgram)
      requires program.MarksOld()
      ensures this.program == program && Shape() && tag == program.tag + 1 && found == [] && !nullable
    {
      this.program, code, tags, tag := program, program.code, program.tags, program.tag + 1;
      nullable, found := false, [];
    }

    ghost predicate Shape() {
      tags == program.tags && code == program.code && tags.Length == |code|
    }

    ghost function MarksNow(): set<nat>
      reads tags
    {
      Marked(tags[..], tag)
    }

    /** Follows `pc` silently and collects the instructions that can read the first byte. */
    method Collect(pc: nat) returns (rc: Rc)
      requires Shape() && Closed(code) && Live(code, pc) && PikeExec.LeadingOk(code, found)
      requires (Met(code, pc) || pc == 1) && AllMet(code, found) && (nullable ==> MatchMet(code))
      modifies this`nullable, this`found, tags
      ensures AllMet(code, found) && (nullable ==> MatchMet(code))
      ensures rc == Declined ==> AnyMet(code)
      ensures rc == Ok && !nullable && found == [] ==> old(found) == [] && NoStops(code, old(MarksNow()), MarksNow())
      ensures PikeExec.LeadingOk(code, found) && Extends(code, old(found), found)
      ensures forall p :: 0 <= p < tags.Length ==> tags[p] == old(tags[p]) || tags[p] == tag
      ensures old(nullable) ==> nullable
      ensures rc == Done ==> nullable
      ensures old(MarksNow()) <= MarksNow()
      ensures rc == Ok && !nullable ==> (pc in MarksNow() || pc == 1) && AllSettle(code, old(MarksNow()), MarksNow(), found)
      decreases Unmarked(tags[..], tag)
    {
      hide Met, Leads, Eats;
      if tags[pc] == tag || pc == 1 {
        return Ok;
      }
      tags[pc] := tag;
      assert Unmarked(tags[..], tag) == old(Unmarked(tags[..], tag)) - {pc};
      assert MarksNow() == old(MarksNow()) + {pc};
      if code[pc].Split? {
        assert Flows(code, pc, code[pc].x) && Flows(code, pc, code[pc].y);
        GoesOn(code, pc, code[pc].x);
        GoesOn(code, pc, code[pc].y);
        rc := Collect(code[pc].x);
        if rc != Ok {
          return;
        }
        rc := Collect(code[pc].y);
      } else if code[pc].Jmp? {
        assert Flows(code, pc, code[pc].x);
        GoesOn(code, pc, code[pc].x);
        rc := Collect(code[pc].x);
      } else if code[pc].Save? || code[pc].Check? {
        assert Flows(code, pc, pc + 1);
        GoesOn(code, pc, pc + 1);
        rc := Collect(pc + 1);
      } else if code[pc].Match? {
        assert MetStop(code, pc);
        nullable := true;
        rc := Done;
      } else if code[pc].Any? {
        assert MetStop(code, pc);
        rc := Declined;
      } else {
        Append(pc);
        rc := Ok;
      }
    }

    /** Adds an instruction unless it is a CHAR of a byte that is there already. */
    method Append(pc: nat)
      requires pc < |code| && PikeExec.LeadingOk(code, found) && PikeExec.IsLeading(code[pc])
      requires MetStop(code, pc) && AllMet(code, found)
      modifies this`found
      ensures AllMet(code, found) && found != []
      ensures PikeExec.LeadingOk(code, found) && Extends(code, old(found), found)
      ensures forall c: Byte :: Eats(code[pc], c) ==> Leads(code, found, c)
    {
      for i := 0 to |found|
      {
        if code[found[i]].Char? && code[pc].Char? && code[found[i]].ch == code[pc].ch {
          return;
        }
      }
      found := found + [pc];
      assert found[|found| - 1] == pc;
      forall c: Byte | Leads(code, old(found), c)
        ensures Leads(code, found, c)
      {
        var k :| 0 <= k < |old(found)| && old(found)[k] < |code| && Eats(code[old(found)[k]], c);
        assert found[k] == old(found)[k];
      }
    }
  }

  /** `marked` is closed under silent steps, apart from the skipping loop; every stop in it is
      collected, and none of them is a MATCH. */
  ghost predicate Covers(P: Program, leading: seq<nat>, marked: set<nat>) {
    0 in marked && 2 !in marked && forall p :: p in marked ==> Settles(P, p, marked, leading)
  }

  /** The wrapping `.*?` comes first, and nothing behind it leads back into it. */
  ghost predicate SkipsFirst(P: Program) {
    && 3 < |P| && P[0] == Split(3, 1) && P[1] == Any && P[2] == Jmp(0)
    && forall p: nat, q: nat :: 3 <= p < |P| && Flows(P, p, q) ==> q >= 3
  }

  lemma PatternSkipsFirst(P: Program, trees: seq<Regex>, caps: seq<nat>)
    requires IsCompiled(P, trees, caps)
    ensures SkipsFirst(P)
  {
    hide CodeAt, ProgramLen;
    PrefixCode(P, trees, caps);
    CodeIsSegment(P, Alternatives(trees, caps, |trees|), 3);
  }

  lemma WithoutTwo(P: Program, leading: seq<nat>, marked: set<nat>)
    requires SkipsFirst(P) && 0 in marked && forall p :: p in marked ==> Settles(P, p, marked, leading)
    ensures Covers(P, leading, marked - {2})
  {
    forall p | p in marked && p != 2
      ensures Settles(P, p, marked - {2}, leading)
    {
      if p == 0 {
        assert forall q: nat :: Flows(P, 0, q) ==> q == 3 || q == 1;
      }
    }
  }

  /** The leading instructions of a program; none if the search gives up or a match can be empty. They are
      found whenever the bytes a match can start with are told by instructions, and accept just those. */
  method GetLeadingBytes(program: MarkedProgram) returns (leading: seq<nat>, nullable: bool, ghost marked: set<nat>)
    requires program.MarksOld() && Closed(program.code) && SkipsFirst(program.code)
    modifies program, program.tags
    ensures program.MarksOld() && PikeExec.LeadingOk(program.code, leading)
    ensures leading != [] ==> Covers(program.code, leading, marked)
    ensures leading != [] <==> LeadsKnown(program.code)
    ensures leading != [] ==> forall c: Byte :: Leads(program.code, leading, c) <==> MetEats(program.code, c)
  {
    var search := new Search(program);
    assert MetIn(program.code, 0, 0);
    var rc := search.Collect(0);
    program.tag := search.tag;
    nullable := search.nullable;
    leading := if rc == Declined || nullable then [] else search.found;
    marked := search.MarksNow() - {2};
    if leading != [] {
      WithoutTwo(program.code, leading, search.MarksNow());
    }
    if rc == Ok && !nullable {
      AllFound(program.code, search.MarksNow(), search.found);
    }
  }
}
