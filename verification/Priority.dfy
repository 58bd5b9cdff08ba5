/** Priority between paths. Where no loop can go round without reading a byte, the hit of the
    backtracker, and so of the Pike machine, is the one of the first accepting path when the
    paths are ordered by their choices at the splits, first branch before second. */
module Priority {
  import opened Options
  import opened Regexes
  import opened Bytecode
  import opened Backtracking

  /** Every silent step leads to an instruction of lower rank: there is no silent cycle. */
  ghost predicate Ranked(P: Program, rank: seq<nat>) {
    |rank| == |P| &&
    forall pc: nat, q: nat :: pc < |P| && !IsStop(P[pc]) && Flows(P, pc, q) && q < |P| ==> rank[q] < rank[pc]
  }

  /** The path from `pc` that takes, at its n-th split, the second branch iff choices[n]; the
      hit it ends with, or None if it dies, runs out of choices or has some left over. */
  ghost function Follow(P: Program, rank: seq<nat>, s: seq<Byte>, pc: nat, pos: nat, caps: Captures, choices: seq<bool>): Option<Hit>
    requires Ranked(P, rank) && pos <= |s|
    decreases |s| - pos, if pc < |P| then rank[pc] else 0
  {
    if pc >= |P| then None
    else
      match P[pc]
      case Match(id) => if choices == [] then Some(Hit(caps, id)) else None
      case Jmp(x) => if x < |P| then assert Flows(P, pc, x); Follow(P, rank, s, x, pos, caps, choices) else None
      case Split(x, y) =>
        if choices == [] then None
        else
          var q := if choices[0] then y else x;
          if q < |P| then assert Flows(P, pc, q); Follow(P, rank, s, q, pos, caps, choices[1..]) else None
      case Save(g) =>
        if pc + 1 < |P| then assert Flows(P, pc, pc + 1); Follow(P, rank, s, pc + 1, pos, Put(caps, g, pos), choices) else None
      case Check(a) =>
        if Holds(a, s, pos) && pc + 1 < |P| then assert Flows(P, pc, pc + 1); Follow(P, rank, s, pc + 1, pos, caps, choices) else None
      case _ => if pos < |s| && Eats(P[pc], s[pos]) then Follow(P, rank, s, pc + 1, pos + 1, caps, choices) else None
  }

  /** `a` comes no later than `b`: where they first part, `a` takes the first branch. */
  predicate NoLater(a: seq<bool>, b: seq<bool>) {
    a == [] || (b != [] && if a[0] == b[0] then NoLater(a[1..], b[1..]) else !a[0])
  }

  /** `h` is the hit of the first accepting path from `pc`. */
  ghost predicate IsFirst(P: Program, rank: seq<nat>, s: seq<Byte>, pc: nat, pos: nat, caps: Captures, h: Option<Hit>)
    requires Ranked(P, rank) && pos <= |s|
  {
    if h == None then forall c :: Follow(P, rank, s, pc, pos, caps, c) == None
    else exists first :: FirstChoices(P, rank, s, pc, pos, caps, h, first)
  }

  ghost predicate FirstChoices(P: Program, rank: seq<nat>, s: seq<Byte>, pc: nat, pos: nat, caps: Captures, h: Option<Hit>, first: seq<bool>)
    requires Ranked(P, rank) && pos <= |s|
  {
    && Follow(P, rank, s, pc, pos, caps, first) == h
    && forall c :: Follow(P, rank, s, pc, pos, caps, c).Some? ==> NoLater(first, c)
  }

  /** `pc` and `q` have the same paths. */
  lemma SameFirst(P: Program, rank: seq<nat>, s: seq<Byte>, pc: nat, pos: nat, caps: Captures,
                  q: nat, pos': nat, caps': Captures, h: Option<Hit>)
    requires Ranked(P, rank) && pos <= |s| && pos' <= |s|
    requires forall c :: Follow(P, rank, s, pc, pos, caps, c) == Follow(P, rank, s, q, pos', caps', c)
    requires IsFirst(P, rank, s, q, pos', caps', h)
    ensures IsFirst(P, rank, s, pc, pos, caps, h)
  {
    if h.Some? {
      var first :| FirstChoices(P, rank, s, q, pos', caps', h, first);
      assert FirstChoices(P, rank, s, pc, pos, caps, h, first);
    }
  }

  lemma SplitFirst(P: Program, rank: seq<nat>, s: seq<Byte>, pc: nat, pos: nat, caps: Captures, h1: Option<Hit>, h2: Option<Hit>)
    requires Ranked(P, rank) && pos <= |s| && pc < |P| && P[pc].Split?
    requires IsFirst(P, rank, s, P[pc].x, pos, caps, h1) && IsFirst(P, rank, s, P[pc].y, pos, caps, h2)
    ensures IsFirst(P, rank, s, pc, pos, caps, OrElse(h1, h2))
  {
    var x, y, h := P[pc].x, P[pc].y, OrElse(h1, h2);
    forall c: seq<bool> | c != []
      ensures Follow(P, rank, s, pc, pos, caps, c) == Follow(P, rank, s, if c[0] then y else x, pos, caps, c[1..])
    {
    }
    if h1.Some? {
      var f :| FirstChoices(P, rank, s, x, pos, caps, h1, f);
      assert ([false] + f)[1..] == f;
      assert FirstChoices(P, rank, s, pc, pos, caps, h, [false] + f);
    } else if h2.Some? {
      var f :| FirstChoices(P, rank, s, y, pos, caps, h2, f);
      assert ([true] + f)[1..] == f;
      assert FirstChoices(P, rank, s, pc, pos, caps, h, [true] + f);
    }
  }

  /** With ranks, the trail is never met again, and the backtracker finds the first path. */
  lemma {:induction false} BacktrackIsFirst(P: Program, rank: seq<nat>, s: seq<Byte>, pc: nat, pos: nat, caps: Captures, seen: set<nat>)
    requires Ranked(P, rank) && pos <= |s|
    requires forall q :: q in seen ==> q < |P| && (pc < |P| ==> rank[pc] < rank[q])
    ensures IsFirst(P, rank, s, pc, pos, caps, Backtrack(P, s, pc, pos, caps, seen))
    decreases |s| - pos, if pc < |P| then rank[pc] else 0
  {
    if pc < |P| {
      var seen' := seen + {pc};
      if P[pc].Split? {
        var x, y := P[pc].x, P[pc].y;
        assert Flows(P, pc, x) && Flows(P, pc, y);
        BacktrackFrom(P, rank, s, pc, x, pos, caps, seen);
        BacktrackFrom(P, rank, s, pc, y, pos, caps, seen);
        SplitFirst(P, rank, s, pc, pos, caps, Backtrack(P, s, x, pos, caps, seen'), Backtrack(P, s, y, pos, caps, seen'));
      } else if P[pc].Match? {
        assert FirstChoices(P, rank, s, pc, pos, caps, Some(Hit(caps, P[pc].regexId)), []);
      } else if IsStop(P[pc]) {
        if pos < |s| && Eats(P[pc], s[pos]) {
          BacktrackIsFirst(P, rank, s, pc + 1, pos + 1, caps, {});
          SameFirst(P, rank, s, pc, pos, caps, pc + 1, pos + 1, caps, Backtrack(P, s, pc + 1, pos + 1, caps, {}));
        }
      } else if !(P[pc].Check? && !Holds(P[pc].assertion, s, pos)) {
        var q := if P[pc].Jmp? then P[pc].x else pc + 1;
        var caps' := if P[pc].Save? then Put(caps, P[pc].group, pos) else caps;
        assert Flows(P, pc, q);
        BacktrackFrom(P, rank, s, pc, q, pos, caps', seen);
        SameFirst(P, rank, s, pc, pos, caps, q, pos, caps', Backtrack(P, s, q, pos, caps', seen'));
      }
    }
  }

  lemma BacktrackFrom(P: Program, rank: seq<nat>, s: seq<Byte>, pc: nat, q: nat, pos: nat, caps: Captures, seen: set<nat>)
    requires Ranked(P, rank) && pos <= |s| && pc < |P| && !IsStop(P[pc]) && Flows(P, pc, q)
    requires forall q :: q in seen ==> q < |P| && rank[pc] < rank[q]
    ensures IsFirst(P, rank, s, q, pos, caps, Backtrack(P, s, q, pos, caps, seen + {pc}))
    decreases |s| - pos, rank[pc], 0
  {
    if q < |P| {
      BacktrackIsFirst(P, rank, s, q, pos, caps, seen + {pc});
    }
  }
}
