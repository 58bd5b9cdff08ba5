/** The matcher the Pike machine promises to agree with: a backtracker that tries the first
    branch of a split before the second and threads a capture vector along the way. */
module Backtracking {
  import opened Options
  import opened Regexes
  import opened Bytecode

  type Captures = seq<int>

  /** A successful match: the final captures and the regex that matched. */
  datatype Hit = Hit(caps: Captures, regexId: nat)

  function OrElse(a: Option<Hit>, b: Option<Hit>): Option<Hit> {
    if a.Some? then a else b
  }

  function Put(caps: Captures, group: nat, pos: int): Captures {
    if group < |caps| then caps[group := pos] else caps
  }

  function Addresses(P: Program): set<nat> {
    UpTo(|P|)
  }

  /** The first hit from `pc` at `pos`. `seen` are the instructions passed since the last byte:
      coming back to one of them is an empty round of a loop, and the only way on is to leave
      that loop through the second branch of its split, if that has not been taken yet. */
  function Backtrack(P: Program, s: seq<Byte>, pc: nat, pos: nat, caps: Captures, seen: set<nat>): Option<Hit>
    requires pos <= |s|
    decreases |s| - pos, Addresses(P) - seen, pc in seen
  {
    if pc >= |P| then None
    else if pc in seen then
      if P[pc].Split? && P[pc].y !in seen then Backtrack(P, s, P[pc].y, pos, caps, seen) else None
    else
      var seen' := seen + {pc};
      assert pc in Addresses(P) - seen && pc !in Addresses(P) - seen';
      match P[pc]
      case Match(id) => Some(Hit(caps, id))
      case Jmp(x) => Backtrack(P, s, x, pos, caps, seen')
      case Split(x, y) => OrElse(Backtrack(P, s, x, pos, caps, seen'), Backtrack(P, s, y, pos, caps, seen'))
      case Save(g) => Backtrack(P, s, pc + 1, pos, Put(caps, g, pos), seen')
      case Check(a) => if Holds(a, s, pos) then Backtrack(P, s, pc + 1, pos, caps, seen') else None
      case _ => if pos < |s| && Eats(P[pc], s[pos]) then Backtrack(P, s, pc + 1, pos + 1, caps, {}) else None
  }

  /** Whether the backtracker succeeds does not depend on the captures. */
  predicate CanMatch(P: Program, s: seq<Byte>, pc: nat, pos: nat, seen: set<nat>)
    requires pos <= |s|
  {
    Backtrack(P, s, pc, pos, [], seen).Some?
  }

  lemma {:induction false} SuccessIgnoresCaptures(P: Program, s: seq<Byte>, pc: nat, pos: nat, c: Captures, d: Captures, seen: set<nat>)
    requires pos <= |s|
    ensures Backtrack(P, s, pc, pos, c, seen).Some? == Backtrack(P, s, pc, pos, d, seen).Some?
    decreases |s| - pos, Addresses(P) - seen, pc in seen
  {
    if pc >= |P| {
    } else if pc in seen {
      if P[pc].Split? && P[pc].y !in seen {
        SuccessIgnoresCaptures(P, s, P[pc].y, pos, c, d, seen);
      }
    } else {
      var seen' := seen + {pc};
      assert pc in Addresses(P) - seen && pc !in Addresses(P) - seen';
      if P[pc].Jmp? {
        SuccessIgnoresCaptures(P, s, P[pc].x, pos, c, d, seen');
      } else if P[pc].Split? {
        SuccessIgnoresCaptures(P, s, P[pc].x, pos, c, d, seen');
        SuccessIgnoresCaptures(P, s, P[pc].y, pos, c, d, seen');
      } else if P[pc].Save? {
        SuccessIgnoresCaptures(P, s, pc + 1, pos, Put(c, P[pc].group, pos), Put(d, P[pc].group, pos), seen');
      } else if P[pc].Check? {
        SuccessIgnoresCaptures(P, s, pc + 1, pos, c, d, seen');
      } else if pos < |s| && Eats(P[pc], s[pos]) {
        SuccessIgnoresCaptures(P, s, pc + 1, pos + 1, c, d, {});
      }
    }
  }

  /** CanMatch, one step unfolded. */
  lemma CanMatchStep(P: Program, s: seq<Byte>, pc: nat, pos: nat, seen: set<nat>)
    requires pos <= |s| && pc < |P|
    ensures pc in seen ==>
              (CanMatch(P, s, pc, pos, seen) <==> P[pc].Split? && P[pc].y !in seen && CanMatch(P, s, P[pc].y, pos, seen))
    ensures pc !in seen ==>
              (CanMatch(P, s, pc, pos, seen) <==>
               || P[pc].Match?
               || (P[pc].Jmp? && CanMatch(P, s, P[pc].x, pos, seen + {pc}))
               || (P[pc].Split? && (CanMatch(P, s, P[pc].x, pos, seen + {pc}) || CanMatch(P, s, P[pc].y, pos, seen + {pc})))
               || (P[pc].Save? && CanMatch(P, s, pc + 1, pos, seen + {pc}))
               || (P[pc].Check? && Holds(P[pc].assertion, s, pos) && CanMatch(P, s, pc + 1, pos, seen + {pc}))
               || (pos < |s| && Eats(P[pc], s[pos]) && CanMatch(P, s, pc + 1, pos + 1, {})))
  {
    if P[pc].Save? {
      SuccessIgnoresCaptures(P, s, pc + 1, pos, Put([], P[pc].group, pos), [], seen + {pc});
    }
  }

  /** Fewer instructions passed, more ways to succeed. */
  lemma {:induction false} SeenLessMatchesMore(P: Program, s: seq<Byte>, pc: nat, pos: nat, small: set<nat>, big: set<nat>)
    requires pos <= |s| && small <= big && CanMatch(P, s, pc, pos, big)
    ensures CanMatch(P, s, pc, pos, small)
    decreases |s| - pos, Addresses(P) - big, pc in big
  {
    if pc < |P| {
      hide Backtrack, CanMatch;
      CanMatchStep(P, s, pc, pos, big);
      CanMatchStep(P, s, pc, pos, small);
      var small', big' := small + {pc}, big + {pc};
      if pc in big {
        SeenLessMatchesMore(P, s, P[pc].y, pos, if pc in small then small else small', big);
      } else {
        assert pc in Addresses(P) - big && pc !in Addresses(P) - big';
        if P[pc].Split? {
          if CanMatch(P, s, P[pc].x, pos, big') {
            SeenLessMatchesMore(P, s, P[pc].x, pos, small', big');
          } else {
            SeenLessMatchesMore(P, s, P[pc].y, pos, small', big');
          }
        } else if P[pc].Jmp? {
          SeenLessMatchesMore(P, s, P[pc].x, pos, small', big');
        } else if P[pc].Save? || P[pc].Check? {
          SeenLessMatchesMore(P, s, pc + 1, pos, small', big');
        }
      }
    }
  }

  /** A success at `pc` is one whatever was passed, or comes from an instruction behind `pc`. */
  lemma SuccessVia(P: Program, s: seq<Byte>, pc: nat, pos: nat, seen: set<nat>, seen': set<nat>) returns (next: nat)
    requires pos <= |s| && pc < |P| && pc !in seen && pc !in seen' && CanMatch(P, s, pc, pos, seen)
    ensures CanMatch(P, s, pc, pos, seen')
      || (CanMatch(P, s, next, pos, seen + {pc})
          && (CanMatch(P, s, next, pos, seen' + {pc}) ==> CanMatch(P, s, pc, pos, seen')))
  {
    hide Backtrack, CanMatch;
    CanMatchStep(P, s, pc, pos, seen);
    CanMatchStep(P, s, pc, pos, seen');
    var ins := P[pc];
    next := if ins.Jmp? || (ins.Split? && CanMatch(P, s, ins.x, pos, seen + {pc})) then ins.x else if ins.Split? then ins.y else pc + 1;
  }

  /** A success is a success without passing `g`, or `g` itself can succeed. */
  lemma {:induction false} AvoidOrReach(P: Program, s: seq<Byte>, pc: nat, pos: nat, seen: set<nat>, g: nat)
    requires pos <= |s| && g !in seen && CanMatch(P, s, pc, pos, seen)
    ensures CanMatch(P, s, pc, pos, seen + {g}) || CanMatch(P, s, g, pos, seen)
    decreases |s| - pos, Addresses(P) - seen, pc in seen, 1
  {
    if pc < |P| && pc != g {
      hide Backtrack, CanMatch, Addresses;
      if pc in seen {
        CanMatchStep(P, s, pc, pos, seen);
        CanMatchStep(P, s, pc, pos, seen + {g});
        AvoidOrReach(P, s, P[pc].y, pos, seen, g);
      } else {
        var next := SuccessVia(P, s, pc, pos, seen, seen + {g});
        if !CanMatch(P, s, pc, pos, seen + {g}) {
          AvoidVia(P, s, next, pos, seen, pc, g);
        }
      }
    }
  }

  lemma AvoidVia(P: Program, s: seq<Byte>, next: nat, pos: nat, seen: set<nat>, pc: nat, g: nat)
    requires pos <= |s| && pc < |P| && pc !in seen && g !in seen && g != pc
    requires CanMatch(P, s, next, pos, seen + {pc})
    ensures CanMatch(P, s, next, pos, seen + {g} + {pc}) || CanMatch(P, s, g, pos, seen)
    decreases |s| - pos, Addresses(P) - seen, false, 0
  {
    assert seen + {pc} + {g} == seen + {g} + {pc};
    assert pc in Addresses(P) - seen && pc !in Addresses(P) - (seen + {pc});
    AvoidOrReach(P, s, next, pos, seen + {pc}, g);
    if CanMatch(P, s, g, pos, seen + {pc}) {
      SeenLessMatchesMore(P, s, g, pos, seen, seen + {pc});
    }
  }
}
