/** Programs as the machines run them: each instruction carries a mark. */
module Marks {
  import opened Bytecode

  /** A program together with the marks the machines leave in its instructions. */
  class MarkedProgram {
    const code: Program
    const tags: array<nat>
    var tag: nat

    constructor (code: Program)
      ensures this.code == code && fresh(tags) && MarksOld() && tag == 0
    {
      this.code := code;
      tags := new nat[|code|](_ => 0);
      tag := 0;
    }

    ghost predicate MarksOld()
      reads this, tags
    {
      tags.Length == |code| && forall p :: 0 <= p < |code| ==> tags[p] <= tag
    }
  }

  /** The instructions that carry the mark `tag`. */
  ghost function Marked(tags: seq<nat>, tag: nat): set<nat> {
    set p: nat | p < |tags| && tags[p] == tag
  }

  ghost function Unmarked(tags: seq<nat>, tag: nat): set<nat> {
    set p: nat | p < |tags| && tags[p] != tag
  }
}
