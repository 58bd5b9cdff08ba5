/** Regexes that prefer the same of all their ways, and the order in which the ways of a counted
    repetition are preferred. */
module Counts {
  import opened Options
  import opened Regexes
  import opened Patterns
  import opened Backtracking
  import opened Preference

  // ---------- lists that prefer the same ----------

  /** The first of some ways that is good. */
  ghost function Pick(ws: seq<Way>, good: iset<Way>): Option<Way> {
    if ws == [] then None else if ws[0] in good then Some(ws[0]) else Pick(ws[1..], good)
  }

  /** Whatever is good to go on with, the two lists offer the same first. */
  ghost predicate Alike(x: seq<Way>, y: seq<Way>) { forall good :: Pick(x, good) == Pick(y, good) }

  ghost function Either(a: Option<Way>, b: Option<Way>): Option<Way> { if a.Some? then a else b }

  lemma {:induction false} PickConcat(x: seq<Way>, y: seq<Way>, good: iset<Way>)
    ensures Pick(x + y, good) == Either(Pick(x, good), Pick(y, good))
  {
    if x == [] {
      assert x + y == y;
    } else {
      PickConcat(x[1..], y, good);
      assert (x + y)[1..] == x[1..] + y;
    }
  }

  lemma {:induction false} PickIs(ws: seq<Way>, good: iset<Way>)
    ensures var p := Pick(ws, good); if p.Some? then p.value in ws && p.value in good else forall w <- ws :: w !in good
  {
    if ws != [] {
      PickIs(ws[1..], good);
    }
  }

  lemma AlikeConcat(x: seq<Way>, y: seq<Way>, x': seq<Way>, y': seq<Way>)
    requires Alike(x, x') && Alike(y, y')
    ensures Alike(x + y, x' + y')
  {
    forall good ensures Pick(x + y, good) == Pick(x' + y', good) {
      PickConcat(x, y, good);
      PickConcat(x', y', good);
    }
  }

  /** Ways that came before need not come again. */
  lemma Absorbed(x: seq<Way>, y: seq<Way>)
    requires forall w <- y :: w in x
    ensures Alike(x + y, x)
  {
    forall good ensures Pick(x + y, good) == Pick(x, good) {
      PickConcat(x, y, good);
      PickIs(x, good);
      PickIs(y, good);
    }
  }

  // ---------- ways followed by a regex ----------

  lemma {:induction false} ThenConcat(x: seq<Way>, y: seq<Way>, r: Regex, s: seq<Byte>, i: nat)
    requires i <= |s| && Inside(x, i, s) && Inside(y, i, s)
    ensures Inside(x + y, i, s) && Then(x + y, r, s, i) == Then(x, r, s, i) + Then(y, r, s, i)
  {
    hide Ways;
    if x == [] {
      assert x + y == y;
    } else {
      ThenConcat(x[1..], y, r, s, i);
      assert (x + y)[1..] == x[1..] + y;
    }
  }

  lemma ThenOne(w: Way, r: Regex, s: seq<Byte>, i: nat)
    requires i <= w.pos <= |s|
    ensures Inside([w], i, s) && Then([w], r, s, i) == Ways(r, s, w.pos, w.caps)
  {
    hide Ways;
    var none: seq<Way> := [];
    assert [w][1..] == none && Inside(none, i, s) && Then(none, r, s, i) == [];
  }

  lemma {:induction false} ThenNothing(ws: seq<Way>, s: seq<Byte>, i: nat)
    requires i <= |s| && Inside(ws, i, s)
    ensures Then(ws, Nil, s, i) == ws
  {
    if ws != [] {
      ThenNothing(ws[1..], s, i);
    }
  }

  lemma {:induction false} ThenFrom(ws: seq<Way>, r: Regex, s: seq<Byte>, i: nat, i': nat)
    requires i <= |s| && i' <= |s| && Inside(ws, i, s) && Inside(ws, i', s)
    ensures Then(ws, r, s, i) == Then(ws, r, s, i')
  {
    hide Ways;
    if ws != [] {
      ThenFrom(ws[1..], r, s, i, i');
    }
  }

  lemma {:induction false} ThenThen(ws: seq<Way>, r: Regex, t: Regex, s: seq<Byte>, i: nat)
    requires i <= |s| && Inside(ws, i, s)
    ensures Then(Then(ws, r, s, i), t, s, i) == Then(ws, Cat(r, t), s, i)
  {
    hide Ways;
    if ws != [] {
      ThenThen(ws[1..], r, t, s, i);
      var first := Ways(r, s, ws[0].pos, ws[0].caps);
      ThenConcat(first, Then(ws[1..], r, s, i), t, s, i);
      ThenFrom(first, t, s, i, ws[0].pos);
      WaysOfCat(r, t, s, ws[0].pos, ws[0].caps);
    }
  }

  /** The ways behind which `r` has a good one. */
  ghost function Leading(r: Regex, s: seq<Byte>, good: iset<Way>): iset<Way> {
    iset w: Way | w.pos <= |s| && Pick(Ways(r, s, w.pos, w.caps), good).Some?
  }

  lemma {:induction false} PickThen(ws: seq<Way>, r: Regex, s: seq<Byte>, i: nat, good: iset<Way>)
    requires i <= |s| && Inside(ws, i, s)
    ensures var p := Pick(ws, Leading(r, s, good));
      if p == None then Pick(Then(ws, r, s, i), good) == None
      else p.value in ws && Pick(Then(ws, r, s, i), good) == Pick(Ways(r, s, p.value.pos, p.value.caps), good)
  {
    hide Ways;
    if ws != [] {
      PickThen(ws[1..], r, s, i, good);
      PickConcat(Ways(r, s, ws[0].pos, ws[0].caps), Then(ws[1..], r, s, i), good);
    }
  }

  lemma ThenAlike(x: seq<Way>, y: seq<Way>, r: Regex, s: seq<Byte>, i: nat)
    requires i <= |s| && Inside(x, i, s) && Inside(y, i, s) && Alike(x, y)
    ensures Alike(Then(x, r, s, i), Then(y, r, s, i))
  {
    hide Ways, Then, Leading;
    forall good ensures Pick(Then(x, r, s, i), good) == Pick(Then(y, r, s, i), good) {
      PickThen(x, r, s, i, good);
      PickThen(y, r, s, i, good);
    }
  }

  // ---------- regexes that prefer the same ----------

  /** Wherever they start and whatever follows, the two go on in the same way. */
  ghost predicate SamePreference(r: Regex, r': Regex) {
    forall s: seq<Byte>, i: nat, a: Captures | i <= |s| :: Alike(Ways(r, s, i, a), Ways(r', s, i, a))
  }

  lemma SameTrans(r: Regex, t: Regex, u: Regex)
    requires SamePreference(r, t) && SamePreference(t, u)
    ensures SamePreference(r, u)
  {
    hide Ways;
    forall s: seq<Byte>, i: nat, a: Captures | i <= |s| ensures Alike(Ways(r, s, i, a), Ways(u, s, i, a)) {
      assert Alike(Ways(r, s, i, a), Ways(t, s, i, a)) && Alike(Ways(t, s, i, a), Ways(u, s, i, a));
    }
  }

  lemma {:induction false} ThenSame(ws: seq<Way>, r: Regex, r': Regex, s: seq<Byte>, i: nat)
    requires i <= |s| && Inside(ws, i, s) && SamePreference(r, r')
    ensures Alike(Then(ws, r, s, i), Then(ws, r', s, i))
  {
    hide Ways, Alike;
    if ws == [] {
      assert Alike([], []) by { AlikeItself([]); }
    } else {
      ThenSame(ws[1..], r, r', s, i);
      AlikeConcat(Ways(r, s, ws[0].pos, ws[0].caps), Then(ws[1..], r, s, i), Ways(r', s, ws[0].pos, ws[0].caps), Then(ws[1..], r', s, i));
    }
  }

  lemma AlikeItself(x: seq<Way>)
    ensures Alike(x, x)
  {}

  lemma CatSame(r: Regex, t: Regex, r': Regex, t': Regex)
    requires SamePreference(r, r') && SamePreference(t, t')
    ensures SamePreference(Cat(r, t), Cat(r', t'))
  {
    hide Ways, Alike, Then;
    forall s: seq<Byte>, i: nat, a: Captures | i <= |s| ensures Alike(Ways(Cat(r, t), s, i, a), Ways(Cat(r', t'), s, i, a)) {
      WaysOfCat(r, t, s, i, a);
      WaysOfCat(r', t', s, i, a);
      ThenAlike(Ways(r, s, i, a), Ways(r', s, i, a), t, s, i);
      ThenSame(Ways(r', s, i, a), t, t', s, i);
      AlikeTrans(Then(Ways(r, s, i, a), t, s, i), Then(Ways(r', s, i, a), t, s, i), Then(Ways(r', s, i, a), t', s, i));
    }
  }

  lemma AlikeTrans(x: seq<Way>, y: seq<Way>, z: seq<Way>)
    requires Alike(x, y) && Alike(y, z)
    ensures Alike(x, z)
  {}

  lemma SameItself(r: Regex)
    ensures SamePreference(r, r)
  {}

  lemma CatAssociates(r: Regex, t: Regex, u: Regex)
    ensures SamePreference(Cat(Cat(r, t), u), Cat(r, Cat(t, u)))
  {
    hide Ways, Then;
    forall s: seq<Byte>, i: nat, a: Captures | i <= |s| ensures Alike(Ways(Cat(Cat(r, t), u), s, i, a), Ways(Cat(r, Cat(t, u)), s, i, a)) {
      WaysOfCat(Cat(r, t), u, s, i, a);
      WaysOfCat(r, t, s, i, a);
      WaysOfCat(r, Cat(t, u), s, i, a);
      ThenThen(Ways(r, s, i, a), t, u, s, i);
    }
  }

  lemma CatNothing(r: Regex)
    ensures SamePreference(Cat(r, Nil), r) && SamePreference(r, Cat(r, Nil))
    ensures SamePreference(Cat(Nil, r), r) && SamePreference(r, Cat(Nil, r))
  {
    hide Ways, Then;
    forall s: seq<Byte>, i: nat, a: Captures | i <= |s| ensures Ways(Cat(r, Nil), s, i, a) == Ways(r, s, i, a) == Ways(Cat(Nil, r), s, i, a) {
      WaysOfCat(r, Nil, s, i, a);
      WaysOfCat(Nil, r, s, i, a);
      ThenNothing(Ways(r, s, i, a), s, i);
      WaysOfNil(s, i, a);
      ThenOne(Way(i, a), r, s, i);
    }
  }

  lemma WaysOfNil(s: seq<Byte>, i: nat, a: Captures)
    requires i <= |s|
    ensures Ways(Nil, s, i, a) == [Way(i, a)]
  {}

  // ---------- inside other regexes ----------

  lemma {:induction false} EndingPick(ws: seq<Way>, g: nat, i: nat, s: seq<Byte>, good: iset<Way>)
    requires Inside(ws, i, s)
    ensures var p := Pick(ws, iset w: Way | Way(w.pos, Put(w.caps, 2 * g + 1, w.pos)) in good);
      Pick(Ending(ws, g, i, s), good) == if p == None then None else Some(Way(p.value.pos, Put(p.value.caps, 2 * g + 1, p.value.pos)))
  {
    if ws != [] {
      EndingPick(ws[1..], g, i, s, good);
      var w := Way(ws[0].pos, Put(ws[0].caps, 2 * g + 1, ws[0].pos));
      PickConcat([w], Ending(ws[1..], g, i, s), good);
      assert [w][1..] == [];
    }
  }

  lemma ParenSame(g: nat, r: Regex, r': Regex)
    requires SamePreference(r, r')
    ensures SamePreference(Paren(g, r), Paren(g, r'))
  {
    hide Ways, Ending;
    forall s: seq<Byte>, i: nat, a: Captures | i <= |s| ensures Alike(Ways(Paren(g, r), s, i, a), Ways(Paren(g, r'), s, i, a)) {
      WaysOfParen(g, r, s, i, a);
      WaysOfParen(g, r', s, i, a);
      var x, y := Ways(r, s, i, Put(a, 2 * g, i)), Ways(r', s, i, Put(a, 2 * g, i));
      assert Alike(x, y);
      forall good ensures Pick(Ending(x, g, i, s), good) == Pick(Ending(y, g, i, s), good) {
        EndingPick(x, g, i, s, good);
        EndingPick(y, g, i, s, good);
      }
    }
  }

  lemma QuestSame(greedy: bool, r: Regex, r': Regex)
    requires SamePreference(r, r')
    ensures SamePreference(Quest(greedy, r), Quest(greedy, r'))
  {
    hide Ways, Alike;
    forall s: seq<Byte>, i: nat, a: Captures | i <= |s| ensures Alike(Ways(Quest(greedy, r), s, i, a), Ways(Quest(greedy, r'), s, i, a)) {
      WaysOfQuest(greedy, r, s, i, a);
      WaysOfQuest(greedy, r', s, i, a);
      AlikeItself([Way(i, a)]);
      AlikeConcat(Ways(r, s, i, a), [Way(i, a)], Ways(r', s, i, a), [Way(i, a)]);
      AlikeConcat([Way(i, a)], Ways(r, s, i, a), [Way(i, a)], Ways(r', s, i, a));
    }
  }

  lemma NestedStops(b: Regex, n: nat, s: seq<Byte>, i: nat, a: Captures)
    requires i <= |s|
    ensures Way(i, a) in Ways(Nested(b, n), s, i, a)
  {}

  lemma {:induction false} ThenNested(ws: seq<Way>, b: Regex, n: nat, s: seq<Byte>, i: nat)
    requires i <= |s| && Inside(ws, i, s)
    ensures forall w <- ws :: w in Then(ws, Nested(b, n), s, i)
  {
    hide Ways, Nested;
    if ws != [] {
      ThenNested(ws[1..], b, n, s, i);
      NestedStops(b, n, s, ws[0].pos, ws[0].caps);
    }
  }

  lemma AltSame(l: Regex, r: Regex, l': Regex, r': Regex)
    requires SamePreference(l, l') && SamePreference(r, r')
    ensures SamePreference(Alt(l, r), Alt(l', r'))
  {
    hide Ways, Alike;
    forall s: seq<Byte>, i: nat, a: Captures | i <= |s| ensures Alike(Ways(Alt(l, r), s, i, a), Ways(Alt(l', r'), s, i, a)) {
      WaysOfAlt(l, r, s, i, a);
      WaysOfAlt(l', r', s, i, a);
      AlikeConcat(Ways(l, s, i, a), Ways(r, s, i, a), Ways(l', s, i, a), Ways(r', s, i, a));
    }
  }

  /** The ways beyond `after` behind which the loop has a good one. */
  ghost function Rounding(greedy: bool, b: Regex, s: seq<Byte>, after: int, good: iset<Way>): iset<Way> {
    iset w: Way | after < w.pos <= |s| && Pick(Loop(greedy, b, s, w.pos, w.caps), good).Some?
  }

  lemma {:induction false} PickRounds(greedy: bool, b: Regex, s: seq<Byte>, i: nat, after: int, ws: seq<Way>, good: iset<Way>)
    requires -1 <= after <= |s| && i <= |s| && Inside(ws, i, s)
    ensures var p := Pick(ws, Rounding(greedy, b, s, after, good));
      if p == None then Pick(Rounds(greedy, b, s, i, after, ws), good) == None
      else
        p.value in ws && p.value.pos > after
        && Pick(Rounds(greedy, b, s, i, after, ws), good) == Pick(Loop(greedy, b, s, p.value.pos, p.value.caps), good)
    decreases |ws|
  {
    hide Ways, Loop;
    if ws != [] {
      PickRounds(greedy, b, s, i, after, ws[1..], good);
      var first := if ws[0].pos > after then Loop(greedy, b, s, ws[0].pos, ws[0].caps) else [];
      PickConcat(first, Rounds(greedy, b, s, i, after, ws[1..]), good);
    }
  }

  lemma RoundsAlike(greedy: bool, b: Regex, b': Regex, s: seq<Byte>, i: nat, after: int, x: seq<Way>, y: seq<Way>)
    requires -1 <= after <= |s| && i <= |s| && Inside(x, i, s) && Inside(y, i, s) && Alike(x, y)
    requires forall w: Way | after < w.pos <= |s| :: Alike(Loop(greedy, b, s, w.pos, w.caps), Loop(greedy, b', s, w.pos, w.caps))
    ensures Alike(Rounds(greedy, b, s, i, after, x), Rounds(greedy, b', s, i, after, y))
  {
    hide Loop, Rounds, Pick, Rounding;
    forall good ensures Pick(Rounds(greedy, b, s, i, after, x), good) == Pick(Rounds(greedy, b', s, i, after, y), good) {
      PickRounds(greedy, b, s, i, after, x, good);
      PickRounds(greedy, b', s, i, after, y, good);
      RoundingSame(greedy, b, b', s, after, good);
      var p := Pick(x, Rounding(greedy, b, s, after, good));
      if p.Some? {
        assert Alike(Loop(greedy, b, s, p.value.pos, p.value.caps), Loop(greedy, b', s, p.value.pos, p.value.caps));
      }
    }
  }

  lemma RoundingSame(greedy: bool, b: Regex, b': Regex, s: seq<Byte>, after: int, good: iset<Way>)
    requires forall w: Way | after < w.pos <= |s| :: Alike(Loop(greedy, b, s, w.pos, w.caps), Loop(greedy, b', s, w.pos, w.caps))
    ensures Rounding(greedy, b, s, after, good) == Rounding(greedy, b', s, after, good)
  {
    hide Loop, Pick;
    forall w: Way | after < w.pos <= |s|
      ensures Pick(Loop(greedy, b, s, w.pos, w.caps), good) == Pick(Loop(greedy, b', s, w.pos, w.caps), good)
    {
      assert Alike(Loop(greedy, b, s, w.pos, w.caps), Loop(greedy, b', s, w.pos, w.caps));
    }
  }

  lemma {:induction false} LoopsAlike(greedy: bool, b: Regex, b': Regex, s: seq<Byte>, i: nat, a: Captures)
    requires SamePreference(b, b') && i <= |s|
    ensures Alike(Loop(greedy, b, s, i, a), Loop(greedy, b', s, i, a))
    decreases |s| - i
  {
    hide Ways, Rounds, Alike;
    var x, y, stop := Ways(b, s, i, a), Ways(b', s, i, a), [Way(i, a)];
    forall w: Way | i < w.pos <= |s| ensures Alike(Loop(greedy, b, s, w.pos, w.caps), Loop(greedy, b', s, w.pos, w.caps)) {
      LoopsAlike(greedy, b, b', s, w.pos, w.caps);
    }
    RoundsAlike(greedy, b, b', s, i, i, x, y);
    AlikeItself(stop);
    AlikeConcat(Rounds(greedy, b, s, i, i, x), stop, Rounds(greedy, b', s, i, i, y), stop);
    AlikeConcat(stop, Rounds(greedy, b, s, i, i, x), stop, Rounds(greedy, b', s, i, i, y));
  }

  lemma LoopSame(greedy: bool, b: Regex, b': Regex)
    requires SamePreference(b, b')
    ensures SamePreference(Star(greedy, b), Star(greedy, b')) && SamePreference(Plus(greedy, b), Plus(greedy, b'))
  {
    hide Ways, Loop, Rounds, Alike;
    forall s: seq<Byte>, i: nat, a: Captures | i <= |s|
      ensures Alike(Ways(Star(greedy, b), s, i, a), Ways(Star(greedy, b'), s, i, a))
      ensures Alike(Ways(Plus(greedy, b), s, i, a), Ways(Plus(greedy, b'), s, i, a))
    {
      LoopWaysAre(greedy, b, s, i, a);
      LoopWaysAre(greedy, b', s, i, a);
      LoopsAlike(greedy, b, b', s, i, a);
      forall w: Way | -1 < w.pos <= |s| ensures Alike(Loop(greedy, b, s, w.pos, w.caps), Loop(greedy, b', s, w.pos, w.caps)) {
        LoopsAlike(greedy, b, b', s, w.pos, w.caps);
      }
      RoundsAlike(greedy, b, b', s, i, -1, Ways(b, s, i, a), Ways(b', s, i, a));
    }
  }

  /** `r'` is `r` with some parts exchanged for others that prefer the same. */
  ghost predicate Variant(r: Regex, r': Regex) {
    SamePreference(r, r')
    || match r
       case Alt(l, t) => r'.Alt? && Variant(l, r'.left) && Variant(t, r'.right)
       case Cat(l, t) => r'.Cat? && Variant(l, r'.left) && Variant(t, r'.right)
       case Paren(g, b) => r'.Paren? && r'.group == g && Variant(b, r'.body)
       case Quest(greedy, b) => r'.Quest? && r'.greedy == greedy && Variant(b, r'.body)
       case Star(greedy, b) => r'.Star? && r'.greedy == greedy && Variant(b, r'.body)
       case Plus(greedy, b) => r'.Plus? && r'.greedy == greedy && Variant(b, r'.body)
       case _ => false
  }

  /** Parts that prefer the same can be exchanged anywhere in a regex. */
  lemma {:induction false} VariantsPreferTheSame(r: Regex, r': Regex)
    requires Variant(r, r')
    ensures SamePreference(r, r')
    decreases r
  {
    hide SamePreference;
    if !SamePreference(r, r') {
      if r.Alt? {
        VariantsPreferTheSame(r.left, r'.left);
        VariantsPreferTheSame(r.right, r'.right);
        AltSame(r.left, r.right, r'.left, r'.right);
      } else if r.Cat? {
        VariantsPreferTheSame(r.left, r'.left);
        VariantsPreferTheSame(r.right, r'.right);
        CatSame(r.left, r.right, r'.left, r'.right);
      } else {
        VariantsPreferTheSame(r.body, r'.body);
        if r.Paren? {
          ParenSame(r.group, r.body, r'.body);
        } else if r.Quest? {
          QuestSame(r.greedy, r.body, r'.body);
        } else {
          LoopSame(r.greedy, r.body, r'.body);
        }
      }
    }
  }

  lemma SameFirst(x: seq<Way>, y: seq<Way>)
    requires Alike(x, y)
    ensures (x == [] <==> y == []) && (x != [] ==> x[0] == y[0])
  {
    var offered := iset w: Way | w in x || w in y;
    assert Pick(x, offered) == Pick(y, offered);
  }

  /** A pattern whose regexes are exchanged for variants reports the same of every input. */
  lemma {:induction false} SamePattern(trees: seq<Regex>, trees': seq<Regex>, caps: seq<nat>, s: seq<Byte>, i: nat, a: Captures)
    requires |trees| == |trees'| == |caps| && i <= |s| && forall k: nat | k < |trees| :: Variant(trees[k], trees'[k])
    ensures Preferred(trees, caps, s, i, a) == Preferred(trees', caps, s, i, a)
    decreases |s| - i
  {
    hide Variant, PreferredAt;
    SamePieces(trees, trees', caps, |trees|, s, i, a);
    if i < |s| {
      SamePattern(trees, trees', caps, s, i + 1, a);
    }
  }

  lemma {:induction false} SamePieces(trees: seq<Regex>, trees': seq<Regex>, caps: seq<nat>, t: nat, s: seq<Byte>, i: nat, a: Captures)
    requires t <= |trees| == |trees'| == |caps| && i <= |s| && forall k: nat | k < |trees| :: Variant(trees[k], trees'[k])
    ensures PreferredAt(trees, caps, t, s, i, a) == PreferredAt(trees', caps, t, s, i, a)
    decreases t
  {
    hide Variant, Ways, Alike;
    if t > 0 {
      SamePieces(trees, trees', caps, t - 1, s, i, a);
      var g := Base(caps, t - 1);
      VariantsPreferTheSame(trees[t - 1], trees'[t - 1]);
      ParenSame(g, trees[t - 1], trees'[t - 1]);
      SameFirst(Ways(Paren(g, trees[t - 1]), s, i, a), Ways(Paren(g, trees'[t - 1]), s, i, a));
    }
  }

  // ---------- counted repetition ----------

  function Exactly(b: Regex, n: nat): Regex {
    if n == 0 then Nil else Cat(Exactly(b, n - 1), b)
  }

  /** Up to n more, each asked for before the one before it is done without: (b(b(b)?)?)? */
  function Nested(b: Regex, n: nat): Regex {
    if n == 0 then Nil else Quest(true, Cat(b, Nested(b, n - 1)))
  }

  /** None, or one, or two, up to n, in this order: |b|bb|bbb */
  function ByRounds(b: Regex, n: nat): Regex {
    if n == 0 then Nil else Alt(ByRounds(b, n - 1), Exactly(b, n))
  }

  /** What b{from,to} and b{from,} ask for, in order; `to` is -1 if there is no upper limit. */
  function Expanded(b: Regex, from: nat, to: int, greedy: bool): Regex
    requires to == -1 || from <= to
  {
    Cat(Exactly(b, from), if to == -1 then Star(greedy, b) else if greedy then Nested(b, to - from) else ByRounds(b, to - from))
  }

  /** An optional round behind up to n nested ones makes them up to n + 1. */
  lemma {:induction false} NestedMore(b: Regex, n: nat)
    ensures SamePreference(Cat(Nested(b, n), Quest(true, b)), Nested(b, n + 1))
  {
    hide Ways, Alike, Then;
    if n == 0 {
      CatNothing(Quest(true, b));
      CatNothing(b);
      QuestSame(true, b, Cat(b, Nil));
      SameTrans(Cat(Nil, Quest(true, b)), Quest(true, b), Quest(true, Cat(b, Nil)));
    } else {
      NestedMore(b, n - 1);
      forall s: seq<Byte>, i: nat, a: Captures | i <= |s|
        ensures Alike(Ways(Cat(Nested(b, n), Quest(true, b)), s, i, a), Ways(Nested(b, n + 1), s, i, a))
      {
        NestedStep(b, n, s, i, a);
      }
    }
  }

  lemma NestedStep(b: Regex, n: nat, s: seq<Byte>, i: nat, a: Captures)
    requires i <= |s| && n > 0 && SamePreference(Cat(Nested(b, n - 1), Quest(true, b)), Nested(b, n))
    ensures Alike(Ways(Cat(Nested(b, n), Quest(true, b)), s, i, a), Ways(Nested(b, n + 1), s, i, a))
  {
    hide Ways, Alike, Then;
    var q, inner, stop, w := Quest(true, b), Nested(b, n - 1), [Way(i, a)], Ways(b, s, i, a);
    var rounds := Then(w, inner, s, i);
    WaysOfCat(Nested(b, n), q, s, i, a);
    WaysOfQuest(true, Cat(b, inner), s, i, a);
    WaysOfCat(b, inner, s, i, a);
    ThenConcat(rounds, stop, q, s, i);
    ThenThen(w, inner, q, s, i);
    ThenOne(Way(i, a), q, s, i);
    WaysOfQuest(true, b, s, i, a);
    assert Ways(Cat(Nested(b, n), q), s, i, a) == Then(w, Cat(inner, q), s, i) + (w + stop);
    ThenSame(w, Cat(inner, q), Nested(b, n), s, i);
    var more := Then(w, Nested(b, n), s, i);
    ThenNested(w, b, n, s, i);
    Absorbed(more, w);
    AlikeItself(w);
    AlikeItself(stop);
    AlikeConcat(Then(w, Cat(inner, q), s, i), w, more, w);
    AlikeTrans(Then(w, Cat(inner, q), s, i) + w, more + w, more);
    AlikeConcat(Then(w, Cat(inner, q), s, i) + w, stop, more, stop);
    assert Then(w, Cat(inner, q), s, i) + (w + stop) == Then(w, Cat(inner, q), s, i) + w + stop;
    WaysOfQuest(true, Cat(b, Nested(b, n)), s, i, a);
    WaysOfCat(b, Nested(b, n), s, i, a);
  }

  /** Where stopping is no good, a lazy round is a round. */
  lemma {:induction false} PickLazy(ws: seq<Way>, b: Regex, s: seq<Byte>, i: nat, good: iset<Way>)
    requires i <= |s| && Inside(ws, i, s) && forall w <- ws :: w !in good
    ensures Pick(Then(ws, Quest(false, b), s, i), good) == Pick(Then(ws, b, s, i), good)
  {
    hide Ways;
    if ws != [] {
      PickLazy(ws[1..], b, s, i, good);
      var w := Way(ws[0].pos, ws[0].caps);
      WaysOfQuest(false, b, s, w.pos, w.caps);
      PickConcat(Ways(Quest(false, b), s, w.pos, w.caps), Then(ws[1..], Quest(false, b), s, i), good);
      PickConcat(Ways(b, s, w.pos, w.caps), Then(ws[1..], b, s, i), good);
      PickConcat([w], Ways(b, s, w.pos, w.caps), good);
      PickIs([w], good);
    }
  }

  /** A lazy round behind up to n makes them up to n + 1. */
  lemma {:induction false} RoundsMore(b: Regex, n: nat)
    ensures SamePreference(Cat(ByRounds(b, n), Quest(false, b)), ByRounds(b, n + 1))
  {
    hide Ways, Alike, Then;
    if n > 0 {
      RoundsMore(b, n - 1);
    }
    forall s: seq<Byte>, i: nat, a: Captures | i <= |s|
      ensures Alike(Ways(Cat(ByRounds(b, n), Quest(false, b)), s, i, a), Ways(ByRounds(b, n + 1), s, i, a))
    {
      RoundsStep(b, n, s, i, a);
    }
  }

  lemma RoundsStep(b: Regex, n: nat, s: seq<Byte>, i: nat, a: Captures)
    requires i <= |s| && (n > 0 ==> SamePreference(Cat(ByRounds(b, n - 1), Quest(false, b)), ByRounds(b, n)))
    ensures Alike(Ways(Cat(ByRounds(b, n), Quest(false, b)), s, i, a), Ways(ByRounds(b, n + 1), s, i, a))
  {
    hide Ways, Alike, Then;
    var q, upTo, last := Quest(false, b), Ways(ByRounds(b, n), s, i, a), Ways(Exactly(b, n), s, i, a);
    WaysOfCat(ByRounds(b, n), q, s, i, a);
    WaysOfAlt(ByRounds(b, n), Exactly(b, n + 1), s, i, a);
    WaysOfCat(Exactly(b, n), b, s, i, a);
    if n == 0 {
      WaysOfNil(s, i, a);
      ThenOne(Way(i, a), q, s, i);
      ThenOne(Way(i, a), b, s, i);
      WaysOfQuest(false, b, s, i, a);
      AlikeItself(Ways(q, s, i, a));
    } else {
      var before := Ways(ByRounds(b, n - 1), s, i, a);
      WaysOfAlt(ByRounds(b, n - 1), Exactly(b, n), s, i, a);
      ThenConcat(before, last, q, s, i);
      WaysOfCat(ByRounds(b, n - 1), q, s, i, a);
      AlikeItself(Then(last, q, s, i));
      AlikeConcat(Then(before, q, s, i), Then(last, q, s, i), upTo, Then(last, q, s, i));
      LazyBehind(upTo, last, b, s, i);
      AlikeTrans(Then(before, q, s, i) + Then(last, q, s, i), upTo + Then(last, q, s, i), upTo + Then(last, b, s, i));
    }
  }

  lemma LazyBehind(before: seq<Way>, ws: seq<Way>, b: Regex, s: seq<Byte>, i: nat)
    requires i <= |s| && Inside(ws, i, s) && forall w <- ws :: w in before
    ensures Alike(before + Then(ws, Quest(false, b), s, i), before + Then(ws, b, s, i))
  {
    hide Then;
    var x, y := Then(ws, Quest(false, b), s, i), Then(ws, b, s, i);
    forall good ensures Pick(before + x, good) == Pick(before + y, good) {
      PickConcat(before, x, good);
      PickConcat(before, y, good);
      PickIs(before, good);
      if Pick(before, good) == None {
        PickLazy(ws, b, s, i, good);
      }
    }
  }

  /** One more optional round at the end of b{from,to}. */
  lemma CountMore(r: Regex, b: Regex, from: nat, to: nat, greedy: bool)
    requires from <= to && SamePreference(r, Expanded(b, from, to, greedy))
    ensures SamePreference(Cat(r, Quest(greedy, b)), Expanded(b, from, to + 1, greedy))
  {
    hide SamePreference;
    var q, base := Quest(greedy, b), Exactly(b, from);
    var some := if greedy then Nested(b, to - from) else ByRounds(b, to - from);
    var more := if greedy then Nested(b, to + 1 - from) else ByRounds(b, to + 1 - from);
    SameItself(q);
    SameItself(base);
    CatSame(r, q, Cat(base, some), q);
    CatAssociates(base, some, q);
    NestedMore(b, to - from);
    RoundsMore(b, to - from);
    CatSame(base, Cat(some, q), base, more);
    SameTrans(Cat(r, q), Cat(Cat(base, some), q), Cat(base, Cat(some, q)));
    SameTrans(Cat(r, q), Cat(base, Cat(some, q)), Cat(base, more));
  }

  /** The rounds that must be. */
  lemma CountBegins(r: Regex, b: Regex, n: nat, greedy: bool)
    requires SamePreference(r, Exactly(b, n))
    ensures SamePreference(r, Expanded(b, n, n, greedy))
    ensures SamePreference(Cat(r, b), Exactly(b, n + 1))
    ensures SamePreference(Cat(r, Star(greedy, b)), Expanded(b, n, -1, greedy))
  {
    hide SamePreference;
    CatNothing(Exactly(b, n));
    SameTrans(r, Exactly(b, n), Cat(Exactly(b, n), Nil));
    SameItself(b);
    SameItself(Star(greedy, b));
    CatSame(r, b, Exactly(b, n), b);
    CatSame(r, Star(greedy, b), Exactly(b, n), Star(greedy, b));
  }

  lemma OnceIs(b: Regex)
    ensures SamePreference(b, Exactly(b, 1))
  {
    CatNothing(b);
  }
}
