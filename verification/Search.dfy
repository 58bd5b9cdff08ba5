/** The regex engine end to end: parse, compile, analyse the first bytes, run. */
module RegexSearch {
  import opened Options
  import opened Regexes
  import opened Bytecode
  import opened Compiler
  import opened Patterns
  import opened Backtracking
  import opened PikeSpec
  import opened Marks
  import opened LeadingBytes
  import opened Loops
  import opened Preference
  import opened Spans
  import opened Skipping
  import opened SafeShortcut
  import opened GroupSlots
  import opened ShortcutResult
  import PikeVm
  import opened PikeExec
  import Thompson
  import ThompsonVm

  /** What is reported is a match of the regex reported: the first two slots are its bounds. */
  ghost predicate IsMatch(trees: seq<Regex>, s: seq<Byte>, rc: Status, v: seq<int>) {
    match rc
    case Declined => true
    case Matched(k) => k < |trees| && |v| >= 2 && 0 <= v[0] <= v[1] <= |s| && Matches(trees[k], s, v[0], v[1])
    case Error => false
  }

  /** And no match starts further left, or anywhere if nothing is reported. */
  ghost predicate IsLeftmost(trees: seq<Regex>, s: seq<Byte>, rc: Status, v: seq<int>) {
    IsMatch(trees, s, rc, v) && forall i: nat :: i < (if rc.Matched? then v[0] else |s| + 1) ==> !StartsMatch(trees, s, i)
  }

  ghost predicate HitReal(trees: seq<Regex>, caps: seq<nat>, s: seq<Byte>, hit: Option<Hit>) {
    hit.Some? ==>
      exists i: nat, j: nat :: Real(trees, caps, hit.value.regexId, s, Unset(2 * Base(caps, |caps|)), hit.value.caps, i, j)
  }

  /** The vector bounds what the hit claims. */
  lemma HitReports(trees: seq<Regex>, caps: seq<nat>, s: seq<Byte>, hit: Option<Hit>, rc: Status, before: seq<int>, after: seq<int>)
    requires |after| >= 2 && Reports(hit, caps, rc, before, after) && HitReal(trees, caps, s, hit)
    ensures IsMatch(trees, s, rc, after)
    ensures IsLeftmost(trees, s, rc, after) <==> LeftmostHit(trees, caps, s, hit)
  {
    hide Matches, StartsMatch, HitGood;
    if hit.Some? {
      var h := hit.value;
      var i: nat, j: nat :| Real(trees, caps, h.regexId, s, Unset(2 * Base(caps, |caps|)), h.caps, i, j);
      BaseGrows(caps, h.regexId, |caps|);
      assert Ovector(h, caps, |after|)[0] == h.caps[2 * Base(caps, h.regexId)];
      assert Ovector(h, caps, |after|)[1] == h.caps[2 * Base(caps, h.regexId) + 1];
      if IsLeftmost(trees, s, rc, after) {
        assert First(trees, caps, s, h, i, j);
      }
    }
  }

  /** What `$g` holds: nothing, or a stretch inside the match that the group matches. */
  ghost predicate GroupHolds(trees: seq<Regex>, caps: seq<nat>, s: seq<Byte>, k: nat, v: seq<int>, g: nat)
    requires k < |trees| == |caps|
  {
    2 * g + 1 < |v|
    && ((v[2 * g] == -1 && v[2 * g + 1] == -1) || exists body :: HoldsMatch(trees, caps, s, k, v, g, body))
  }

  ghost predicate HoldsMatch(trees: seq<Regex>, caps: seq<nat>, s: seq<Byte>, k: nat, v: seq<int>, g: nat, body: Regex)
    requires k < |trees| == |caps| && 2 * g + 1 < |v|
  {
    HasGroup(Paren(Base(caps, k), trees[k]), Base(caps, k) + g, body)
    && 0 <= v[0] <= v[2 * g] <= v[2 * g + 1] <= v[1] <= |s| && Matches(body, s, v[2 * g], v[2 * g + 1])
  }

  /** The caller's vector after a match of regex k: its groups, and -1 behind them. */
  ghost predicate GroupsReported(trees: seq<Regex>, caps: seq<nat>, s: seq<Byte>, rc: Status, v: seq<int>) {
    rc.Matched? && AllNested(trees, caps) ==>
      rc.regexId < |trees|
      && (forall g: nat | g <= caps[rc.regexId] :: GroupHolds(trees, caps, s, rc.regexId, v, g))
      && forall x | 2 * (caps[rc.regexId] + 1) <= x < |v| :: v[x] == -1
  }

  lemma HitReportsGroups(trees: seq<Regex>, caps: seq<nat>, s: seq<Byte>, hit: Option<Hit>, rc: Status, before: seq<int>, after: seq<int>)
    requires forall c <- caps :: 2 * (c + 1) <= |after|
    requires Reports(hit, caps, rc, before, after) && HitReal(trees, caps, s, hit)
    ensures GroupsReported(trees, caps, s, rc, after)
  {
    hide AllNested, SlotsGood, GroupHolds, Matches;
    if rc.Matched? && AllNested(trees, caps) {
      var h := hit.value;
      var i: nat, j: nat :| Real(trees, caps, h.regexId, s, Unset(2 * Base(caps, |caps|)), h.caps, i, j);
      assert caps[h.regexId] in caps;
      forall g: nat | g <= caps[h.regexId] ensures GroupHolds(trees, caps, s, h.regexId, after, g) {
        OneGroup(trees, caps, s, h, i, j, after, g);
      }
    }
  }

  /** Where the slots of a group go. */
  lemma SlotsAt(caps: seq<nat>, h: Hit, v: seq<int>, g: nat)
    requires h.regexId < |caps| && |h.caps| == 2 * Base(caps, |caps|)
    requires v == Ovector(h, caps, |v|) && g <= caps[h.regexId] && 2 * (caps[h.regexId] + 1) <= |v|
    ensures var from := Base(caps, h.regexId);
      2 * (from + g) + 1 < |h.caps| && v[2 * g] == h.caps[2 * (from + g)] && v[2 * g + 1] == h.caps[2 * (from + g) + 1]
  {
    assert Base(caps, h.regexId + 1) == Base(caps, h.regexId) + caps[h.regexId] + 1;
    BaseGrows(caps, h.regexId + 1, |caps|);
  }

  lemma OneGroup(trees: seq<Regex>, caps: seq<nat>, s: seq<Byte>, h: Hit, i: nat, j: nat, v: seq<int>, g: nat)
    requires HitGood(trees, caps, h.regexId, s, Unset(2 * Base(caps, |caps|)), h.caps, i, j)
    requires v == Ovector(h, caps, |v|) && g <= caps[h.regexId] && 2 * (caps[h.regexId] + 1) <= |v|
    ensures GroupHolds(trees, caps, s, h.regexId, v, g)
  {
    hide Matches, HasGroup, Ovector, Base;
    var k := h.regexId;
    var from, c := Base(caps, k), Unset(2 * Base(caps, |caps|));
    var r := Paren(from, trees[k]);
    SlotsAt(caps, h, v, 0);
    SlotsAt(caps, h, v, g);
    assert SlotGood(r, s, from + g, c, h.caps, i, j);
    if !(v[2 * g] == -1 && v[2 * g + 1] == -1) {
      var body :| GroupReads(r, from + g, body, s, h.caps, i, j);
      assert HoldsMatch(trees, caps, s, k, v, g, body);
    }
  }

  lemma SteadyIsRight(P: Program, trees: seq<Regex>, caps: seq<nat>, s: seq<Byte>, leading: seq<nat>, covered: set<nat>)
    requires IsCompiled(P, trees, caps) && Numbered(trees, caps) && (leading != [] ==> Covers(P, leading, covered))
    ensures (forall t <- trees :: Shortest(t) >= 2) || !ComesAgain(P) ==> !TurnsWrong(P, s, 2 * Base(caps, |caps|), leading)
  {
    hide IsCompiled, Numbered, Covers, TurnsWrong, Shortest, OneByteMatch, ComesAgain;
    if TurnsWrong(P, s, 2 * Base(caps, |caps|), leading) {
      WrongTurnNeeds(P, trees, caps, s, leading, covered);
      if forall t <- trees :: Shortest(t) >= 2 {
        LongEnough(trees, s);
      }
    }
  }

  /** Searches `s` for the regexes. What is reported is a match with its groups; it is the leftmost
      one, or there is none, unless the first-byte shortcut starts over beyond a match. That takes a
      wrong turn, and there is none if all matches are two bytes at least, or no instruction a match
      can start with comes again. Without one, where every round of a loop reads, the match is the way
      that the syntax trees prefer. */
  method Search(trees: seq<Regex>, caps: seq<nat>, s: seq<Byte>)
    returns (rc: Status, ovector: array<int>, leading: seq<nat>, code: Program)
    requires 0 < |trees| && Numbered(trees, caps) && forall t <- trees :: Plain(t)
    ensures IsCompiled(code, trees, caps) && LeadingOk(code, leading)
    ensures leading != [] ==> exists covered :: Covers(code, leading, covered)
    ensures leading != [] <==> LeadsKnown(code)
    ensures Reports(SkippingRun(code, s, 2 * Base(caps, |caps|), leading), caps, rc, Unset(ovector.Length), ovector[..])
    ensures TurnsWrong(code, s, 2 * Base(caps, |caps|), leading)
      <==> SkippingRun(code, s, 2 * Base(caps, |caps|), leading) != Run(code, s, 2 * Base(caps, |caps|))
    ensures IsMatch(trees, s, rc, ovector[..]) && GroupsReported(trees, caps, s, rc, ovector[..])
    ensures IsLeftmost(trees, s, rc, ovector[..]) <==> !SearchStartsOver(code, s, 2 * Base(caps, |caps|), leading)
    ensures TurnsWrong(code, s, 2 * Base(caps, |caps|), leading) || IsLeftmost(trees, s, rc, ovector[..])
    ensures (forall t <- trees :: Shortest(t) >= 2) || !ComesAgain(code) ==> IsLeftmost(trees, s, rc, ovector[..])
    ensures (forall t <- trees :: LoopsRead(t)) && !TurnsWrong(code, s, 2 * Base(caps, |caps|), leading)
      ==> Reports(Preferred(trees, caps, s, 0, Unset(2 * Base(caps, |caps|))), caps, rc, Unset(ovector.Length), ovector[..])
  {
    hide LeadsKnown, Preferred, LoopsRead, TurnsWrong, IsLeftmost, IsMatch, LeftmostHit, HitReal, SearchStartsOver, CodeAt, SlotsIn, Closed, Covers, SkippingRun, Run, SkipsFirst, Reports, GroupsReported, ComesAgain, Shortest;
    var re, multiNcaps, maxNcaps := ParseMulti(trees, caps);
    var prog, slots := Compile(re, multiNcaps);
    PatternIsClosed(prog, trees, caps);
    PatternSlotsFit(prog, trees, caps);
    PatternSkipsFirst(prog, trees, caps);
    var program := new MarkedProgram(prog);
    var first, _, marked := GetLeadingBytes(program);
    var ctx := new PikeVm.Context(program, slots);
    ovector := new int[2 * (maxNcaps + 1)](_ => -1);
    ghost var before := ovector[..];
    assert before == Unset(ovector.Length);
    rc := Exec(ctx, first, multiNcaps, ovector, s);
    code, leading := prog, first;
    ShortcutIsExact(prog, trees, caps, s, first, marked);
    SteadyIsRight(prog, trees, caps, s, first, marked);
    ResultIsLeftmost(prog, trees, caps, s, first, marked);
    RunIsLeftmostHit(prog, trees, caps, s);
    ghost var hit := SkippingRun(prog, s, slots, first);
    SearchIsReal(prog, trees, caps, s, first);
    HitReports(trees, caps, s, hit, rc, before, ovector[..]);
    HitReportsGroups(trees, caps, s, hit, rc, before, ovector[..]);
    if forall t <- trees :: LoopsRead(t) {
      PikePrefers(prog, trees, caps, s, slots);
    }
  }

  lemma SearchIsReal(P: Program, trees: seq<Regex>, caps: seq<nat>, s: seq<Byte>, leading: seq<nat>)
    requires IsCompiled(P, trees, caps) && Numbered(trees, caps)
    ensures HitReal(trees, caps, s, SkippingRun(P, s, 2 * Base(caps, |caps|), leading))
  {
    hide IsCompiled, Numbered, SkippingRun, Real;
    ResultIsReal(P, trees, caps, s, leading);
  }

  /** Whether some regex matches some stretch of the input, however the input is cut into buffers. */
  method IsFound(trees: seq<Regex>, caps: seq<nat>, buffers: seq<seq<Byte>>) returns (found: bool)
    requires 0 < |trees| == |caps| && (forall t <- trees :: Plain(t)) && buffers != []
    ensures found <==> exists k: nat, j: nat :: Occurs(trees, Thompson.Joined(buffers), k, j)
  {
    hide CodeAt, Closed, Accepts, Occurs, SlotsIn;
    var re, multiNcaps, _ := ParseMulti(trees, caps);
    var prog, _ := Compile(re, multiNcaps);
    PatternIsClosed(prog, trees, caps);
    var program := new MarkedProgram(prog);
    var ctx := new ThompsonVm.Context(program);
    found := ThompsonVm.RunBuffers(ctx, buffers);
    PatternAccepts(prog, trees, caps, Thompson.Joined(buffers));
  }
}
