/** The regex syntax tree and the language it denotes.

    A regex is read against a whole input `s` and a pair of positions, because the
    look-behind assertions `\A` and `^` depend on where in the input they stand:
    Matches(r, s, i, j) says that `r` matches s[i..j] in that place. */
module Regexes {

  type Byte = b: int | 0 <= b < 256

  const NEWLINE: Byte := 10

  datatype Range = Range(from: Byte, to: Byte)

  datatype LookBehind = BufferStart | LineStart

  datatype Regex =
    | Nil
    | Alt(left: Regex, right: Regex)
    | Cat(left: Regex, right: Regex)
    | Lit(ch: Byte)
    | Dot
    | Paren(group: nat, body: Regex)
    | Quest(greedy: bool, body: Regex)
    | Star(greedy: bool, body: Regex)
    | Plus(greedy: bool, body: Regex)
    | Class(ranges: seq<Range>)
    | NClass(ranges: seq<Range>)
    | Assert(assertion: LookBehind)
    | Toplevel(regexId: nat, body: Regex)

  predicate InRanges(ranges: seq<Range>, c: Byte) {
    exists k :: 0 <= k < |ranges| && ranges[k].from <= c <= ranges[k].to
  }

  predicate Holds(a: LookBehind, s: seq<Byte>, i: nat)
    requires i <= |s|
  {
    match a
    case BufferStart => i == 0
    case LineStart => i == 0 || s[i - 1] == NEWLINE
  }

  ghost predicate Matches(r: Regex, s: seq<Byte>, i: nat, j: nat)
    requires i <= |s|
    decreases r, 0
  {
    i <= j <= |s| &&
    match r
    case Nil => i == j
    case Alt(l, r') => Matches(l, s, i, j) || Matches(r', s, i, j)
    case Cat(l, r') => exists k: nat :: i <= k <= |s| && Matches(l, s, i, k) && Matches(r', s, k, j)
    case Lit(c) => j == i + 1 && s[i] == c
    case Dot => j == i + 1
    case Paren(_, b) => Matches(b, s, i, j)
    case Quest(_, b) => i == j || Matches(b, s, i, j)
    case Star(_, b) => exists n: nat :: Reps(b, n, s, i, j)
    case Plus(_, b) => exists n: nat :: n > 0 && Reps(b, n, s, i, j)
    case Class(rs) => j == i + 1 && InRanges(rs, s[i])
    case NClass(rs) => j == i + 1 && !InRanges(rs, s[i])
    case Assert(a) => i == j && Holds(a, s, i)
    case Toplevel(_, b) => Matches(b, s, i, j)
  }

  /** `n` consecutive matches of `b` cover s[i..j]. */
  ghost predicate Reps(b: Regex, n: nat, s: seq<Byte>, i: nat, j: nat)
    requires i <= |s|
    decreases b, 1, n
  {
    i <= j <= |s| &&
    if n == 0 then i == j
    else exists k: nat :: i <= k <= |s| && Matches(b, s, i, k) && Reps(b, n - 1, s, k, j)
  }

  /** No MATCH-emitting node inside: the part of a tree the grammar builds. */
  predicate Plain(r: Regex) {
    match r
    case Alt(l, r') => Plain(l) && Plain(r')
    case Cat(l, r') => Plain(l) && Plain(r')
    case Paren(_, b) => Plain(b)
    case Quest(_, b) => Plain(b)
    case Star(_, b) => Plain(b)
    case Plus(_, b) => Plain(b)
    case Toplevel(_, _) => false
    case _ => true
  }
}
