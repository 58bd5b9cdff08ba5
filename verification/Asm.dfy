/** The action lists of the x86 assembler, the positions of their buffer slots, and the byte
    positions they are given before and after shrinking. */
module Asm {

  datatype Action =
    | Byte(v: int)
    | Esc(v: int)
    | ImmS | ImmB | ImmW | ImmD | ImmWB | ImmDB
    | Space(fill: int)
    | RelLG(n: int) | RelPC
    | ImmLG(n: int) | ImmPC
    | LabelLG(n: int) | LabelPC
    | Align(mask: int)
    | Section(n: int)
    | Stop

  /** One entry of a section: the start of an action list, or an action with its argument. */
  datatype Item = Begin(start: int) | Do(act: Action, arg: int)

  type Layout = seq<Item>

  predicate IsRel(a: Action) { a.RelLG? || a.RelPC? }

  predicate IsRef(a: Action) { IsRel(a) || a.ImmLG? || a.ImmPC? }

  /** The label array entry of a local or global label; 246 is added to a local one in a forward
      reference. */
  function LabelNo(a: Action): int
    requires a.RelLG? || a.ImmLG?
  {
    if a.n <= 246 then a.n else a.n - 246
  }

  predicate IsLabel(a: Action) { a.LabelLG? || a.LabelPC? }

  predicate IsImm(a: Action) {
    a.ImmS? || a.ImmB? || a.ImmW? || a.ImmD? || a.ImmWB? || a.ImmDB?
  }

  predicate IsRaw(a: Action) { a.Byte? || a.Esc? }

  predicate Ends(a: Action) { a.Section? || a.Stop? }

  predicate TakesArg(a: Action) {
    IsImm(a) || a.Space? || a.RelPC? || a.ImmPC? || a.LabelPC?
  }

  /** A signed byte can hold `n`. */
  predicate FitsByte(n: int) { -128 <= n <= 127 }

  /** Buffer slots of an entry. */
  function Slots(it: Item): nat {
    if it.Begin? then 1
    else if IsRel(it.act) then 2
    else if IsRaw(it.act) || Ends(it.act) then 0
    else 1
  }

  /** The most bytes an entry can take. */
  function Most(it: Item): int {
    if it.Begin? then 0
    else match it.act
      case Byte(_) => 1
      case Esc(_) => 1
      case ImmS => 1
      case ImmB => 1
      case ImmW => 2
      case ImmD => 4
      case ImmWB => if FitsByte(it.arg) then 1 else 2
      case ImmDB => if FitsByte(it.arg) then 1 else 4
      case Space(_) => it.arg
      case Align(mask) => mask
      case LabelLG(_) => 0
      case LabelPC => 0
      case Section(_) => 0
      case Stop => 0
      case _ => 4
  }

  function SlotSum(items: Layout): nat {
    if items == [] then 0 else SlotSum(items[..|items| - 1]) + Slots(items[|items| - 1])
  }

  /** The byte position pass 1 gives to what comes behind `items`. */
  function Estimate(items: Layout): int {
    if items == [] then 0 else Estimate(items[..|items| - 1]) + Most(items[|items| - 1])
  }

  /** The last byte of an action in the action list: the value or the argument byte it ends
      with, or its own code. */
  function LastByte(a: Action): int {
    match a
    case Byte(v) => v
    case Esc(v) => v
    case ImmS => 234
    case ImmB => 235
    case ImmW => 236
    case ImmD => 237
    case ImmWB => 238
    case ImmDB => 239
    case Space(fill) => fill
    case RelLG(n) => n
    case RelPC => 245
    case ImmLG(n) => n
    case ImmPC => 247
    case LabelLG(n) => n
    case LabelPC => 249
    case Align(mask) => mask
    case Section(n) => n
    case Stop => 255
  }

  /** By how many bytes a branch behind opcode byte `op` can be shortened. */
  function ShrinkOf(op: int): int {
    if op == 0xe9 then 3 else if op / 16 == 8 then 4 else 0
  }

  predicate IsMask(m: int) {
    m == 0 || m == 1 || m == 3 || m == 7 || m == 15 || m == 31 || m == 63 || m == 127 || m == 255
  }

  predicate IsByte(v: int) { 0 <= v < 256 }

  /** An action list as the preprocessor writes it: a branch that can be shortened stands behind
      its opcode bytes, an immediate of variable size behind an opcode and an operand byte. */
  predicate GoodAt(chunk: seq<Action>, k: nat)
    requires k < |chunk|
  {
    match chunk[k]
    case Byte(v) => IsByte(v)
    case Esc(v) => IsByte(v)
    case Align(mask) => IsMask(mask)
    case Space(fill) => IsByte(fill)
    case ImmWB => k >= 2 && IsRaw(chunk[k - 1]) && IsRaw(chunk[k - 2])
    case ImmDB => k >= 2 && IsRaw(chunk[k - 1]) && IsRaw(chunk[k - 2])
    case RelLG(_) => GoodRel(chunk, k)
    case RelPC => GoodRel(chunk, k)
    case _ => true
  }

  predicate GoodRel(chunk: seq<Action>, k: nat)
    requires k < |chunk|
  {
    k >= 1 && (ShrinkOf(LastByte(chunk[k - 1])) > 0 ==> IsRaw(chunk[k - 1]))
    && (ShrinkOf(LastByte(chunk[k - 1])) == 4 ==> k >= 2 && IsRaw(chunk[k - 2]))
  }

  predicate GoodChunk(chunk: seq<Action>) {
    chunk != [] && Ends(chunk[|chunk| - 1])
    && forall k :: 0 <= k < |chunk| - 1 ==> !Ends(chunk[k]) && GoodAt(chunk, k)
  }

  // ---------- final positions ----------

  /** Bytes an entry takes when it starts at byte `f` and is shortened by `cut`. */
  function Size(it: Item, f: int, cut: int): int {
    if it.Do? && it.act.Align? && it.act.mask >= 0 then it.act.mask - (f + it.act.mask) % (it.act.mask + 1)
    else if it.Do? && IsRel(it.act) then 4 - cut
    else Most(it)
  }

  /** The final position of what comes behind `items`, with `cuts` taken from the branches. */
  function Final(items: Layout, cuts: seq<int>): int
    requires |items| == |cuts|
  {
    if items == [] then 0
    else
      var n := |items| - 1;
      var f := Final(items[..n], cuts[..n]);
      f + Size(items[n], f, cuts[n])
  }

  /** Arguments the passes can work with. */
  predicate GoodItem(it: Item) {
    it.Do? && it.act.Space? ==> it.arg >= 0
  }
}
