/** Heap nodes as the collector sees them: a colour, and the values it pushes when it visits them. */
module Heap {

  datatype Color = White | Gray | Red | Black

  /** A machine word: a pointer to a node, or anything else (a fixnum, a constant, no value). */
  datatype Val = Immediate | Ptr(node: KonBase)

  datatype Frame =
    | NativeCallback(memo: seq<Val>)
    | EvalClauseList(subj: Val, restClauses: Val)
    | EvalClauseArgs(subj: Val, restArgList: Val, evaledArgList: Val)
    | QuasiListItems(restList: Val, evaledList: Val)
    | RestJobs(restJobs: Val)

  /** The parts of a node that hold values, tag by tag. */
  datatype Payload =
    | Leaf
    | Pair(prev: Val, next: Val, body: Val)
    | Vector(items: seq<Val>)
    | Table(vals: seq<Val>)
    | Cell(core: Val, map_: Val, table: Val, list: Val, next: Val, prev: Val)
    | Quote(inner: Val)
    | Env(bindings: seq<Val>, parent: Val)
    | Accessor(isDir: bool, dir: seq<Val>, value: Val, setter: Val)
    | MsgDispatcher(handlers: seq<Val>)
    | Continuation(frame: Frame, env: Val, cont: Val)
    | Procedure(native: bool, argList: Val, code: Val, lexicalEnv: Val, captureList: Val)

  class KonBase {
    var payload: Payload
    var color: Color

    constructor (payload: Payload)
      ensures this.payload == payload && color == Gray
    {
      this.payload, color := payload, Gray;
    }
  }

  /** The values a visit pushes, in order; an environment pushes its bindings twice. */
  function Pushes(p: Payload): seq<Val> {
    match p
    case Leaf => []
    case Pair(prev, next, body) => [prev, next, body]
    case Vector(items) => items
    case Table(vals) => vals
    case Cell(core, m, table, list, next, _) => [core, m, table, list] + (if next.Ptr? then [next] else [])
    case Quote(inner) => [inner]
    case Env(bindings, parent) => bindings + bindings + [parent]
    case Accessor(isDir, dir, value, _) => if isDir then dir else [value]
    case MsgDispatcher(handlers) => handlers
    case Continuation(frame, env, cont) => FramePushes(frame) + [env, cont]
    case Procedure(native, argList, code, lexicalEnv, captureList) =>
      if native then [] else [argList, code, lexicalEnv, captureList]
  }

  function FramePushes(f: Frame): seq<Val> {
    match f
    case NativeCallback(memo) => memo
    case EvalClauseList(subj, rest) => [subj, rest]
    case EvalClauseArgs(subj, rest, evaled) => [subj, rest, evaled]
    case QuasiListItems(rest, _) => [rest]
    case RestJobs(rest) => [rest]
  }

  // ---------- fields ----------

  /** Some field of the node that a program can read holds `v`. */
  ghost predicate HasField(p: Payload, v: Val) {
    match p
    case Leaf => false
    case Pair(_, _, _) => v == p.prev || v == p.body || v == p.next
    case Vector(_) => v in p.items
    case Table(_) => v in p.vals
    case Cell(_, _, _, _, _, _) => v == p.core || v == p.map_ || v == p.table || v == p.list || v == p.next || v == p.prev
    case Quote(_) => v == p.inner
    case Env(_, _) => v in p.bindings || v == p.parent
    case Accessor(_, _, _, _) => (if p.isDir then v in p.dir else v == p.value) || v == p.setter
    case MsgDispatcher(_) => v in p.handlers
    case Continuation(_, _, _) => FrameHasField(p.frame, v) || v == p.env || v == p.cont
    case Procedure(_, _, _, _, _) => !p.native && (v == p.captureList || v == p.argList || v == p.code || v == p.lexicalEnv)
  }

  ghost predicate FrameHasField(f: Frame, v: Val) {
    match f
    case NativeCallback(_) => v in f.memo
    case EvalClauseList(_, _) => v == f.subj || v == f.restClauses
    case EvalClauseArgs(_, _, _) => v == f.subj || v == f.restArgList || v == f.evaledArgList
    case QuasiListItems(_, _) => v == f.restList || v == f.evaledList
    case RestJobs(_) => v == f.restJobs
  }

  /** The three fields that a visit passes over: the cell before a cell, the setter of an accessor, and
      the items of a quasi-quoted list that have been evaluated so far. */
  ghost predicate PassedOver(p: Payload, v: Val) {
    || (p.Cell? && v == p.prev && v != p.core && v != p.map_ && v != p.table && v != p.list && v != p.next)
    || (p.Accessor? && v == p.setter && !(if p.isDir then v in p.dir else v == p.value))
    || (p.Continuation? && p.frame.QuasiListItems? && v == p.frame.evaledList && v != p.frame.restList && v != p.env && v != p.cont)
  }

  /** A visit pushes every node that a field of the node holds, but for those passed over, and no other. */
  lemma PushesFields(p: Payload, n: KonBase)
    ensures Ptr(n) in Pushes(p) <==> HasField(p, Ptr(n)) && !PassedOver(p, Ptr(n))
  {
    var v := Ptr(n);
    match p
    case Env(bindings, parent) => assert v in Pushes(p) <==> v in bindings || v == parent;
    case Continuation(frame, env, cont) => assert v in Pushes(p) <==> v in FramePushes(frame) || v == env || v == cont;
    case _ =>
  }
}
