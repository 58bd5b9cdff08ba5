# Kana: a verified model of its core

Four parts of the repository that share nothing but sequences and sets.

**The regex engine** (`lib/sregex/sregex`). A regex is emitted as back-patched bytecode. The Thompson
machine says whether some stretch of the input matches; the Pike machine says which one, with
captures. The language of a regex (`Regexes.Matches`), the paths of a program (`Bytecode.Path`) and a
backtracker (`Backtracking.Backtrack`) are defined on their own, and compiler and machines are proved
against them: arrays that are written in place, tags, thread lists, reference-counted captures with a
free list. Look-behind assertions are covered, and so are programs with silent cycles. Which of several
ways to match is preferred, greedy or not, is told by the syntax tree alone (`Preference.Ways`), and where
every round of a loop reads, the machine is proved to report that one.

**The x86 assembler** (`lib/sregex/dynasm/dasm_x86.h`). Pass 1 threads unresolved references through the
position buffer, pass 2 shortens branches and alignment, pass 3 writes bytes. The three agree on every
position, every byte written is accounted for, and every shortened branch fits its byte. Read as the
processor reads them (`AsmRead`), the bytes are the immediates, addresses and jumps that were put down.

**Kana and KSON** (`core/interpreter`, `core/kson`, `core/node.c`). The trampoline with its continuation
frames is proved equal to a direct-style evaluator, in which leaving a procedure, a loop or a call-cc is
an answer that is caught where it arrives. The same is proved of the trampoline over a store of frames
and memo tables that are allocated and cloned as coded: nothing written is ever changed, so a
continuation can be run again and again. What each name means inside a body is said by lookup in the
environments (`Calls`). For the KSON printer and reader it is proved exactly which
values are read back as themselves, and what the others become.

**Memory and tables** (`core/gc.c`, `core/container/kx_hashtable.c`). A collection destroys exactly what
cannot be read from the roots, field after field, through the fields that a visit follows. The table
refines an insertion-ordered list of items that is looked up by key; what a shadow clone of it can still
find is proved exactly.

## What turned out not to hold

- The Pike machine's jump to the next leading byte can lose a match: its guard
  (`lib/sregex/sregex/sre_vm_pike.c:260-273`) never looks at the last thread. `a+b?` on `xab` gives `a`.
  `Skipping.ShortcutIsExact` has the exact condition for an input, `WrongTurn.ShortcutLosesAMatch` the
  input, and `SafeShortcut.WrongTurnNeeds` what a pattern must be like for any input to do it. On `xaba`
  the second `a` is reported, which is not even the leftmost match (`WrongTurn.ShortcutMovesOn`);
  `ShortcutResult.ResultIsLeftmost` says exactly when that happens.
- With several regexes, the jump behind every MATCH but the last leads past the end of the program; it
  can never be reached (`Patterns.TargetsInside`, `Patterns.PatternIsClosed`).
- A backward reference to a local label is bound to the next definition, not the last one, if a forward
  reference to the label is pending (`Fixups.LooksBackExactly`).
- KSON values that are not read back as themselves: a slot marker in a list is read as the word `/`
  (`ReadBack.SlotMarkerIsLost`); a vector or a short word such as `-` at the very end of a text makes the
  reader look past the end (`ReadBack.EndIsFatal`); an atom outside of everything is dropped
  (`ReadBack.AtomAtTop`); the word `>` directly in a vector closes it. `ReadBack.PrintThenParse` and
  `ReadBack.FileReadsBack` have the exact conditions.
- Pushing a value with a new key into a bucket that is in use replaces the bucket's chain by a loop
  (`OrderedTable.KxHashTable.LinkPushedEntry`), so a shadow clone loses a key, and looking for it never
  ends, iff two keys share a bucket (`TableItems.CloneReadsAlike`). The callbacks of cond, or and for read
  such clones; they are safe only because the keys they use happen to hash apart
  (`MemoKeys.CallbackSticks`, `MemoKeys.KeysAreSeparate`).
- A visit of the collector passes over three fields (`core/gc.c:337-551`): the cell before a cell, the
  setter of an accessor, and the items of a quasi-quoted list that have been evaluated so far. What only
  these hold is destroyed while the program can still get at it
  (`Collecting.KonState.PendingItemsAreGarbage`); `Liveness.AllSeenIsLive` says exactly when all is safe.
- A visit of an environment pushes every binding twice; the segments hold 23400 nodes in all, where the
  comment at `core/gc.c:12` counts 22052. The code is followed.
- A string with a backslash right before an n, an r or a t has no text between double quotes that is read
  as it (`Escapes.WhatCanBeWritten`); between single quotes it is its own (`Numbers.RawStringIsRead`).

## Files

Regex: `Regex`, `Bytecode`, `Compiler`, `Pattern`, `Marks`, `Thompson`, `ThompsonVm`, `Backtrack`,
`PikeSpec`, `Priority`, `Loops`, `Preference`, `Counts`, `Captures`, `PikeVm`, `PikeExec`, `LeadingBytes`,
`Span`, `Skipping`, `Groups`, `SafeShortcut`, `ShortcutResult`, `WrongTurn`, `Rewrites`, `Samples`, `Search`.
Collector: `Heap`, `Mark`, `Live`, `Store`, `Gc`. Assembler: `Asm`, `Fixups`, `AsmPut`, `AsmMath`, `AsmLink`,
`AsmEncode`, `AsmRead`, `Assembler`. Interpreter: `Kana`, `Phrases`, `Calls`, `Direct`, `Agreement`, `Scopes`,
`Frames`, `FrameMeaning`, `FrameSteps`, `Reentry`, `MemoKeys`. KSON: `Kson`, `Layout`, `Tokenizer`, `Reader`,
`Numbers`, `RoundTrip`, `ReadBack`, `Escapes`, `Spelling`. Table: `Items`, `HashTable`,
`Murmur`. Shared: `Options`, `Lists`.

## Model

| member | source | states |
|---|---|---|
| Compiler.Emit | lib/sregex/sregex/sre_regex_compiler.c:289-482 | emission with back-patching leaves the code of the regex at `pc`, advances by exactly the computed length, and changes nothing else |
| Compiler.CodeMeansRegex | lib/sregex/sregex/sre_regex_compiler.c:289-482 | the paths through the code of a regex are exactly its matches, loops with nullable bodies included |
| Compiler.PathIsMatch | lib/sregex/sregex/sre_regex_compiler.c:289-482 | every path from the start to the end of the code reads a stretch the regex matches |
| Compiler.MatchRuns | lib/sregex/sregex/sre_regex_compiler.c:289-482 | every match has a path through the code |
| Compiler.CodeIsSegment | lib/sregex/sregex/sre_regex_compiler.c:289-482 | jumps in the code of a regex stay in it or lead right behind it |
| Patterns.ParseMulti | lib/sregex/sregex/sre_yyparser.c:3444-3556 | the regexes are joined left to right and wrapped as `.*?(...)`; the group counts, and their maximum |
| Patterns.Compile | lib/sregex/sregex/sre_regex_compiler.c:32-86 | the program has the computed length, and the capture vector two slots for every group of every regex |
| Patterns.PatternMeansSubstring | lib/sregex/sregex/sre_regex_compiler.c:289-482 | the program reaches the MATCH of regex k at position j iff regex k matches a stretch that ends there |
| Patterns.PatternAccepts | lib/sregex/sregex/sre_regex_compiler.c:289-482 | the program accepts iff some regex matches some stretch |
| Patterns.PatternIsClosed | lib/sregex/sregex/sre_regex_compiler.c:289-482 | control that starts at the program's start never leaves it |
| Patterns.TargetsInside | lib/sregex/sregex/sre_regex_compiler.c:298-330 | every jump target lies inside the program iff there is one regex |
| Patterns.PatternSlotsFit | lib/sregex/sregex/sre_yyparser.c:3474-3534 | every SAVE slot lies in the capture vector |
| ThompsonVm.Context.AddThread | lib/sregex/sregex/sre_vm_thompson.c:273-345 | the closure marks what is silently reachable, puts each stop on the list once, and ends although the code is cyclic |
| ThompsonVm.Context.PutThread | lib/sregex/sregex/sre_vm_thompson.c:329-345 | a list never has more entries than the program has instructions |
| ThompsonVm.Context.RunThreads | lib/sregex/sregex/sre_vm_thompson.c:110-243 | one step finds a match iff one ends here, and else moves the list to the threads of the next position |
| ThompsonVm.Context.Exec | lib/sregex/sregex/sre_vm_thompson.c:63-269 | on each buffer OK iff a match ends in it; the state carried over makes the cut invisible |
| ThompsonVm.RunBuffers | lib/sregex/sregex/sre_vm_thompson.c:63-269 | however the input is cut into buffers, a match is reported iff the whole input is accepted |
| Thompson.FrontierAdvances | lib/sregex/sregex/sre_vm_thompson.c:110-243 | a list that is the frontier at one position becomes the frontier at the next |
| PikeSpec.AddIsBacktrack | lib/sregex/sregex/sre_vm_pike.c:756-942 | the threads a closure queues, in their order, have the backtracker's result, silent cycles included |
| PikeSpec.StepIsBest | lib/sregex/sregex/sre_vm_pike.c:311-581 | one step over a prioritised list keeps the best result |
| PikeSpec.RunIsBacktrack | lib/sregex/sregex/sre_vm_pike.c:149-635 | a whole run ends with the captures the backtracker finds, for every program and input |
| PikeSpec.RunFindsMatches | lib/sregex/sregex/sre_vm_pike.c:149-671 | a run reports a match iff an accepting path exists |
| Priority.BacktrackIsFirst | lib/sregex/sregex/sre_vm_pike.c:756-942 | without silent cycles the backtracker's result is that of the first accepting path, x before y |
| Loops.RankedIffLoopsRead | lib/sregex/sregex/sre_regex_compiler.c:289-482 | a compiled pattern has no silent cycle iff no loop body can be passed silently |
| Loops.NullableMeansEmpty | lib/sregex/sregex/sre_regex_compiler.c:289-482 | an assertion-free regex is nullable iff it matches the empty stretch |
| Loops.PikeIsFirstPath | lib/sregex/sregex/sre_vm_pike.c:311-581 | for patterns whose loop bodies read, the captures are those of the first accepting path in priority order, and there are none iff no path accepts |
| Preference.WaysAreMatches | lib/sregex/sregex/sre_regex_compiler.c:289-482 | the ways to match that a syntax tree lists in order of preference end exactly where its matches do |
| Preference.CodePrefers | lib/sregex/sregex/sre_regex_compiler.c:289-482 | from the code of a regex whose loops read, the backtracker finds what it finds for the first of these ways that goes on to a match: the left side of a choice first, one more round first if greedy and last if not |
| Preference.PikePrefers | lib/sregex/sregex/sre_vm_pike.c:311-671 | for such patterns the Pike machine reports the first regex that matches at the leftmost position, by the way its tree prefers, with the captures of that way |
| Preference.GreedyTakesAll | lib/sregex/sregex/sre_regex_compiler.c:382-446 | repeating one byte greedily prefers the whole run of them, lazily as few as may be |
| Counts.VariantsPreferTheSame | lib/sregex/sregex/sre_yyparser.c:3561-3634 | parts that prefer the same of all their ways can be exchanged anywhere in a regex |
| Counts.SamePattern | lib/sregex/sregex/sre_yyparser.c:3561-3634 | a pattern with such parts exchanged reports the same of every input |
| Counts.CountMore | lib/sregex/sregex/sre_yyparser.c:3618-3631 | one more optional round at the end of r{m,n} prefers what r{m,n+1} asks for: nested optional rounds if greedy, by number of rounds if not |
| Samples.PikeRunsPlus | lib/sregex/sregex/sre_regex_compiler.c:428-446 | `b+` reports the whole first run of bytes that b takes, `b+?` its first byte |
| Samples.WhereAssertionsHold | lib/sregex/sregex/sre_vm_pike.c:840-865 | `^` holds at the start and right behind byte 10, `\A` at the start alone |
| Samples.PikeRunsLine | lib/sregex/sregex/sre_vm_pike.c:840-865 | `^c` reports the first c at the start or right behind byte 10 |
| Samples.ThreeSearches | lib/sregex/sregex/sre_regex_compiler.c:428-446 | `a+?` and `a+` on aaa, and `^b` on a, line feed, b |
| Captures.CapturePool.Create | lib/sregex/sregex/sre_capture.c:20-57 | a new or recycled capture that nobody holds; all other captures keep what they hold |
| Captures.CapturePool.Update | lib/sregex/sregex/sre_capture.c:59-85 | copy on write: the result is the updated vector, and every other holder reads what it read before |
| Captures.CapturePool.DecrRef | lib/sregex/sregex/sre_capture.h:18-22 | what is on the free list has no holder, and the count of each capture is its number of holders at least |
| PikeVm.Context.AddThread | lib/sregex/sregex/sre_vm_pike.c:756-942 | the in-place closure refines the functional one, keeps the captures accounted for, and the other holders' vectors |
| PikeVm.Context.RunQueue | lib/sregex/sregex/sre_vm_pike.c:311-576 | one position of the run loop refines a step of the specification, with all references given up again |
| PikeVm.Context.TakeThread | lib/sregex/sregex/sre_vm_pike.c:314-529 | taking one thread refines its part of the step |
| PikeVm.Context.TakeHit | lib/sregex/sregex/sre_vm_pike.c:530-553 | a hit replaces the earlier one and cuts off the threads behind it |
| PikeVm.Context.Clear | lib/sregex/sregex/sre_vm_pike.c:1064-1080 | clearing a list gives up every reference it holds |
| PikeExec.FindFirstByte | lib/sregex/sregex/sre_vm_pike.c:992-1061 | the next byte that a leading instruction accepts, or the end |
| PikeExec.Enter | lib/sregex/sregex/sre_vm_pike.c:202-218 | an empty list is filled with the threads a run starts with |
| PikeExec.Jump | lib/sregex/sregex/sre_vm_pike.c:256-309 | the jump to the next leading byte, with its guard as coded |
| PikeExec.Round | lib/sregex/sregex/sre_vm_pike.c:235-581 | one round of the run loop refines one round of the specification |
| PikeExec.PrepareMatched | lib/sregex/sregex/sre_vm_pike.c:945-989 | the result vector: $0 and the groups of the regex that matched |
| PikeExec.Exec | lib/sregex/sregex/sre_vm_pike.c:149-689 | a call on one buffer, shortcut included, returns the status and the vector of the specification |
| LeadingBytes.Search.Collect | lib/sregex/sregex/sre_regex_compiler.c:149-241 | the search marks what is silently reachable and collects every byte instruction there, or gives up |
| LeadingBytes.Search.Append | lib/sregex/sregex/sre_regex_compiler.c:206-237 | an instruction is added unless the byte is covered |
| LeadingBytes.GetLeadingBytes | lib/sregex/sregex/sre_regex_compiler.c:123-146 | a non-empty result covers every way into the pattern and accepts just the bytes a match can start with; it is non-empty iff what is met first is neither a match nor any byte |
| Skipping.MatchesLead | lib/sregex/sregex/sre_regex_compiler.c:123-241 | with leading instructions, every match is non-empty and starts with a byte one of them accepts |
| Skipping.SkipTo | lib/sregex/sregex/sre_vm_pike.c:276-309 | from the initial threads followed by the `.*?` thread, jumping gives what the steps between give |
| Skipping.JumpAstray | lib/sregex/sregex/sre_vm_pike.c:256-309 | a jump while a match stands keeps the result iff it does not mislead |
| Skipping.ShortcutIsExact | lib/sregex/sregex/sre_vm_pike.c:256-309 | the run with the shortcut has the result of the run without it iff it never turns wrong |
| WrongTurn.ShortcutLosesAMatch | lib/sregex/sregex/sre_vm_pike.c:260-273 | the input on which it does turn wrong |
| WrongTurn.ShortcutMovesOn | lib/sregex/sregex/sre_vm_pike.c:260-273 | the input on which the match reported is not even the leftmost |
| ShortcutResult.ResultIsLeftmost | lib/sregex/sregex/sre_vm_pike.c:256-309 | a run with the shortcut ends with the leftmost match, or rightly with none, iff no jump made while a match stands finds another one from where it starts over |
| ShortcutResult.JumpWhilePoised | lib/sregex/sregex/sre_vm_pike.c:256-309 | at such a jump the match that stands is one byte, ends there and is the leftmost one; it stays iff nothing is found from where the search starts over |
| ShortcutResult.ResultIsReal | lib/sregex/sregex/sre_vm_pike.c:311-671 | whatever turns a run takes, its hit is a match of the regex reported, bounded by group 0, with every other group that is set holding what it matches |
| ShortcutResult.RunCarried | lib/sregex/sregex/sre_vm_pike.c:311-671 | every hit is one that a path from the start of the program leaves, jumps or not |
| Spans.RunIsLeftmost | lib/sregex/sregex/sre_vm_pike.c:311-635 | the stretch reported is one the reported regex matches, no regex matches further left, and nothing is reported iff nothing matches |
| RegexSearch.Search | lib/sregex/sregex/sre_vm_pike.c:149-689 | parse, compile, analyse and run: what is reported is always a match with its groups; it is the leftmost one, and nothing is reported only if nothing matches, exactly unless the run starts over beyond a match; it never does for patterns whose matches are two bytes at least, or none of whose first instructions comes again; without a wrong turn, where loops read, the vector is that of the preferred way |
| RegexSearch.HitReportsGroups | lib/sregex/sregex/sre_vm_pike.c:945-989 | `$g` is unset or bounds a stretch inside the match that group g matches, and the vector is -1 behind the last group of the regex |
| RegexSearch.HitReports | lib/sregex/sregex/sre_vm_pike.c:945-989 | the first two slots of the vector bound the match of the hit, so the vector is the leftmost match iff the hit is |
| RegexSearch.IsFound | lib/sregex/sregex/sre_vm_thompson.c:63-269 | parse, compile and run over any buffers: a match is found iff some regex matches some stretch of the whole input |
| SafeShortcut.WrongTurnNeeds | lib/sregex/sregex/sre_vm_pike.c:256-309 | a run turns wrong only if some regex matches a single byte of the input and an instruction a match can start with is silently reachable behind a byte of the pattern |
| SafeShortcut.HitIsOneByte | lib/sregex/sregex/sre_vm_pike.c:276-309 | a hit in the step right behind a jump is a match of one byte, and all threads left are behind a byte of the pattern |
| SafeShortcut.StartsWithMore | lib/sregex/sregex/sre_regex_compiler.c:289-482 | the list a run starts with holds a thread of the pattern besides the `.*?` loop |
| SafeShortcut.MatchIsAsLong | lib/sregex/sregex/sre_regex_compiler.c:289-482 | no match is shorter than the length computed from the regex |
| GroupSlots.PathIsGood | lib/sregex/sregex/sre_regex_compiler.c:289-482 | a path through the code of a regex leaves each group as it was or holding a stretch that the group matches, repeated groups included |
| GroupSlots.HitIsCapPath | lib/sregex/sregex/sre_vm_pike.c:756-942 | the captures of the backtracker are those that one accepting path leaves |
| GroupSlots.RunGroups | lib/sregex/sregex/sre_vm_pike.c:311-635 | for every hit of a run, group 0 bounds the match and every other group that is set holds what it matches, inside it |
| Rewrites.DesugarCountedRepetition | lib/sregex/sregex/sre_yyparser.c:3561-3634 | the language of r{m,n} and r{m,} is the union of the allowed powers of r; of their ways, those with more rounds are preferred if greedy, those with fewer if not |
| Rewrites.TurnCaseless | lib/sregex/sregex/sre_regex.c:170-214 | the walk over the range list that it grows ends, with the ranges of the specification |
| Rewrites.CaselessMeansEitherCase | lib/sregex/sregex/sre_regex.c:170-214 | the class accepts a byte iff it accepted it or its other case |
| Store.InitGc | core/gc.c:24-47 | segment capacities, their sum 23400 as the limit, and 19652 as the threshold: the limit less a quarter of the next capacity |
| Store.PushToHeapPtrSeg | core/gc.c:62-97 | a node is appended and the store stays packed; it fails iff the store is full |
| Store.FewerNodesFewerSegments | core/gc.c:62-97 | repacking fewer nodes never needs more segments |
| Heap.PushesFields | core/gc.c:337-551 | a visit pushes every node that a field of the node holds, three kinds of fields excepted, and no other |
| Collecting.KonState.PushFields | core/gc.c:352-547 | the switch on the tag pushes the values of the node, in order |
| Collecting.KonState.MarkFrame | core/gc.c:502-529 | what a continuation has left to do is pushed; of a quasi-quoted list only the rest |
| Collecting.KonState.MarkNode | core/gc.c:337-551 | an open node turns black and what it refers to is queued, nothing else changes |
| Collecting.KonState.Mark | core/gc.c:251-258 | marking ends, cyclic heap or not, and blackens exactly what the queue leads to |
| Collecting.KonState.MarkPhase | core/gc.c:206-249 | exactly what the roots lead to turns black |
| Collecting.KonState.ResetAndCopyPtrSegList | core/gc.c:282-335 | the store holds the non-white nodes in their order, packed and reset; the limit exit is out of reach |
| Collecting.KonState.SweepPhase | core/gc.c:260-280 | the same, with the newest nodes turned gray |
| Collecting.KonState.Gc | core/gc.c:198-204 | a collection destroys exactly the garbage, keeps the order of the rest, and leaves all as the next one needs it; a node stays iff it can be read from the roots, field after field, and all that a program can get at stays iff nothing hangs on a field passed over |
| Collecting.KonState.GarbageIsDead | core/gc.c:206-249 | garbage is what cannot be read, field after field, from the code, the continuation, the newest nodes and the dispatchers |
| Collecting.KonState.PendingItemsAreGarbage | core/gc.c:525-527 | the evaluated items of a quasi-quoted list are garbage if only their continuation holds them |
| Liveness.ReachableIsLive | core/gc.c:337-551 | what marking leads to is what fields lead to |
| Liveness.AllSeenIsLive | core/gc.c:337-551 | all that fields of any kind lead to is live iff nothing hangs on a field that is passed over |
| Liveness.ListIsLive | core/gc.c:364-370 | from the head of a list every pair and every element is live |
| Liveness.ScopeIsLive | core/gc.c:450-474 | from an environment every binding of every environment around it is live |
| Collecting.KonState.RecordNewKonNode | core/gc.c:175-187 | a new node is recorded behind all others |
| Collecting.KonState.CurrentObjCount | core/gc.c:99-112 | the number of nodes in the store |
| Collecting.KonState.HasEnoughSegSpace | core/gc.c:114-130 | a collection is asked for iff the threshold would be passed |
| Collecting.KonState.PushWriteBarrierObjsToHeapPtrSeg | core/gc.c:132-143 | the newest nodes go to the store in order, or the limit is passed |
| Collecting.KonState.SwitchContinuation | core/gc.c:145-173 | the new continuation becomes a root and nothing is lost |
| Collecting.KonState.EnterGcSafepoint | core/gc.c:189-196 | collects iff asked to |
| Marking.ProgressOpens | core/gc.c:337-551 | visiting an open node keeps: children of marked nodes are marked or queued |
| Marking.ProgressEnds | core/gc.c:251-258 | with an empty queue, marked means reachable |
| Fixups.BoundAsMeant | lib/sregex/dynasm/dasm_x86.h:213-243 | after any history of references and definitions, a reference is bound to the definition it is meant to get, or waits in one chain |
| Fixups.LooksBackExactly | lib/sregex/dynasm/dasm_x86.h:213-243 | a backward reference is bound to the last definition iff no forward reference came in between |
| Fixups.WaitingApart | lib/sregex/dynasm/dasm_x86.h:213-243 | chains of different labels share nothing, and hold nothing bound |
| Fixups.WaitingAreRefs | lib/sregex/dynasm/dasm_x86.h:213-243 | a chain holds references to its own label, each once, so it has no cycle |
| Fixups.DefinedStands | lib/sregex/dynasm/dasm_x86.h:213-243 | a label array entry is a position iff the label's last event is a definition, and then that one's |
| AsmPut.ReferOk | lib/sregex/dynasm/dasm_x86.h:213-235 | storing a reference keeps buffer, label array and history in step |
| AsmPut.DefineOk | lib/sregex/dynasm/dasm_x86.h:236-243 | so does defining a label once its chain is patched |
| Assembler.DasmState.PutRef | lib/sregex/dynasm/dasm_x86.h:213-235 | a reference stores the label's position or joins its chain |
| Assembler.DasmState.PutLabel | lib/sregex/dynasm/dasm_x86.h:236-243 | a label resolves its whole chain to its position |
| Assembler.DasmState.CollapseChain | lib/sregex/dynasm/dasm_x86.h:239-241 | following the chain ends and rewrites exactly its members |
| Assembler.DasmState.Put | lib/sregex/dynasm/dasm_x86.h:167-259 | a call appends the entries of its action list, adds their references and definitions to the history in order, and keeps all invariants |
| Assembler.DasmState.PutAction | lib/sregex/dynasm/dasm_x86.h:181-256 | one action appends its entry and exactly the event it is |
| Assembler.DasmState.SlotIsMeant | lib/sregex/dynasm/dasm_x86.h:213-243 | whatever the calls were, the slot of a reference holds the position of the definition meant |
| Assembler.DasmState.MarkExterns | lib/sregex/dynasm/dasm_x86.h:281-287 | references to undefined globals hold minus their number, every other reference the definition it is meant to get, and a reference to any other undefined label the next one that waits for it |
| Assembler.DasmState.Shrink | lib/sregex/dynasm/dasm_x86.h:302-322 | what the linker cuts from a branch |
| Assembler.DasmState.LinkAction | lib/sregex/dynasm/dasm_x86.h:296-338 | passing one action fixes its final position and corrections |
| Assembler.DasmState.Link | lib/sregex/dynasm/dasm_x86.h:265-353 | after linking, whether or not every label is defined, every label holds its final position, every branch its cut, the size is the sum, and every reference with a definition still leads to the one it is meant to get |
| Assembler.AllAreBound | lib/sregex/dynasm/dasm_x86.h:281-287 | every reference is bound to the definition meant, marked as an undefined global, or dangles because its label is not defined |
| AsmLink.BoundKept | lib/sregex/dynasm/dasm_x86.h:296-338 | what the linker writes when it passes an entry leaves every slot of a reference leading where it led |
| AsmLink.AllDelivered | lib/sregex/dynasm/dasm_x86.h:290-345 | the entry a linked reference leads to is that of the definition meant, of the reference's own label; without one it leads out of the program if its label is a global, and nowhere otherwise |
| AsmLink.NoLabelWhereItDangles | lib/sregex/dynasm/dasm_x86.h:213-243 | the slot of a reference to an undefined label never happens to hold the position of a label |
| AsmMath.Monotone | lib/sregex/dynasm/dasm_x86.h:290-345 | positions grow, and every correction only takes away |
| AsmMath.ShortBranchFits | lib/sregex/dynasm/dasm_x86.h:302-322 | a shortened branch has a displacement in [-128, 127], ahead or behind, across sections too |
| AsmLink.DistanceIs | lib/sregex/dynasm/dasm_x86.h:302-322 | the linker's arithmetic is the distance, on estimates ahead and final positions behind |
| AsmLink.LeadFinal | lib/sregex/dynasm/dasm_x86.h:290-345 | after linking a reference that leads somewhere leads to the final position of a definition of its own label |
| AsmEncode.EncodeStep | lib/sregex/dynasm/dasm_x86.h:359-438 | writing an entry leaves all earlier ones standing but the raw bytes it changes |
| AsmEncode.Appended | lib/sregex/dynasm/dasm_x86.h:359-438 | an entry that only appends adds the bytes it means |
| AsmEncode.Widened | lib/sregex/dynasm/dasm_x86.h:386-394 | a sign-extended byte adds 2 to the opcode two bytes back |
| AsmEncode.Branched | lib/sregex/dynasm/dasm_x86.h:397-405 | a branch to a place is written in long or short form with the opcode exchanged, and goes there |
| Assembler.DasmState.EncodeAction | lib/sregex/dynasm/dasm_x86.h:370-431 | one action written takes the encoder to the next entry |
| Assembler.DasmState.Encode | lib/sregex/dynasm/dasm_x86.h:359-438 | whether or not every label is defined, exactly the announced size is written and every entry starts where the linker put it; every byte is what its entry means, every reference of the history with a definition arrives at the final position of the one it is meant to get, as a branch or an address, and the globals are exported; read by the processor, the program is what was put down |
| AsmRead.ProgramIsRead | lib/sregex/dynasm/dasm_x86.h:346-431 | every immediate is read back as its argument in its width, every address and every branch as the place it was meant for |
| AsmRead.BranchIsRead | lib/sregex/dynasm/dasm_x86.h:397-405 | the displacement of a branch, long or short, added to its end is the final position of its target, and its opcode is the same jump on the same condition |
| AsmRead.DwordReads | lib/sregex/dynasm/dasm_x86.h:346-356 | four bytes are read back, the lowest first, as the number modulo 2 to the 32nd |
| AsmRead.ExportsAre | lib/sregex/dynasm/dasm_x86.h:412-417 | a global is given out as the address of its last definition, or stays as it was |
| AsmRead.GoodForms | lib/sregex/dynasm/dasm_x86.h:296-331 | the action lists for jumps, calls, operations with immediates, alignment, labels and space are among those the model takes |
| AsmPut.ArgumentsInOrder | lib/sregex/dynasm/dasm_x86.h:181-256 | the entries of a call are the actions of its list up to the end, and its arguments go to those that take one, in order and all of them |
| AsmPut.LabelNames | lib/sregex/dynasm/dasm_x86.h:207-235 | a reference coded k or k + 246 and a definition coded k name the same label; only k + 246 looks ahead |
| Assembler.DasmState.GetPcLabel | lib/sregex/dynasm/dasm_x86.h:441-450 | the final byte position of a numbered label, or why there is none |
| Kana.SplitClauses | core/interpreter/cps_interpreter.c:325-419 | the loop with its three states splits as the specification does |
| Kana.CallIsOneClause | core/interpreter/cps_interpreter.c:325-419 | a call without semicolons is one clause with all its words in order |
| Phrases.SplitUndoesJoin | core/interpreter/cps_interpreter.c:325-419 | clauses put in a row, those with a verb closed by semicolons, are split into those clauses |
| Phrases.IfChooses | core/interpreter/keyword/prefix_if.c:42-66 | the second part is taken iff the test gives the constant FALSE |
| Phrases.CondChooses | core/interpreter/keyword/prefix_cond.c:18-94 | a clause is chosen unless its test gives FALSE |
| Phrases.AndOrChoose | core/interpreter/keyword/prefix_and.c:6-63 | what `and` and `or` make of a test: FALSE and, for `and`, the empty list fail |
| Phrases.LoopChooses | core/interpreter/keyword/prefix_for.c:10-68 | a loop goes round again unless its test gives FALSE |
| Calls.BodySees | core/interpreter/keyword/prefix_lambda.c:6-61 | in the body a parameter is what it was given, a captured name what it means across, `return` the continuation of the call, any other name what it means around: where a lambda was made, where a func is called |
| Calls.CallEnters | core/interpreter/keyword/prefix_func.c:7-63 | a call with enough arguments goes on with the body in a new environment and leaves the others alone |
| Calls.BlockSees | core/interpreter/keyword/prefix_blk.c:6-17 | in a block every name means what it means outside |
| Calls.LoopSees | core/interpreter/keyword/prefix_for.c:71-112 | in a loop `break` leads out, `continue` to what comes after the body, and any other name means what it means outside |
| Kana.ApplyComposite | core/interpreter/keyword/prefix_lambda.c:6-61 | captured variables, then parameters, the last one taking the rest, in a new environment |
| Agreement.EvaluationIsReached | core/interpreter/cps_interpreter.c:443-578 | whatever the direct evaluation answers, the trampoline comes to |
| Agreement.HaltingIsEnough | core/interpreter/cps_interpreter.c:443-578 | a trampoline that halts in n steps is matched with fuel for 2n + 2 calls |
| Agreement.FrameStep | core/interpreter/cps_interpreter.c:443-578 | running a continuation does what is left of its construct |
| Agreement.TrampolineIsDirect | core/interpreter/cps_interpreter.c:904-1095 | a program lands on a value with a store iff the direct evaluation gives both, and is stuck iff it fails; return, break, continue, call-cc and re-entry included |
| Agreement.ProcessSentences | core/interpreter/cps_interpreter.c:904-1095 | the loop ends in the state so many bounces lead to, which shows the program's meaning |
| Agreement.ArgumentsInSourceOrder | core/interpreter/cps_interpreter.c:541-578 | arguments are evaluated once each, left to right, and passed in source order |
| Agreement.SourceOrder | core/interpreter/cps_interpreter.c:541-578 | the reversed accumulator is reversed back |
| Agreement.ExprSound | core/interpreter/cps_interpreter.c:667-875 | every form of expression bounces to its direct answer |
| Agreement.TestsSound | core/interpreter/keyword/prefix_cond.c:18-94 | cond, and, or: the callbacks come to the direct answer |
| Agreement.LoopsSound | core/interpreter/keyword/prefix_for.c:10-68 | the four callbacks of a loop are its test, body and advance, continue included |
| Agreement.ForSound | core/interpreter/keyword/prefix_for.c:71-112 | a whole loop, break included |
| Agreement.CallSound | core/interpreter/keyword/prefix_lambda.c:6-61 | a call, with return caught at its end |
| Scopes.StepIsScoped | core/interpreter/env.c:20-46 | no step refers to an environment that was not made, and parents are older |
| Scopes.ProgramsAreScoped | core/interpreter/cps_interpreter.c:904-1095 | so no run does |
| Scopes.DefinedIsFound | core/interpreter/env.c:28-46 | a definition is seen, shadows the outer one, touches no other name, and one to undefined is passed over |
| Frames.StepOnlyAdds | core/interpreter/cps_interpreter.c:443-622 | no bounce changes a continuation frame or a memo table that is there; it only adds new ones |
| Frames.RunOnlyAdds | core/interpreter/cps_interpreter.c:904-1095 | nor does a run |
| FrameSteps.StepFollows | core/interpreter/cps_interpreter.c:443-622 | read as continuations, the frames in the store make each bounce the step of the machine above, as long as the keys of memo tables are apart |
| FrameSteps.EvalFollows | core/interpreter/cps_interpreter.c:667-875 | every form allocates the frames and memo tables it should, loops and call-cc included |
| FrameSteps.ForFollows | core/interpreter/keyword/prefix_for.c:71-112 | the start of a loop: its two frames, the clone for `continue`, its environment |
| FrameSteps.LoopFollows | core/interpreter/keyword/prefix_for.c:10-68 | each callback of a loop hands the cloned memo table on in a new frame |
| FrameSteps.CloningCallbackFollows | core/interpreter/keyword/prefix_cond.c:18-60 | the callbacks of cond, or and for that read a clone |
| FrameSteps.SimpleCallbackFollows | core/interpreter/keyword/prefix_if.c:42-66 | the callbacks of if, and, let that read the memo table itself |
| Reentry.RunMeans | core/interpreter/cps_interpreter.c:904-1095 | a run over the store of frames means, bounce for bounce, a run of the machine above |
| Reentry.HeapTrampolineIsDirect | core/interpreter/cps_interpreter.c:904-1095 | so it lands on a value with environments iff the direct evaluation gives both, and is stuck iff it fails |
| Reentry.FrameIsKept | core/interpreter/cps_interpreter.c:421-431 | whatever happens in between, a frame, its memo table and the continuation that starts at it stay what they were |
| Reentry.AppliedFindsTheSame | core/interpreter/cps_interpreter.c:129-149 | a continuation applied, at any time and so any number of times, runs on what it was when it was kept; the environment and the pending work of the caller do not matter |
| MemoKeys.CallbackSticks | core/interpreter/keyword/prefix_for.c:10-68 | a callback does not get on, whatever it is given, exactly if it loses a key of its cloned memo table |
| MemoKeys.ForSticks | core/interpreter/keyword/prefix_for.c:88-105 | the start of a loop does not, exactly if all three keys share a bucket |
| MemoKeys.NoneLosesIffSeparate | core/container/kx_hashtable.c:985-1003 | no callback loses a key iff the keys of every cloned memo table are in different buckets |
| MemoKeys.KeysAreSeparate | core/container/murmurhash.c:13-79 | with the hash that is used, they are |
| Murmur.MurmurHash32 | core/container/murmurhash.c:13-79 | the loop over chunks, the tail and the finish compute the hash as specified |
| Murmur.PredictExprHash | core/container/murmurhash.c:13-79 | the hash of a key, worked out |
| Lists.PairListRevert | core/node.c:701-716 | the list in reverse |
| Kson.Itoa | core/utils/number_utils.c:5-30 | the decimal digits, written backwards and reversed |
| Kson.Atoi | core/utils/number_utils.c:32-58 | the number that spaces, a sign and digits mean; 2147483647 without sign and digits |
| Kson.DecimalReadsBack | core/utils/number_utils.c:5-58 | a number written is read back |
| Numbers.SignedDecimalReads | core/utils/number_utils.c:32-58 | blanks, a sign or none, and digits up to anything else mean the number with that sign |
| Numbers.NoDecimal | core/utils/number_utils.c:32-58 | a sign without digits means 0, neither means 2147483647 |
| Numbers.NumberIsRead | core/kson/tokenizer.c:471-532 | the text of a number with sign, fraction and power is one token with these parts |
| Numbers.NumberMeans | core/kson/reader.c:230-268 | a number is a fixnum iff it has no minus sign, fraction or power |
| Numbers.RawStringIsRead | core/kson/tokenizer.c:357-398 | what stands between single quotes is a string as it is |
| Numbers.CharacterClasses | core/kson/tokenizer.c:307-332 | white space, letters and digits by their codes |
| Numbers.NamesGoOn | core/kson/tokenizer.c:312-354 | the characters that end a name |
| Layouts.TextIsOneLine | core/node.c:551-683 | a text on one line has no line end |
| Layouts.PrintsLaid | core/node.c:551-683 | a text on many lines has brackets around lines, each one step further in, and each closing bracket under its opening line |
| Kson.ToFormatString | core/node.c:174-255 | the text of a value, on one line or many |
| Kson.Items | core/node.c:551-683 | the items of a list or vector with separators and padding |
| Tokenizing.Tokenizer.Next | core/kson/tokenizer.c:540-928 | the next token and how far the cursor moves, with the cases that end, crash or hang |
| Tokenizing.Tokenizer.ParseIdentifier | core/kson/tokenizer.c:334-354 | the first character whatever it is, and all up to a space or stop character |
| Tokenizing.Tokenizer.ParseQuoted | core/kson/tokenizer.c:357-398 | all up to the closing quote, or to the end |
| Tokenizing.Tokenizer.ParseNumber | core/kson/tokenizer.c:471-532 | the parts of a number |
| Tokenizing.TokenAdvances | core/kson/tokenizer.c:540-928 | every token that does not end the text moves the cursor |
| Reading.MakeString | core/kson/reader.c:277-309 | the three escapes are replaced, all else kept |
| Reading.MakeListByBuilder | core/kson/value_builder.c:83-98 | the items as a chain, NIL if there are none |
| Reading.MakeLiteral | core/kson/reader.c:230-347 | constants, numbers and strings |
| Reading.Reader.AddValueToTopBuilder | core/kson/reader.c:349-481 | a value goes into the builder on top, and finishes wrappers |
| Reading.Reader.ExitTopBuilder | core/kson/reader.c:483-548 | the top builder's value goes into the one below, both stacks popped together |
| Reading.Reader.ReadToken | core/kson/reader.c:564-800 | what a token does to the stacks |
| Reading.Reader.KsonParse | core/kson/reader.c:556-807 | the token loop ends with the status and stacks of the specification |
| RoundTrip.StringMeansItself | core/kson/reader.c:277-309 | a string is read as itself iff it holds none of the three escapes |
| Escapes.WhatCanBeWritten | core/kson/reader.c:277-309 | a string has a text between double quotes that is read as it iff no backslash stands right before an n, an r or a t, and then the text with line feed, carriage return and tab escaped is one, and so is the string itself |
| Escapes.EscapedMeans | core/kson/reader.c:277-309 | what is escaped is read as the line feed, carriage return or tab it stands for |
| Escapes.StringIsRead | core/kson/reader.c:277-309 | a quoted text in a file is read as the string it means: the escaped form of a string as that string |
| RoundTrip.AtomIsOneToken | core/kson/tokenizer.c:540-928 | the text of a word, name, number, string, marker or constant is one token |
| RoundTrip.ReadsBack | core/kson/reader.c:556-807 | reading a value's text adds what the value means and leaves the reader in front of what follows, anywhere in a text |
| Spellings.PlainIsSpelled | core/node.c:174-255 | 32-bit integers, strings without a quotation mark, names of letters, digits and a few marks, markers, constants, and lists, vectors and wrappers of them are spelled |
| Spellings.HowTextsEnd | core/kson/tokenizer.c:540-928 | an empty rest ends well, a lone `<` or `>` through a null pointer, and `+a` never |
| ReadBack.PrintThenParse | core/kson/reader.c:556-807 | of all spelled values exactly those are read back as themselves that hold no slot marker, escape, negative fixnum, suffix word or `>` directly in a vector, are not an atom by themselves, and do not end in a vector or one of a few short words |
| ReadBack.FileReadsBack | core/kson/reader.c:26-35 | in a file, where a line end and `]` follow, exactly the first of these conditions is left |
| ReadBack.LayoutDoesNotMatter | core/node.c:551-683 | the many-line text means what the one-line text means |
| ReadBack.TextsDiffer | core/node.c:174-255 | values with one text mean the same, and are the same if they can be read back |
| ReadBack.SlotMarkerIsLost | core/kson/tokenizer.c:894-911 | any value with a slot marker is read as the value with the word `/` in its place, which is another |
| ReadBack.ReadableIs | core/kson/reader.c:556-807 | a spelled value can be read back iff the reader can build it and reads its text as itself |
| ReadBack.ReaderBuilds | core/kson/reader.c:556-807 | whatever the text, the reader builds no negative fixnum, suffix word, `>` directly in a vector or atom at the top |
| ReadBack.ParseThenPrint | core/kson/reader.c:556-807 | what the reader builds from any text, if it is spelled, prints to a text with the same meaning |
| ReadBack.EndIsFatal | core/kson/tokenizer.c:540-928 | a value at the very end of a text whose end the tokenizer looks past is not read |
| ReadBack.AtomAtTop | core/kson/reader.c:564-800 | an atom outside everything adds nothing |
| OrderedTable.KxHashTable.constructor | core/container/kx_hashtable.c:22-50 | an empty table of 2 * 2^n buckets, all empty |
| OrderedTable.BucketNumbers | core/container/kx_hashtable.c:22-50 | 2 buckets, and twice as many for each step: 32 in a memo table |
| OrderedTable.KxHashTable.GetKeyEntry | core/container/kx_hashtable.c:178-212 | walking a bucket finds the key's entry iff the table has one |
| OrderedTable.KxHashTable.AtKey | core/container/kx_hashtable.c:236-250 | the value of the item under the key, or undefined |
| OrderedTable.KxHashTable.ValAtIndex | core/container/kx_hashtable.c:252-299 | the i-th value from the head or the tail, or undefined |
| OrderedTable.KxHashTable.PushValEntry | core/container/kx_hashtable.c:361-376 | the list stays doubly linked with one more at the tail |
| OrderedTable.KxHashTable.UnshiftValEntry | core/container/kx_hashtable.c:380-395 | the same at the head |
| OrderedTable.KxHashTable.PushVal | core/container/kx_hashtable.c:462-471 | one more item behind |
| OrderedTable.KxHashTable.UnshiftVal | core/container/kx_hashtable.c:495-504 | one more item in front |
| OrderedTable.KxHashTable.PutKv | core/container/kx_hashtable.c:525-571 | a key that is there gets the value in its place, a new one comes last |
| OrderedTable.KxHashTable.LinkPushedEntry | core/container/kx_hashtable.c:444-456 | entering the key of a pushed value keeps the chains iff the bucket was empty |
| OrderedTable.KxHashTable.PushKv | core/container/kx_hashtable.c:419-492 | in a table filled by pushing: a key that is found leads to the new value and leaves its item, a new one becomes the head of its bucket, and in a bucket with a loop any other key than the head's never ends |
| OrderedTable.KxHashTable.ReadPushedKey | core/container/kx_hashtable.c:178-212 | walking a bucket of such a table finds the key pushed last in it; another key has no end in a loop |
| OrderedTable.KxHashTable.ShadowClone | core/container/kx_hashtable.c:985-1003 | the copy has the same items and leaves the source alone; it is finished iff no bucket gets three keys |
| OrderedTable.KxHashTable.Replay | core/container/kx_hashtable.c:462-571 | after a whole history the table holds the items that the specification gives |
| OrderedTable.KxHashTable.ReadAfter | core/container/kx_hashtable.c:236-250 | after any history of a new table a key leads to the value put last under it, or to undefined |
| TableItems.CloneReadsAlike | core/container/kx_hashtable.c:985-1003 | a shadow clone reads like its original, for every key, iff no two keys share a bucket |
| TableItems.ReadOfItem | core/container/kx_hashtable.c:419-492 | a key is found in a clone iff no later one shares its bucket |
| TableItems.ShelfWithout | core/container/kx_hashtable.c:419-456 | taking the key away from the last item of a bucket uncovers what was there before, and touches no other bucket |
| TableItems.LatestIsFound | core/container/kx_hashtable.c:236-250 | after any history a key leads to the value put last, and keys stay distinct |
| TableItems.PlaceIsKept | core/container/kx_hashtable.c:525-571 | a key's place moves only by what is put in front |
| TableItems.OwnValue | core/container/kx_hashtable.c:178-212 | if no two keys share a fingerprint, each leads to its own last value |
| TableItems.SharedFingerprint | core/container/kx_hashtable.c:178-212 | if two do, one replaces the other |

## Left out

- Look-ahead assertions (`$`, `\z`, `\b`, `\B`) in both regex machines: they add threads again under a decremented tag.
- PikeExec.Exec: one buffer with end of input; the bookkeeping between buffers (pending captures, `seen_word`, `seen_newline`) is not modelled.
- PikeVm.Context.Clear: thread nodes are garbage collected here, not put on a free list.
- Marks.MarkedProgram: tag counters do not wrap.
- Patterns.ParseMulti: the lexer and the grammar; the trees and group counts they deliver are arguments.
- Generated machine code for the Thompson machine, memory mapping, and the other assembler back ends.
- Memory pools and allocation failure.
- Assembler.DasmState.Put: action lists are decoded sequences of actions; DISP, MARK, VREG, SETLABEL, EXTERN and REL_A are not among them, and callers pass well-formed lists, arguments in range and buffers with room, as with DASM_CHECKS off; positions and bytes are unbounded integers until written.
- Assembler.DasmState.Link: a program with an undefined label that is not a global, and nothing in its first section, makes the original read outside its buffers without DASM_CHECKS; what it writes for a reference to an undefined label is not stated, only how much.
- Collecting.KonState.Gc: freeing a node's payload, and writes of the mutator to nodes already recorded. Recording is modelled as if KN_DISABLE_GC were 0.
- Preference.PikePrefers: for patterns in which every round of a loop reads a byte; for the others the order is told by the bytecode (`PikeSpec.RunIsBacktrack`).
- FrameSteps.StepFollows: lists and expressions are values, which the interpreter never changes in place; environments are numbered in order of creation; memo tables are their items and the way they are read, as `OrderedTable` proves of the linked ones. A callback that would never end is stuck.
- Agreement.ProcessSentences: stops after a number of bounces, since a program need not end.
- Macros, message dispatch, accessors, pipes, assignment, `set`, `apply`, `eval`, `sh`, quasi-quotes, modules: a program that uses them is stuck in the model. A call with too few arguments is stuck too; the original reads past the list.
- Built-in procedures are an arbitrary function of their arguments.
- Kson.ToFormatString: the text of floating-point numbers is an arbitrary function; cells, maps, tables, parameters and blocks are not values here.
- Reading.Reader.ReadToken: tokens of tables, parameters, maps, cells and blocks, and comments, end with the status NotModelled.
- Reading.Reader.AddValueToTopBuilder: only the builders of vectors, lists and wrappers.
- Reading.Reader.ExitTopBuilder: only the builders of vectors, lists and wrappers.
- ReadBack.PrintThenParse: values that are not spelled: a floating-point number, a name or string with a character its text cannot hold, a fixnum beyond 32 bits. Suffix words are dropped by the reader.
- Kson.Atoi: integers are unbounded.
- Tokenizing.Tokenizer.Next: rows and columns; comments and the first line of a script end with a token of their own.
- OrderedTable.KxHashTable.PushKv: for tables all of whose keys were pushed, as in a clone; unshifting with a key is not modelled.
- GroupSlots.RunGroups: for regexes in which no group is inside another of its number, which is how the parser numbers them.
- Deletion, rehashing, insertion before and after an iterator; a fingerprint is an arbitrary function of the key except in `MemoKeys.KeysAreSeparate`, and a bucket's number is the hash modulo the number of buckets, which masking computes. `CheckRehash` never rehashes.
- Command-line tools, real paths, logging, file reading.
