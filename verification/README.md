# YCPL: frames, ownership and the lowering onto them

YCPL is a small systems language with two seed compilers, one in C++ and one in Rust. Its
memory is managed by frames: every block and function pushes a frame on a stack, every
allocation belongs to one, and a pop frees what is left in it. Allocations can own others;
an ownership tree lives in one frame and is freed or moved as a whole. The compilers make
this safe by moving a value outward before it outlives its block.

This project models that system and proves what holds in it:

- **The runtime** (`PointerHash`, `Treap`, `RangeIndex`, `Registry`, `LinkedLists`,
  `Ownership`, `RuntimeSpec`, `RuntimeLaws`, `Runtime`). The C runtime keeps every live allocation in five
  structures at once: a global list, a list per frame, an ownership forest, a tombstoned hash
  table and an address-ordered treap. `Runtime` performs the same link surgery on the same
  fields. Each of its methods is proved to do to the five structures together what a short
  function in `RuntimeSpec` does to three maps: frame, owner and size of every live header.
  About those functions it is proved what every call, in any order, keeps, and in
  `RuntimeLaws`, header by header, what each call changes and what it leaves alone.
- **The lowering of control flow** (`Syntax`, `SourceSemantics`, `BasicBlocks`, `Lowering`,
  `WaysOut`, `LoweringGrowth`, `LoweringCorrect`, `LoweringSimulation`, `LoweringInduction`,
  `Generator`). Blocks, loops, switches, break, continue, return and defer become basic blocks
  with push, pop, escape and effect events. The blocks, run by a small machine, have the
  traces of the source statement, in both directions. `Generator` is the code generator as it
  works, field by field; its methods compute the functions of `Lowering`.
- **Consequences of the lowering.** `FrameBalance`: the number of frames at each block is a
  constant of the code. `DeferRecursion`, `DeferExpansion` and `LoweringSucceeds`: when the
  expansion of deferred statements ends and lowering succeeds, exactly. `SourceLaws` and
  `EscapeEvents`: which local a name means, and where the emitted escapes, pops and moves
  leave the allocations when the runtime performs them. `StrayDefers`: defers
  below defers. `DeferScope` and `DeferCapture`: when a deferred statement means
  what it says, exactly. `ScopeEscape`: in programs of allocations, copies, assignments,
  nested blocks, loops, switches, calls and deferred statements no local ever dangles.
- **Growable arrays on top of the runtime** (`BackingBlocks`, `VecGrowth`), with wrapping
  64-bit arithmetic, exact abort conditions and an exact amortized bound.
- **Front-end algorithms** (`Lexing`, `Precedence`, `StructSizes`, `TypeAliases`,
  `TypeLookup`, `TypeSpelling`, `TypeText`) and the handle encoding of the LLVM bridge (`LlvmHandles`).

## How the model is set up

Addresses are naturals and memory is one map per header field, because the source hashes and
orders addresses. The runtime's `malloc` is a parameter of the allocating calls: any block
inside the 64-bit address space that overlaps no live one, or 0 for failure. Conditions of a
program are answered by a function of everything done so far, so a statement about all such
functions covers every outcome. Loops that may go on forever carry fuel; the theorems speak
about every amount of it.

The lowering of deferred statements re-lowers statements that are still registered. The
functions in `Lowering` therefore carry a bound on how deeply deferred statements expand in
one another, and report `Endless` when it is reached. `LoweringPreserves` and
`FramesBalanced` hold for every bound under which lowering succeeds; `ExpansionExactly`
and `SucceedsExactly` say when there is one.

`Shape` in `LoweringGrowth` describes the trees the parser builds (parser.rs:268-431): arms of
`if`, `for` and `switch` are blocks and the initializer of a loop is a simple statement. Any
statement may be deferred, a defer included. A *stray* (`Stray` in `WaysOut`) is the `s` of a
`defer defer s` that is not dead and gets out of itself.

## What the code turned out to do

- A deferred statement that returns, or breaks or continues a loop around itself, sends the
  generator into a recursion without end, as it is still registered while it is expanded. This
  happens if and only if such a way out is not dead code (`SucceedsExactly`, `EndlessExactly`);
  `LoweringPreserves` needs no such condition, since lowering succeeds only where it holds
  (`SuccessIsTame`).
- In `defer defer s` the statement `s` never runs (`NeverRuns`): it is registered while the
  outer defer is expanded, and forgotten at the end of the block. A way out in another
  deferred statement can reach it in between; then the recursion may stop, and the code does
  something else than the source says (`StrayMisleads`). What is said above is about functions
  without such strays; with them it holds as long as no live deferred statement gets out of
  itself.
- A deferred statement is lowered anew at every exit, with the locals of the exit: a deferred
  use of `x` reads an inner `x` if the exit is inside a block that declares one
  (`CaptureMisleads`). Deferred statements mean what they say if and only if no way through
  the function that ends has such an exit (`DefersMeanWhatTheySay`, `CaptureIsShadowing`).
- Reading a type fails when an odd run of closing `>` is directly followed by `=`, as in
  `Vec<a>=v`: the lexer makes `>=` of it and the parser splits `>>` only
  (`SpellingReadBack`, `ListReadBack`, `VecBeforeEquals`).
- "Allocations only move to older frames" is true of the move calls (`MovesNeverRaise`) and
  not of attaching (`AttachRaisesExactly`), and attaching to a younger owner can leave a live
  variable dangling (`YoungerOwnerDangles`).
- The frame bound has two exceptions, given exactly by `BoundedExactly`, and for whole runs by
  `RunBoundedExactly`. What an attach does to the locals is given by `AttachHeldExactly`.
- `yc_realloc` frees not only the old block but everything it owned.
- Growing by doubling stops being cheap at 2^62 elements, where doubling wraps
  (`AmortizedExactly`); a vector whose doubled capacity passes the limit aborts although one
  more element would fit (`Append` with `AskedIs`).
- Clearing a vector one of whose elements owns it frees the vector itself; `SurvivesClear`
  gives the condition.
- A vector that stores the address of its own first element loses its backing block when that
  element is replaced (`OwnAddressReplaced`; `BackingExactly` and `BackingThroughoutExactly`
  say for every call and every run when a block stays where it is). Appending it is harmless.
- On the same tokens, the C++ seed parses what the Rust seed parses, and to the same tree,
  unless there is a `~`, a `*` or `&` in front of a token that does not bind tighter, a reserved
  word as operand or member, or a keyword literal as member (`OnlyRust`, `SeedsAgreeExactly`).
- `Vec.len()` is right exactly below 2^31 elements.

## Model

| member | source | states |
|---|---|---|
| `PointerHash.HashInvertible` | bootstrap/cpp/runtime/yc_runtime.c:52-60 | running the mixer backwards gives the word back, so every xorshift and odd multiplication of it is invertible modulo 2^64 |
| `PointerHash.HashInjective` | bootstrap/cpp/runtime/yc_runtime.c:52-60 | two different 64-bit words never have the same hash; priorities in the treap are distinct |
| `PointerHash.XorShiftInvolutive` | bootstrap/cpp/runtime/yc_runtime.c:54-58 | `x ^= x >> 33` done twice is the identity on 64-bit words |
| `PointerHash.MulInvertible` | bootstrap/cpp/runtime/yc_runtime.c:55-57 | a wrapping multiplication by an odd constant is undone by its inverse |
| `PointerHash.MaskBound` | bootstrap/cpp/runtime/yc_runtime.c:144-147 | masking with a power of two minus one gives a slot number of the table |
| `PointerHash.MaskWraps` | bootstrap/cpp/runtime/yc_runtime.c:147 | one past the last slot masks to slot 0 |
| `Treap.MergeGood` | bootstrap/cpp/runtime/yc_runtime.c:64-73 | merging two treaps in address order keeps address order and hash order and unites their sets |
| `Treap.InsertGood` | bootstrap/cpp/runtime/yc_runtime.c:75-95 | insertion keeps both orders and adds exactly the new address |
| `Treap.RemoveGood` | bootstrap/cpp/runtime/yc_runtime.c:97-106 | removal keeps both orders and takes out exactly that address, or nothing when it is absent |
| `Treap.Canonical` | bootstrap/cpp/runtime/yc_runtime.c:62-106 | two treaps over the same live set are the same tree |
| `Treap.HistoryIndependent` | bootstrap/cpp/runtime/yc_runtime.c:62-106 | the tree depends on the live set alone, whatever sequence of insertions and removals led to it |
| `Treap.SearchIsPredecessor` | bootstrap/cpp/runtime/yc_runtime.c:108-119 | the search loop ends at the greatest header whose payload starts at or below the address |
| `Treap.FindIsScan` | bootstrap/cpp/runtime/yc_runtime.c:108-121 | for disjoint blocks the lookup returns the one block whose payload contains the address, and 0 exactly when no block does |
| `RangeIndex.Index.LinkMerge` | bootstrap/cpp/runtime/yc_runtime.c:64-73 | rewiring the two child words computes Merge and touches no header outside the two trees |
| `RangeIndex.Index.LinkInsert` | bootstrap/cpp/runtime/yc_runtime.c:75-95 | recursive insertion with rotation, word by word, computes Insert |
| `RangeIndex.Index.RaiseLeft` | bootstrap/cpp/runtime/yc_runtime.c:79-84 | the right rotation when the left child outranks the root |
| `RangeIndex.Index.RaiseRight` | bootstrap/cpp/runtime/yc_runtime.c:87-92 | the left rotation when the right child outranks the root |
| `RangeIndex.Index.InsertBelowLeft` | bootstrap/cpp/runtime/yc_runtime.c:78-84 | insertion below the left child word, then the rotation if it is due |
| `RangeIndex.Index.InsertBelowRight` | bootstrap/cpp/runtime/yc_runtime.c:86-92 | insertion below the right child word, then the rotation if it is due |
| `RangeIndex.Index.LinkRemove` | bootstrap/cpp/runtime/yc_runtime.c:97-106 | recursive removal through the child words computes Remove |
| `RangeIndex.Index.Add` | bootstrap/cpp/runtime/yc_runtime.c:457-462 | the header's child words are cleared and it joins the index |
| `RangeIndex.Index.Drop` | bootstrap/cpp/runtime/yc_runtime.c:396 | the header leaves the index; an unknown address changes nothing |
| `RangeIndex.Index.Clear` | bootstrap/cpp/runtime/yc_runtime.c:405-406 | shutdown forgets the tree |
| `RangeIndex.Index.Lookup` | bootstrap/cpp/runtime/yc_runtime.c:108-121 | the search loop and the size test return what Find returns on the tree |
| `Registry.AbsentAtEmpty` | bootstrap/cpp/runtime/yc_runtime.c:296-304 | a probe that reaches an empty slot proves the header is not stored, tombstones or not |
| `Registry.PlaceKeeps` | bootstrap/cpp/runtime/yc_runtime.c:189-195 | storing into the first tombstone or the empty slot keeps every header reachable on its probe path |
| `Registry.EraseKeeps` | bootstrap/cpp/runtime/yc_runtime.c:207-213 | a tombstone keeps every other header reachable |
| `Registry.EmptySlotExists` | bootstrap/cpp/runtime/yc_runtime.c:162 | used * 3 < cap * 2 leaves an empty slot, so each probe ends |
| `Registry.AllStored` | bootstrap/cpp/runtime/yc_runtime.c:137-152 | walking the old table visits every live header exactly once |
| `Registry.Registry.Store` | bootstrap/cpp/runtime/yc_runtime.c:189-195 | one store adds one live header; count and used stay the number of headers and of headers plus tombstones |
| `Registry.Registry.Rehash` | bootstrap/cpp/runtime/yc_runtime.c:143-151 | an entry of the old table goes to the first empty slot of its probe path |
| `Registry.Registry.Resize` | bootstrap/cpp/runtime/yc_runtime.c:123-156 | rebuilding loses no header and drops all tombstones |
| `Registry.Registry.Ensure` | bootstrap/cpp/runtime/yc_runtime.c:158-166 | 1024 slots first, then doubling whenever (used + 1) * 3 reaches cap * 2: an empty slot remains after the insertion |
| `Registry.Registry.Seek` | bootstrap/cpp/runtime/yc_runtime.c:173-194 | the insertion probe finds the header, or the first tombstone, or the empty slot that ended it |
| `Registry.Registry.Add` | bootstrap/cpp/runtime/yc_runtime.c:168-196 | the live set gains the header; one already stored is left where it is |
| `Registry.Registry.Drop` | bootstrap/cpp/runtime/yc_runtime.c:198-217 | the live set loses the header; an unknown one changes nothing |
| `Registry.Registry.Lookup` | bootstrap/cpp/runtime/yc_runtime.c:285-305 | returns the header of a payload address exactly when it is live, else 0 |
| `Registry.Registry.Reset` | bootstrap/cpp/runtime/yc_runtime.c:413-418 | the empty table |
| `LinkedLists.PushIsList` | bootstrap/cpp/runtime/yc_runtime.c:242-253 | pushing at the front gives a doubly linked list of the new header and the old members |
| `LinkedLists.UnlinkIsList` | bootstrap/cpp/runtime/yc_runtime.c:255-270 | unlinking gives a doubly linked list of the remaining members in order, and clears the links of the one taken out |
| `LinkedLists.FamilyPush` | bootstrap/cpp/runtime/yc_runtime.c:242-253 | one list per frame or owner: a push changes that list alone |
| `LinkedLists.FamilyUnlink` | bootstrap/cpp/runtime/yc_runtime.c:255-270 | one list per frame or owner: an unlink changes that list alone |
| `Ownership.NoCycle` | bootstrap/cpp/runtime/yc_runtime.c:319-326 | no header is among its own owners |
| `Ownership.ForestLink` | bootstrap/cpp/runtime/yc_runtime.c:346-356 | linking a root below a header outside its own subtree closes no cycle |
| `Ownership.SubRestricted` | bootstrap/cpp/runtime/yc_runtime.c:385-399 | freeing whole subtrees takes exactly them out of every other subtree |
| `Ownership.RootUnique` | bootstrap/cpp/runtime/yc_runtime.c:312-317 | every header has one root |
| `Ownership.RootExists` | bootstrap/cpp/runtime/yc_runtime.c:312-317 | following owners ends at a root |
| `RuntimeSpec.StepKeeps` | bootstrap/cpp/runtime/yc_runtime.c:401-607 | every call, in any state and order, keeps owner links acyclic, each ownership tree in one frame, and live blocks apart |
| `RuntimeSpec.RunKeeps` | bootstrap/cpp/runtime/yc_runtime.c:401-607 | the same over any sequence of calls |
| `RuntimeSpec.BoundedExactly` | bootstrap/cpp/runtime/yc_runtime.c:401-440 | every live frame number stays at most the current one after a call if and only if the call is not a push that wraps the 32-bit counter over live allocations nor an init over live allocations of a pushed frame |
| `RuntimeSpec.RunBoundedExactly` | bootstrap/cpp/runtime/yc_runtime.c:401-440 | over a whole run: the bound holds after every call if and only if no call of the run is one of those two |
| `RuntimeSpec.MovesNeverRaise` | bootstrap/cpp/runtime/yc_runtime.c:556-594 | the move calls only ever lower frame numbers |
| `RuntimeSpec.AttachRaisesExactly` | bootstrap/cpp/runtime/yc_runtime.c:346-356 | an attach that links raises a frame number if and only if the new owner's frame is younger than the child's |
| `RuntimeSpec.TreeFrame` | bootstrap/cpp/runtime/yc_runtime.c:355 | a whole subtree is in the frame of its top |
| `RuntimeLaws.InsideMeans` | bootstrap/cpp/runtime/yc_runtime.c:307-310 | any address in the payload of a live block, or its start, means that block |
| `RuntimeLaws.OutsideMeans` | bootstrap/cpp/runtime/yc_runtime.c:307-310 | an address in no block means none |
| `RuntimeLaws.StartMeans` | bootstrap/cpp/runtime/yc_runtime.c:285-305 | a payload start means its header; any other address is no block to the calls that take one |
| `RuntimeLaws.AllocLaw` | bootstrap/cpp/runtime/yc_runtime.c:442-464 | one more root of that size in the current frame and everything else as it was; no change on overflow or when malloc fails |
| `RuntimeLaws.ReleaseLaw` | bootstrap/cpp/runtime/yc_runtime.c:385-399 | exactly the block and what it owns, however far down, is gone; every survivor keeps frame, owner and size |
| `RuntimeLaws.ReleaseNothing` | bootstrap/cpp/runtime/yc_runtime.c:496-502 | releasing an address that is no block's start does nothing |
| `RuntimeLaws.ReallocLaw` | bootstrap/cpp/runtime/yc_runtime.c:478-494 | on success the live headers are the old ones less the old block and everything below it, and the new one, a root of that size in the current frame; survivors keep frame, owner and size; on failure nothing changes |
| `RuntimeLaws.ReallocOther` | bootstrap/cpp/runtime/yc_runtime.c:479-485 | of null it allocates, of an address that is no block's start it does nothing |
| `RuntimeLaws.AttachLaw` | bootstrap/cpp/runtime/yc_runtime.c:504-522 | unless the child is the parent or above it: its owner is the parent afterwards, its whole subtree is in the parent's frame, and no other owner or frame changes |
| `RuntimeLaws.AttachNothing` | bootstrap/cpp/runtime/yc_runtime.c:504-554 | attach and replace do nothing if parent or child is no block or both are the same |
| `RuntimeLaws.AttachToOwnerLaw` | bootstrap/cpp/runtime/yc_runtime.c:524-536 | for a parent address anywhere inside a live block: the child hangs below the root of the tree around it, with its subtree in the root's frame, unless it is that root |
| `RuntimeLaws.AttachToOwnerNothing` | bootstrap/cpp/runtime/yc_runtime.c:524-536 | nothing for an address in no block and for a child that is none |
| `RuntimeLaws.ReplaceLaw` | bootstrap/cpp/runtime/yc_runtime.c:538-554 | the old child becomes a root if the parent owned it, the new one hangs below the parent unless it is above it, and nothing else changes |
| `RuntimeLaws.MoveToAncestorLaw` | bootstrap/cpp/runtime/yc_runtime.c:560-574 | the whole tree around any address inside a block is that many frames out, or stays where it is older, frame 0 being the outermost; nothing else moves |
| `RuntimeLaws.MoveToRootLaw` | bootstrap/cpp/runtime/yc_runtime.c:586-594 | the whole tree around the address is in frame 1, or stays in frame 0 |
| `RuntimeLaws.MoveNothing` | bootstrap/cpp/runtime/yc_runtime.c:560-594 | no move for an address in no block |
| `RuntimeLaws.MoveFrameLaw` | bootstrap/cpp/runtime/yc_runtime.c:576-584 | what is in the current frame goes one frame out, and nothing else moves |
| `RuntimeLaws.PushLaw` | bootstrap/cpp/runtime/yc_runtime.c:424-427 | the counter goes up by one, from 2^32 - 1 to 0, and nothing else changes |
| `RuntimeLaws.PopLaw` | bootstrap/cpp/runtime/yc_runtime.c:429-440 | exactly what is in the current frame is gone and the counter goes down by one; nothing in frame 0 |
| `RuntimeLaws.KeptLaw` | bootstrap/cpp/runtime/yc_runtime.c:596-607 | a block allocated and sent to frame 1 is a root there, or in frame 0 if that is the current one |
| `RuntimeLaws.InitShutdownLaw` | bootstrap/cpp/runtime/yc_runtime.c:401-422 | init resets the counter alone, shutdown leaves nothing |
| `Runtime.Runtime.constructor` | bootstrap/cpp/runtime/yc_runtime.c:40-48 | the empty runtime |
| `Runtime.Runtime.FrameHeadsEnsure` | bootstrap/cpp/runtime/yc_runtime.c:219-240 | room for the frame's list head: 64 entries, then doubling, and no change when there is room; the old lists stay and the new ones are empty |
| `Runtime.Runtime.FrameLink` | bootstrap/cpp/runtime/yc_runtime.c:242-253 | the header becomes the head of the list of its frame, other lists unchanged |
| `Runtime.Runtime.PushFrame` | bootstrap/cpp/runtime/yc_runtime.c:246-252 | the same stores once the table has room |
| `Runtime.Runtime.FrameUnlink` | bootstrap/cpp/runtime/yc_runtime.c:255-270 | the header leaves the list of its frame, other lists unchanged |
| `Runtime.Runtime.MoveOne` | bootstrap/cpp/runtime/yc_runtime.c:276-279 | one header changes frame and list |
| `Runtime.Runtime.MoveGraph` | bootstrap/cpp/runtime/yc_runtime.c:272-283 | exactly the subtree of the header is relabelled; the loop and recursion end |
| `Runtime.Runtime.HeaderFromPtr` | bootstrap/cpp/runtime/yc_runtime.c:285-305 | the live header whose payload starts at the pointer, else 0 |
| `Runtime.Runtime.HeaderContaining` | bootstrap/cpp/runtime/yc_runtime.c:307-310 | the live header whose payload contains the pointer, payload start first, else 0 |
| `Runtime.Runtime.OwnerRoot` | bootstrap/cpp/runtime/yc_runtime.c:312-317 | the root of the ownership tree |
| `Runtime.Runtime.IsOwnerAncestor` | bootstrap/cpp/runtime/yc_runtime.c:319-326 | true exactly when the one is the other or among its owners |
| `Runtime.Runtime.DetachOwner` | bootstrap/cpp/runtime/yc_runtime.c:328-344 | the header leaves its owner's child list and becomes a root |
| `Runtime.Runtime.PushChild` | bootstrap/cpp/runtime/yc_runtime.c:346-354 | the header becomes the first child of its new owner |
| `Runtime.Runtime.LinkOwner` | bootstrap/cpp/runtime/yc_runtime.c:346-356 | new owner, and the whole subtree takes the owner's frame, older or younger |
| `Runtime.Runtime.AttachChild` | bootstrap/cpp/runtime/yc_runtime.c:504-522 | nothing for null, foreign or equal pointers, for an existing owner, or when a cycle would close; else the subtree hangs below the parent |
| `Runtime.Runtime.AttachChildToOwner` | bootstrap/cpp/runtime/yc_runtime.c:524-536 | `AttachToOwner` on all five structures; by `AttachToOwnerLaw` the child hangs below the root of the tree around the parent address, start of a block or not |
| `Runtime.Runtime.ReplaceChild` | bootstrap/cpp/runtime/yc_runtime.c:538-554 | detaches the old child only if it belongs to the parent, then attaches the new one |
| `Runtime.Runtime.Link` | bootstrap/cpp/runtime/yc_runtime.c:358-367 | the header becomes the head of the global list |
| `Runtime.Runtime.Unlink` | bootstrap/cpp/runtime/yc_runtime.c:369-383 | the header leaves the global list |
| `Runtime.Runtime.FreeLeaf` | bootstrap/cpp/runtime/yc_runtime.c:393-398 | a childless root leaves all five structures and is freed once |
| `Runtime.Runtime.ReleaseTree` | bootstrap/cpp/runtime/yc_runtime.c:385-399 | frees exactly the subtree of the header, each member once; everything else keeps its place in every structure |
| `Runtime.Runtime.Init` | bootstrap/cpp/runtime/yc_runtime.c:401-403 | resets the frame number and nothing else |
| `Runtime.Runtime.FreeAll` | bootstrap/cpp/runtime/yc_runtime.c:407-412 | frees every member of the global list once |
| `Runtime.Runtime.Shutdown` | bootstrap/cpp/runtime/yc_runtime.c:405-422 | the empty runtime again, each header freed once |
| `Runtime.Runtime.FramePush` | bootstrap/cpp/runtime/yc_runtime.c:424-427 | the next frame, modulo 2^32 |
| `Runtime.Runtime.FramePop` | bootstrap/cpp/runtime/yc_runtime.c:429-440 | frees exactly the allocations of the current frame, each once, and leaves all others and their links alone |
| `Runtime.Runtime.Alloc` | bootstrap/cpp/runtime/yc_runtime.c:442-464 | null on overflow or when malloc fails; else one more root in the current frame, on all five structures |
| `Runtime.Runtime.Calloc` | bootstrap/cpp/runtime/yc_runtime.c:466-476 | null exactly when the product of count and size exceeds SIZE_MAX or the allocation fails |
| `Runtime.Runtime.Realloc` | bootstrap/cpp/runtime/yc_runtime.c:478-494 | `Realloc` on all five structures; by `ReallocLaw` success frees the old block with everything it owns and nothing else, and null leaves everything alone |
| `Runtime.Runtime.ReleasePtr` | bootstrap/cpp/runtime/yc_runtime.c:496-502 | frees the subtree of a live payload pointer, else nothing |
| `Runtime.Runtime.MoveRoot` | bootstrap/cpp/runtime/yc_runtime.c:565-572 | a whole tree takes an older frame |
| `Runtime.Runtime.MoveToAncestor` | bootstrap/cpp/runtime/yc_runtime.c:560-574 | the whole tree around the pointer moves that many frames out, never in |
| `Runtime.Runtime.MoveToRoot` | bootstrap/cpp/runtime/yc_runtime.c:586-594 | the whole tree moves to frame 1 if it is in a younger one |
| `Runtime.Runtime.MoveFrameToParent` | bootstrap/cpp/runtime/yc_runtime.c:576-584 | exactly the allocations of the current frame are relabelled; the loop ends |
| `Runtime.Runtime.KeepString` | bootstrap/cpp/runtime/yc_runtime.c:596-607 | null and no change, or one more root of length + 1 bytes, in frame 1, or in frame 0 if that is the current one |
| `Runtime.Runtime.LiveAllocations` | bootstrap/cpp/runtime/yc_runtime.c:609-611 | the number of live headers, which is allocations minus frees over the whole run |
| `Runtime.Doubled` | bootstrap/cpp/runtime/yc_runtime.c:225-228 | doubling ends with room for the head and, if it grew, at less than twice the need |
| `LoweringInduction.LoweringPreserves` | bootstrap/rust/src/codegen/control.rs:60-377 | for every statement tree, every outcome of the conditions and any nesting bound, if lowering succeeds (and, where there are strays, no live deferred statement gets out of itself): the blocks halt with a trace exactly when the source run ends with it, and never run off a block; deferred statements run once, newest first, on the exit taken |
| `LoweringInduction.FunctionSimulated` | bootstrap/rust/src/codegen/control.rs:4-49 | one source run and one machine run, for each amount of loop fuel |
| `LoweringInduction.Sim` | bootstrap/rust/src/codegen/control.rs:76-377 | each statement's code does what the statement means, and leaves early where the statement does |
| `LoweringInduction.SimReturn` | bootstrap/rust/src/codegen/control.rs:165-203 | the value is evaluated, all deferred statements run, the value escapes, every frame is popped |
| `LoweringInduction.SimJump` | bootstrap/rust/src/codegen/control.rs:355-373 | break and continue run the deferred statements they pass and pop the frames they leave |
| `LoweringInduction.SimBlock` | bootstrap/rust/src/codegen/control.rs:83-104 | a block runs its statements, its own deferred statements, and pops its frame |
| `LoweringInduction.SimIfArms` | bootstrap/rust/src/codegen/control.rs:204-220 | the arm the condition chooses, then the block where both meet |
| `LoweringInduction.SimFor` | bootstrap/rust/src/codegen/control.rs:221-256 | initializer, then condition, body and post expression in turn |
| `LoweringInduction.SimCases` | bootstrap/rust/src/codegen/control.rs:323-354 | the first case with the label, else the last default, else nothing |
| `LoweringInduction.SimExpanded` | bootstrap/rust/src/codegen/control.rs:69-75 | one expanded statement does what it means; a defer among them only registers what stands below it |
| `LoweringInduction.DeferredRuns` | bootstrap/rust/src/codegen/control.rs:69-75 | expanding the registered statements above a mark runs them newest first |
| `LoweringGrowth.LowerKeeps` | bootstrap/rust/src/codegen/control.rs:76-377 | lowering a statement only fills the current block and new ones, and restores depth, loops, locals and defers; only a way out that expands a defer may leave more registered, until its block ends |
| `LoweringCorrect.DepthKept` | bootstrap/rust/src/codegen/control.rs:83-104 | a run never surfaces above the block depth it started at, and ends normally at that depth |
| `LoweringCorrect.OutEnds` | bootstrap/rust/src/codegen/control.rs:69-104 | a run that leaves a statement early does so by a return, break or continue that is not dead in its text, and it never passes the end of a statement whose text stops |
| `LoweringGrowth.StopsCloses` | bootstrap/rust/src/codegen/control.rs:77-79 | lowering a statement whose text stops closes the current block, so that what follows in the list emits nothing |
| `LoweringGrowth.RegistersTame` | bootstrap/rust/src/codegen/control.rs:90-92 | if no live deferred statement of a list gets out of itself, neither does any the list registers |
| `DeferRecursion.SuccessIsTame` | bootstrap/rust/src/codegen/control.rs:69-75 | for every function without strays and every nesting bound: if lowering succeeds, no live deferred statement, nested ones included, contains a live return or a live jump out of itself |
| `DeferRecursion.Succeeds` | bootstrap/rust/src/codegen/control.rs:76-377 | the same for every statement in every state; and unless its text stops, a statement leaves the current block open |
| `DeferRecursion.DeferredTame` | bootstrap/rust/src/codegen/control.rs:69-75 | expanding the registered statements succeeds only if those above the mark do not get out of themselves |
| `DeferRecursion.NotOut` | bootstrap/rust/src/codegen/control.rs:165-203 | where a registered statement with a way out is waiting, a statement with such a way out past it is not lowered without error |
| `DeferExpansion.ExpansionEnds` | bootstrap/rust/src/codegen/control.rs:69-75 | if no live deferred statement gets out of itself, following the expansion as deep as defers are nested in the text is enough |
| `DeferExpansion.ExpansionExactly` | bootstrap/rust/src/codegen/control.rs:69-75 | for every function: if a live deferred statement gets out of itself and there is no stray, lowering fails at every bound; if none does, no bound from the nesting depth on is reached |
| `DeferExpansion.EndlessExactly` | bootstrap/rust/src/codegen/control.rs:69-75 | for every function without strays or another error: expansion fails to end at every bound if and only if a live deferred statement contains a live return or a live jump out of itself |
| `DeferExpansion.WhichRecur` | bootstrap/rust/src/codegen/control.rs:69-75 | `defer return` does; `defer { defer e }` and a return behind a break in a deferred loop do not |
| `LoweringSucceeds.SucceedsExactly` | bootstrap/rust/src/codegen/control.rs:60-377 | for every function without strays whose names are declared before use and whose live jumps stand in loops: lowering succeeds at some bound, and then at every bound from the nesting depth of its defers on, if and only if no live deferred statement gets out of itself |
| `LoweringSucceeds.FunctionLowers` | bootstrap/rust/src/codegen/control.rs:4-49 | the same without regard to strays, in the one direction |
| `LoweringSucceeds.LowerSucceeds` | bootstrap/rust/src/codegen/control.rs:76-377 | each statement of such a function is lowered without error, and leaves the block open unless its text stops |
| `StrayDefers.NeverRuns` | bootstrap/rust/src/codegen/control.rs:101-103 | two functions that differ only in the `s` of their `defer defer s` halt with the same traces: the end of the block forgets `s` before it runs |
| `StrayDefers.SameRun` | bootstrap/rust/src/codegen/control.rs:374 | nor does a run of the source take notice of them |
| `StrayDefers.StrayMisleads` | bootstrap/rust/src/codegen/control.rs:69-75 | a function in which a deferred continue and a stray break meet: it is lowered without error, and its blocks do something else than the source says |
| `DeferScope.FramesHide` | bootstrap/rust/src/codegen/control.rs:69-75 | for every statement, world and fuel: the effects, the end and the locals of a run are those of the late reading, in which frames do not show and a deferred statement sees the locals of the exit |
| `DeferScope.RunsLate` | bootstrap/rust/src/codegen/control.rs:69-75 | the same for a whole function and what its lowered code makes visible |
| `DeferCapture.DefersMeanWhatTheySay` | bootstrap/rust/src/codegen/control.rs:69-75 | for every function: under all worlds and all fuel its runs show what the plain reading says, in which a deferred statement sees the locals of its own place, if and only if no way through the text that ends looks up a name differently in the two readings |
| `DeferCapture.RunsAlong` | bootstrap/rust/src/codegen/control.rs:76-377 | every run that ends, in either reading, goes along one of those ways, and if the way is not split the other reading does the same |
| `DeferCapture.PlanFor` | bootstrap/rust/src/codegen/control.rs:76-377 | every way is taken: some answers to the conditions drive the late reading along it, and on a split way the plain reading then ends with another trace or not at all |
| `DeferCapture.CaptureIsShadowing` | bootstrap/rust/src/codegen/ir.rs:214-216 | at every exit of a block, normal end, return, break or continue: a name means something else than at the deferred statement if and only if a local of that name was declared since, in a scope still open there |
| `DeferCapture.ExitExtends` | bootstrap/rust/src/codegen/ir.rs:214-216 | however a statement ends, the locals before it are still there, behind newer ones |
| `DeferCapture.CaptureMisleads` | bootstrap/rust/src/codegen/ir.rs:214-216 | a program on which the readings part for every answer: a deferred use of an outer variable, a return inside a block that declares one of the same name |
| `DeferCapture.ClosedScopesDoNotCapture` | bootstrap/rust/src/codegen/control.rs:103 | the same with an inner block that is over before the exit: nothing is captured |
| `FrameBalance.FramesBalanced` | bootstrap/rust/src/codegen/control.rs:60-68 | for every world and step, each block is entered with one fixed number of frames, none is popped or escaped past the function's own, and a halted run holds none |
| `FrameBalance.LowerFits` | bootstrap/rust/src/codegen/control.rs:76-377 | each statement's code keeps that number of frames at every block it makes |
| `FrameBalance.JumpFits` | bootstrap/rust/src/codegen/control.rs:355-373 | break and continue arrive with the frames their target expects |
| `FrameBalance.ReturnFits` | bootstrap/rust/src/codegen/control.rs:165-203 | return leaves no frame |
| `FrameBalance.FramesOfEpilogue` | bootstrap/rust/src/codegen/control.rs:60-68 | cleanup pops depth + 1 frames, after escapes of depth + 1 levels |
| `FrameBalance.FramesOfAssign` | bootstrap/rust/src/codegen/control.rs:146-148 | an assignment's escape stays within the function's own frames |
| `Generator.Generator.constructor` | bootstrap/rust/src/codegen/control.rs:8-16 | the entry block, no locals but the parameters |
| `Generator.Generator.Op` | bootstrap/rust/src/codegen/ir.rs:73-76 | one instruction into the current block; an error in a closed one |
| `Generator.Generator.Ops` | bootstrap/rust/src/codegen/control.rs:61-63 | a loop of equal runtime calls |
| `Generator.Generator.Cleanup` | bootstrap/rust/src/codegen/control.rs:185-195 | the events of `Epilogue`, which by `ReturnLands` end in the caller's frame with the value alive |
| `Generator.Generator.RunDeferred` | bootstrap/rust/src/codegen/control.rs:69-75 | the reverse loop over the registered statements, which stay registered |
| `Generator.Generator.Statement` | bootstrap/rust/src/codegen/control.rs:76-377 | for the statements of the model the generator's fields end up as the function Lower says |
| `Generator.Generator.Declaration` | bootstrap/rust/src/codegen/control.rs:105-132 | value, store, and one more local at the current depth |
| `Generator.Generator.Assignment` | bootstrap/rust/src/codegen/control.rs:133-161 | for a plain assignment to a local: the events of `AssignEvents`, which by `AssignLands` move each stored pointer to the frame of the local before it is stored |
| `Generator.Generator.BlockStmt` | bootstrap/rust/src/codegen/control.rs:83-104 | push, statements, deferred statements, pop, and everything truncated to its mark |
| `Generator.Generator.StatementList` | bootstrap/rust/src/codegen/control.rs:90-92 | the statements in order |
| `Generator.Generator.ReturnStmt` | bootstrap/rust/src/codegen/control.rs:165-203 | value, all deferred statements, cleanup, return |
| `Generator.Generator.FindLoop` | bootstrap/rust/src/codegen/control.rs:357-363 | the innermost loop, skipping switches for continue |
| `Generator.Generator.JumpStmt` | bootstrap/rust/src/codegen/control.rs:355-373 | deferred statements above the loop's mark, pops, branch |
| `Generator.Generator.IfStmt` | bootstrap/rust/src/codegen/control.rs:204-220 | three blocks |
| `Generator.Generator.Head` | bootstrap/rust/src/codegen/control.rs:226-245 | four blocks, the condition, and the loop record |
| `Generator.Generator.Tail` | bootstrap/rust/src/codegen/control.rs:247-254 | the post block and the end block |
| `Generator.Generator.ForStmt` | bootstrap/rust/src/codegen/control.rs:221-256 | initializer, head, body, tail, locals truncated |
| `Generator.Generator.CaseBlocks` | bootstrap/rust/src/codegen/control.rs:326-339 | one block for the end and one per case; a later default overrides an earlier one |
| `Generator.Generator.SwitchStmt` | bootstrap/rust/src/codegen/control.rs:323-354 | the table, then each case body in its block |
| `Generator.Generator.FunctionBody` | bootstrap/rust/src/codegen/control.rs:15-45 | entry events, body, and the implicit return |
| `SourceLaws.FindIs` | bootstrap/rust/src/codegen/ir.rs:214-216 | a name stands for the newest local of that name |
| `SourceLaws.DidShows` | bootstrap/rust/src/codegen/ir.rs:214-216 | an evaluation is shown with the declarations that its names stand for where it happens |
| `SourceLaws.ChosenIs` | bootstrap/rust/src/codegen/control.rs:323-354 | a switch takes the first case with the label, else the last default, else none |
| `SourceLaws.EffectsAre` | bootstrap/rust/src/codegen/control.rs:105-164 | evaluations and stores of a trace are its effects, in order; calls into the runtime are not |
| `SourceLaws.LetDeclares` | bootstrap/rust/src/codegen/control.rs:105-132 | a declared local is the newest of its name and belongs to the block depth it is declared at |
| `SourceLaws.BlockHasFrame` | bootstrap/rust/src/codegen/control.rs:83-104 | a block with a frame of its own brackets what it does with one push and one pop, one without does not, and its locals are gone behind it |
| `EscapeEvents.AssignLands` | bootstrap/rust/src/codegen/control.rs:146-148 | performed in the runtime, the events of an assignment leave every stored pointer alive in the frame of the local or an older one, with the whole tree around it in exactly the older of the two frames, and nothing else moved; the value is evaluated first and stored last |
| `EscapeEvents.ReturnLands` | bootstrap/rust/src/codegen/control.rs:165-203 | performed in the runtime, the events of a return end in the caller's frame with the value's pointers alive there; exactly their trees and what was older are left, and for an aggregate what was in the function's own frame if no inner block was open; main leaves nothing at all |
| `EscapeEvents.EntryLands` | bootstrap/rust/src/codegen/control.rs:15-19 | main starts in frame 1, any other function one frame further in, and nothing is moved or freed |
| `EscapeEvents.FramesAreCurrent` | bootstrap/rust/src/codegen/control.rs:60-104 | the frames that `FramesBalanced` counts are the ones the runtime has pushed: after any trace the current frame is that many above the caller's |
| `EscapeEvents.LeaveIsEpilogue` | bootstrap/rust/src/codegen/control.rs:165-203 | leaving a function in `ScopeEscape` is what the emitted cleanup does |
| `EscapeEvents.AssignIsEvents` | bootstrap/rust/src/codegen/control.rs:146-148 | an assignment in `ScopeEscape` is what the emitted assignment does |
| `ScopeEscape.AllSafe` | bootstrap/rust/src/codegen/control.rs:83-203 | at any nesting of blocks, loops, switches, calls and deferred statements: every local of a block at depth d is null or points to a live allocation in frame base + 1 + d or older, and nothing the enclosing blocks can see is freed |
| `ScopeEscape.NothingDangles` | bootstrap/rust/src/codegen/control.rs:83-203 | the same for a function call seen from its caller: after cleanup everything the caller could see is still live, and so is the result, in the caller's frame |
| `ScopeEscape.StmtSafe` | bootstrap/rust/src/codegen/control.rs:105-203 | each statement keeps it, break, continue and return included |
| `ScopeEscape.DeferSafe` | bootstrap/rust/src/codegen/control.rs:69-75 | deferred statements run between the value of a return and its escape, and leave that value alive |
| `ScopeEscape.SwitchSafe` | bootstrap/rust/src/codegen/control.rs:323-354 | a break out of inner blocks of a case pops their frames and keeps the outer locals alive |
| `ScopeEscape.EvalSafe` | bootstrap/rust/src/codegen/control.rs:165-203 | a value is null or alive in the current frame; a call returns with the caller's frame current |
| `ScopeEscape.AssignSafe` | bootstrap/rust/src/codegen/control.rs:146-148 | a value stored in an outer local is first moved to that local's frame |
| `ScopeEscape.BlockSafe` | bootstrap/rust/src/codegen/control.rs:83-104 | a block's pop frees nothing an outer local points to |
| `ScopeEscape.RoundsSafe` | bootstrap/rust/src/codegen/control.rs:221-256 | neither does any number of loop rounds, nor a break out of inner blocks |
| `ScopeEscape.LeaveGood` | bootstrap/rust/src/codegen/control.rs:185-195 | escape by depth + 1, aggregate move and depth + 1 pops leave the result alive in the caller's frame |
| `ScopeEscape.MoveLands` | bootstrap/cpp/runtime/yc_runtime.c:560-574 | after a move by n levels the pointer's block is at least n frames out |
| `ScopeEscape.AttachHeldExactly` | bootstrap/cpp/runtime/yc_runtime.c:346-356 | an attach that links keeps every local alive if and only if each local that points into the child's tree is to last no longer than the new owner's frame |
| `ScopeEscape.YoungerOwnerDangles` | bootstrap/cpp/runtime/yc_runtime.c:346-356 | attaching to an owner in a younger frame leaves an outer local pointing to a freed block: a concrete program |
| `BackingBlocks.GrowFreesOnlyOld` | bootstrap/rust/src/codegen/collections.rs:107-140 | new block, replace-child, release: of everything alive exactly the old block is freed, and the new one belongs to the header in its frame |
| `BackingBlocks.LeafAlone` | bootstrap/rust/src/codegen/collections.rs:65 | a block that owns nothing is its whole subtree |
| `BackingBlocks.BackingStays` | bootstrap/rust/src/codegen/collections.rs:65 | no call that does not name the block makes it an owner while it lives: field stores attach to roots, and it is never one |
| `BackingBlocks.BackingExactly` | bootstrap/rust/src/codegen/collections.rs:65 | per call: the block stays a leaf with an owner if and only if the call hangs nothing live below it, unless the block is below that, and no replacement takes it from its owner without giving it back |
| `BackingBlocks.OwnAddressReplaced` | bootstrap/rust/src/codegen/control.rs:149-161 | the address of the first element, stored in the vector and overwritten by another pointer: the block is no longer below its header |
| `BackingBlocks.BackingThroughoutExactly` | bootstrap/rust/src/codegen/collections.rs:65 | over any run: the block stays a leaf with an owner for as long as it lives if and only if every call spares it |
| `BackingBlocks.BackingStaysInRun` | bootstrap/rust/src/codegen/collections.rs:65 | the same over any run of calls |
| `BackingBlocks.ElementAttached` | bootstrap/rust/src/codegen/collections.rs:178-181 | attaching an element to the header leaves the backing block a leaf |
| `BackingBlocks.SurvivesClear` | bootstrap/rust/src/codegen/collections.rs:235-245 | a live block survives the release of all elements if and only if none of them owns it |
| `VecGrowth.Vec.ArrayNew` | bootstrap/rust/src/codegen/collections.rs:4-67 | aborts exactly for a negative capacity, more than 2^63 - 1 bytes, or a failed allocation; else an empty vector of that capacity with its block below its header |
| `VecGrowth.Vec.ArraySlot` | bootstrap/rust/src/codegen/collections.rs:68-79 | aborts exactly outside the contents, else reads the element |
| `VecGrowth.Vec.Reserve` | bootstrap/rust/src/codegen/collections.rs:80-144 | aborts exactly for a negative request, more than 2^63 - 1 bytes, or a failed allocation; contents unchanged, capacity the greater of the two, old block exchanged only when it grows |
| `VecGrowth.Vec.Append` | bootstrap/rust/src/codegen/collections.rs:145-187 | aborts exactly when full and what it asks for is negative, more than 2^63 - 1 bytes, or not to be had; else the contents with one element more, its index truncated to 32 bits, and a pointer attached to the header |
| `VecGrowth.Vec.Length` | bootstrap/rust/src/codegen/collections.rs:205-208 | the truncated length is right exactly below 2^31 elements |
| `VecGrowth.Vec.Clear` | bootstrap/rust/src/codegen/collections.rs:222-249 | contents empty, slots null, capacity kept, each element released in turn |
| `VecGrowth.LimitExactly` | bootstrap/rust/src/codegen/collections.rs:91-99 | a count passes the limit if and only if that many elements take more than 2^63 - 1 bytes |
| `VecGrowth.WrapsModulo` | bootstrap/rust/src/codegen/collections.rs:151-169 | the wrapped number is the one in the signed range that differs by a multiple of 2^64, or 2^32 |
| `VecGrowth.AskedIs` | bootstrap/rust/src/codegen/collections.rs:151-169 | what a full vector asks for: 1, then twice as much, one more once doubling wraps, and -2 at the greatest capacity |
| `VecGrowth.AmortizedExactly` | bootstrap/rust/src/codegen/collections.rs:145-179 | n pushes into an empty vector copy at most 2n elements if and only if n <= 2^62 + 1 |
| `VecGrowth.WideElementsAmortized` | bootstrap/rust/src/codegen/collections.rs:91-99 | for elements of two bytes or more the bound always holds: the limit aborts first |
| `VecGrowth.CallocIsAlloc` | bootstrap/rust/src/codegen/collections.rs:108-114 | the requested byte count does not wrap |
| `Precedence.ClimbingIsDescending` | bootstrap/rust/src/parser.rs:432-457 | for every token sequence and level, climbing from a bound and descending through the level functions give the same tree, remainder and failures |
| `Precedence.Groups` | bootstrap/cpp/src/parser/parser.cpp:720-840 | with the ten sets of operators written out: between any operands `a op1 b op2 c` groups to the right if and only if op2's set is the tighter, in both parsers |
| `Precedence.GroupsFor` | bootstrap/rust/src/parser.rs:436-448 | `1 + 2 * 3` is `1 + (2 * 3)`, and `-x.f + y` is `(-(x.f)) + y` |
| `Precedence.NextOnLevel` | bootstrap/cpp/src/parser/parser.cpp:720-840 | the bounds of the Rust seed and the level functions of the C++ seed, listed apart, sort the operators alike |
| `Precedence.WordRead` | bootstrap/cpp/src/parser/parser.cpp:1104-1118 | a word alone is one of three values, nothing to the C++ seed if it is one of 22 others, or a name |
| `Precedence.MemberIs` | bootstrap/cpp/src/parser/parser.cpp:1039-1045 | a word behind a dot is a member, or nothing to the C++ seed if it is one of its 25 keywords |
| `Precedence.SameOperand` | bootstrap/rust/src/parser.rs:458-607 | looking for suffixes again after a prefix operator changes nothing |
| `Precedence.SeedsAgree` | bootstrap/cpp/src/parser/parser.cpp:720-922 | whatever the C++ seed parses, the Rust seed parses to the same tree and remainder |
| `Precedence.SeedsAgreeExactly` | bootstrap/cpp/src/parser/parser.cpp:720-1281 | where the Rust seed parses all of the tokens to a tree, the C++ seed parses the same tokens to the same tree if and only if, where operands begin, there is no `~`, no `*` or `&` whose next token does not bind tighter and no reserved word, and behind a dot no reserved word and no keyword literal |
| `Precedence.OnlyRust` | bootstrap/cpp/src/parser/parser.cpp:842-860 | `*1`, `~x`, the operand `if` and the member `true` are expressions to the Rust seed alone |
| `Precedence.BothAlike` | bootstrap/cpp/src/parser/parser.cpp:1104-1118 | `*true` and `&none` are read alike by both, and `Vec<` is an operand to neither |
| `Precedence.ParsesTheGrammar` | bootstrap/rust/src/parser.rs:432-457 | climbing parses a whole token sequence to a tree if and only if the left-associative ten-level grammar, with its levels and prefix operators listed on their own, derives it with that tree |
| `Precedence.DescentParsesTheGrammar` | bootstrap/cpp/src/parser/parser.cpp:720-840 | the same for the level functions of the C++ parser |
| `Precedence.TreeIsUnique` | bootstrap/rust/src/parser.rs:432-457 | no token sequence has two trees |
| `Precedence.Read` | bootstrap/rust/src/parser.rs:432-457 | every phrase of the grammar is read back, in front of anything that does not bind tighter |
| `Precedence.SoundClimb` | bootstrap/rust/src/parser.rs:432-457 | everything read is a phrase of the grammar, of the level asked for |
| `Precedence.Parser.Take` | bootstrap/rust/src/parser.rs:41-48 | advances over the token if it is there |
| `Precedence.Parser.Expr` | bootstrap/rust/src/parser.rs:432-457 | the loop computes Climb, which by `ParsesTheGrammar` reads the grammar and by `Groups` groups by the ten sets |
| `Precedence.Parser.PrimaryExpr` | bootstrap/rust/src/parser.rs:458-539 | prefix operators, parentheses, words |
| `Precedence.Parser.Loop` | bootstrap/rust/src/parser.rs:540-606 | suffixes while there are any |
| `Precedence.Parser.Suffixed` | bootstrap/rust/src/parser.rs:568-577 | one turn of that loop |
| `Precedence.Parser.Descend` | bootstrap/cpp/src/parser/parser.cpp:720-840 | each level's loop, with its own operators, computes Level, which by `DescentParsesTheGrammar` reads the same grammar |
| `Precedence.Parser.UnaryExpr` | bootstrap/cpp/src/parser/parser.cpp:842-860 | prefix operators, without suffixes after them |
| `Precedence.Parser.PostfixOn` | bootstrap/cpp/src/parser/parser.cpp:994-1051 | suffixes while there are any |
| `Precedence.Parser.OnePostfix` | bootstrap/cpp/src/parser/parser.cpp:1022-1045 | one turn of that loop |
| `Lexing.LexExactly` | bootstrap/rust/src/lexer.rs:9-163 | for every text: the lexer returns a list of tokens if and only if the text is cut into gaps and these lexemes, with their lines and columns and the empty last token at the end; it fails exactly where no such cut exists |
| `Lexing.CommentExactly` | bootstrap/rust/src/lexer.rs:41-62 | counting openers and closers ends at j if and only if the text from i to j is one comment of the grammar of nested comments, and fails if and only if there is none |
| `Lexing.GapExactly` | bootstrap/rust/src/lexer.rs:31-62 | what is skipped is exactly a blank, the rest of a line behind `//`, or one balanced comment |
| `Lexing.LexemeExactly` | bootstrap/rust/src/lexer.rs:63-150 | what is taken is exactly a longest word, a numeral, a closed quoted text, or the longest operator |
| `Lexing.NumberExactly` | bootstrap/rust/src/lexer.rs:67-100 | longest digit runs, a fraction only before a digit, an exponent only with digits |
| `Lexing.QuoteExactly` | bootstrap/rust/src/lexer.rs:110-128 | the closing quote is the end of a text of escapes and other characters |
| `Lexing.OperatorExactly` | bootstrap/rust/src/lexer.rs:140-149 | the length taken is that of the longest listed operator that stands there, or one |
| `Lexing.OperatorsAre` | bootstrap/rust/src/lexer.rs:141-144 | the listed operators are `...`, `:=`, the two arrows, nine characters with `=` behind them, and six doubled |
| `Lexing.ClassesAre` | bootstrap/rust/src/lexer.rs:63-66 | digits, letters and word characters, one by one |
| `Lexing.StartsIs` | bootstrap/rust/src/lexer.rs:35-36 | a text starts somewhere if its characters stand there |
| `Lexing.InOrder` | bootstrap/rust/src/lexer.rs:9-163 | tokens are in order, not empty and do not overlap, and carry the line and column of their start |
| `Lexing.PlaceRecounts` | bootstrap/rust/src/lexer.rs:13-21 | the line is one more than the newlines before, the column the distance to the last of them |
| `Lexing.Lexer.Advance` | bootstrap/rust/src/lexer.rs:13-21 | the next character, with its line and column |
| `Lexing.Lexer.AdvanceTo` | bootstrap/rust/src/lexer.rs:147-149 | a loop of single steps |
| `Lexing.Lexer.SkipLine` | bootstrap/rust/src/lexer.rs:35-40 | to the end of the line |
| `Lexing.Lexer.SkipComment` | bootstrap/rust/src/lexer.rs:41-62 | past the end of a nested comment, or an error if it is not closed |
| `Lexing.Lexer.Word` | bootstrap/rust/src/lexer.rs:63-66 | to the end of the word |
| `Lexing.Lexer.Whole` | bootstrap/rust/src/lexer.rs:67-76 | digits, separators, and letters behind 0x and 0b |
| `Lexing.Lexer.Digits` | bootstrap/rust/src/lexer.rs:84-86 | to the end of the digits |
| `Lexing.Lexer.NumberToken` | bootstrap/rust/src/lexer.rs:67-100 | integers, fractions and exponents |
| `Lexing.Lexer.Quote` | bootstrap/rust/src/lexer.rs:112-128 | past the closing quote, with escapes |
| `Lexing.Lexer.QuotedToken` | bootstrap/rust/src/lexer.rs:101-138 | strings, raw strings, and characters of one byte |
| `Lexing.Lexer.OneToken` | bootstrap/rust/src/lexer.rs:63-150 | the token that stands here |
| `Lexing.Lexer.Lex` | bootstrap/rust/src/lexer.rs:22-162 | the whole text computes LexFrom, and every turn of the loop moves on |
| `StructSizes.SizeCheck.Check` | bootstrap/rust/src/codegen/mod.rs:229-249 | on success the struct is sized and the path restored; a failure means some struct contains itself |
| `StructSizes.SizeCheck.CheckAll` | bootstrap/rust/src/codegen/mod.rs:166-169 | accepts if and only if no struct contains itself by value through any chain of fields, and then all structs are ranked above what they hold |
| `StructSizes.RankedIsFinite` | bootstrap/rust/src/codegen/mod.rs:229-249 | a ranked struct does not contain itself |
| `TypeAliases.ResolveExactly` | bootstrap/rust/src/codegen/mod.rs:225-227 | for every well-formed project and type: the answer, or any other error, is that of plain unfolding, and the cycle error comes if and only if unfolding never ends |
| `TypeAliases.ResolvedHasNoNames` | bootstrap/rust/src/codegen/mod.rs:282-319 | a successful answer has no named part |
| `TypeAliases.ResolveUnfolds` | bootstrap/rust/src/codegen/mod.rs:282-319 | an answer other than the cycle error is reached by unfolding finitely many aliases |
| `TypeAliases.CycleShrinks` | bootstrap/rust/src/codegen/mod.rs:302-305 | the cycle error and a finite unfolding exclude each other |
| `StructSizes.InfiniteIsCycle` | bootstrap/rust/src/codegen/mod.rs:229-249 | some struct contains itself if and only if a chain of by-value fields comes back to where it began |
| `TypeLookup.LookupExactly` | bootstrap/rust/src/codegen/mod.rs:251-303 | for every well-formed project and name: a qualified name means what the imported module exports, a bare one a type of its own module, exported or not, else the only one the imports export; it is ambiguous if and only if those offer two |
| `TypeLookup.TypeInExactly` | bootstrap/rust/src/codegen/mod.rs:251-280 | what a module offers under a name: the type declared in the first of its files that declares it within reach |
| `TypeAliases.AmbiguousExactly` | bootstrap/rust/src/codegen/mod.rs:292-299 | a bare name is ambiguous if and only if the imports offer two different types of it |
| `TypeAliases.LookupTarget` | bootstrap/rust/src/codegen/mod.rs:251-280 | owner and bare name fix the target, however the name was spelled |
| `TypeAliases.Resolver.FindType` | bootstrap/rust/src/codegen/mod.rs:251-280 | the first visible declaration of the name in the module's files |
| `TypeAliases.Resolver.FindName` | bootstrap/rust/src/codegen/mod.rs:284-301 | qualified names through the import, bare ones in the module first and then in all imports |
| `TypeAliases.Resolver.ResolveType` | bootstrap/rust/src/codegen/mod.rs:282-319 | computes Resolve and, on success, restores the path |
| `TypeText.SpellingReadBack` | bootstrap/rust/src/parser.rs:74-110 | for every nesting of pointers, slices, Vec and Map and every text around its spelling: lexing from there and reading gives the type and leaves exactly the tokens of the text behind it if and only if a name is not continued and an odd run of closing `>` is not followed by `=`, `>>` or `>=` |
| `TypeText.ListReadBack` | bootstrap/rust/src/parser.rs:74-110 | behind a parameter list: reading fails if the closing run is odd and an adjacent `=` follows, and otherwise gives the type |
| `TypeText.VecBeforeEquals` | bootstrap/rust/src/parser.rs:74-83 | `Vec<a>=v` lexes, and its type is not read |
| `TypeText.LexPieces` | bootstrap/rust/src/lexer.rs:140-149 | the pieces of a spelling written one behind the other are lexed as themselves, but for pairs of `>` |
| `TypeText.NameGoesOn` | bootstrap/rust/src/lexer.rs:63-66 | word characters behind a spelled name make it another name, so its type is not read back |
| `TypeSpelling.TypeRoundTrip` | bootstrap/rust/src/parser.rs:84-110 | on tokens: the lexed spelling in front of any tokens is read as the type, leaving exactly them, if and only if a type that ends in a name is not followed by `.` or `<` |
| `TypeSpelling.ReadAlike` | bootstrap/rust/src/parser.rs:84-109 | `&` stands for `*`, `owned` in front says nothing, and every list but that of `Vec` is read as that of `Map` |
| `TypeSpelling.HalfLeft` | bootstrap/rust/src/parser.rs:74-83 | when the last `>` is joined with one behind it, reading splits the token and leaves the other half |
| `TypeSpelling.Unclosed` | bootstrap/rust/src/parser.rs:74-83 | any other token in the place of the last `>` is an error |
| `TypeSpelling.Reads` | bootstrap/rust/src/parser.rs:84-110 | the type is read however the closing `>` are grouped |
| `TypeSpelling.Closes` | bootstrap/rust/src/parser.rs:74-83 | closing a list takes one `>`, out of a `>>` if need be |
| `TypeSpelling.FlatLexed` | bootstrap/rust/src/lexer.rs:140-149 | inside a spelling longest match groups the `>` and changes nothing else |
| `TypeSpelling.TypeReader.Gt` | bootstrap/rust/src/parser.rs:74-83 | takes a `>` or rewrites a `>>` in place |
| `TypeSpelling.TypeReader.ReadType` | bootstrap/rust/src/parser.rs:84-97 | computes Typ on the token array it rewrites |
| `TypeSpelling.TypeReader.Dots` | bootstrap/rust/src/parser.rs:93-97 | the loop over a dotted name |
| `TypeSpelling.TypeReader.ReadNamed` | bootstrap/rust/src/parser.rs:93-109 | names and parameter lists; a list behind any name but Vec makes a map |
| `LlvmHandles.HandlesDistinct` | bootstrap/rust/src/llvm_bridge.cc:57-65 | no handle is issued twice across sessions, tables and entries |
| `LlvmHandles.HandleFields` | bootstrap/rust/src/llvm_bridge.cc:57-73 | 32 bits of session, 30 of index, and 1, 2 or 3 for types, values and blocks |
| `LlvmHandles.Unpacks` | bootstrap/rust/src/llvm_bridge.cc:64-79 | 32, 30 and 2 bits do not spill into each other under the limits |
| `LlvmHandles.OrAdds` | bootstrap/rust/src/llvm_bridge.cc:64 | the shifted fields are disjoint, so the `or` is a sum |
| `LlvmHandles.Session.Add` | bootstrap/rust/src/llvm_bridge.cc:57-65 | 0 for no object, an error for a full table, else a new handle for the appended entry |
| `LlvmHandles.Session.Get` | bootstrap/rust/src/llvm_bridge.cc:74-80 | succeeds if and only if this session issued the handle for this table, with the object stored |
| `LlvmHandles.Bridge.NewSession` | bootstrap/rust/src/llvm_bridge.cc:34-37 | a fresh session number, or an error past 2^32 - 1 |

## Left out

- The file system, process, time and argument helpers of the runtime (yc_runtime.c from line 613 on): input and output.
- Payload bytes: `memset`, `memcpy` and what fields of allocated structures point to. `ScopeEscape` is about pointers held in local variables only; a pointer stored in a field may outlive what it points to when its target is later attached elsewhere.
- The magic word of a header: the registry holds live headers only, so the test always succeeds on what is found there.
- Failure to allocate the runtime's own tables (registry and frame heads): only `malloc` of user blocks can fail in the model.
- Stale link words of freed headers: the source clears some and frees the memory; the model removes or ignores them.
- Reuse of a freed address by a pointer kept from before; `BackingStaysInRun` asks that the block's address is not handed out again.
- `StepKeeps` takes `malloc` results that satisfy `Fits`; a broken allocator is not modelled.
- Expressions in the lowering are opaque: an identity and the names they mention. Compound assignment, increments, stores through fields, indexes and pointers, and short-circuit operators are not in `Syntax`.
- `ForIn`, which has the block structure of `For` with an index the compiler makes, and the check that a non-void function contains a return.
- Assignment to a constant, type errors, and other errors raised by expression lowering; the model knows unknown names and jumps outside loops.
- `Statement`: for-in, compound assignment and stores through fields, indexes and pointers are not among the statements of the model; and the source stops at the first error with `?`; the model goes on without emitting anything, which leaves the same code and the same error.
- `Assignment`: compound operators, places other than a local, and the attach or replace calls they emit.
- `EndlessExactly`: about functions without strays or any other error; the first error stops the generator, so one that comes before the recursion hides it. `ExpansionExactly` and `SucceedsExactly` need no assumption about what lowering reports.
- `SucceedsExactly`: for functions with strays only the one direction is proved (`FunctionLowers`); the other is false of the code (`StrayMisleads`).
- Malformed code stops the model as an error; the source's generator would emit it and leave it to the LLVM verifier.
- Pointers loaded from fields, and pointers into the middle of a block held by locals, in `ScopeEscape`; its runs are a semantics of their own over `RuntimeSpec`, tied to the emitted events at assignments and returns (`AssignIsEvents`, `LeaveIsEpilogue`).
- `ScopeEscape` stops a run before the 32-bit frame counter would wrap.
- Struct-valued elements in `VecGrowth` that hold several pointers, `as_slice`, `capacity`, and `&` of an element.
- `Clear`: asks that no element owns the vector or is its backing block; otherwise the source goes on in memory it has freed. `SurvivesClear` says which blocks are gone then.
- Calls, array, `Vec` and struct literals in `Precedence`, which the two parsers treat differently; a call or array literal makes the model's parsers fail. The arena in which the Rust parser stores its nodes is modelled by the trees themselves, and source positions are dropped. The C++ lexer's choice between its two tokens for `*` and `&` is made from the first character of the next token; a comment in between, at which the source looks instead, is not in the token list.
- The two seeds' lexers, beyond how the C++ one tells its `*` and `&` tokens apart: they cut some texts differently (`<-`, `=>`, numbers), and `SeedsAgreeExactly` is about the same tokens. Integer literals that are out of range, which only the Rust parser rejects, are not told apart from others.
- `SeedsAgree`: a name in front of a `{` is read as a name and the rest left; the parsers may begin a struct literal there.
- `PrimaryExpr`: array, `Vec` and struct literals fail in the model.
- `Loop`: calls fail in the model, and struct literals are read up to their `{`.
- `UnaryExpr`: array literals fail in the model.
- `PostfixOn`: calls fail in the model.
- `OnePostfix`: a call fails in the model.
- `OnlyRust`: four inputs; `SeedsAgreeExactly` has the condition for all.
- `SpellingReadBack`: spellings are written without spaces, with `*` for a pointer and without `owned`.
- `TypeRoundTrip`: type names are paths of words; the table of built-in names, under which two spellings can mean the same type, is not part of this model.
- Bytes in `Lexing` are characters; a character literal is measured by counting decoded bytes, which for valid UTF-8 has the same outcome as the source's decoded string.
- `ResolveExactly` takes a project in which no file declares a name twice, which the generator checks before it resolves anything.
- `NewSession`: the 64-bit session counter itself does not wrap in the model.
- LLVM itself, floating point, module loading, symbol names, the command line, linking, and the editor tooling.
- `BackingStays`: about calls that do not name the block, where no look at the state is needed; `BackingExactly` is the full statement.
- `BackingStaysInRun`: the same over runs; `BackingThroughoutExactly` is the full statement.
