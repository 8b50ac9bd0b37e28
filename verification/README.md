# A verified model of handlebars.c

Dafny proofs about the hard parts of handlebars.c, a C implementation of the Handlebars
template language: its hash map, its compiler, its delimiter preprocessor, its two module
caches, its syntax-tree list with path building, and its expression printer. Every file
verifies with Dafny 4.11; `dafny verify dfyconfig.toml` checks the whole project.

## What is modelled

**The insertion-ordered hash map** (`HashMap.dfy`, `OpenAddressing.dfy`, `MapCapacity.dfy`,
`MapShape.dfy`, `SortR.dfy`, `AssocList.dfy`, `MapRuns.dfy`, `Sharing.dfy`). A class with the entry vector and the slot table as
arrays, linear probing, tombstones that are never reused, the one-byte saturating reference count,
copying on growth and on write, and sorting in place. It is proved to follow an insertion-ordered
association list through any run. The mutual recursion of rehash, copy and add terminates because a
copy has room: a load factor above 60 already means that the vector is full, also when `i * 100`
is computed in 32 bits. As in the source, keys are equal if length and hash agree.
Copying on write needs the iteration flag to be down: while a shared map is being iterated over it is
written in place. Each operation says exactly when other holders keep what they had, two holders are
followed through any interleaving (`Sharing.RunShared`), and `Sharing.WriteThroughIteration` is the
exception at a concrete map.

**The in-memory cache** (`CacheSimple.dfy`, `CacheRuns.dfy`). Collection, lookup, insertion and reset
on top of that map. A failed insertion may already have replaced and freed the map the cache still
points at; `CacheAdd` says exactly when the cache survives, `FullCacheLosesItsMap` shows one that does not,
and a run stops at such an add and at nothing else. What a collection drops is also said in numbers, of
ages, entries and sizes (`CacheSimple.EvictedInNumbers`, `CacheRuns.CollectionInNumbers`).

**The shared-memory cache** (`Arena.dfy`, `CacheMmap.dfy`, `MmapRuns.dfy`, `MmapNumbers.dfy`). A bump allocator over a cell
array, a direct-mapped table inside it and the reader count, each operation one atomic step. The class is
proved to follow a function of its operations through any run. The stale branch is included: it returns the
module but takes no reference, yet `execute_template` in `src/handlebars_vm.c` gives back every module it
found. The reader count is right if and only if no find hit a stale module; then every module in use stays
intact, and only then: one stale hit is enough for a reset to go ahead under a reader
(`MmapRuns.ReadersSafeExactly`, at a concrete run `MmapRuns.StaleHitLosesAModule`). `MmapNumbers` says what each
operation does in numbers: hashes modulo slots, versions and ages, bytes and room.

**The compiler** (`Ast.dfy`, `CodeGen.dfy`, `NodeStack.dfy`, `Compiler.dfy`, `ProgramTree.dfy`, `Vm.dfy`, `Eval.dfy`,
`Meaning.dfy`, `Scoping.dfy`, `Slots.dfy`, `Safety.dfy`, `Lookups.dfy`, `Policies.dfy`, `Witness.dfy`, `Exactness.dfy`,
`KnownBlocks.dfy`, `Builtins.dfy`, `Divergence.dfy`, `Dispatch.dfy`, `Listing.dfy`, `Contexts.dfy`, `StmtRuns.dfy`,
`BuiltinRuns.dfy`). `Compiler.Compiler` is the compiler as it runs: opcode list, child list,
result flags, number counter and the two stacks it shares with its sub-compilers, for block parameters and for
source nodes. It is proved to emit what the functions of `CodeGen` describe. The guard on the node stack
(`src/handlebars_compiler.c:1370`) asks for more than there is, so a 65th node is written past the end before the
guard throws; `Compile` says exactly when that happens, and that the guard on the other stack (line 694) never
fires. `Vm` gives each opcode its effect as `src/handlebars_vm.c` implements it; helpers,
lookups, lambdas and printing of values are parameters, and a helper may render its blocks any number of
times with any context, data and block parameters, depending on its call and the texts it got so far. `Eval` evaluates
the syntax tree directly, and knows two ways to find a block parameter: by name, in the innermost program that
declares it, which is what a template means; and by slot, on the machine's stack of parameters, counted as the
compiler counts. `Meaning.TemplateMeaning` says that running a compiled template is evaluating it by slot, for every
template that swaps no partial and all helpers. What is left is when by slot is by name. Fuel bounds how often
callees render, on all sides alike.

Two properties one would expect fail, each with the exact condition under which it holds:

- The machine stacks block parameters only for programs that are given some, the compiler counts every
  enclosing program. `{{#with x as |a|}}{{#if a}}{{{a}}}{{/if}}{{/with}}` loses `a`, because `if` hands over
  none (`Divergence.LostParameter`). A lookup is right, for all values, if and only if its program and every
  program inside it was given parameters (`Slots.LookupExact`). `Safety.SafeProgram` asks this of every lookup of
  a template under given helpers, for program and inverse separately: `with` and `each` give parameters to the
  one and not to the other. `Policies.SafeBy` decides it from the template and a table of what callees hand over;
  the table of the built-in helpers is proved (`Builtins.BuiltinMeaning`). The check is exact: a template passes
  if and only if all helpers that keep to the table run it as it is meant (`Exactness.PolicyExact`). That holds
  for templates without decorators, which always throw, and without a key that comes twice in one hash, whose
  second value nobody sees (`Exactness.RepeatedKeyHides`).
- Under explicit partial contexts, a partial with a computed name and no context pushes the two in the
  wrong order; both orders mean the same if and only if the name is null (`Meaning.SwappedPartialMeaning`,
  `Divergence.SwappedTemplate`).

The theorem ties two readings of a template to each other; what both have in common is fixed by laws of its own, from
the text of the template to the run. `Dispatch` says from name, arguments, enclosing programs and options which callee
a call asks for, and that a run asks for an ambiguous name exactly then (`Dispatch.AskedExactly`). `Contexts` says what
`..` means: the context of the program entered so many levels further out (`Contexts.NthEnclosing`). `Listing` gives
opcodes in full, literals and result flags; `StmtRuns` and `BuiltinRuns` say what parameters, partials, raw blocks and the
built-in block helpers write.

`block_value` and `invoke_partial` push nothing although an `append` follows; `append` ignores an
empty stack, so statements are neutral from the empty stack they always start from
(`Meaning.StmtMeaning`, `Meaning.AppendTakesTheNext`), and expressions from any stack.

**The delimiter preprocessor** (`Delimiters.dfy`, `Rendering.dfy`, `Tags.dfy`). The scanner with its states, proved to
compute a recursive reading of the template, and that reading proved to undo a renderer of documents made
of text, tags and delimiter switches (the Set Delimiter section of mustache(5)). The rewritten template is also
read as the scanner of templates would: its tags name the new delimiters, opening one first, exactly if every
backslash in them stands in front of a quote and none at their end (`Tags.TagReadsBackExactly`, `Tags.ScanSays`).
A backslash at the very end of a template copies
the terminator, and a switch with an empty closing delimiter is a fault, as in the source.

**Lists, paths, printing** (`AstList.dfy`, `Segments.dfy`, `Paths.dfy`, `Lexer.dfy`, `PathText.dfy`,
`PathWords.dfy`, `Printer.dfy`). The doubly linked list on the heap, path building over a list that is edited while it is
walked, and the expression printer with its nesting counter against a parser for the grammar's expression
rules. A path is printed as the text it keeps, in which brackets are gone; the scanner's rules decide when
that text is the same path. `items.[0]` is printed as `items.0`, which is no path, since `0` is a number.

## Assumptions

- Integers are unbounded except where said: the load factor is computed modulo 2^32, reference counts stick
  at 255, and maps stay below 2^29 entries, beyond which the source runs out of listed primes and aborts.
- Strings hold no NUL. The string hash is a value attached to the string. Delimiters handed in are not empty.
- Comparators handed to a sort are total preorders; `sort_r` stands for any sorted permutation.
- A helper is a function of its call and the texts it has rendered in it: it keeps nothing from one call to
  the next. Values that helpers only test or hand on are opaque, and so is how they print.
- `string_params`, `track_ids` and `alternate_decorators` are off.
- Times are arguments. The cache's shared steps are atomic.

## Model

| member | source | states |
|---|---|---|
| AssocList.FindAfterPut | src/handlebars_map.c:455-476 | an updated key is found with its new value, every other key as before |
| AssocList.FindAfterDel | src/handlebars_map.c:417-443 | a removed key is gone, every other key is as before |
| AssocList.PutKeepsPositions | src/handlebars_map.c:455-476 | an update keeps every key at its position and changes one value; a new key goes to the end |
| AssocList.DelIsCut | src/handlebars_map.c:417-443 | removal keeps the order of the other entries |
| AssocList.PermutationKeepsFind | src/handlebars_map.c:604-615 | lookup does not depend on the order of the entries |
| MapCapacity.ChooseTableCapacity | src/handlebars_map.c:148-160 | the smallest listed prime that keeps the load at most 60 per cent |
| MapCapacity.TableLargerThanVector | src/handlebars_map.c:148-160 | the table has more slots than the vector has entries, and 32-bit arithmetic on it does not wrap |
| MapCapacity.LoadAboveMaxMeansFull | src/handlebars_map.c:482-484 | the load factor, truncated and computed in 32 bits, exceeds 60 only if the vector is full |
| MapCapacity.ChooseVecCapacityLog2 | src/handlebars_map.c:127-145 | the shift loop counts the bits of capacity with its two low bits set |
| MapCapacity.RehashRoom | src/handlebars_map.c:524-525 | the capacity a rehash chooses has room for two more entries, and below 2^29 entries the prime list can serve it |
| OpenAddressing.ProbeMiss | src/handlebars_map.c:188-206 | a probe that meets NULL before the key proves the key absent, tombstones notwithstanding |
| OpenAddressing.ProbeMeetsNull | src/handlebars_map.c:188-206 | every probe for an absent key meets NULL, because fewer slots are in use than there are |
| OpenAddressing.AddKeepsInv | src/handlebars_map.c:211-241 | adding at the first NULL of the probe chain keeps every live key reachable and the count of used slots equal to vec_offset |
| OpenAddressing.UpdateKeepsInv | src/handlebars_map.c:463-466 | overwriting a value keeps the invariant |
| OpenAddressing.RemoveKeepsInv | src/handlebars_map.c:432-440 | leaving a tombstone keeps every other key reachable and the count of used slots as it was |
| OpenAddressing.SortKeepsInv | src/handlebars_map.c:243-254 | repointing the slots of a permuted dense vector keeps every key reachable |
| OpenAddressing.PairsPut | src/handlebars_map.c:463-466 | overwriting one entry is an update of the list of live entries |
| OpenAddressing.PairsDel | src/handlebars_map.c:436-440 | killing one entry is a removal from the list of live entries |
| OpenAddressing.PermutedPairs | src/handlebars_map.c:604-615 | permuting a dense vector permutes its live entries |
| HashMap.HashMap.constructor | src/handlebars_map.c:336-368 | a new map is valid and empty and has the capacity asked for |
| HashMap.HashMap.FindEntry | src/handlebars_map.c:177-209 | finds the entry of the key if there is one, otherwise the first NULL of its probe chain; a tombstone alone is never free space |
| HashMap.HashMap.AddAtTableOffset | src/handlebars_map.c:211-241 | appends the entry to the vector and hangs it into the slot |
| HashMap.HashMap.Lookup | src/handlebars_map.c:445-453 | the value the association list has for the key |
| HashMap.HashMap.CopyCtor | src/handlebars_map.c:370-383 | a new dense map with the same entries in the same order; the iteration flag is restored |
| HashMap.HashMap.CopyEntry | src/handlebars_map.c:378-380 | one step of the copy never triggers a rehash of the copy |
| HashMap.HashMap.Add | src/handlebars_map.c:400-415 | appends the entry, and fails exactly if the key is present; a shared or full map is replaced first. Other holders keep their entries if and only if no iteration is running or the key was present |
| HashMap.HashMap.Rehash | src/handlebars_map.c:512-537 | keeps the contents; a map that is replaced gets the next power of two as capacity, never less than before, with room for two more entries, and the old one loses one reference and nothing else. Terminates through copy, add and rehash |
| HashMap.HashMap.Update | src/handlebars_map.c:455-476 | the association list's update; other holders keep their entries if and only if no iteration is running or the key already had the value |
| HashMap.HashMap.UpdateEntry | src/handlebars_map.c:463-475 | the part after the rehash: overwrites the value where it stands, or appends |
| HashMap.HashMap.Remove | src/handlebars_map.c:417-443 | the association list's removal; other holders keep their entries if and only if no iteration is running or the key was absent |
| HashMap.HashMap.RemoveEntry | src/handlebars_map.c:422-440 | the part after the rehash: exactly the key's entry goes, the map stays valid with a tombstone in its slot |
| HashMap.HashMap.RebuildReferences | src/handlebars_map.c:243-254 | every slot of a live entry points at the entry again |
| HashMap.HashMap.Sort | src/handlebars_map.c:604-615 | sorted under the comparator, a permutation of what was there, and every lookup answers as before. Other holders see the new order during an iteration: their order changes if it was not sorted, and stays if it was and the comparator never ties; outside one it stays |
| SortR.SortedOnce | src/handlebars_map.c:604-615 | without ties the entries have one sorted order |
| MapShape.RehashIs | src/handlebars_map.c:512-537 | outside iterations an unshared map is replaced exactly if that is forced or its vector is full; the new shape follows from the old one |
| MapShape.ChosenIsNext | src/handlebars_map.c:127-145 | the new capacity is determined by the number of entries and the old capacity |
| MapShape.NextInNumbers | src/handlebars_map.c:127-145 | that capacity in numbers: the least power of two, four at least, above one more than the entries, and no less than before |
| MapShape.FirstTables | src/handlebars_map.c:148-160 | the tables that go with the first vectors |
| MapShape.LightAtFirst | src/handlebars_map.c:417-443 | a vector as new maps have it is lightly filled with five entries or fewer |
| HashMap.HashMap.SortDense | src/handlebars_map.c:608-612 | the same for a vector without dead entries |
| MapRuns.Run | src/handlebars_map.c:400-476 | through any run of add, update, remove, find, rehash and sort the map answers as the association list does; whoever shared the map at the start keeps its entries |
| MapRuns.RunDecidesLookup | src/handlebars_map.c:445-453 | after any run a lookup answers what the last operation on that key left |
| MapRuns.AddThrowsExactlyOnPresentKeys | src/handlebars_map.c:405-410 | over every run, add throws exactly for keys that are bound, however many removals came before |
| MapRuns.SameKeys | src/handlebars_string.c:330-339 | keys are the same exactly if they are as long and have the same hash |
| Sharing.RunShared | src/handlebars_map.c:512-537 | two holders of one map or of two, taking turns in any order: each holder's map follows that holder's own operations |
| Sharing.HoldersDoNotMeet | src/handlebars_map.c:512-537 | after any such run a lookup answers what that holder's own last operation on the key left |
| Sharing.AddThrowsForOwnKeys | src/handlebars_map.c:405-410 | add throws exactly for keys that holder has left bound, whatever the other did |
| Sharing.WriteThroughIteration | src/handlebars_map.c:514-516 | a concrete map with two holders: an update by one changes the other's value exactly if an iteration is running |
| CacheSimple.EvictsShortestPrefix | src/handlebars_cache_simple.c:99-110 | the entries dropped are the shortest prefix in last-use order that leaves nothing over a limit or too old; none was used later than a survivor |
| CacheSimple.TotalSizePermuted | src/handlebars_cache_simple.c:97-106 | reordering the entries leaves their total size alone |
| CacheSimple.SimpleCache.Gc | src/handlebars_cache_simple.c:83-125 | drops exactly the evicted prefix of the contents in last-use order; counters stay equal to number and total size |
| CacheSimple.SimpleCache.Collect | src/handlebars_cache_simple.c:99-110 | the loop lists the keys of the evicted prefix and takes them off the counters |
| CacheSimple.SimpleCache.RemoveKeys | src/handlebars_cache_simple.c:112-118 | removing the listed keys leaves the rest in order |
| CacheSimple.SimpleCache.CacheFind | src/handlebars_cache_simple.c:127-144 | returns what is stored and makes now its time of last use; no other time changes |
| CacheSimple.SimpleCache.CacheAdd | src/handlebars_cache_simple.c:146-170 | collects first if a limit is exceeded; throws exactly if the key survives; at most one entry and one module beyond the limits; says exactly when a failed add leaves the cache usable |
| CacheSimple.SimpleCache.CacheReset | src/handlebars_cache_simple.c:186-193 | an empty cache with all counters zero |
| CacheRuns.Execute | src/handlebars_cache_simple.c:83-193 | every run follows the trace of its operations, shapes of the map included, and gives its answers; it stops at an operation if and only if that adds a present key, with no limit exceeded, to a map whose vector is full, and then the cache is left on a freed map |
| CacheRuns.RunsAreBounded | src/handlebars_cache_simple.c:83-170 | in every state of every run at most one entry and one module beyond the limits |
| CacheSimple.EvictedInNumbers | src/handlebars_cache_simple.c:48-62 | what is dropped, in numbers: everything left is younger than the age limit, if there is one, and within the others; an entry goes only for its age or because those from it on exceed another limit |
| CacheRuns.CollectionInNumbers | src/handlebars_cache_simple.c:83-125 | while the other limits are not exceeded, a collection in a run drops exactly the entries as old as the age limit or older, and none without such a limit |
| CacheRuns.AddInNumbers | src/handlebars_cache_simple.c:146-170 | an add collects first exactly if there are more entries than allowed, or bigger ones |
| CacheSimple.FullCacheLosesItsMap | src/handlebars_cache_simple.c:146-170 | a cache of 32 entries at its first capacity to which a present key is added is left on a freed map |
| Arena.PlacesApart | src/handlebars_cache_mmap.c:135-149 | allocations are aligned, disjoint and within the used part of the segment |
| Arena.LaidAfterAppend | src/handlebars_cache_mmap.c:135-149 | writing behind the used part leaves every object in it intact |
| CacheMmap.MmapCache.constructor | src/handlebars_cache_mmap.c:423-489 | an empty cache without readers |
| CacheMmap.MmapCache.Append | src/handlebars_cache_mmap.c:135-149 | allocates exactly if the padded, aligned object leaves a byte free; what is allocated already keeps its bytes |
| CacheMmap.MmapCache.TableSet | src/handlebars_cache_mmap.c:199-207 | fills the key's slot if there is room for the entry, otherwise the slot stays empty |
| CacheMmap.MmapCache.Find | src/handlebars_cache_mmap.c:275-328 | returns the module of the slot if its key is equal, takes a reference exactly if the module is not stale, and takes a stale one out of the table |
| CacheMmap.MmapCache.Add | src/handlebars_cache_mmap.c:330-383 | stores into a free slot if everything fits, changes nothing in a used one, and empties the cache if key or module do not fit and nobody reads |
| CacheMmap.MmapCache.Reset | src/handlebars_cache_mmap.c:227-267 | empties the cache exactly if the reader count is not positive |
| MmapRuns.Execute | src/handlebars_cache_mmap.c:227-389 | through any run of finds, adds, releases and resets the cache follows the function After, with the same answers and the same modules in use, and holds byte for byte what is allocated |
| MmapRuns.CountIsShort | src/handlebars_cache_mmap.c:307-327 | after any run the reader count is the number of modules in use less the number of stale hits |
| MmapRuns.CountExact | src/handlebars_cache_mmap.c:307-389 | after any run the reader count is right if and only if no find hit a stale module |
| MmapRuns.FreshIsNoStale | src/handlebars_cache_mmap.c:299-312 | no find is stale if every module added has the right version and is looked up in time |
| MmapRuns.ReadersSafe | src/handlebars_cache_mmap.c:227-389 | after any run without stale hits every module in use is allocated and the reader count is their number |
| MmapRuns.ReadersSafeExactly | src/handlebars_cache_mmap.c:227-389 | while a module is in use: every module stays allocated as long as it is in use, whatever is added, given back and reset from now on, if and only if no find so far hit a stale one |
| MmapRuns.BytesAreKept | src/handlebars_cache_mmap.c:227-389 | through such a run the bytes of a module stay its own for as long as it is in use |
| MmapRuns.StaleHitLosesAModule | src/handlebars_vm.c:396-400 | a concrete run: a stale module is found and given back as every module is, a reset goes ahead, and a reader's module is overwritten |
| MmapRuns.TableShows | src/handlebars_cache_mmap.c:193-213 | after any run the table shows what the adds, expiries and clearings of the run put there |
| MmapRuns.FindAnswersSlot | src/handlebars_cache_mmap.c:275-328 | a find answers what its slot shows if the key there is equal, never another key's module |
| MmapRuns.FirstWriterWins | src/handlebars_cache_mmap.c:348-377 | a slot shows the first add to it that found room since it was last cleared, or nothing if there was none |
| MmapNumbers.FindInNumbers | src/handlebars_cache_mmap.c:275-328 | a find looks at the slot its hash names and compares length and hash; a module of the version that runs and younger than the limit is a hit and takes a reference, any other a miss that leaves the table |
| MmapNumbers.NothingExpires | src/handlebars_cache_mmap.c:299-327 | over runs: without an age limit, or if all is looked up in time, and with one version, the reader count is the number of modules in use and every find that answers is a hit that leaves the table as it is |
| MmapNumbers.SlotsAreByHash | src/handlebars_cache_mmap.c:193-213 | after any run a slot holds only keys whose hash, modulo the number of slots, is its number |
| MmapNumbers.AddInNumbers | src/handlebars_cache_mmap.c:330-383 | how many bytes an add needs, where key, module and entry come to lie, and what happens without room |
| MmapNumbers.ResetInNumbers | src/handlebars_cache_mmap.c:227-267 | a reset drops everything exactly if nobody reads |
| Compiler.Compile | src/handlebars_compiler.c:1445-1480 | a fresh compiler produces the program the code generator describes if and only if nothing in the template is wrong and at most 64 of its nodes lie on top of one another; otherwise the verdict says what went wrong first |
| NodeStack.ProgramExact | src/handlebars_compiler.c:1361-1435 | a template that compiles overruns the stack of source nodes exactly if more of its nodes lie on top of one another than there are places |
| NodeStack.DeepHash | src/handlebars_compiler.c:1361-1374 | `{{a b=(a b=( .. ))}}` compiles up to 31 calls deep and overruns the stack beyond |
| NodeStack.DeepBlocks | src/handlebars_compiler.c:1361-1374 | blocks compile up to 31 deep, whichever of their programs they lie in |
| Compiler.Compiler.Opcode | src/handlebars_compiler.c:414-434 | one opcode more, nothing else changes |
| Compiler.Compiler.BlockParamIndex | src/handlebars_compiler.c:646-677 | searching the shared stack finds what lexical resolution finds |
| Compiler.Compiler.ClassifySexpr | src/handlebars_compiler.c:317-361 | helper, ambiguous or plain value, as the classification function says |
| Dispatch.ScopedExactly | src/handlebars_ast_helpers.c:456-473 | a path is scoped exactly if its text begins with a dot or the first this in it ends there |
| Dispatch.CallAsks | src/handlebars_compiler.c:317-361 | the law of classification, from name, arguments, enclosing programs and options alone: a call asks for an ambiguous name, and then for its own, if and only if it is a bare word that nothing declares, that is not known, and other helpers than known ones are allowed; with arguments or inside a call it asks for a helper, known or not as its name is; a block parameter or a bare path that is no word is a plain value |
| Dispatch.WordIsAsked | src/handlebars_vm.c:635-702 | the run of {{name}}: whatever has the name is called with what was looked up, which is shown only if the call returns null |
| Dispatch.WordIsShown | src/handlebars_vm.c:1193-1230 | under known helpers only: what was looked up is shown, or what it returns if it can be called |
| Dispatch.BlockIsAsked | src/handlebars_vm.c:513-534 | the run of a block over such a name: a helper or lambda writes the block, any other value goes to blockHelperMissing |
| Dispatch.AskedExactly | src/handlebars_compiler.c:317-361 | what is called by a name where names are ambiguous makes a difference to {{name}} if and only if the name is a word, not known, and other helpers are allowed |
| Listing.NameOps | src/handlebars_compiler.c:1026-1067 | every opcode of a mustache over a word |
| Listing.DataListing | src/handlebars_compiler.c:1163-1229 | every opcode of a private-data path |
| Listing.BlockListing | src/handlebars_compiler.c:725-770 | every opcode of a block over a word with both programs |
| Listing.RawListing | src/handlebars_compiler.c:1321-1359 | every opcode of a raw block, and its one child |
| Listing.PathBlockListing | src/handlebars_compiler.c:725-770 | every opcode of a block over a dotted path |
| Listing.KnownListing | src/handlebars_compiler.c:1088-1137 | every opcode of a block of a known helper with a parameter |
| Listing.HelperListing | src/handlebars_compiler.c:1088-1137 | every opcode of a helper call with a path, a string and a hash |
| Listing.PartialListing | src/handlebars_compiler.c:810-908 | every opcode of an indented partial, under all options |
| Listing.IntegersAreRead | src/handlebars_compiler.c:1245-1267 | every integer literal a long can hold is pushed as that integer and means it, zero included |
| Listing.LiteralsMean | src/handlebars_compiler.c:1231-1319 | any other numeral stays its text, strings are themselves whatever they say, constants are their values |
| Listing.PartialNames | src/handlebars_compiler.c:882-898 | a partial is called by the text of its name, or by a number if that is an integer other than zero |
| Listing.FlagsSay | src/handlebars_compiler.c:363-409 | the flags of a compiled program, from the template: a partial in it or in a program inside, a program of a single statement, a decorator of its own; and the number of its parameters |
| Compiler.Compiler.AcceptPath | src/handlebars_compiler.c:1163-1229 | emits the lookup of the path and raises the depth flag exactly for a positive depth |
| Compiler.Compiler.PushParams | src/handlebars_compiler.c:568-582 | parameters are emitted left to right |
| Compiler.Compiler.AcceptHash | src/handlebars_compiler.c:772-808 | values first to last, then keys last to first |
| Compiler.Compiler.SetupFullMustacheParams | src/handlebars_compiler.c:584-612 | parameters, program pair, hash |
| Compiler.Compiler.AcceptSexprHelper | src/handlebars_compiler.c:1088-1137 | a helper call; throws exactly for an unknown helper when only known ones are allowed |
| Compiler.Compiler.AcceptSexprSimple | src/handlebars_compiler.c:1069-1086 | a plain value |
| Compiler.Compiler.AcceptSexprAmbiguous | src/handlebars_compiler.c:1026-1067 | an ambiguous value |
| Compiler.Compiler.AcceptSexpr | src/handlebars_compiler.c:1139-1161 | a subexpression or mustache of any class |
| Compiler.Compiler.AcceptMustache | src/handlebars_compiler.c:1005-1024 | a call and its escaped or plain append |
| Compiler.Compiler.AcceptBlockCall | src/handlebars_compiler.c:740-768 | the three kinds of block opening and what follows them |
| Compiler.Compiler.AcceptBlock | src/handlebars_compiler.c:725-770 | a block or decorator block with its children |
| Compiler.Compiler.AcceptRawBlock | src/handlebars_compiler.c:1321-1359 | a raw block; its content is compiled without a program node |
| Compiler.Compiler.AcceptPartial | src/handlebars_compiler.c:810-908 | a partial; throws exactly for more than one parameter or an argument that does not compile |
| Compiler.Compiler.AcceptDecorator | src/handlebars_compiler.c:964-1003 | a decorator |
| Compiler.Compiler.AcceptProgram | src/handlebars_compiler.c:683-723 | pushes the program's parameters, compiles its statements, pops them: the stack is balanced |
| Compiler.Compiler.CompileChild | src/handlebars_compiler.c:363-409 | the child is appended, its number is its place, its flags except use of decorators become the parent's |
| ProgramTree.RefsStmt | src/handlebars_compiler.c:725-908 | a statement names exactly the children it adds |
| ProgramTree.CompiledWellFormed | src/handlebars_compiler.c:363-448 | at every level the pushed program numbers are exactly the places of the children, and the depth flag says whether the program or a descendant reaches a parent context |
| Scoping.ResolveIsLexical | src/handlebars_compiler.c:646-677 | resolution names the innermost program that declares the name and its first parameter that does |
| Scoping.LexicalBody | src/handlebars_compiler.c:1181-1201 | in the opcodes of every program body each (depth, index) pair is the innermost declaration of the name looked up |
| Slots.SlotIsOwnExactly | src/handlebars_vm.c:902-958 | the slot counted to lies in the frame of the program resolution named if and only if that program and every program inside it were given parameters |
| Slots.SlotHoldsFrame | src/handlebars_vm.c:1294-1376 | which frame's parameters lie at a given depth of the machine's stack |
| Slots.ResolveFindsBinding | src/handlebars_vm.c:902-958 | where a lookup finds its program, the indexed stack holds what name lookup finds |
| Slots.LookupExact | src/handlebars_vm.c:902-958 | the indexed lookup equals name lookup for all values of the parameters if and only if it finds its program; one choice of values tells |
| Lookups.BodySoundOps | src/handlebars_compiler.c:646-677 | the lookups found in the opcodes of a body find their programs if and only if those found in its text do |
| Safety.SameProgram | src/handlebars_vm.c:902-958 | under helpers for which every lookup of a template finds its program, its evaluation by slot is its evaluation by name |
| Policies.ProgramIsSafe | src/handlebars_compiler.c:646-677 | a template found safe from its text and a table of what each callee hands to program and inverse is safe under every interpretation that keeps to the table |
| Policies.SafeMeaning | src/handlebars_compiler.c:1445-1480 | where a template is safe it runs as it is meant: the machine, with its indexed stack, writes what the template means by its names |
| Policies.PolicyMeaning | src/handlebars_compiler.c:1445-1480 | so a template found safe runs as it is meant under every interpretation that keeps to the table |
| Policies.NamelessIsSafe | src/handlebars_compiler.c:646-677 | a template without block parameters is safe under every table |
| Witness.ScoutObeys | src/handlebars_vm.c:1294-1376 | the interpretation that follows a plan of permitted choices keeps to the table |
| Witness.StmtEven | src/handlebars_compiler.c:1361-1435 | under that interpretation a statement writes two texts of one length, by slot and by name, and different ones as soon as one lookup in it, at any depth of arguments, misses its program or one of its callees renders different texts |
| Exactness.ProgramTold | src/handlebars_compiler.c:683-723 | a program that is not found safe, rendered as its plan says, evaluates to one text by slot and to another by name |
| Exactness.UnsafeIsTold | src/handlebars_compiler.c:1445-1480 | for every template that is not found safe, an interpretation that keeps to the table and runs it otherwise than it is meant |
| Exactness.PolicyExact | src/handlebars_compiler.c:1445-1480 | a template is found safe if and only if every interpretation that keeps to the table runs it as it is meant, on all data and with any fuel |
| Exactness.RepeatedKeyHides | src/handlebars_compiler.c:792-803 | a key that comes twice in a hash hides the second value, however it was looked up |
| Builtins.BuiltinsObey | src/handlebars_helpers.c:63-364 | with and each hand parameters to their program and none to their inverse, if and unless none to either |
| Builtins.BuiltinMeaning | src/handlebars_helpers.c:63-364 | with the built-in block helpers, every template found safe by that table runs as it is meant |
| BuiltinRuns.IfWrites | src/handlebars_helpers.c:275-310 | if writes its program in the context at hand, or over nothing its inverse; what counts as nothing is listed |
| BuiltinRuns.UnlessWrites | src/handlebars_helpers.c:312-326 | unless writes its program over nothing, and over anything else its inverse |
| BuiltinRuns.WithWrites | src/handlebars_helpers.c:328-364 | with writes its program in its argument, or over null its inverse |
| BuiltinRuns.EachWrites | src/handlebars_helpers.c:63-181 | each writes the texts of its items in order, entered with the item as context and item and key as parameters; without items its inverse |
| BuiltinRuns.MissingWrites | src/handlebars_helpers.c:183-213 | blockHelperMissing writes the program in the context at hand, the inverse, or the program in the value, as the value says |
| BuiltinRuns.EachReadsParent | src/handlebars_helpers.c:63-181 | the run of {{#each list}}{{../name}}{{/each}}: as many items, so often the name of the context around it |
| Divergence.LostParameter | src/handlebars_helpers.c:275-364 | a parameter of with used inside an if, with the built-in helpers: the run writes nothing where the template means the value |
| Divergence.KeptParameter | src/handlebars_helpers.c:328-364 | a parameter of with used directly inside it is found safe and runs as it is meant |
| Divergence.SwappedTemplate | src/handlebars_compiler.c:836-866 | `{{> (lookup this "p")}}` under explicit partial contexts: the run throws where the template means the text of the partial |
| Meaning.AssignMeaning | src/handlebars_compiler.c:792-803 | values pushed forwards and keys assigned backwards build the dictionary of the literal |
| Meaning.EarliestKeyWins | src/handlebars_compiler.c:792-803 | the first pair of a literal with a key decides the key's value |
| Meaning.PathMeaning | src/handlebars_compiler.c:1163-1229 | from any stack, a path pushes exactly the value it denotes by slot |
| Meaning.ExprMeaning | src/handlebars_compiler.c:450-566 | from any stack, an expression pushes exactly its value or fails as it does |
| Meaning.SetupMeaning | src/handlebars_compiler.c:584-612 | from any stack, the operands of a call are pushed in the order the machine pops them |
| Meaning.ActMeaning | src/handlebars_vm.c:1294-1376 | a helper that renders its blocks any number of times, as its texts so far suggest, gets the same texts from the compiled children as from the syntax tree |
| Meaning.CallMeaning | src/handlebars_compiler.c:1139-1161 | from any stack, a call of any class pushes exactly its value |
| Meaning.BlockMeaning | src/handlebars_compiler.c:725-770 | a block writes exactly what it evaluates to |
| Meaning.PartialMeaning | src/handlebars_compiler.c:810-908 | a partial writes exactly what it evaluates to |
| Meaning.SwappedPartialMeaning | src/handlebars_compiler.c:836-866 | under explicit partial contexts a partial with a computed name and no context is called with the two exchanged; the calls coincide if and only if the name is null |
| Meaning.AppendTakesTheNext | src/handlebars_vm.c:536-606 | after block_value the closing append restores the stack if and only if it was empty |
| Meaning.MustacheMeaning | src/handlebars_compiler.c:1005-1024 | from any stack, a mustache writes its value and restores the stack |
| Meaning.StmtMeaning | src/handlebars_compiler.c:1361-1435 | from the empty stack every statement writes its text and leaves the stack empty |
| Meaning.BodyMeaning | src/handlebars_compiler.c:700-709 | a sequence of statements writes the texts one after the other |
| Meaning.TemplateMeaning | src/handlebars_compiler.c:1445-1480 | running any compiled template that swaps no partial writes exactly what its syntax tree evaluates to, or fails as that does, for all data, helpers and amounts of fuel, block parameters taken from the indexed stack |
| Contexts.Entered | src/handlebars_vm.c:1294-1376 | a program entered with another context has it at depth 0 and at every depth above what was one less deep; with the current one nothing moves; beyond the outermost there is null |
| Contexts.NthEnclosing | src/handlebars_vm.c:618-633 | so many levels up lies the context of the program entered so many levels further out |
| Contexts.ParentIsRead | src/handlebars_vm.c:618-633 | in a block, ../name is looked up in the context around it |
| StmtRuns.ParamShows | src/handlebars_vm.c:902-958 | in a program with two parameters, the first shows the first value, the second the second, and a member of the first that member |
| StmtRuns.PartialIsCalled | src/handlebars_vm.c:771-900 | what a partial is called with, and how its text is indented |
| StmtRuns.RawIsWritten | src/handlebars_compiler.c:1321-1359 | the helper of a raw block gets the content as it is |
| Delimiters.PreprocessDelimiters | src/handlebars_delimiters.c:55-238 | the three-state scanner computes the recursive reading of the template; position and remaining length always add up and every pass advances |
| Delimiters.ScanSwitch | src/handlebars_delimiters.c:122-202 | a delimiter switch yields the new delimiters and the rest, or the error the source throws |
| Delimiters.WithoutBlanks | src/handlebars_delimiters.c:171-178 | the backward scan drops exactly the trailing blanks |
| Rendering.TextMeaning | src/handlebars_delimiters.c:90-121 | literal text comes through, with {{ escaped unless the delimiter starts with a brace |
| Rendering.TagMeaning | src/handlebars_delimiters.c:106-113 | a tag comes through with {{ and }} in place of its delimiters |
| Rendering.SwitchMeaning | src/handlebars_delimiters.c:122-217 | a rendered switch is read back as the new delimiters, whatever the number of blanks |
| Rendering.ScanUndoesRender | src/handlebars_delimiters.c:86-238 | scanning the rendering of a well-formed document gives the document in {{ }} form, one set-delimiters tag for each switch, in order |
| Rendering.PreprocessUndoesRender | src/handlebars_delimiters.c:71-238 | the same for the entry point, with explicit or default delimiters |
| Rendering.UnchangedExactly | src/handlebars_delimiters.c:86-238 | under the default delimiters a template comes back unchanged if and only if the walk meets nothing to rewrite |
| Rendering.DefaultIdentity | src/handlebars_delimiters.c:86-238 | a template without {{=, without {{ among its last four characters and without a final backslash comes back unchanged, its tags closed or not |
| Tags.TagReadsBackExactly | src/handlebars_delimiters.c:206-212 | the tag written for a switch is read as the opening and the closing delimiter, in this order, if and only if every backslash in them stands in front of a quote |
| Tags.EscapedReadsBack | src/handlebars_delimiters.c:114-121 | text without backslashes reads as it was, and no tag begins in it |
| Tags.ScanSays | src/handlebars_delimiters.c:86-238 | the rewritten template says what the document does: text, tags and new delimiters, in their order, for whoever reads it |
| Tags.GivenTag | src/handlebars_delimiters.c:71-84 | a tag under delimiters that were given, one of them or both, comes through |
| Tags.SwitchText | src/handlebars_delimiters.c:206-212 | the text of the tag for one switch |
| Tags.NoBlankFails | src/handlebars_delimiters.c:122-202 | a switch without a blank is an error, and which |
| Tags.NoEqualsFails | src/handlebars_delimiters.c:122-202 | a switch without a second equals sign is an error, and which |
| Tags.NoEndFails | src/handlebars_delimiters.c:122-202 | a switch with something else behind it is an error, and which |
| AstList.List.Append | src/handlebars_ast_list.c:49-70 | one item at the end; links and count agree with the order |
| AstList.List.Prepend | src/handlebars_ast_list.c:167-187 | one item in front; links and count agree with the order |
| AstList.List.InsertAfter | src/handlebars_ast_list.c:101-113 | the new item follows the given one; the count is not touched |
| AstList.List.InsertBefore | src/handlebars_ast_list.c:115-127 | the new item precedes the given one; the count is not touched |
| AstList.List.Find | src/handlebars_ast_list.c:86-99 | the first item with the data, or none |
| AstList.List.Remove | src/handlebars_ast_list.c:129-165 | takes out the first item with the data, exactly if there is one |
| Paths.PreparePath | src/handlebars_ast_helpers.c:231-287 | the node is the path the segments stand for: an error exactly if dots follow an ordinary segment; otherwise the depth is the number of double dots, the list keeps the other segments in order, and the text is that of all segments |
| Paths.KeptNames | src/handlebars_ast_helpers.c:259-283 | the parts of the node are the names of the path |
| Paths.KeptAreTheOthers | src/handlebars_ast_helpers.c:259-283 | the surviving segments are exactly those that are not dots |
| Segments.WellPlacedSplits | src/handlebars_ast_helpers.c:262-281 | a path is accepted if and only if all its dots come first |
| Printer.AstPrinter.PrintCall | src/handlebars_ast_printer.c:554-593 | parentheses exactly at depth above zero, and the counter is restored |
| Printer.AstPrinter.PrintHash | src/handlebars_ast_printer.c:849-867 | the pairs in order |
| PathText.WordsAreSpaced | src/handlebars.l:350-367 | what the scanner can make of a path: names, dots and bracketed names, and never a dot behind a dot as separator |
| PathText.SpellingReadsBack | src/handlebars.l:350-461 | words without brackets are read back from their spelling if and only if the last is no constant and no separate dots come together |
| PathText.PathReadsBackExactly | src/handlebars_ast_helpers.c:231-287 | the text kept for a path is read as that path again if and only if none of its segments needed its brackets, the last is no constant and no separate dots came together |
| PathText.WithoutBrackets | src/handlebars_ast_helpers.c:231-287 | a path written without brackets is read back unless separate dots came together |
| PathText.BracketedIndex | src/handlebars_ast_printer.c:872-901 | `a.[0]` is a path whose text `a.0` is none |
| PathWords.PathOfWords | src/handlebars_ast_helpers.c:231-287 | dots and then names make a path as deep as there are double dots, through the names behind them, with all of it as its text |
| PathWords.NoPathOfWords | src/handlebars_ast_helpers.c:262-281 | dots behind a name make it none |
| PathWords.UpNameIsRead | src/handlebars.l:350-461 | ../name, so many levels up, is read as the path of that depth with that name |
| PathWords.NameCharsAre | src/handlebars.l:132-133 | the characters no name contains, listed |
| PathWords.BracketsAreRead | src/handlebars.l:462-470 | a name in brackets is one word, brackets included |
| PathWords.NumbersAreRead | src/handlebars.l:446-453 | digits, with a minus in front or a fraction behind, are a number |
| PathWords.WordEnds | src/handlebars.l:120-133 | a name is one word if one of a few listed characters follows |
| Printer.BareIsGood | src/handlebars_ast_helpers.c:231-287 | so every path written without brackets, in which no separate dots came together, meets the condition of the round trips below |
| Printer.CallRoundTrip | src/handlebars.y:459-472 | parsing what is printed for a call gives the call back, whatever may follow it |
| Printer.ExprRoundTrip | src/handlebars.y:435-448 | the same for a parameter, subexpressions at any depth included |
| Printer.PairsRoundTrip | src/handlebars.y:474-497 | the same for the pairs of a hash |
| Printer.PathRoundTrip | src/handlebars.y:546-575 | the same for every path that reads back, data paths included |
| Printer.CallParens | src/handlebars_ast_printer.c:554-593 | as many opening as closing parentheses, one pair for each subexpression |

## Left out

- `handlebars_map_sparse_array_compact`: it does not advance over leading live entries and leaves table tombstones behind; nothing is claimed about it.
- MapCapacity.ChooseTableCapacity: covers capacities the prime list can serve; the source aborts beyond, and its loop bound counts bytes, not primes.
- HashMap.HashMap.Add: during an iteration the caller must leave room; the source would write past the vector.
- MapRuns.Run: outside iterations; during one, the operations' own contracts say what other holders see.
- Sharing.RunShared: two holders; further ones are covered one operation at a time by the operations' own contracts.
- CacheSimple.SimpleCache.CacheAdd: says nothing of the contents once the map is freed; the throw leaves the caller with the old pointer.
- CacheRuns.Execute: as many operations as the prime list can serve, or any number under a limit on entries.
- CacheMmap.MmapCache.Find: one atomic step; the interleaving of the reset flag with the reader count is not modelled, and in a single step the flag is never seen raised.
- CacheMmap.MmapCache.Add: statistics of used slots and collisions, memory protection, locks and pointer patching are not modelled.
- MmapRuns.FirstWriterWins: "cleared" includes the removal of a stale entry.
- Tags.TagReadsBackExactly: delimiters that do not end in a backslash, which would take the closing quote with it.
- Dispatch.WordIsAsked: callees that ask for a program before they answer, of which a mustache has none, are left to `Meaning.TemplateMeaning`.
- Listing.IntegersAreRead: that strtol and strtod read decimal numerals is a hypothesis.
- Compiler.Compile: what happens after the node stack has been overrun, source locations and the state after a throw are not modelled; syntax nodes are values, so rewriting a literal head or adding an implicit partial parameter does not persist in the tree.
- Exactness.PolicyExact: templates without decorators, repeated keys in one hash and partials with several parameters, which do not compile.
- Meaning.TemplateMeaning: a partial is one callee that may render its block; the compiled partial templates, their context stack and the indent of nested partials are inside it.
- Vm.Step: a callable value that a plain lookup finds is given no program; the source's zeroed options name the main program.
- Meaning.StmtMeaning: from the empty stack only; a block over a plain value or a partial on a non-empty stack takes one value more.
- Decorators: their arguments are evaluated, then the machine throws, as it has no register_decorator.
- Paths.PreparePath: segments are compared by identity and their texts by length and hash, as in the source; the path node built around the list is three values.
- Printer.CallRoundTrip: quoted strings and numbers are single tokens; how a string is quoted and escaped is not modelled.
- PathText.PathReadsBackExactly: for a path in front of a blank or a closing delimiter, which is where the printer puts one.
- Printing of blocks, partials, comments and content, strip flags and mustache markers.
- Grammar tables, the rest of the lexer, comment stripping, JSON, the LMDB cache, `log` and `lookup` as built-in helpers, serialization of program numbers, the command line, memory ownership and long jumps.
