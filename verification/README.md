# Wok: a verified model

Wok is a small functional language with effect handlers. This project models the parts of its front
end and runtime whose correctness does not follow from reading one function, and proves what their
comments promise.

| part | modules |
|---|---|
| operator order and chains | `NameIndex`, `BitMatrix`, `FixityTable`, `Chain` |
| the layout (offside) filter and its contract | `Layout`, `LayoutLaws`, `LayoutGroups`, `LayoutFilter`, `LayoutCheck` |
| printer and parser ladders, and recovery | `Tokens`, `Cursors`, `TypeLadder`, `PatternLadder`, `ExprLadder`, `TypeParser`, `PatternParser`, `ExprParser`, `Accepted`, `Printer`, `Recovery` |
| the reference-counted heap and the arena | `Cells`, `CountedHeap`, `ArenaStack`, `RcHeap` |
| the schema-driven dump and its reader | `Sexpr`, `SexprSink`, `SexprReader` |
| UTF-8 | `Utf8` |
| comment attachment | `Trivia`, `TriviaAttach` |
| write locality of `:=` | `WriteLocality`, `WriteSites` |

Code that updates state is modelled by classes and loops that do the same, proved equal to a function of
their input; the theorems are about those functions. Where the source walks an array of children with a
loop, the model walks a list by recursion.

## What turned out false of the code

Each is kept as the code has it, shown by a concrete input, and replaced by the exact condition.

- The layout filter's declared capacity, 3n + MAX_DEPTH + 8 (grammar/c/wok_layout.h:76,
  grammar/c/wok_layout.c:49-52). Two families exceed it, one of them without any fault. It holds for every
  input of n tokens if and only if n is at most 75, and for one input if and only if its separators and twice
  its blocks, counted by the column stack, are at most 2n + MAX_DEPTH + 8. The bound for all inputs is 4n - 3,
  and it is attained. The model's buffer has 4n slots.
- Types: the printer writes no bracket around a transfer, and none to keep variables named `own`, `lend`,
  `copy`, `eff` or `row` from being taken for the words they spell. The round trip holds exactly for the types
  in which transfers stand only at the head of a foreign signature's spine, no spine in such a signature is
  headed by a variable spelled like a transfer, no row slot begins with `eff` applied to a variable, and no
  bracketed argument is just `row` applied to a variable.
- Expressions: the left side of a `let` is printed without a bracket, so a pattern that begins with a name
  is read as a definition. The round trip holds exactly for expressions without such a binding.
- The dump counts an optional or listed child as two levels and the reader as one. A nest of 128 optional
  children is well within the reader's cap and does not come back. The round trip holds exactly for trees
  whose dump depth is within the cap.

## Model

| member | source | states |
|---|---|---|
| `NameIndex.NameIdx.Find` | grammar/c/wok_resolve.c:129-134 | Looking a name up answers exactly what a finite map of the adds so far answers, and -1 for an absent name; the probe loop stops. |
| `NameIndex.NameIdx.Add` | grammar/c/wok_resolve.c:139-144 | Adding an absent name within the declared maximum extends that map by one binding and nothing else; the probe loop stops. |
| `NameIndex.NameIdx.constructor` | grammar/c/wok_resolve.c:120-127 | A fresh index is the empty map, at least twice as large as the declared maximum. |
| `NameIndex.FreeEndsProbe` | grammar/c/wok_resolve.c:129-134 | The first free slot met by the probe proves that the name is absent. |
| `BitMatrix.SetBit` | grammar/c/wok_resolve.c:97-103 | Setting one bit of a packed 64-bit word changes no other bit. |
| `BitMatrix.Matrix.Set` | grammar/c/wok_resolve.c:101-103 | Exactly the named bit of the matrix is added. |
| `BitMatrix.Matrix.OrRow` | grammar/c/wok_resolve.c:396-402 | A row OR-ed into another a word at a time, in place, adds exactly the bits of the first row; the two may be the same row. |
| `BitMatrix.Matrix.Close` | grammar/c/wok_resolve.c:393-403 | In-place Warshall: bit (i, j) ends set exactly when a non-empty path of edges joins i to j. |
| `BitMatrix.ClosureIsReachability` | grammar/c/wok_resolve.c:393-403 | The rounds of Warshall and reachability by non-empty paths are the same relation. |
| `FixityTable.NumberOperators` | grammar/c/wok_resolve.c:327-366 | Every operator named by a winning declaration gets one index; each redeclaration is reported. |
| `FixityTable.DeclaredIff` | grammar/c/wok_resolve.c:327-366 | An entry counts as declared exactly when its operator has a declaration of its own; the rest are known only as neighbours. |
| `FixityTable.BuildFixity` | grammar/c/wok_resolve.c:315-403 | The closed matrix holds bit (i, j) exactly when a path of edges stated by winning declarations leads from operator i to operator j; the reported duplicates are exactly the losing declarations. |
| `FixityTable.CheckCycles` | grammar/c/wok_resolve.c:481-514 | Reported, in rising order, are exactly the operators that lead a cycle. |
| `FixityTable.OneReportPerCycle` | grammar/c/wok_resolve.c:481-514 | Every strongly connected component that contains a cycle has exactly one reported member, its lowest index. |
| `FixityTable.CycleJoins` | grammar/c/wok_resolve.c:481-514 | Being on a common cycle is transitive, so the components are well defined. |
| `FixityTable.AcyclicIsStrict` | grammar/c/wok_resolve.c:481-514 | With no report the closed order is irreflexive: a strict partial order. |
| `Chain.BuiltTableIsStrict` | grammar/c/wok_resolve.c:315-403 | The state the reorder pass starts from, closed, acyclic and transitive, is what the table builder delivers when no cycle was reported. |
| `Chain.CheckChain` | grammar/c/wok_resolve.c:659-692 | Reports the first faulty pair in source order, and nothing exactly when every incomparable pair is shielded by an operator between them looser than both. |
| `Chain.FindLoosest` | grammar/c/wok_reorder.c:145-170 | The scan over the tail returns the running loosest occurrence, or stops at an incomparable pair. |
| `Chain.ScanIsLoosest` | grammar/c/wok_reorder.c:145-170 | The occurrence found is looser than or the same as every other; among repeats it is the last for a left-associative operator and the first otherwise. |
| `Chain.LoosestUnique` | grammar/c/wok_reorder.c:145-170 | No other occurrence meets that description. |
| `Chain.ShieldTheorem` | grammar/c/wok_resolve.c:640-692 | The local shield rule finds no fault exactly when the recursive split never meets an incomparable pair, for every finite chain. |
| `Chain.SplitBuildsTree` | grammar/c/wok_reorder.c:176-205 | What the split builds is the binary tree of its split points, as chains of one operator. |
| `Chain.SplitKeepsOrder` | grammar/c/wok_reorder.c:197-205 | A finished split has the original operands and operators, in the original order. |
| `Chain.SplitIsWellNested` | grammar/c/wok_reorder.c:85-90 | In a finished split every operator is looser than or the same as all operators below it, and repeats of one operator nest by its associativity. |
| `Chain.WellNestedIsSplit` | grammar/c/wok_reorder.c:197-205 | Any tree over the chain nested that way is the one the split builds, so it is unique, and the split succeeds whenever one exists. |
| `Chain.FixFind` | grammar/c/wok_reorder.c:56-60 | The linear scan finds the first entry of that name, or none when no entry has it. |
| `Chain.ReorderOkIff` | grammar/c/wok_reorder.c:218-322 | The whole pass succeeds exactly when the local rule passes every chain of the tree. |
| `Chain.ReorderRebuilds` | grammar/c/wok_reorder.c:284-312 | A pass over a tree that succeeds returns it rebuilt: every node with its own tag and as many children, each rebuilt, and every chain as a well-nested tree over its rebuilt operands, in their order. |
| `Chain.RebuiltOnce` | grammar/c/wok_reorder.c:284-312 | No other tree is that tree rebuilt. |
| `Chain.ReorderTwice` | grammar/c/wok_reorder.c:218-322 | Reordering a reordered tree gives the same tree; which tree that is says `Chain.ReorderRebuilds`. |
| `Chain.FileOkIff` | grammar/c/wok_reorder.c:314-322 | The pass on a file succeeds exactly when the table has no neighbour-only entry and every chain passes the local rule. |
| `Chain.FileRebuilt` | grammar/c/wok_reorder.c:314-322 | A file reported clean comes back as itself rebuilt, and as nothing else. |
| `Chain.FileTwice` | grammar/c/wok_reorder.c:314-322 | The pass on its own result changes nothing and succeeds; what that result is says `Chain.FileRebuilt`. |
| `LayoutFilter.Filter.Pop` | grammar/c/wok_layout.c:39-44 | Closes exactly the blocks deeper than the column, one DEDENT each. |
| `LayoutFilter.Filter.LineHead` | grammar/c/wok_layout.c:89-127 | At a line start: separator, continuation, new block, dedent or repaired dedent, and the depth overflow fault, as rules L3 to L6 say. |
| `LayoutFilter.Filter.CloseAll` | grammar/c/wok_layout.c:63-71 | At the end of the stream every open block is closed. |
| `LayoutFilter.Filter.Feed` | grammar/c/wok_layout.c:73-143 | One token through brackets, abandonment and line start is one step of the specification, which `LayoutGroups.TokenByToken` describes. |
| `LayoutFilter.WokLayout` | grammar/c/wok_layout.c:46-146 | The loop over the tokens, in a buffer of 4n slots, writes the output and faults that `LayoutGroups.TokenByToken` describes and never overruns it. |
| `Layout.Balanced` | grammar/c/wok_layout.c:46-146 | INDENT and DEDENT balance, and the pushed columns strictly increase inward. |
| `Layout.Conserved` | grammar/c/wok_layout.c:46-146 | Without its layout tokens the output is exactly the input, in order. |
| `Layout.NoIndentThenDedent` | grammar/c/wok_layout.c:46-146 | No INDENT is followed at once by a DEDENT. |
| `Layout.LayoutOutsideBrackets` | grammar/c/wok_layout.c:46-146 | When no bracket group was abandoned or left open, no layout token lies inside one. |
| `LayoutGroups.TokenByToken` | grammar/c/wok_layout.c:46-146 | For every token of every stream, brackets and all: in front of it stands exactly the layout the column model asks for, at its place, and nothing else is added; the faults are a group given up, at its outermost opener, and the line's own. |
| `LayoutGroups.GroupsHold` | grammar/c/wok_layout.c:73-87 | A stream is free of bracket faults if and only if every item line inside a group is right of the column that was innermost when the group's outermost opener was written, and no group is open at the end. |
| `LayoutGroups.LeavingEndsGroup` | grammar/c/wok_layout.c:73-87 | The first item line at or left of that column brings the fault at the opener, and begins a line of its own with a NEWLINE in front. |
| `Layout.OutputBound` | grammar/c/wok_layout.c:46-58 | The output has at most 4n - 3 tokens. |
| `Layout.BoundAttained` | grammar/c/wok_layout.c:46-58 | For every n from 2 on an input attains 4n - 3, so the bound cannot be lowered. |
| `Layout.DeclaredCapacityExceeded` | grammar/c/wok_layout.h:76-79 | The capacity 3n + MAX_DEPTH + 8 that the header declares is exceeded by this family from n = 76 on and not before. |
| `Layout.OutputLength` | grammar/c/wok_layout.c:46-146 | For every input the output has one token for each input token, one for each separator and two for each block opened, both counted by the column stack over the input alone. |
| `Layout.CapacityExactly` | grammar/c/wok_layout.c:49-53 | An input keeps within the declared capacity exactly when its separators and twice its blocks are at most 2n + MAX_DEPTH + 8. |
| `Layout.CapacityByLength` | grammar/c/wok_layout.c:49-53 | Every input of n tokens keeps within the declared capacity if and only if n is at most 75. |
| `LayoutLaws.ColumnInvariance` | grammar/c/wok_layout.c:37-146 | Any order-preserving stretch of the columns that fixes column 1 changes no token kind and no fault, abandonment, repairs and overflow included. |
| `LayoutLaws.FilterRefinesModel` | grammar/c/test/test_layout_sweep.c:36-99 | On bracket-free streams of one token a line, of any length and any columns, the filter agrees with the short column model token for token, and faults exactly when it does; the model is extended with the depth cap, which the sweep never reaches. |
| `LayoutCheck.WokLayoutCheck` | grammar/c/wok_layout.c:150-204 | The executable contract accepts exactly the streams that meet the declared contract. |
| `LayoutCheck.OwnOutputPasses` | grammar/c/wok_layout.c:150-204 | On the filter's own output the executable contract holds exactly when the input's separators and twice its blocks are at most 2n + MAX_DEPTH + 8; with strict brackets, for input without a bracket fault. |
| `LayoutCheck.ContractRefusesDescent` | grammar/c/wok_layout.c:150-204 | The executable contract refuses the filter's own output on one family from n = 76 on. |
| `LayoutCheck.StaircaseOverruns` | grammar/c/wok_layout.c:49-52 | A staircase of columns 1, 2, 3, 1, 2, 3, with no layout fault at all, exceeds the declared capacity from 75 flights on and not before. |
| `Recovery.Parser.ResyncToBoundary` | grammar/c/wok_parse.c:301-343 | Terminates having skipped a run whose nesting never drops below its start and ends level with it, at the end of the stream, at an own-level separator or closer, or just past the levels it entered; `sep` is raised exactly in that last case. |
| `Recovery.FilterFeedsRecovery` | grammar/c/wok_parse.c:301-343 | Every stream the layout filter emits without a bracket fault meets what recovery relies on. |
| `Tokens.PathBack` | grammar/c/wok_parse.c:634-646 | A module path read back from its printed tokens is the same path, in front of anything that does not go on with a part. |
| `Cursors.Cursor.Expect` | grammar/c/wok_parse.c:165-172 | Steps over the expected token, or leaves the cursor in place and raises panic. |
| `Cursors.Cursor.Bump` | grammar/c/wok_parse.c:80-84 | Steps over one token. |
| `Cursors.ParseModPath` | grammar/c/wok_parse.c:634-646 | The loop over the parts reads what the path production reads. |
| `TypeLadder.TypeRoundTrip` | grammar/c/wok_print.c:1443-1560 | Printing a type and parsing it gives the type back, before any token that cannot extend it, if and only if it is readable: transfers only at the head of a foreign signature's spine, no spine there headed by a variable spelled like a transfer, no row slot that begins with `eff` applied to a variable, and no bracketed argument that is just `row` applied to one. |
| `TypeLadder.ArrowRoundTrip` | grammar/c/wok_parse.c:672-686 | The same at the level of function arrows. |
| `TypeLadder.SpineRoundTrip` | grammar/c/wok_parse.c:688-721 | The same at the level of applications. |
| `TypeLadder.TypeBack` | grammar/c/wok_print.c:1443-1560 | For every well-formed type, readable or not, the parser returns exactly what its tokens re-read as and leaves exactly the tokens after it; where they do not re-read as a type it fails, or stops at an argument behind a row entry. |
| `TypeLadder.ReadableExactly` | grammar/c/wok_parse.c:688-721 | Re-reading a type gives it back exactly when it is readable, whatever its variables are called. |
| `TypeLadder.TransferMovesOut` | grammar/c/wok_print.c:1553-1560 | A transfer applied to an argument is printed without a bracket and comes back around the application. |
| `TypeLadder.HeadWordTaken` | grammar/c/wok_parse.c:688-721 | In a foreign signature a spine headed by a variable spelled like a transfer comes back as that transfer. |
| `TypeLadder.EffCollides` | grammar/c/wok_parse.c:790-822 | A row slot applying a variable named `eff` is printed with the tokens of an effect variable. |
| `TypeLadder.RowCollides` | grammar/c/wok_parse.c:723-777 | A bracketed application of a variable named `row` is printed with the tokens of a row argument. |
| `PatternLadder.PatBack` | grammar/c/wok_print.c:1594-1690 | Every well-formed pattern reads back as itself, before any token that cannot extend it. |
| `PatternLadder.AppBack` | grammar/c/wok_parse.c:979-998 | The same at the level of constructor applications. |
| `PatternLadder.AtomBack` | grammar/c/wok_parse.c:887-977 | The same for atoms, which go on with any `as` that follows. |
| `Accepted.TypeTaken` | grammar/c/wok_parse.c:650-822 | Whatever the text, the stretch the type parser accepts closes every bracket it opens, in order, and the tree holds exactly the names written there. |
| `Accepted.PatTaken` | grammar/c/wok_parse.c:826-1014 | The same for patterns, with their literals. |
| `Accepted.ExprTaken` | grammar/c/wok_parse.c:1018-1392 | The same for expressions, where an `if` is closed by its `then` and `else`, a `let` by its `in` and a lambda by its arrow. |
| `ExprLadder.ExprRoundTrip` | grammar/c/wok_print.c:1695-1890 | Printing an expression and parsing it gives the expression back, before any token that cannot extend it, if and only if no binding in it has a pattern whose first printed token is a name. |
| `ExprLadder.ChainRoundTrip` | grammar/c/wok_parse.c:1193-1224 | The same at the level of operator chains. |
| `ExprLadder.OperandRoundTrip` | grammar/c/wok_parse.c:1168-1191 | The same for operands, negation at the head of an application spine included. |
| `ExprLadder.AtomRoundTrip` | grammar/c/wok_parse.c:1065-1166 | The same for atoms with their projections and record braces. |
| `ExprLadder.ExprBack` | grammar/c/wok_print.c:2035-2060 | For every well-formed expression the parser returns exactly what the printed tokens re-read as. |
| `ExprLadder.ReadableExactly` | grammar/c/wok_parse.c:1369-1392 | Re-reading an expression gives it back exactly when it is readable. |
| `ExprLadder.ConsBindingLost` | grammar/c/wok_parse.c:1369-1392 | `let (x :: y) = a in b` is printed without its bracket and does not parse. |
| `ExprLadder.NameBindingChanges` | grammar/c/wok_parse.c:1369-1392 | `let (x) = a in b` as a pattern binding comes back as the definition of x. |
| `TypeParser.ParseType` | grammar/c/wok_parse.c:650-670 | The cursor production reads exactly what the grammar function reads; panic is raised exactly when it fails. |
| `TypeParser.ParseArrow` | grammar/c/wok_parse.c:672-686 | The same for function types. |
| `TypeParser.ParseTypeApp` | grammar/c/wok_parse.c:688-721 | The same for type applications, its loop and its one leading transfer word. |
| `TypeParser.ParseAtomType` | grammar/c/wok_parse.c:723-777 | The same for type atoms. |
| `TypeParser.ParseRow` | grammar/c/wok_parse.c:779-788 | The same for effect rows. |
| `TypeParser.ParseRowEntry` | grammar/c/wok_parse.c:790-822 | The same for row entries. |
| `PatternParser.ParsePat` | grammar/c/wok_parse.c:1000-1014 | The cursor production reads exactly what the grammar function reads; panic is raised exactly when it fails. |
| `PatternParser.ParsePatApp` | grammar/c/wok_parse.c:979-998 | The same for constructor patterns. |
| `PatternParser.ParseAsTail` | grammar/c/wok_parse.c:875-885 | The same for the `as` that may follow an atom. |
| `PatternParser.ParseAtomPat` | grammar/c/wok_parse.c:887-977 | The same for atomic patterns. |
| `PatternParser.ParseRecordPat` | grammar/c/wok_parse.c:844-873 | The same for record patterns. |
| `PatternParser.ParseFieldPat` | grammar/c/wok_parse.c:826-842 | The same for their fields. |
| `ExprParser.ParseExpr` | grammar/c/wok_parse.c:1307-1365 | The cursor production reads exactly what the grammar function reads; panic is raised exactly when it fails. |
| `ExprParser.ParseStmt` | grammar/c/wok_parse.c:1394-1464 | A one-line body read through the statement production gives the same value as the expression production. |
| `ExprParser.ParseLambda` | grammar/c/wok_parse.c:1226-1239 | The same for lambdas. |
| `ExprParser.ParseIf` | grammar/c/wok_parse.c:1241-1254 | The same for conditionals. |
| `ExprParser.ParseBind` | grammar/c/wok_parse.c:1369-1392 | The same for bindings. |
| `ExprParser.ParseChain` | grammar/c/wok_parse.c:1193-1224 | The same for operator chains. |
| `ExprParser.ParseApp` | grammar/c/wok_parse.c:1168-1191 | The same for applications and negation. |
| `ExprParser.ParseAtom` | grammar/c/wok_parse.c:1065-1166 | The same for atoms and what is postfixed to them. |
| `ExprParser.ParseRecord` | grammar/c/wok_parse.c:1035-1058 | The same for record braces. |
| `ExprParser.ParseField` | grammar/c/wok_parse.c:1018-1033 | The same for record fields. |
| `Printer.PType` | grammar/c/wok_print.c:1443-1560 | The sink methods append exactly the tokens the type printer specifies, brackets decided by level. |
| `Printer.PPat` | grammar/c/wok_print.c:1594-1690 | The same for patterns. |
| `Printer.PExpr` | grammar/c/wok_print.c:2035-2060 | The same for expressions, with the bracket an expression at the head of a line needs. |
| `Printer.PRow` | grammar/c/wok_print.c:1489-1530 | The same for effect rows. |
| `Printer.POps` | grammar/c/wok_print.c:1726-1746 | The same for the operators and operands of a chain. |
| `Cells.ClassFixesSize` | runtime/wok_rc.c:32-105 | Whatever the shape, the size class decides between slab and malloc, and within the slab it fixes the cell at exactly 8(c + 1) bytes; `Cells.HasRoom` says that this is enough. |
| `Cells.HasRoom` | runtime/wok_rc.c:32-105 | A cell has room for its fields, slots or text behind its header, and less than one granule to spare. |
| `Cells.TagsTell` | runtime/wok_rc.h:85-89 | The tag in a header tells the seven shapes apart, and is the reserved one for all but constructors. |
| `Cells.RouteAgrees` | runtime/wok_rc.c:733-793 | The class read off a cell's own header and stored length when it is freed is the class it was allocated from. |
| `CountedHeap.EmptyHeap` | runtime/wok_rc.c:644-648 | A new heap meets the invariant. |
| `CountedHeap.AllocKeeps` | runtime/wok_rc.c:678-707 | An allocation of any shape, from its free list, from the bump slab, from a new slab or from malloc, keeps the invariant and hands out a cell nobody holds. |
| `CountedHeap.FreeKeeps` | runtime/wok_rc.c:733-793 | A free reads the right class off the cell itself, puts the cell on that list and keeps the invariant. |
| `CountedHeap.RestampKeeps` | runtime/wok_rc.c:714-731 | A new header in place keeps the invariant. |
| `CountedHeap.StoreKeeps` | runtime/wok_rc.c:1339-1347 | A store into a payload word of a held cell keeps the invariant. |
| `CountedHeap.AllocOthers` | runtime/wok_rc.c:678-1023 | An allocation writes its own header and words, and leaves every word of every cell already held. |
| `CountedHeap.FreeOthers` | runtime/wok_rc.c:733-793 | A free leaves every word of every other cell held. |
| `CountedHeap.HeapSeparation` | runtime/wok_rc.c:606-642 | A live cell shares no byte with another live cell, with any free cell, or with the unbumped tail. |
| `CountedHeap.ContentsApart` | runtime/wok_rc.c:678-1023 | No byte that the client may store in a live cell belongs to another live cell, a free cell or the unbumped tail. |
| `CountedHeap.FreeListsApart` | runtime/wok_rc.c:678-793 | Free cells share no byte with one another or with the unbumped tail; every cell of list c has exactly 8(c + 1) bytes. |
| `CountedHeap.PhysicalBound` | runtime/wok_rc.c:678-707 | The cells ever bumped in a class are exactly the high-water of cells of that class live at once, and (nslabs - 1) * 65024 is at most the sum over classes of peak times cell size. |
| `ArenaStack.OpenKeeps` | runtime/wok_rc.c:1038-1054 | Opening a scope keeps the arena's invariant. |
| `ArenaStack.AllocKeeps` | runtime/wok_rc.c:1056-1078 | Allocating in the innermost scope keeps it; the new cell shares no byte with any cell of an open scope. |
| `ArenaStack.CloseKeeps` | runtime/wok_rc.c:1080-1121 | Closing keeps it; every saved frame is a suffix of the slab list. |
| `ArenaStack.SlabAccounting` | runtime/wok_rc.c:606-642 | In every reachable state the slabs in use and recycled make up all slabs, and that number is the most ever in use at once. |
| `ArenaStack.ArenaLifo` | runtime/wok_rc.c:1038-1121 | After any well-nested run, closing restores the slab list, frontier, byte count and frames of the matching open, and outer scopes hold the cells they held. |
| `ArenaStack.ArenaSeparation` | runtime/wok_rc.c:1056-1078 | Cells of open scopes share no byte and lie below the frontier. |
| `RcHeap.CountedApartFromArena` | runtime/wok_rc.c:635-642 | No counted cell and no arena cell share a block, so an arena close touches no counted cell. |
| `RcHeap.FreeApartFromArena` | runtime/wok_rc.c:635-642 | Nor does a cell on any free list share a block with an arena cell. |
| `RcHeap.TailApartFromArena` | runtime/wok_rc.c:635-642 | Nor does the unbumped tail of the counted region. |
| `RcHeap.WholeAlloc` | runtime/wok_rc.c:678-707 | An allocation keeps the two regions' invariants together. |
| `RcHeap.WholeFree` | runtime/wok_rc.c:733-793 | So does a free. |
| `RcHeap.WholeArenaAlloc` | runtime/wok_rc.c:1056-1078 | So does an arena allocation. |
| `RcHeap.WholeClose` | runtime/wok_rc.c:1080-1121 | So does an arena close. |
| `RcHeap.WokHeap.constructor` | runtime/wok_rc.c:644-648 | A fresh heap: no cell held, no scope open. |
| `RcHeap.WokHeap.WokAlloc` | runtime/wok_rc.c:678-707 | The caller comes to hold one more cell, of that constructor, at count 1; every word of every cell held before, the open arena scopes and the arena stay as they were. |
| `RcHeap.WokHeap.WokArrayAlloc` | runtime/wok_rc.c:795-827 | The same for arrays, the length stored behind the header; a length whose size would overflow aborts and changes nothing at all. |
| `RcHeap.WokHeap.WokStringAlloc` | runtime/wok_rc.c:829-861 | The same for strings; the cell has room for the header, the length and every byte of the text. |
| `RcHeap.WokHeap.WokBytesAlloc` | runtime/wok_rc.c:908-940 | The same for byte blocks, with room for every byte. |
| `RcHeap.WokHeap.WokStringViewAlloc` | runtime/wok_rc.c:863-906 | The same for string views, whose parent, offset and length stand behind the header. |
| `RcHeap.WokHeap.WokForeignBytesAlloc` | runtime/wok_rc.c:942-981 | The same for foreign bytes, with their data pointer and length. |
| `RcHeap.WokHeap.WokBorrowViewAlloc` | runtime/wok_rc.c:983-1023 | The same for borrowed views, with their data pointer and length. |
| `RcHeap.WokHeap.WokAllocAt` | runtime/wok_rc.c:714-731 | A shell of the same arity at count 0 is re-stamped in its own cell at count 1, and only its header is written; otherwise nothing changes. |
| `RcHeap.WokHeap.WokFree` | runtime/wok_rc.c:733-793 | At count 0 exactly that cell is given up and every word of every other held cell stays; at any other count nothing changes. |
| `RcHeap.WokHeap.WokDup` | runtime/wok_rc.c:1328 | The count rises by one in 32 bits, and only that header is written. |
| `RcHeap.WokHeap.Store` | runtime/wok_rc.c:1339-1342 | A store behind the words the allocator wrote changes that word and no word of another held cell. |
| `RcHeap.WokHeap.WokDec` | runtime/wok_rc.c:1330-1337 | The count drops by one and is returned, and only that header is written; at count 0 it aborts and changes nothing. |
| `RcHeap.WokHeap.WokArenaOpen` | runtime/wok_rc.c:1038-1054 | Pushes the checkpoint and returns the depth; at the depth cap it aborts. |
| `RcHeap.WokHeap.WokArenaAlloc` | runtime/wok_rc.c:1056-1078 | Adds one cell to the innermost scope and touches nothing counted; with no scope open it aborts. |
| `RcHeap.WokHeap.WokArenaClose` | runtime/wok_rc.c:1080-1121 | Accepted exactly for the innermost handle; the state is that of the close, and nothing counted is touched. |
| `Sexpr.DumpRoundTrip` | grammar/c/wok_sexpr.c:204-240 | Over any closed schema, a tree of the schema reads back from its dump as the same tree, to the byte, if and only if the dump stays within the depth cap as the dump counts it. |
| `Sexpr.DumpInjective` | grammar/c/wok_sexpr.c:242-256 | Two trees within the cap with the same dump are the same tree. |
| `Sexpr.DumpLined` | grammar/c/wok_sexpr.c:86-256 | Whatever strings it holds, a dump's brackets pair up outside them, and each line is indented two blanks further than the brackets open around it count, by two blanks a bracket. |
| `Sexpr.ReadIsTyped` | grammar/c/wok_sexpr.c:703-804 | Whatever text the reader accepts, it returns a tree of the schema, families and 64-bit numbers included, within its depth cap; dumping and reading that tree again changes nothing where the dump keeps within its own. |
| `Sexpr.StringBack` | grammar/c/wok_sexpr.c:361-442 | Any byte string reads back from its quoted form, in front of anything. |
| `Sexpr.UintBack` | grammar/c/wok_sexpr.c:444-476 | Any 64-bit number reads back from its digits. |
| `Sexpr.TooDeepBack` | grammar/c/wok_sexpr.c:703-774 | The placeholder written past the depth cap is refused by the reader. |
| `Sexpr.DepthMismatch` | grammar/c/wok_sexpr.c:146-157 | Over a schema of one tag, a nest of k optional children is within the cap as the reader counts up to k = 255, and reads back exactly up to k = 127. |
| `SexprSink.Sink.RenderString` | grammar/c/wok_sexpr.c:90-122 | Appends exactly the quoted form. |
| `SexprSink.Sink.RenderField` | grammar/c/wok_sexpr.c:174-202 | Appends exactly the dump of the field. |
| `SexprSink.Sink.RenderNode` | grammar/c/wok_sexpr.c:204-240 | Appends exactly the dump of the node. |
| `SexprSink.Sink.DumpString` | grammar/c/wok_sexpr.c:248-256 | The bytes in the sink are the dump of the tree. |
| `SexprReader.Reader.ReadStringLit` | grammar/c/wok_sexpr.c:361-442 | Succeeds exactly when the specification reads a string, and the span it returns in the pool holds the decoded bytes. |
| `SexprReader.Reader.ReadUintField` | grammar/c/wok_sexpr.c:444-476 | Succeeds exactly on digits that fit 64 bits, with their value. |
| `SexprReader.Reader.LookupTag` | grammar/c/wok_sexpr.c:503-514 | The first tag of that name. |
| `SexprReader.Reader.ParseOpt` | grammar/c/wok_sexpr.c:556-588 | Agrees with the specification on an optional child. |
| `SexprReader.Reader.ParseSeq` | grammar/c/wok_sexpr.c:590-630 | Agrees with the specification on a sequence. |
| `SexprReader.Reader.ParseField` | grammar/c/wok_sexpr.c:647-701 | Agrees with the specification on a field, its class and its family. |
| `SexprReader.Reader.ParseNode` | grammar/c/wok_sexpr.c:703-774 | Agrees with the specification on a node; names and texts are spans of a pool that later growth leaves alone. |
| `SexprReader.Reader.ReadTop` | grammar/c/wok_sexpr.c:776-804 | The reader accepts exactly the texts that hold one form and white space, and returns that tree. |
| `Utf8.TablesAgree` | grammar/c/wok_utf8.c:59-62 | The two copies of the automaton, with their different byte classes, make the same transition from every state on every byte. |
| `Utf8.WokUtf8SeqLen` | grammar/c/wok_utf8.c:64-73 | The length of the well-formed character at a position, or 0 when there is none, as section 4 of RFC 3629 defines characters. |
| `Utf8.WordSkips` | grammar/c/wok_utf8.c:87-112 | Skipping a word of eight ASCII bytes never changes the answer. |
| `Utf8.WokUtf8FindInvalid` | grammar/c/wok_utf8.c:87-112 | The scan, fast path included, stops at the first position where no well-formed character begins. |
| `Utf8.FindInvalidIsExact` | grammar/c/wok_utf8.c:87-112 | It reaches the end exactly on the well-formed byte sequences. |
| `Utf8.WokUtf8Truncate` | grammar/c/wok_utf8.c:114-126 | Stops at the last whole character that fits, by the automaton. |
| `Utf8.TruncateIsLargest` | grammar/c/wok_utf8.c:114-126 | On well-formed text that is the largest codepoint boundary not above the limit. |
| `Utf8.WokValidateUtf8` | runtime/wok_utf8.c:28-36 | The runtime's validator accepts exactly the well-formed byte sequences. |
| `Trivia.FindLine` | grammar/c/wok_trivia.c:63-73 | The binary search over line starts finds the last line that begins at or before the byte. |
| `Trivia.BuildLines` | grammar/c/wok_trivia.c:49-61 | The table of line starts of a text. |
| `Trivia.StartsAre` | grammar/c/wok_trivia.c:49-61 | It holds, in order, the beginning and the byte behind every line end, and nothing else. |
| `Trivia.ScanToStart` | grammar/c/wok_trivia.c:93-98 | Whether only blanks stand between the start of its line and a byte. |
| `Trivia.FlatBelow` | grammar/c/wok_trivia.c:106-116 | Everything reached through a bracketed slot is flat, at any depth; what is reached through open slots alone never is. |
| `Trivia.FileNested` | grammar/c/wok_trivia.c:335-382 | In the order of the tour items open and close in pairs, and every block that ends stands in the block of the innermost item open around it. |
| `Trivia.BlockBounds` | grammar/c/wok_trivia.c:335-347 | A block's places run from its first item, whose column is the block's, to the point after its last; an empty block has its owner's column. |
| `Trivia.Builder.PushItem` | grammar/c/wok_trivia.c:290-311 | Records the item with its lines, column, block and the time of its entry. |
| `Trivia.Builder.WalkScope` | grammar/c/wok_trivia.c:335-347 | Walks a block: its items in order, each with entry and exit times, and the closing time after the last. |
| `Trivia.Builder.WalkNode` | grammar/c/wok_trivia.c:349-382 | The walk meets the places the printer writes at, in print order, and records each node once. |
| `Trivia.Builder.WalkFile` | grammar/c/wok_trivia.c:554-559 | For a file the tour is that of the whole tree, nothing stays open, and scope 0 can always take a comment. |
| `TriviaAttach.FindLineItem` | grammar/c/wok_trivia.c:425-437 | The backward loop is the scan that `TriviaAttach.LineItemIsLast` describes. |
| `TriviaAttach.LineItemIsLast` | grammar/c/wok_trivia.c:425-437 | With items in source order, the item found is the last of all items left of the comment that begin and end on its line and may take a trailing comment; none is found only if there is none. |
| `TriviaAttach.CountIsAll` | grammar/c/wok_trivia.c:590 | With items in source order, the first cursor counts exactly the items left of the comment. |
| `TriviaAttach.NextIsFirst` | grammar/c/wok_trivia.c:591-593 | The second cursor stops at the first item that is not flat and begins at or behind the comment's end. |
| `TriviaAttach.ChooseCloseScope` | grammar/c/wok_trivia.c:443-452 | The innermost enclosing block, closable and not flat, whose items sit at or left of the comment; else the file. |
| `TriviaAttach.ScopeEncloses` | grammar/c/wok_trivia.c:455-461 | Whether one block is another or encloses it. |
| `TriviaAttach.CloseIsEnds` | grammar/c/wok_trivia.c:439-452 | That block is the one every other candidate surrounds, by the chain of parents; the file when there is no candidate. |
| `TriviaAttach.DecideOne` | grammar/c/wok_trivia.c:596-626 | Rules 2, 1 and 3 in the order they are tried; `TriviaAttach.DecidedByRules` says what they name. |
| `TriviaAttach.DecidedByRules` | grammar/c/wok_trivia.c:596-626 | A comment that does not start its line goes behind the last item on its line; else one at or left of the first item behind it goes before that item; else it goes before that item if the innermost block it may end goes on, and in that block's closing run if not. |
| `TriviaAttach.RulesAgree` | grammar/c/wok_trivia.c:596-626 | The rules name one place only. |
| `TriviaAttach.MeasureComments` | grammar/c/wok_trivia.c:584-600 | Line, column and whether it starts its line are read off the text for every comment. |
| `TriviaAttach.ChooseTargets` | grammar/c/wok_trivia.c:584-634 | With cursors that only move forward, each comment gets the target of its rules, or its predecessor's when that target would print earlier. |
| `TriviaAttach.RanksRise` | grammar/c/wok_trivia.c:628-630 | Targets never go backwards in the printed text. |
| `TriviaAttach.TargetUsable` | grammar/c/wok_trivia.c:596-626 | Every target is a place the printer does write comments at. |
| `TriviaAttach.OneUse` | grammar/c/wok_trivia.c:244-258 | No node's trailing slot serves both as an item's trailing comments and as a block's closing comments. |
| `TriviaAttach.SlotFixesTarget` | grammar/c/wok_trivia.c:406-415 | Two targets that share a slot are the same place of the tour. |
| `TriviaAttach.SlotsAdjacent` | grammar/c/wok_trivia.c:656-657 | Comments of one slot are adjacent, so each run is one contiguous slice. |
| `TriviaAttach.FillEntries` | grammar/c/wok_trivia.c:658-670 | Each run holds exactly the comments of its slot. |
| `TriviaAttach.WrittenSoFar` | grammar/c/wok_print.c:355-385 | Up to any place of the tour, what has been written is an initial stretch of the comments, in order. |
| `TriviaAttach.Conserved` | grammar/c/wok_print.c:355-385 | Writing each item's leading run on entry, its trailing run on exit and each block's closing run at its end writes every comment exactly once and in source order. |
| `TriviaAttach.Attach` | grammar/c/wok_trivia.c:540-678 | The whole pass over any text, tree and comments in source order: items and blocks are the tree's; with items in source order every comment is held at the place the rules name, or at its predecessor's when that place would print earlier; and the printer's places give all comments back in order. |
| `WriteLocality.ScopeWalk.BindPattern` | grammar/c/wok_resolve.c:769-811 | Records the names a pattern binds, in order, or reports the binder cap. |
| `WriteLocality.ScopeWalk.Find` | grammar/c/wok_resolve.c:733-737 | The innermost binder of the name. |
| `WriteLocality.ScopeWalk.FindBaton` | grammar/c/wok_resolve.c:742-746 | The innermost `var` of the name. |
| `WriteLocality.ScopeWalk.CheckName` | grammar/c/wok_resolve.c:818-910 | The verdict read off the binder list and the frame is the verdict of the rule over the path from the root. |
| `WriteLocality.ScopeWalk.WalkHandler` | grammar/c/wok_resolve.c:915-978 | A literal gets a frame of its own; its `var`s are in scope in all its other clauses, and its initialisers belong to the enclosing body. |
| `WriteLocality.ScopeWalk.WalkBind` | grammar/c/wok_resolve.c:985-1034 | A `let` with parameters is a boundary and recursive; one without reads the outside. |
| `WriteLocality.ScopeWalk.WalkStmts` | grammar/c/wok_resolve.c:1039-1080 | A block scopes sequentially and is no boundary. |
| `WriteLocality.ScopeWalk.Walk` | grammar/c/wok_resolve.c:1082-1195 | The walk of any node logs the rule's verdict on every write below it, in tree order, leaves the scope as it was, and reports a cap exactly when some construct below binds too many names. |
| `WriteLocality.ScopeWalk.WalkFile` | grammar/c/wok_resolve.c:1197-1218 | Over a whole file the log is the rule's, which `WriteSites.LogIsVerdicts` tells by position, unless some construct binds more than 64 names, which is reported. |
| `WriteLocality.FrameTells` | grammar/c/wok_resolve.c:915-978 | Because no two literals on a path share a frame, the frame test of the walk is the same-literal test of the rule. |
| `WriteLocality.UnshadowingRepairs` | grammar/c/wok_resolve.c:843-859 | The shadow diagnostic is given exactly when taking the shadowing values away would make the write legal. |
| `WriteLocality.InitialiserIsOutside` | grammar/c/wok_resolve.c:947-961 | A write in a `var` initialiser is judged as one in the enclosing body, and the timing diagnostic is given exactly when the name is otherwise unbound. |
| `WriteSites.WriteAt` | grammar/c/wok_resolve.c:818-1195 | The verdict on a write, by its place in the tree: accepted exactly when the innermost construct that binds the name is a `var` of the literal whose clause body is the nearest function boundary (lambda, equation, `let` with parameters, clause); shadowed, outside its frame, not a `var`, too early or unbound in the order the diagnostics are tried. |
| `WriteSites.LogIsVerdicts` | grammar/c/wok_resolve.c:818-1195 | The log of a file has one verdict for each write, at its turn in the walk, each the verdict of its place, and none besides. |
| `WriteSites.NothingFineBelow` | grammar/c/wok_resolve.c:1090-1102 | No write is accepted inside a lambda, an equation or a `let` function, or below a value of its name, unless a clause body comes between. |
| `WriteSites.JudgedByPlace` | grammar/c/wok_resolve.c:733-746 | The rule over the path of binders is the rule over places. |

## Left out

- Diagnostics: wording, the cap on their number and suppression at one offset. A fault is a code with a position, a flag, or a verdict.
- Fixity: the matrix is a two-dimensional array of words rather than one flat array; names are compared as strings, not as spans of the source.
- Chain: untouched nodes are equal rather than shared, since trees are values; source positions of rebuilt nodes and which diagnostic comes first are not modelled. A chain with an undeclared operator stays as it is, and a neighbour-only entry stops the pass.
- Chain.ShieldTheorem: the chain's operators are all in the table, the state the reorder pass splits in; `Chain.CheckChain` itself also covers operators that are not, which the source lets shield.
- Scanner: tokens, their kinds, columns and bracket marks are inputs.
- Printer layout: line filling, widths, spacing, arrow alignment and overflow reports. The ladders are proved over tokens.
- Blocks: `where`, handlers, `case`, hanging bodies and declarations are not part of the ladders; a body is the one-line form.
- Depth caps: the parser's and printer's 200 levels are taken as not reached in the ladders.
- Accepted.ExprTaken: says which names a tree holds as a set, as a punned field may have been written either way, and a negation may have been written with any operator symbol.
- ExprParser: productions that loop over repeated items are written as recursion where the source pushes onto a growing vector.
- Names in the ladders are given by their token kind: parts of a module path begin in upper case, record heads are constructor atoms.
- Bindings and definitions whose name is a bracketed operator (`L_Prefix.paren`), and operator definitions, are not in the ladder.
- Recovery: the anchors of top-level recovery (`resync_decl`) are not modelled.
- Heap: the `WOK_RC_MALLOC` backend, poisoning, test hooks, allocation failure of libc, and the memory of foreign, borrowed and demo buffers.
- Heap: the check that physical memory stays within four times the logical peak plus eight slabs (runtime/wok_rc.c:108-146) is a heuristic and not a theorem; filling one size class, freeing it and moving to another breaks it. The exact statement per class is proved instead.
- Heap statistics beyond the counts of allocations, frees, live and peak cells. Pointers are a block number and an offset, memory is read and written in granules of eight bytes, and the client's obligations (a cell it holds, constructor tags below 0xFFFA) are `requires`.
- Sexpr: the schema is any that is closed: tag names are words, and none is the placeholder of the depth cap. Growth of the sink and the pool is not modelled; skipping of an unread form is not counted.
- Utf8: byte sequences are values, and the unaligned eight-byte load is the word of its bytes.
- Trivia: the tree lists its fields in print order, and comments lie inside the source. Paragraph breaks (`blank_before`), trimming of blanks at the end of a comment, the pointer hash of the entry table and the process-wide table of bindings are left out; a map from node to entry takes their place.
- Trivia.Builder.WalkNode: stops at 512 levels as the source does; the printer's places stop there with it.
- WriteLocality: binders live in an immutable list, so moving a destructuring binding's names into longer-lived memory is the identity. Checks of handler clauses and of chains that ride on the same walk are not repeated there.
- WriteLocality.ScopeWalk.WalkFile: says nothing of the verdicts of a file in which some construct binds more than 64 names, as names past the cap are not recorded.
- Command-line tools, file handling, JSON, `wok_shape.c`, `wok_arena.c` and `wok_str_ops.c`.
