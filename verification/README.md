# Verified models of c_lang_project

A Dafny 4.11 project that models the hardest algorithms of this collection of C programs and
proves what they are for. `dafny verify dfyconfig.toml` checks all of it.

The C code works by changing things in place, and so do the models: node structs are classes,
rotations and relinkings are assignments to fields, path stacks are sequences pushed and popped
in loops. Each heap structure is described by a ghost value (a tree, a path with a hole, a row
of blocks) that the heap is shown to hold; what the program promises is proved about these
values, and the methods are proved to produce them.

- `TinyC*`: the Tiny-C compiler. Parser, code generator with back-patching and stack machine,
  each as the imperative program it is; against them a grammar, a source semantics with fuel,
  and a machine semantics. Parsing is shown sound and complete for the grammar, compilation to
  preserve termination, final globals and divergence. `TinyCWords` shows that the tree of a
  program has its operands in the order of the text. `TinyCPrograms` follows the programs of the
  source's header, with any letters and numbers in them, from tokens to the final globals of the
  compiled program.
- `LeafTree`, `HeightTree`, `WeightTree`: search trees with the objects in the leaves, whose
  root never changes its address; height-balanced and weight-balanced.
- `SumMaxTree`, `IntervalMax`: the tree for the maximum, over an interval, of the weight of the
  intervals covering a point, with lazily stored weights.
- `RedBlackTree`, `BottomUpTree`, `TopDownTree`, `RedBlackRuns`: both red-black insertions, and
  their agreement on every run.
- `BlockTree`, `BlockNode`, `BlockHeap`, `TwoFourTree`, `TwoFourDelete`: the (2,4)-tree with
  splitting, sharing and joining.
- `BinomialRow`, `BinomialMerge`, `BinomialHeap`: the binomial heap, whose merge is binary
  addition.
- `LcaForest`: lowest common ancestors in growing forests, by lists of pointers to the 2^k-th
  ancestors.
- `UnionFind`: union by rank with path compression.
- `ListTree`, `SegmentTree`: search trees made from sorted lists, and the segment tree on them.
- `PointSort`, `RangeTree`, `RangeBuild`, `RangeQuery`: range trees in any number of coordinates.
- `ShadowStack`: the stack that grows without ever copying much at a time.
- `ProcessRing`, `Scheduler`, `SchedulerRun`: the ready and blocked rings of the kernel, and how
  long a process waits, exactly.
- `CheckedMemory`: the allocator that detects wrong calls of free.

Some properties one would expect do not hold of the code. `UnionFind.Join`, `ShadowStack.Stack.Pop`,
`Scheduler.Starvation`, `ProcessRing.AddQueue` and `RangeQuery.LowestCornerFails` show where, and
they or the theorems beside them say exactly when they do hold. `TinyCRun.TruncationBreaks` is
another such case: there `TinyCCode.CharsExact` is exact for the stored cells, while for the
behaviour of a program the condition `Fitting` is only sufficient. A program such as `200;` does not
fit and still leaves the variables right.

Memory comes from `new`; the free lists of the C code are not modelled. Objects are integers.
A null object pointer in a leaf is an absent object. Where the C code reads through a pointer
that the proofs must show to be set, the Dafny code does the same, so every such access is
proved safe.

## Model

| member | source | states |
|---|---|---|
| `TinyCParser.Parser.Term` | src/bin/paradigms/tiny_c/tinyc.c:190-199 | the parser object, on any remaining tokens, returns the tree and leaves the tokens that the specification function `ParseTerm` gives, and fails exactly when it does; the call returns |
| `TinyCParser.Parser.Sum` | src/bin/paradigms/tiny_c/tinyc.c:201-209 | the loop over `+` and `-` builds the left-associated tree of `ParseSum` |
| `TinyCParser.Parser.Test` | src/bin/paradigms/tiny_c/tinyc.c:211-219 | agrees with `ParseTest`: at most one comparison, of the sum before `<` with the one after it |
| `TinyCParser.Parser.Expression` | src/bin/paradigms/tiny_c/tinyc.c:221-232 | agrees with `ParseExpr`: an assignment only where the left side came out as a lone variable |
| `TinyCParser.Parser.ParenExpr` | src/bin/paradigms/tiny_c/tinyc.c:234-246 | agrees with `ParseParen`, including both error exits |
| `TinyCParser.Parser.Statement` | src/bin/paradigms/tiny_c/tinyc.c:248-304 | agrees with `ParseStmt` on every kind of statement |
| `TinyCParser.Parser.IfStatement` | src/bin/paradigms/tiny_c/tinyc.c:252-262 | an `else` that follows is taken by the innermost open `if` |
| `TinyCParser.Parser.Block` | src/bin/paradigms/tiny_c/tinyc.c:287-294 | the loop over the statements of a block builds the left-nested sequence over an empty statement |
| `TinyCParser.Parser.Program` | src/bin/paradigms/tiny_c/tinyc.c:306-315 | agrees with `ParseProgram`: one statement, then the end of input |
| `TinyCGrammar.NearestSameYield` | src/bin/paradigms/tiny_c/tinyc.c:18-32 | every derivation of a token string can be turned into one of the same string in which each `else` belongs to the nearest `if` |
| `TinyCParserCorrect.StmtComplete` | src/bin/paradigms/tiny_c/tinyc.c:248-304 | every string the grammar derives as a statement, by a nearest-`if` derivation and followed by no `else` it could take, is parsed to that derivation's tree |
| `TinyCParserCorrect.StmtSound` | src/bin/paradigms/tiny_c/tinyc.c:248-304 | whatever the statement parser consumes is derived by the grammar, by a nearest-`if` derivation of the tree returned |
| `TinyCParserCorrect.AcceptsExactlyTheGrammar` | src/bin/paradigms/tiny_c/tinyc.c:18-32 | a token string is accepted if and only if the grammar derives it |
| `TinyCParserCorrect.ParsesToNearestIfTree` | src/bin/paradigms/tiny_c/tinyc.c:190-315 | the tree of an accepted string is that of its nearest-`if` derivation, whichever such derivation is taken |
| `TinyCParserCorrect.ParseInvertsPrint` | src/bin/paradigms/tiny_c/tinyc.c:190-315 | parsing the printed form of any tree the parser can produce gives the tree back |
| `TinyCParserCorrect.ProducibleIffParsed` | src/bin/paradigms/tiny_c/tinyc.c:190-315 | the trees that can be printed are exactly those that some token string is parsed to |
| `TinyCWords.ReadInOrder` | src/bin/paradigms/tiny_c/tinyc.c:190-315 | the identifiers and numbers of every accepted string are those of its tree, read from left to right, in the same order; so no two operands, branches or statements are exchanged |
| `TinyCCode.CharsExact` | src/bin/paradigms/tiny_c/tinyc.c:323-333 | storing code in `char` cells loses nothing if and only if every cell fits |
| `TinyCCode.CodeGen.Fix` | src/bin/paradigms/tiny_c/tinyc.c:332-333 | a hole gets the distance from itself to the target, and no other cell changes |
| `TinyCCode.CodeGen.CExpr` | src/bin/paradigms/tiny_c/tinyc.c:335-372 | emits the code of the expression from `here` on, in place, changing no cell before |
| `TinyCCode.CodeGen.CStmt` | src/bin/paradigms/tiny_c/tinyc.c:335-431 | emits the code of the statement, with every hole in it filled |
| `TinyCCode.CodeGen.CIf2` | src/bin/paradigms/tiny_c/tinyc.c:382-392 | the two forward jumps of a conditional are patched to the else part and to the end |
| `TinyCCode.CodeGen.CWhile` | src/bin/paradigms/tiny_c/tinyc.c:394-403 | the back jump and the exit jump of a loop are patched to its test and to its end |
| `TinyCCode.CodeGen.CDo` | src/bin/paradigms/tiny_c/tinyc.c:405-411 | the back jump of a do loop is patched to its start |
| `TinyCCode.CodeGen.CProgram` | src/bin/paradigms/tiny_c/tinyc.c:335-431 | the emitted cells are the code of the program as `char` cells |
| `TinyCMachine.AfterAdd` | src/bin/paradigms/tiny_c/tinyc.c:439-492 | running m + n steps is running m and then n |
| `TinyCCorrect.ExprRuns` | src/bin/paradigms/tiny_c/tinyc.c:439-492 | from any stack and globals, the code of an expression runs to its end with exactly the value pushed and the globals the source semantics gives |
| `TinyCCorrect.StmtRuns` | src/bin/paradigms/tiny_c/tinyc.c:439-492 | the code of a statement that terminates in the source semantics runs to its end with the stack as it was and the globals of the source; given fuel too small for the source, it runs for as many steps |
| `TinyCCorrect.WhileRuns` | src/bin/paradigms/tiny_c/tinyc.c:394-403 | the same of a loop, by induction on the fuel |
| `TinyCCorrect.CompilerCorrect` | src/bin/paradigms/tiny_c/tinyc.c:335-492 | the compiled program halts with given globals if and only if the source program terminates with them |
| `TinyCCorrect.DivergenceCorrect` | src/bin/paradigms/tiny_c/tinyc.c:335-492 | the compiled program runs for ever if and only if the source program diverges |
| `TinyCCorrect.NeverFaults` | src/bin/paradigms/tiny_c/tinyc.c:439-492 | no run of a compiled program underflows the stack or leaves the code |
| `TinyCSafety.StackHeightIsStatic` | src/bin/paradigms/tiny_c/tinyc.c:326-492 | in every reachable state the program counter is at an instruction, the stack height is a function of it, and the height is at most the bound computed from nesting |
| `TinyCRun.Machine.Turn` | src/bin/paradigms/tiny_c/tinyc.c:445-490 | one turn of the interpreter on the arrays does one step of the abstract machine |
| `TinyCRun.Machine.Run` | src/bin/paradigms/tiny_c/tinyc.c:439-492 | the interpreter leaves the globals that the abstract machine halts with |
| `TinyCRun.CompileAndRun` | src/bin/paradigms/tiny_c/tinyc.c:498-507 | parser, code generator and interpreter together: on tokens of an encodable program that terminates, the final globals are those of the source semantics; on other tokens a syntax error is reported |
| `TinyCRun.TruncationBreaks` | src/bin/paradigms/tiny_c/tinyc.c:323-327 | without the encodable condition this fails: `a=200;` leaves another value in `a` |
| `LeafTree.LeftRotation` | src/bin/books/advanced_data_structures/ch3/h_bl_tree.c:59-74 | the rotation moves keys and links and keeps the root's address; the heap holds the rotated tree |
| `LeafTree.RightRotation` | src/bin/books/advanced_data_structures/ch3/h_bl_tree.c:76-91 | likewise to the right |
| `LeafTree.RotatedLeftSame` | src/bin/books/advanced_data_structures/ch3/h_bl_tree.c:59-74 | a rotation keeps the order and changes no lookup |
| `LeafTree.DoublyRotatedRightSame` | src/bin/books/advanced_data_structures/ch3/h_bl_tree.c:195-201 | so does a double rotation |
| `LeafTree.LookupIsContents` | src/bin/books/advanced_data_structures/ch3/h_bl_tree.c:93-119 | in an ordered tree the search finds exactly the pairs the leaves hold |
| `LeafTree.StepsWithinDepth` | src/bin/books/advanced_data_structures/ch3/h_bl_tree.c:93-119 | no search takes more steps than the depth that the bounds below are about, and some search takes as many |
| `LeafTree.Find` | src/bin/books/advanced_data_structures/ch3/h_bl_tree.c:93-119 | the loop of `find` computes that search |
| `LeafTree.SplitLeaf` | src/bin/books/advanced_data_structures/ch3/h_bl_tree.c:152-176 | turning the leaf where the search ended into a node over two leaves adds the new pair and changes no other lookup |
| `LeafTree.UnlinkLeaf` | src/bin/books/advanced_data_structures/ch3/h_bl_tree.c:284-296 | letting the sibling take its parent's place removes the leaf's pair and changes no other lookup |
| `HeightTree.StoredHeight` | src/bin/books/advanced_data_structures/ch3/h_bl_tree.c:178-236 | in a balanced tree the stored heights are the heights |
| `HeightTree.FibonacciBound` | src/bin/books/advanced_data_structures/ch3/h_bl_tree.c:178-236 | a balanced tree of height h has at least Fib(h + 2) leaves |
| `HeightTree.LogarithmicHeight` | src/bin/books/advanced_data_structures/ch3/h_bl_tree.c:178-236 | so a tree of height h has at least 2^(h / 2) leaves |
| `HeightTree.FixedOk` | src/bin/books/advanced_data_structures/ch3/h_bl_tree.c:184-230 | one turn of the loop, with no, a single or a double rotation, restores balance, changes no lookup, and lowers the subtree only where it rotates |
| `HeightTree.FixedRoot` | src/bin/books/advanced_data_structures/ch3/h_bl_tree.c:184-230 | which node comes to the top, by the difference of the heights and the heights of the grandchildren |
| `HeightTree.Rebalance` | src/bin/books/advanced_data_structures/ch3/h_bl_tree.c:178-236 | the loop may stop at the first node whose height comes out as it was: the whole tree is balanced then |
| `HeightTree.HeightBalancedTree.Get` | src/bin/books/advanced_data_structures/ch3/h_bl_tree.c:93-119 | agrees with the map |
| `HeightTree.HeightBalancedTree.Insert` | src/bin/books/advanced_data_structures/ch3/h_bl_tree.c:121-241 | keeps stored heights exact and siblings within one; adds the pair, or returns -1 and changes nothing if the key is there |
| `HeightTree.HeightBalancedTree.Delete` | src/bin/books/advanced_data_structures/ch3/h_bl_tree.c:243-360 | keeps balance; removes the key and returns its object, or nothing |
| `WeightTree.EvenMeansAlpha` | src/bin/books/advanced_data_structures/ch3/w_bl_tree.c:122-123 | the balance condition used is that each side holds at least 288/1000 of the weight |
| `WeightTree.StoredWeight` | src/bin/books/advanced_data_structures/ch3/w_bl_tree.c:176-232 | stored weights are the numbers of leaves |
| `WeightTree.LogarithmicDepth` | src/bin/books/advanced_data_structures/ch3/w_bl_tree.c:176-232 | a balanced tree of n leaves and depth d has 1000^d <= 712^d * n |
| `WeightTree.RightLightForks` | src/bin/books/advanced_data_structures/ch3/w_bl_tree.c:186-204 | where the left side is too heavy, the grandchildren the rotations touch exist |
| `WeightTree.FixedBalanced` | src/bin/books/advanced_data_structures/ch3/w_bl_tree.c:180-232 | for every size, small ones included, one turn after a change of one leaf restores the balance of both the node and its new children |
| `WeightTree.FixedRoot` | src/bin/books/advanced_data_structures/ch3/w_bl_tree.c:180-232 | which node comes to the top, by the limits 0.288 and 0.293 on the weights |
| `WeightTree.Rebalance` | src/bin/books/advanced_data_structures/ch3/w_bl_tree.c:176-232 | so the loop to the root restores the balance of the whole tree |
| `WeightTree.WeightBalancedTree.Get` | src/bin/books/advanced_data_structures/ch3/w_bl_tree.c:95-120 | agrees with the map |
| `WeightTree.WeightBalancedTree.Insert` | src/bin/books/advanced_data_structures/ch3/w_bl_tree.c:125-239 | keeps every node balanced; adds the pair, or returns -1 and changes nothing |
| `WeightTree.WeightBalancedTree.Delete` | src/bin/books/advanced_data_structures/ch3/w_bl_tree.c:241-353 | keeps every node balanced; removes the key and returns its object, or nothing |
| `SumMaxTree.PeakBounds` | src/bin/books/advanced_data_structures/ch4/wsmx_tree.c:72-126 | summand + partial_sum bounds the value of every point below a node |
| `SumMaxTree.PeakReached` | src/bin/books/advanced_data_structures/ch4/wsmx_tree.c:72-126 | and some point within the node's range reaches it |
| `SumMaxTree.SumRotatedLeftSame` | src/bin/books/advanced_data_structures/ch4/wsmx_tree.c:72-98 | the rotation with its summands pushed down changes no point's value, no lookup and no maximum, and keeps partials and separators right |
| `SumMaxTree.SumRotatedRightSame` | src/bin/books/advanced_data_structures/ch4/wsmx_tree.c:100-126 | likewise to the right |
| `SumMaxTree.SumLeftRotation` | src/bin/books/advanced_data_structures/ch4/wsmx_tree.c:72-98 | the statements of the rotation produce that tree in the heap |
| `SumMaxTree.SumRightRotation` | src/bin/books/advanced_data_structures/ch4/wsmx_tree.c:100-126 | likewise to the right |
| `SumMaxTree.FixNode` | src/bin/books/advanced_data_structures/ch4/wsmx_tree.c:410-465 | one turn of rebalancing restores balance and changes no value |
| `IntervalMax.MaxInBounds` | src/bin/books/advanced_data_structures/ch4/wsmx_tree.c:156-288 | no point of the interval lies above what the query computes |
| `IntervalMax.MaxInReached` | src/bin/books/advanced_data_structures/ch4/wsmx_tree.c:156-288 | and some point of the interval has that value |
| `IntervalMax.LeftScan` | src/bin/books/advanced_data_structures/ch4/wsmx_tree.c:194-233 | the walk along the path of the left endpoint |
| `IntervalMax.RightScan` | src/bin/books/advanced_data_structures/ch4/wsmx_tree.c:235-278 | the walk along the path of the right endpoint |
| `IntervalMax.MaxValue` | src/bin/books/advanced_data_structures/ch4/wsmx_tree.c:156-288 | the descent to the splitting node and both walks compute the maximum over [a, b) |
| `IntervalMax.InsertInto` | src/bin/books/advanced_data_structures/ch4/wsmx_tree.c:354-471 | inserting a key keeps the tree balanced and changes no point's value |
| `IntervalMax.AddFrom` | src/bin/books/advanced_data_structures/ch4/wsmx_tree.c:304-327 | either half of `insert_interval` adds the weight at exactly the points from its key on, for all points from the smallest key on |
| `IntervalMax.IntervalTree.InsertInterval` | src/bin/books/advanced_data_structures/ch4/wsmx_tree.c:290-352 | adds w to the total of every point x with a <= x < b and to no other, and takes it off where b <= x < a; after any run, the value of every point from NEGINFTY on is the sum of the weights of the intervals covering it |
| `IntervalMax.IntervalTree.MaxValueInterval` | src/bin/books/advanced_data_structures/ch4/wsmx_tree.c:156-288 | the query returns the maximum of that sum over [a, b), which some point reaches |
| `RedBlackTree.LogarithmicDepth` | src/bin/books/advanced_data_structures/ch3/rb_tree.c:183-266 | a red-black tree of n leaves is at most 2 log2(n) + 1 deep |
| `BottomUpTree.ConflictIsInner` | src/bin/books/advanced_data_structures/ch3/rb_tree.c:199-245 | where a rotation is made, the red child of the conflict is an interior node, so the double rotations find their nodes |
| `BottomUpTree.Resolve` | src/bin/books/advanced_data_structures/ch3/rb_tree.c:193-249 | each of the five branches restores colours and black heights below its node, keeps order and lookups, and tells whether the conflict has moved up |
| `BottomUpTree.Rebalance` | src/bin/books/advanced_data_structures/ch3/rb_tree.c:183-263 | the loop leaves at most the root to be blackened |
| `BottomUpTree.BottomUpRedBlackTree.Get` | src/bin/books/advanced_data_structures/ch3/rb_tree.c:99-136 | agrees with the map |
| `BottomUpTree.BottomUpRedBlackTree.Insert` | src/bin/books/advanced_data_structures/ch3/rb_tree.c:138-269 | keeps the root black, no red node with a red child, equal black heights and order; adds the pair, or returns -1 and changes nothing |
| `TopDownTree.BlackLeaf` | src/bin/books/advanced_data_structures/ch3/t_rb_tree.c:219 | the descent always ends on a black leaf |
| `TopDownTree.SideOfUpper` | src/bin/books/advanced_data_structures/ch3/t_rb_tree.c:164 | comparing separators tells on which side of `upper` the node is |
| `TopDownTree.OuterRightFits` | src/bin/books/advanced_data_structures/ch3/t_rb_tree.c:172-177 | taking apart a full outer grandchild keeps colours and black heights |
| `TopDownTree.InnerRightFits` | src/bin/books/advanced_data_structures/ch3/t_rb_tree.c:179-187 | likewise a full inner one |
| `TopDownTree.TakeApart` | src/bin/books/advanced_data_structures/ch3/t_rb_tree.c:156-213 | each branch keeps the tree red-black, in order and with the same lookups, and the next node has no red child |
| `TopDownTree.DescendSplitting` | src/bin/books/advanced_data_structures/ch3/t_rb_tree.c:145-219 | the loop goes down with the whole tree red-black at every step |
| `TopDownTree.TopDownRedBlackTree.Get` | src/bin/books/advanced_data_structures/ch3/t_rb_tree.c:98-131 | agrees with the map |
| `TopDownTree.TopDownRedBlackTree.Insert` | src/bin/books/advanced_data_structures/ch3/t_rb_tree.c:133-263 | same contract as the bottom-up insertion; a duplicate may leave the tree taken apart on the way, with the same map |
| `RedBlackRuns.FirstCounts` | src/bin/books/advanced_data_structures/ch3/rb_tree.c:138-269 | of several insertions of a key the first is the one that counts |
| `RedBlackRuns.OnlyGiven` | src/bin/books/advanced_data_structures/ch3/rb_tree.c:138-269 | the map after a run has exactly the keys given |
| `RedBlackRuns.Agree` | src/bin/books/advanced_data_structures/ch3/t_rb_tree.c:133-263 | after any run of insertions both implementations answer every query alike |
| `BlockTree.SearchEntry` | src/bin/books/advanced_data_structures/ch3/a_b_tree.c:97-112 | the entry where the search goes on is the only one that can hold the key |
| `BlockTree.CutInRange` | src/bin/books/advanced_data_structures/ch3/a_b_tree.c:190-229 | both halves of a split block are in order, on either side of the separator passed up |
| `BlockTree.GluedInRange` | src/bin/books/advanced_data_structures/ch3/a_b_tree.c:364-376 | two neighbours with the separator between them make one block in order |
| `BlockNode.SearchIndex` | src/bin/books/advanced_data_structures/ch3/a_b_tree.c:97-110 | the binary search finds the entry between whose keys the query lies |
| `BlockNode.InsertEntry` | src/bin/books/advanced_data_structures/ch3/a_b_tree.c:175-188 | a node with room gets the entry in its place |
| `BlockNode.SplitNode` | src/bin/books/advanced_data_structures/ch3/a_b_tree.c:190-229 | a full node keeps the lower three of the five entries, the new node gets the upper two |
| `BlockNode.ShareRight` | src/bin/books/advanced_data_structures/ch3/a_b_tree.c:336-358 | the node takes its right neighbour's first entry, the separator above follows |
| `BlockNode.ShareLeft` | src/bin/books/advanced_data_structures/ch3/a_b_tree.c:397-419 | the node takes its left neighbour's last entry, the separator above follows |
| `BlockNode.Append` | src/bin/books/advanced_data_structures/ch3/a_b_tree.c:362-376 | joining: the entries of the right neighbour follow those of the left one |
| `TwoFourTree.Find` | src/bin/books/advanced_data_structures/ch3/a_b_tree.c:91-126 | agrees with the map on trees that are not empty |
| `TwoFourTree.Carried` | src/bin/books/advanced_data_structures/ch3/a_b_tree.c:228-234 | a split of a full block, with its upper half to be put into the parent, changes neither order nor contents |
| `TwoFourTree.InsertUp` | src/bin/books/advanced_data_structures/ch3/a_b_tree.c:164-258 | the loop of splits up to the root ends with all degrees in bounds and all leaves on one level |
| `TwoFourDelete.JoinedSame` | src/bin/books/advanced_data_structures/ch3/a_b_tree.c:360-388 | joining two neighbours changes neither order nor contents |
| `TwoFourDelete.SharedInRange` | src/bin/books/advanced_data_structures/ch3/a_b_tree.c:332-358 | sharing keeps the order and the separator right |
| `TwoFourDelete.Mend` | src/bin/books/advanced_data_structures/ch3/a_b_tree.c:322-453 | each of the four branches mends the underfull block, or leaves at most the block above underfull |
| `TwoFourDelete.DropRoot` | src/bin/books/advanced_data_structures/ch3/a_b_tree.c:308-319 | a root with one entry gives way to it, keeping its address |
| `TwoFourDelete.DeleteUp` | src/bin/books/advanced_data_structures/ch3/a_b_tree.c:296-457 | the loop ends with a proper tree of the same contents |
| `TwoFourDelete.TwoFour.Get` | src/bin/books/advanced_data_structures/ch3/a_b_tree.c:91-126 | agrees with the map |
| `TwoFourDelete.TwoFour.Insert` | src/bin/books/advanced_data_structures/ch3/a_b_tree.c:128-262 | for a new key: all leaves stay on one level, non-root degrees in [2, 4], separators right, and the pair is added |
| `TwoFourDelete.TwoFour.Delete` | src/bin/books/advanced_data_structures/ch3/a_b_tree.c:264-463 | the same kept; the key is removed and its object returned, or nothing |
| `BinomialRow.HeightsAreBits` | src/bin/books/advanced_data_structures/ch5/bino_heap.c:121-197 | a heap has a block of height h if and only if binary digit h of its size is 1 |
| `BinomialRow.BitIsDigit` | src/bin/books/advanced_data_structures/ch5/bino_heap.c:121-197 | binary digit h of n is n / 2^h modulo 2 |
| `BinomialMerge.InterleavePiled` | src/bin/books/advanced_data_structures/ch5/bino_heap.c:140-166 | the stack holds the blocks of both heaps by height, none more than twice |
| `BinomialMerge.AddStepFit` | src/bin/books/advanced_data_structures/ch5/bino_heap.c:170-195 | each turn of the addition, carry included, keeps heights strictly falling and leaves room for what is still on the stack |
| `BinomialMerge.AddStepCount` | src/bin/books/advanced_data_structures/ch5/bino_heap.c:170-195 | each turn keeps every pair |
| `BinomialMerge.AddStepOrdered` | src/bin/books/advanced_data_structures/ch5/bino_heap.c:170-195 | each turn keeps the half-order |
| `BinomialMerge.LinkBlocks` | src/bin/books/advanced_data_structures/ch5/bino_heap.c:174-189 | of two blocks of one height the one with the smaller key gets on top, the current one if the keys are equal, and has the other as its first lower block |
| `BinomialMerge.Merge` | src/bin/books/advanced_data_structures/ch5/bino_heap.c:138-197 | the merge of two heaps is a heap with the pairs of both; its size is the sum |
| `BinomialHeap.MinOfAll` | src/bin/books/advanced_data_structures/ch5/bino_heap.c:74-91 | the smallest key of the row of blocks is the smallest of all |
| `BinomialHeap.FindMinKey` | src/bin/books/advanced_data_structures/ch5/bino_heap.c:74-91 | returns the smallest key |
| `BinomialHeap.DeleteMin` | src/bin/books/advanced_data_structures/ch5/bino_heap.c:199-260 | each branch removes the pair of the first smallest block, restores the shape and keeps the root's address |
| `BinomialHeap.PriorityQueue.Add` | src/bin/books/advanced_data_structures/ch5/bino_heap.c:263-290 | adds the pair to the multiset |
| `BinomialHeap.PriorityQueue.RemoveMin` | src/bin/books/advanced_data_structures/ch5/bino_heap.c:199-260 | removes one pair of smallest key from the multiset and returns its object |
| `BinomialHeap.PriorityQueue.MinKey` | src/bin/books/advanced_data_structures/ch5/bino_heap.c:74-91 | returns the smallest key of the multiset |
| `BinomialHeap.PriorityQueue.Digits` | src/bin/books/advanced_data_structures/ch5/bino_heap.c:121-197 | after any run, block heights are the binary digits of the number of pairs |
| `LcaForest.FollowUp` | src/bin/books/advanced_data_structures/ch6/lca_find.c:93-132 | in every forest grown by the operations, the pointer at level k leads to level k of the 2^k-th ancestor, if there is one |
| `LcaForest.FollowNext` | src/bin/books/advanced_data_structures/ch6/lca_find.c:93-132 | a list has a level for every power of two up to its depth |
| `LcaForest.AncIsChain` | src/bin/books/advanced_data_structures/ch6/lca_find.c:93-132 | the n-th ancestor is the last node of the chain of n steps from child to parent, and there is one exactly if there is such a chain |
| `LcaForest.SiblingsLca` | src/bin/books/advanced_data_structures/ch6/lca_find.c:186-211 | distinct ancestors of one depth with the same parent have the lowest common ancestor as parent |
| `LcaForest.RootsApart` | src/bin/books/advanced_data_structures/ch6/lca_find.c:186-213 | distinct ancestors at depth 0 show that the nodes are in different trees |
| `LcaForest.Lift` | src/bin/books/advanced_data_structures/ch6/lca_find.c:150-171 | the halving loop goes up by exactly the difference in depth |
| `LcaForest.Search` | src/bin/books/advanced_data_structures/ch6/lca_find.c:176-214 | the exponential search ends, follows no missing link, and finds the lowest common ancestor or that there is none |
| `LcaForest.AddForward` | src/bin/books/advanced_data_structures/ch6/lca_find.c:108-126 | one more level of a new leaf's list, with a new target where one is missing, keeps all pointers right |
| `LcaForest.Forest.CreateTree` | src/bin/books/advanced_data_structures/ch6/lca_find.c:79-91 | adds a root with its item to the forest |
| `LcaForest.Forest.AddLeaf` | src/bin/books/advanced_data_structures/ch6/lca_find.c:93-132 | adds a leaf with its item below the node, gives it its list, and keeps items and depths of all nodes |
| `LcaForest.Forest.Lowest` | src/bin/books/advanced_data_structures/ch6/lca_find.c:140-215 | returns the common ancestor of which every common ancestor is an ancestor, or null if there is none |
| `UnionFind.SameTransitive` | src/bin/books/advanced_data_structures/ch6/am_u_find.c:84-159 | the relation generated by the joins is transitive |
| `UnionFind.SameJoined` | src/bin/books/advanced_data_structures/ch6/am_u_find.c:117-159 | it holds of every joined pair |
| `UnionFind.SameLeast` | src/bin/books/advanced_data_structures/ch6/am_u_find.c:84-159 | it is the least equivalence with that property |
| `UnionFind.FindRoot` | src/bin/books/advanced_data_structures/ch6/am_u_find.c:90-95 | following the links ends at the root of the class |
| `UnionFind.Compress` | src/bin/books/advanced_data_structures/ch6/am_u_find.c:97-111 | path compression makes exactly the nodes on the way from a node to its root point to the root, all other pointers staying; it changes no node's root and no rank, and keeps ranks strictly increasing upwards |
| `UnionFind.Link` | src/bin/books/advanced_data_structures/ch6/am_u_find.c:129-141 | the root of higher rank wins, the first one if they are equal, and only then the winner's rank rises by one; links, ranks and classes are exactly known afterwards; for different roots ranks stay increasing with 2^rank members below a root, and a root joined with itself becomes its own parent |
| `UnionFind.SelfLoopBroken` | src/bin/books/advanced_data_structures/ch6/am_u_find.c:138-141 | a node that is its own parent fits no classes whatever |
| `UnionFind.Insert` | src/bin/books/advanced_data_structures/ch6/am_u_find.c:72-82 | adds a class of one |
| `UnionFind.SameClass` | src/bin/books/advanced_data_structures/ch6/am_u_find.c:84-115 | decides the equivalence generated by the joins; the links of both ways, and no others, lead to the roots afterwards |
| `UnionFind.Join` | src/bin/books/advanced_data_structures/ch6/am_u_find.c:117-159 | the classes afterwards are those of the joins with the new pair if and only if the two nodes were in different classes; otherwise their root is its own parent; which root wins, all links and all ranks afterwards are given exactly, and the items stay |
| `UnionFind.RankBound` | src/bin/books/advanced_data_structures/ch6/am_u_find.c:117-159 | the number of steps from a node to its root, with its own rank, is at most the rank of the root, and at most the logarithm of the size of the class |
| `ShadowStack.Stack.constructor` | src/bin/books/advanced_data_structures/ch1/shd_stack.c:16-29 | the stack is empty, with a buffer of the size given |
| `ShadowStack.Stack.Empty` | src/bin/books/advanced_data_structures/ch1/shd_stack.c:31-35 | true exactly for the empty stack |
| `ShadowStack.Stack.Push` | src/bin/books/advanced_data_structures/ch1/shd_stack.c:37-68 | adds the item to the abstract stack, never writes past the buffer, and keeps what remains to be copied within three times the room left; how many items it copies, at most four, and when the buffer is doubled is given exactly |
| `ShadowStack.Stack.CopySome` | src/bin/books/advanced_data_structures/ch1/shd_stack.c:53-57 | copies until four items or all are done; what is copied agrees with the buffer |
| `ShadowStack.Stack.Pop` | src/bin/books/advanced_data_structures/ch1/shd_stack.c:70-88 | returns the last item; the stack is right afterwards if and only if this was not the only item with no copy under way; when the copy takes over is given exactly |
| `ShadowStack.RunAll` | src/bin/books/advanced_data_structures/ch1/shd_stack.c:16-88 | every run of pushes and pops, from any initial size, in which no pop empties the stack agrees with the ideal stack |
| `ListTree.MakeTree` | src/bin/books/advanced_data_structures/ch4/segm_tree.c:72-130 | the tree has the list in its leaves in order, every separator is the least key to its right, every node has half of its leaves on the left, and all nodes are new and distinct |
| `ListTree.Expand` | src/bin/books/advanced_data_structures/ch4/segm_tree.c:99-112 | an unexpanded node gets two, with the leaves to come divided between them |
| `ListTree.Fill` | src/bin/books/advanced_data_structures/ch4/segm_tree.c:114-126 | filling a leaf completes all subtrees that end with it, sets the separator that waited for it, and leads on to the next waiting node |
| `ListTree.ClimbKeeps` | src/bin/books/advanced_data_structures/ch4/segm_tree.c:96-127 | closing completed subtrees keeps the leaves filled so far, in order, and the nodes that wait |
| `ListTree.TreeOrdered` | src/bin/books/advanced_data_structures/ch4/segm_tree.c:72-130 | such a tree over strictly increasing keys is a search tree |
| `ListTree.HalvedLevels` | src/bin/books/advanced_data_structures/ch4/segm_tree.c:99-112 | and has no more levels than its number of leaves needs |
| `SegmentTree.LeftMarks` | src/bin/books/advanced_data_structures/ch4/segm_tree.c:255-276 | the walk along the left endpoint marks each point from a on exactly once, and no other |
| `SegmentTree.RightMarks` | src/bin/books/advanced_data_structures/ch4/segm_tree.c:278-297 | the walk along the right endpoint marks each point before b exactly once, and no other |
| `SegmentTree.AttachMarks` | src/bin/books/advanced_data_structures/ch4/segm_tree.c:218-299 | the nodes an interval is attached to partition it: every search path meets exactly one of them if its point is covered, none if not |
| `SegmentTree.LeftWalk` | src/bin/books/advanced_data_structures/ch4/segm_tree.c:255-276 | the loop attaches the interval to these nodes, in place |
| `SegmentTree.RightWalk` | src/bin/books/advanced_data_structures/ch4/segm_tree.c:278-297 | likewise for the right endpoint |
| `SegmentTree.InsertInto` | src/bin/books/advanced_data_structures/ch4/segm_tree.c:218-299 | the descent and both walks together leave the heap with the interval attached to its nodes, and nothing else changed |
| `SegmentTree.FindIntervals` | src/bin/books/advanced_data_structures/ch4/segm_tree.c:167-202 | collects what is attached along a search path, as often as it is attached |
| `SegmentTree.EmptyTree` | src/bin/books/advanced_data_structures/ch4/segm_tree.c:132-141 | empties the lists of all nodes and changes nothing else |
| `SegmentTree.Intervals.constructor` | src/bin/books/advanced_data_structures/ch4/segm_tree.c:72-141 | a tree for the keys of a sorted list, with no intervals |
| `SegmentTree.Intervals.Insert` | src/bin/books/advanced_data_structures/ch4/segm_tree.c:218-299 | adds an interval between keys of the tree to the intervals held |
| `SegmentTree.Intervals.Find` | src/bin/books/advanced_data_structures/ch4/segm_tree.c:167-202 | after any run of insertions, each interval covering the point is returned exactly as often as it was inserted, and no other |
| `SegmentTree.TimesBelow` | src/bin/books/advanced_data_structures/ch4/segm_tree.c:167-202 | a point below all keys is answered as if it were the least key |
| `PointSort.SwappedInversions` | src/bin/books/advanced_data_structures/ch4/or_r_tree.c:139-162 | exchanging neighbours in the wrong order removes exactly one inversion, so the bubble sort ends |
| `PointSort.Pass` | src/bin/books/advanced_data_structures/ch4/or_r_tree.c:140-161 | one pass keeps all points under their keys, and either finds the list sorted or removes inversions |
| `PointSort.BubbleSort` | src/bin/books/advanced_data_structures/ch4/or_r_tree.c:139-162 | the sort ends, with the same items in order |
| `PointSort.JoinedStored` | src/bin/books/advanced_data_structures/ch4/or_r_tree.c:167-176 | collecting two items of equal keys in one loses no point |
| `PointSort.Sort` | src/bin/books/advanced_data_structures/ch4/or_r_tree.c:129-182 | the list has strictly increasing keys, every point under its coordinate, and each point as often as before |
| `RangeTree.ExactEdge` | src/bin/books/advanced_data_structures/ch4/or_r_tree.c:212-222 | in a tree over the sorted coordinates with the extra key in front, each leaf gets exactly the points with its key, and the extra leaf gets none, whatever the coordinates |
| `RangeBuild.KeyList` | src/bin/books/advanced_data_structures/ch4/or_r_tree.c:197-210 | one item for each point, under its coordinate |
| `RangeBuild.Visit` | src/bin/books/advanced_data_structures/ch4/or_r_tree.c:227-235 | a step of the pass over all nodes changes the information of the node on top of the stack and no other |
| `RangeBuild.ClearLower` | src/bin/books/advanced_data_structures/ch4/or_r_tree.c:224-235 | the pass visits every node |
| `RangeBuild.AttachPoint` | src/bin/books/advanced_data_structures/ch4/or_r_tree.c:244-259 | the point is added to the list of every node on its search path, and to no other |
| `RangeBuild.AttachedRouted` | src/bin/books/advanced_data_structures/ch4/or_r_tree.c:243-262 | if each node has the list of the points that get there, this is so with one point more |
| `RangeBuild.BuildLower` | src/bin/books/advanced_data_structures/ch4/or_r_tree.c:264-279 | every list is replaced by the range tree of its points in the coordinates below |
| `RangeBuild.Build` | src/bin/books/advanced_data_structures/ch4/or_r_tree.c:184-284 | the heap holds a range tree of the points, in any number of coordinates; null for no points |
| `RangeQuery.CollectCount` | src/bin/books/advanced_data_structures/ch4/or_r_tree.c:286-328 | in one coordinate the walk finds each point between the bounds as often as it is stored: the subtrees it leaves out have none |
| `RangeQuery.FindPoints1d` | src/bin/books/advanced_data_structures/ch4/or_r_tree.c:286-328 | the loop with its stack does that walk |
| `RangeQuery.LeftCount` | src/bin/books/advanced_data_structures/ch4/or_r_tree.c:392-420 | the lower trees asked along the path of the lower bound hold exactly the points from it on |
| `RangeQuery.RightCount` | src/bin/books/advanced_data_structures/ch4/or_r_tree.c:422-449 | those along the path of the upper bound hold exactly the points before it |
| `RangeQuery.InBoxEverywhere` | src/bin/books/advanced_data_structures/ch4/or_r_tree.c:286-452 | the box of a query holds exactly the points with every coordinate at or above the lower and below the upper bound |
| `RangeQuery.QueryCount` | src/bin/books/advanced_data_structures/ch4/or_r_tree.c:349-452 | by induction on the coordinates: an answer has each point in the half-open box as often as it was given, and no other |
| `RangeQuery.QueryFails` | src/bin/books/advanced_data_structures/ch4/or_r_tree.c:392-420 | there is no answer, because the extra leaf has no lower tree, if and only if the lower bound is NEGINFTY, all points are above it and some point is not above the upper bound |
| `RangeQuery.QuerySafe` | src/bin/books/advanced_data_structures/ch4/or_r_tree.c:349-452 | there is an answer for every box with no lower bound equal to NEGINFTY, without any condition on the coordinates of the points |
| `RangeQuery.LowestCornerFails` | src/bin/books/advanced_data_structures/ch4/or_r_tree.c:414-419 | a box and a point in it for which the search follows a null pointer |
| `RangeQuery.FollowLeft` | src/bin/books/advanced_data_structures/ch4/or_r_tree.c:392-420 | the loop asks these lower trees and joins their answers |
| `RangeQuery.FollowRight` | src/bin/books/advanced_data_structures/ch4/or_r_tree.c:422-449 | likewise for the upper bound |
| `RangeQuery.FindPoints` | src/bin/books/advanced_data_structures/ch4/or_r_tree.c:349-452 | descent, both loops and the recursion over coordinates compute the query |
| `RangeQuery.PointSet.constructor` | src/bin/books/advanced_data_structures/ch4/or_r_tree.c:184-284 | a set of points for searching |
| `RangeQuery.PointSet.Find` | src/bin/books/advanced_data_structures/ch4/or_r_tree.c:349-452 | building and searching together: each point all of whose coordinates are at or above the lower and below the upper bound, as often as it was given, and no other point |
| `ProcessRing.AddQueue` | src/bin/OS/bluekernel/kernel/policy/process.c:797-811 | the four pointers around the new place are given, and the links run around the ring with the process at its end; a process already in the ring, wherever it is, breaks it unless it is alone |
| `ProcessRing.RemoveQueue` | src/bin/OS/bluekernel/kernel/policy/process.c:813-834 | the neighbours of the process point to each other, and the links run around the ring without it; removing the first leaves the pointer at the last |
| `Scheduler.TurnDistance` | src/bin/OS/bluekernel/kernel/policy/process.c:119-136 | a turn selects the process exactly when its ring distance is 1, and else shortens the distance by 1 |
| `Scheduler.LeaveDistance` | src/bin/OS/bluekernel/kernel/policy/process.c:705-721 | a process leaving the ring shortens the distance of another by 1 exactly if it was ahead of it, and else leaves it |
| `Scheduler.JoinDistance` | src/bin/OS/bluekernel/kernel/policy/process.c:722-745 | a process joining makes another wait one turn longer exactly when the queue pointer is at that one |
| `Scheduler.WaitingTime` | src/bin/OS/bluekernel/kernel/policy/process.c:103-177 | over every run the waiting time is exact: turns taken, turns to come and processes that left ahead add up to the ring distance and the processes that joined while the pointer was at the waiting one |
| `Scheduler.BoundedBypass` | src/bin/OS/bluekernel/kernel/policy/process.c:103-177 | so a process that stays ready is selected within its ring distance plus one turn for each process that joined while the pointer was at it |
| `Scheduler.WithinDistance` | src/bin/OS/bluekernel/kernel/policy/process.c:103-177 | it is selected within its ring distance if and only if no more processes joined while the pointer was at it than left ahead of it |
| `Scheduler.Starvation` | src/bin/OS/bluekernel/kernel/policy/process.c:813-834 | the bound is attained: a process next in the ring is passed over n times by n such joins, for every n |
| `Scheduler.Kernel.Schedule` | src/bin/OS/bluekernel/kernel/policy/process.c:103-177 | selects the next of the fast ring, else of the normal ring, else idle; a newly selected process is running and its turn is counted in 8 bits, the one that ran is ready, and no other process changes; the three rings stay disjoint circular lists matching status and priority |
| `Scheduler.Kernel.SetBlocked` | src/bin/OS/bluekernel/kernel/policy/process.c:705-721 | moves a process that can run to the blocked ring, reports an error for any other; keeps its priority, all other processes and the rings |
| `Scheduler.Kernel.SetReady` | src/bin/OS/bluekernel/kernel/policy/process.c:722-753 | moves a blocked or pending process to the ring of its priority, reports an error for a ready one after setting its reason, and adds a running one to its ring a second time; the rings are well formed afterwards if and only if this was not a running process with others in its ring; no other process changes |
| `Scheduler.Kernel.SetPriority` | src/bin/OS/bluekernel/kernel/policy/process.c:661-690 | a process that can run changes rings exactly when its priority crosses the limit; keeps the rings and all other processes |
| `ProcessRing.BrokenNoRing` | src/bin/OS/bluekernel/kernel/policy/process.c:797-811 | links broken in this way run around no ring of these processes, in whatever order |
| `SchedulerRun.Perform` | src/bin/OS/bluekernel/kernel/policy/process.c:661-753 | every call to schedule, block, make ready or set a priority has exactly the effect on rings, running process, status and priority class that the function `Next` on plain values has, and keeps the rings well formed |
| `SchedulerRun.NextGood` | src/bin/OS/bluekernel/kernel/policy/process.c:661-753 | these effects keep the rings disjoint, without repetition and matching the priorities |
| `SchedulerRun.PassedOver` | src/bin/OS/bluekernel/kernel/policy/process.c:661-753 | over every sequence of calls that does not select a fast process which stays ready, the fast ring goes through the events of the waiting-time theorems, one turn for each call to Schedule |
| `SchedulerRun.SelectedWithinDistance` | src/bin/OS/bluekernel/kernel/policy/process.c:103-177 | over every such sequence, if the next call to Schedule selects the process, the number of calls to Schedule is within its ring distance if and only if no more processes joined while the pointer was at it than left ahead of it |
| `SchedulerRun.PassedOverBound` | src/bin/OS/bluekernel/kernel/policy/process.c:103-177 | before it is selected there are fewer calls to Schedule than the ring distance and these joins together |
| `SchedulerRun.WaitFor` | src/bin/OS/bluekernel/kernel/policy/process.c:103-177 | the same of the kernel itself, for every sequence of calls made on it until the process is running |
| `CheckedMemory.Memory.constructor` | src/libs/lang/memory-dev.c:41-51 | no block, no address given out, and a free list of its head alone |
| `CheckedMemory.Memory.Find` | src/libs/lang/memory-dev.c:55-65 | finds the descriptor of an address exactly if the address was given out |
| `CheckedMemory.Memory.Alloc` | src/libs/lang/memory-dev.c:99-162 | the address is that of the last bytes of the first free stretch that is large enough, which alone gets shorter, whatever the system has; only if there is none, it is in memory from the system; free list, blocks in use and addresses ever given out are exactly known afterwards; the block is aligned, of the rounded size, at an address never given out before |
| `CheckedMemory.Memory.FirstFit` | src/libs/lang/memory-dev.c:111-157 | the walk around the free list ends, at the first stretch that is large enough; if there was none, memory from the system, NALLOC bytes more than asked for, is put in front of the list |
| `CheckedMemory.FromSystem` | src/libs/lang/memory-dev.c:135-156 | a block from such memory is its end, and NALLOC bytes stay free |
| `CheckedMemory.FromList` | src/libs/lang/memory-dev.c:111-132 | where some stretch is large enough, the block is the end of the first such stretch, and the system is not asked |
| `CheckedMemory.FromOutside` | src/libs/lang/memory-dev.c:135-156 | where none is, the block comes from the system, and without its memory there is none and the list stays |
| `CheckedMemory.FirstLargeIs` | src/libs/lang/memory-dev.c:111-132 | the stretch taken is the first that is large enough, and this determines it |
| `CheckedMemory.Memory.Cut` | src/libs/lang/memory-dev.c:113-131 | the block is the end of the stretch, the stretch keeps the rest, and the block is entered in the hash table |
| `CheckedMemory.Memory.BlocksApart` | src/libs/lang/memory-dev.c:99-162 | blocks in use overlap neither each other nor free space |
| `CheckedMemory.Memory.AddressOnce` | src/libs/lang/memory-dev.c:118-121 | no chain of the hash table holds an address twice |
| `CheckedMemory.Memory.Free` | src/libs/lang/memory-dev.c:200-217 | succeeds exactly for null and for blocks in use, so every double free and every unknown address is detected; the block becomes the first of the free list with its size, and all else stays |
| `TinyCSafety.JumpsInside` | src/bin/paradigms/tiny_c/tinyc.c:332-431 | every jump of a program, reached or not, has its operand filled with the distance to an instruction of the program, where it arrives with the height given for it |
| `TinyCSafety.StmtDepthInLength` | src/bin/paradigms/tiny_c/tinyc.c:323-334 | the stack depth of a program is less than the length of its code |
| `BinomialHeap.MergeHeaps` | src/bin/books/advanced_data_structures/ch5/bino_heap.c:121-197 | the merge of any two heaps, empty ones included, is a heap with the pairs of both; its size is the sum |
| `BlockTree.LogarithmicHeight` | src/bin/books/advanced_data_structures/ch3/a_b_tree.c:91-463 | a (2,4)-tree of height h above the leaf level has at least 2^(h + 1) keys |
| `SumMaxTree.FibonacciBound` | src/bin/books/advanced_data_structures/ch4/wsmx_tree.c:421-467 | a tree of height h has at least Fib(h + 2) leaves |
| `UnionFind.LinkedMeans` | src/bin/books/advanced_data_structures/ch6/am_u_find.c:133-159 | the forest is sound exactly if ranks rise along every path and no node is its own parent |
| `TinyCMachine.Int32Wraps` | src/bin/paradigms/tiny_c/tinyc.c:463-464 | the arithmetic of both semantics gives the one 32-bit value that differs from the exact result by a multiple of 2^32 |
| `TinyCMachine.BinaryMeans` | src/bin/paradigms/tiny_c/tinyc.c:463-476 | the machine adds, takes the upper value from the one below it, and compares the lower one with the upper, all modulo 2^32 |
| `TinyCPrograms.AddMeans` | src/bin/paradigms/tiny_c/tinyc.c:350-372 | `x = y + z` changes only x, to the 32-bit value congruent to the sum |
| `TinyCPrograms.SubMeans` | src/bin/paradigms/tiny_c/tinyc.c:350-372 | `x = y - z` changes only x, to the 32-bit value congruent to y minus z |
| `TinyCPrograms.LessMeans` | src/bin/paradigms/tiny_c/tinyc.c:350-372 | `x = y < z` changes only x, to 1 exactly if y is less than z, and else to 0 |
| `TinyCPrograms.Chain` | src/bin/paradigms/tiny_c/tinyc.c:36-39 | from the tokens of `a=b=c=m<n;`, for all letters and numbers, the compiled program halts with the comparison in all three |
| `TinyCPrograms.Doubling` | src/bin/paradigms/tiny_c/tinyc.c:40-41 | the tokens of `while (i<n) i=i+i;` halt with the first of i, 2i, 4i, ... that is not below n |
| `TinyCPrograms.Gcd` | src/bin/paradigms/tiny_c/tinyc.c:42-44 | the tokens of the subtracting loop halt with both variables at their greatest common divisor |
| `TinyCPrograms.AddingDo` | src/bin/paradigms/tiny_c/tinyc.c:45-46 | the tokens of `do i=i+m; while (i<n);` halt after the least number of turns, at least one, that takes i to n or above |
| `TinyCPrograms.AddingTest` | src/bin/paradigms/tiny_c/tinyc.c:47-48 | so does the loop that adds in its test and has an empty body |
| `TinyCPrograms.Branches` | src/bin/paradigms/tiny_c/tinyc.c:49-51 | a block with two conditionals makes exactly the assignments whose comparison holds |
| `TinyCPrograms.LeftToRight` | src/bin/paradigms/tiny_c/tinyc.c:201-209 | `x = a-b-c;` takes both from a: a sum is read from the left |
| `TinyCPrograms.NearestElse` | src/bin/paradigms/tiny_c/tinyc.c:252-262 | in `if (a) if (b) x=u; else x=v;` nothing is assigned when a is 0, and b decides otherwise |
| `TinyCCode.CharWraps` | src/bin/paradigms/tiny_c/tinyc.c:323-327 | a stored cell differs from the value by a multiple of 256 |

## Left out

- The lexer, `getchar` and all printing of Tiny-C: the model starts from tokens.
- 32-bit wrap-around of `int` in the search trees and heaps: keys, weights and sums are
  unbounded there. In Tiny-C both the source semantics and the machine wrap to 32 bits.
- The fixed sizes of the path stacks (100 or 20 entries) in the search trees and of the stack in
  `merge`: the depth bounds proved show how large a tree must be to exceed them.
- Rounding of the floating-point constants of the weight-balanced tree: 0.288 and 0.005 are the
  exact rationals.
- TinyCCode.CodeGen.G: the missing overflow check of the source appears as a requirement that
  the code fits its 1000 cells.
- TwoFourDelete.TwoFour.Get: requires a tree that is not empty, because the source reads an unset
  key otherwise.
- TwoFourDelete.TwoFour.Insert: requires a new key, because the source does not look for
  duplicates.
- IntervalMax.IntervalTree.MaxValueInterval: requires a < b and a from NEGINFTY on, which the
  source takes for granted.
- The bounds test before the key in the lower-half loop of the (2,4)-tree's split: the source reads
  `key[-1]` and then discards it; the model tests first.
- The arrays inside (2,4)-tree nodes are sequence fields replaced element by element.
- `delete` of both red-black trees and of the sum-max tree is not modelled.
- `remove_heap`, `check_tree`, `list_node`, drivers and test printing: they add nothing to prove.
- The other data structures of the collection (interval, Fibonacci-heap, trie, hash, list and stack
  programs), which are easier or repeat what is modelled here.
- The rest of the kernel around the scheduler (clocks, messages, privileges, sleeping processes, the
  switch itself), the other operating-system programs and the device drivers.
- TinyCRun.Machine.Run: requires that the program halts, because a method of the model must end;
  `TinyCCorrect.DivergenceCorrect` is about the programs that do not.
- TinyCRun.CompileAndRun: likewise, and requires that the program fits the `char` buffer;
  `TinyCRun.TruncationBreaks` shows what happens otherwise.
- SchedulerRun.Perform: leaves out calls that make a running process ready, because they break the rings
  (see `Scheduler.Kernel.SetReady`), and requires processes that are in the rings.
- Scheduler.Kernel.SetPriority: requires a process that is in one of the rings, because the source
  takes a pending one out of a ring it is not in.
- ShadowStack.Stack.constructor: requires a positive size, because the source writes its first item
  before it looks at the size.
- ShadowStack.RunAll: requires that no pop empties the stack; `ShadowStack.Stack.Pop` says exactly
  which pop does harm.
- SegmentTree.Intervals.Insert: requires a < b, both keys of the tree, which the source takes for
  granted.
- ListTree.MakeTree: requires a list that is not empty, because the source reads the first item of an
  empty one.
- RangeQuery.QueryFails: is exact for the last coordinate when the lower ones are not NEGINFTY, which
  covers the two coordinates of the source; `RangeQuery.QuerySafe` gives the sufficient condition
  for all.
- The lists of points, and the key lists of the range tree while they are sorted, are sequences; the
  point list of a leaf is put in place by the pass that clears the lower trees.
- CheckedMemory.Memory.Alloc: what malloc returns, and whether there is room for a descriptor, are
  parameters; memory it returns is outside everything allocated before.
- `Memory_calloc` and `Memory_resize`, which are made from allocation and free.
