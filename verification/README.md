# MuJS in Dafny

A model of the core of MuJS, the JavaScript interpreter under `deps/mujs2/`, with proofs about what it computes.
The modules follow the program's parts:

- `RegexpTree`, `RegexpGrammar`, `RegexpParser`, `RegexpCount`, `RegexpProgram`, `RegexpEngine`, `RegexpSearch`,
  `RegexpPatterns`: regular expressions (regexp.c). Patterns are parsed, sized, compiled to a backtracking machine and
  matched. The grammar is a relation between tokens and trees; what a pattern matches is defined on the tree, in the
  order of preference of ECMA-262, and small patterns are said to match in plain words.
- `GcHeap`, `GcMark`, `GcCollect`, `GcState`: the mark and sweep collector (jsgc.c).
- `AATree`, `PropertyTable`, `StringTable`, `Enumeration`: the balanced trees of properties (jsproperty.c) and of
  interned strings (jsintern.c), and the order in which for-in sees names.
- `JsTree`, `JsMeaning`: syntax trees and what they mean. `JsMachine`, `JsVm`: the stack machine of jsrun.c, as a step
  on states and as the loop on its own stack. `JsCode`, `JsTargets`, `JsAccepted`, `JsGrowth`, `JsCompiler`: the
  compiler of jscompile.c, emitting and patching code; `JsRejected`: what it reports an error for. `JsExpressions`,
  `JsStatements`, `JsControl`, `JsFunction`: compiled code does what the tree means. `JsDepths`, `JsBalance`,
  `JsBalanceStm`: the depths of the stacks at each address. `JsLayout`, `JsFaults`: the forms that are compiled to
  something else. `JsPrograms`: small bodies and what calls of them return, value by value. `JsFold`, `JsReduced`,
  `JsFolded`: constant folding (jsparse.c).
- `Grisu`, `PowersOfTen`, `GrisuPrint`, `NumberText`, `NumberForms`, `NumberString`: printing and reading numbers
  (jsdtoa.c, jsvalue.c).
- `Utf`, `JsonText`, `JsonLexer`, `JsonParser`, `JsonReader`, `JsonRoundTrip`, `JsonForms`, `JsonGrammar`, `JsonFaults`:
  JSON printed and parsed (json.c, jslex.c, utf.c), character by character, and what the parser wrongly accepts.
- `Calendar`: the year and the parts of a time value (jsdate.c).

Code that changes things step by step is imperative here too: the regular expression compiler and matcher, the
collector, the trees of properties, the JavaScript compiler, the machine's loop and the number routines are classes
and methods with loops; so are the JSON printer and reader. Each is proved against a function or a relation, about
which the theorems are stated.

## Model

| member | source | states |
|---|---|---|
| RegexpParser.Parse | deps/mujs2/regexp.c:433-583 | for any tokens, the tree that is returned is the one that the grammar derives from all of them, and an error is returned exactly when its cause stands where the parser gets to; trees have bounded counts, no unbounded repeat of a node that may be empty, and captures numbered 1, 2, ... in the order of their parentheses, fewer than MAXSUB |
| RegexpGrammar.DerivesRead | deps/mujs2/regexp.c:461-583 | reading with one token of lookahead returns a tree if and only if the productions, from parseatom to parsealt, derive it from the tokens |
| RegexpGrammar.FaultyRead | deps/mujs2/regexp.c:461-583 | it returns an error if and only if, behind tokens that are derived, that error has its cause: no atom, an open parenthesis, too many captures, counts out of order, a loop over nothing, something behind the end |
| RegexpGrammar.Unambiguous | deps/mujs2/regexp.c:461-583 | any tokens have one tree or one error, never two and never both |
| RegexpGrammar.WriteRead | deps/mujs2/regexp.c:461-583 | every accepted tree whose captures are numbered in order, written out as tokens, is read as that tree |
| RegexpGrammar.PairTrees | deps/mujs2/regexp.c:551-583 | two runes with a bar between them are an alternative, and without one a sequence |
| RegexpGrammar.RepTrees | deps/mujs2/regexp.c:528-549 | `a*`, `a+`, `a?` and `a{m,n}` have their counts, and a question mark behind makes them lazy |
| RegexpGrammar.GroupTrees | deps/mujs2/regexp.c:461-526 | `(a)` is capture 1, `(?:a)` is a, `(?=a)` and `(?!a)` are the two lookaheads |
| RegexpGrammar.Faults | deps/mujs2/regexp.c:461-549 | what is wrong with `*`, `(?:a`, `a)`, `a{2,1}` and `(?:)*` |
| RegexpTree.ExpandLoopable | deps/mujs2/regexp.c:419-443 | `empty` says exactly whether a node may match without consuming, and the check in `newrep` makes every loop body consume |
| RegexpCount.CountWraps | deps/mujs2/regexp.c:598-618 | when `count` does not fail, its 32-bit result is the true allowance modulo 2^32, however much has wrapped around on the way |
| RegexpCount.RoomCovers | deps/mujs2/regexp.c:598-746 | the allowance in unbounded numbers is at least the number of instructions that compiling emits |
| RegexpCount.RoomExact | deps/mujs2/regexp.c:598-746 | it is that number if and only if no loop behind at least one copy is compiled |
| RegexpCount.Overruns | deps/mujs2/regexp.c:598-618 | a pattern that passes both size checks has a buffer large enough for its code if and only if the unwrapped allowance stays within INT_MAX, which is if and only if its code has at most MAXPROG instructions |
| RegexpCount.OvergrownPasses | deps/mujs2/regexp.c:858-863 | a pattern with 4294967534 instructions whose count wraps to 238 passes both checks with a buffer of 244 |
| RegexpEngine.Regcompx | deps/mujs2/regexp.c:813-886 | fails exactly when a size check fails; overruns its buffer exactly when the unwrapped allowance exceeds INT_MAX; otherwise returns the search program of the pattern |
| RegexpEngine.Reprog.Compile | deps/mujs2/regexp.c:631-746 | appends exactly the code of the node, with every split and jump patched to its target, and leaves what was there |
| RegexpProgram.ProgramRanked | deps/mujs2/regexp.c:631-746 | every compiled program has ranks that go down on each step that consumes nothing: the matcher cannot go round for ever |
| RegexpProgram.CodeCorrect | deps/mujs2/regexp.c:961-1110 | running the code of a pattern tries, in order, the ways in which the pattern matches, and goes on from the first that lets the rest succeed, with that way's captures |
| RegexpEngine.Match | deps/mujs2/regexp.c:961-1110 | the recursive matcher with records copied at each choice computes that function, captures included |
| RegexpSearch.RepeatMeaning | deps/mujs2/regexp.c:655-696 | the written-out copies and loops of x{m,n} match exactly the chains of between m and n matches of x |
| RegexpSearch.Regexec | deps/mujs2/regexp.c:1112-1125 | a match is found if and only if the expanded pattern matches somewhere; it is at the leftmost position and is the preferred way there, with its captures. The lemmas of `RegexpPatterns` say what that is, from this contract alone |
| RegexpPatterns.CharFound | deps/mujs2/regexp.c:1009-1018 | on a text of one rune other than zero, a character matches if and only if it is that rune |
| RegexpPatterns.DotFound | deps/mujs2/regexp.c:1001-1008 | `.` matches if and only if the rune is none of the four newlines |
| RegexpPatterns.ClassFound | deps/mujs2/regexp.c:926-933 | a class matches if and only if the rune lies in a listed span |
| RegexpPatterns.NotClassFound | deps/mujs2/regexp.c:1032-1043 | a negated class matches if and only if it lies in none |
| RegexpPatterns.BoundaryFound | deps/mujs2/regexp.c:1083-1089 | `\b` is found at the first place where exactly one neighbour is a letter A-Z or a-z, a digit or an underscore |
| RegexpPatterns.NoBoundaryFound | deps/mujs2/regexp.c:1090-1096 | `\B` is found at the first place where both or none are |
| RegexpPatterns.LineStartFound | deps/mujs2/regexp.c:1059-1070 | `^` is found at the start, unless that is switched off, or behind a newline if lines are asked for |
| RegexpPatterns.LineEndFound | deps/mujs2/regexp.c:1071-1082 | `$` is found at the end, a zero rune, or in front of a newline if lines are asked for |
| RegexpPatterns.PairFound | deps/mujs2/regexp.c:640-644 | a sequence of two tests is found at the first place where the one passes and the other right behind it |
| RegexpPatterns.ShortFirst | deps/mujs2/regexp.c:645-654 | with the shorter alternative in front that one is taken, though the other goes on |
| RegexpPatterns.LongFirst | deps/mujs2/regexp.c:645-654 | with the longer one in front that is taken where it matches, else the shorter |
| RegexpPatterns.StarFound | deps/mujs2/regexp.c:655-696 | `t*` takes the whole run of runes that pass, and the lazy one takes none |
| RegexpPatterns.PlusFound | deps/mujs2/regexp.c:655-696 | `t+` likewise behind the first that passes |
| RegexpPatterns.GroupFound | deps/mujs2/regexp.c:704-710 | a capture has the bounds of what it matched, and the others have none |
| RegexpPatterns.LookFound | deps/mujs2/regexp.c:711-725 | a lookahead consumes nothing; the negative one holds exactly where the positive one does not |
| RegexpPatterns.Search | deps/mujs2/regexp.c:813-886 | from tokens to match: parsing, compiling and matching together |
| GcMark.MarkObject | deps/mujs2/jsgc.c:90-106 | marks the object and keeps the invariant that no marked cell, but for those still being worked on, refers to an unmarked one |
| GcMark.MarkEnvironment | deps/mujs2/jsgc.c:65-73 | the same for a chain of scopes, marked from the inside out |
| GcCollect.Sweep | deps/mujs2/jsgc.c:153-205 | one list keeps exactly its cells with the current mark, in their order, and the numbers of all and of freed cells are right |
| GcState.State.Collect | deps/mujs2/jsgc.c:121-219 | the lists keep exactly the cells reachable from the roots, in their order, all with the new mark; the totals reported are the cells before and those freed. In terms of the fields: each cell kept has its properties (values, getters and setters), prototype, target, scope, code, variables, outer scope and inner functions among those kept, as the fields of the state are, and each is led to by such fields from those of the state |
| GcHeap.RefsIn | deps/mujs2/jsgc.c:74-106 | the references of a cell are in a set if and only if each of its fields, and of those of each property in its tree, leads into it |
| GcHeap.RefsMeans | deps/mujs2/jsgc.c:74-106 | a cell refers to another if and only if one of those fields points to it |
| GcState.PathMeans | deps/mujs2/jsgc.c:121-219 | a cell is reached in n steps if and only if there is a path of n fields to it from a field of the state |
| GcState.State.Allocate | deps/mujs2/jsproperty.c:149-163 | a new cell with mark 0 keeps the heap's invariant for any later collection |
| GcState.State.Rewrite | deps/mujs2/jsrun.c:538-616 | assigning references between cells of the heap keeps the invariant |
| GcState.LiveStaysLive | deps/mujs2/jsgc.c:121-219 | a second collection right after the first frees nothing |
| AATree.Insert | deps/mujs2/jsproperty.c:81-96 | insertion keeps the five AA-tree invariants and raises the level by at most one, only when the root had a horizontal link |
| AATree.Delete | deps/mujs2/jsproperty.c:104-147 | deletion keeps the invariants and lowers the level by at most one |
| AATree.DeleteFlat | deps/mujs2/jsproperty.c:104-147 | the entries in order are those of before without that name, and no node is used twice |
| AATree.InsertNew | deps/mujs2/jsproperty.c:81-96 | the entries in order are those of before with the new one, by one new node |
| AATree.Bounds | deps/mujs2/jsproperty.c:15-27 | a tree of level L has at least 2^L - 1 entries and no way down longer than 2L |
| NameOrder.LessMeans | deps/mujs2/jsproperty.c:41-54 | the order of the trees: two names agree up to some place, where the lower one ends or has the lower character |
| PropertyTable.PropertyMap.Get | deps/mujs2/jsproperty.c:165-168 | the property of that name, or null if and only if there is none |
| PropertyTable.PropertyMap.Set | deps/mujs2/jsproperty.c:205-219 | finds the property or adds one, in place: the nodes of before stay, the entries and the count grow by the new one only if the name is new |
| PropertyTable.PropertyMap.Remove | deps/mujs2/jsproperty.c:221-224 | in place, the entries are those of before without the name, and the count says so |
| StringTable.Interner.Intern | deps/mujs2/jsintern.c:128-135 | the one node that holds the string; earlier nodes stay where they were |
| StringTable.Interner.InternAll | deps/mujs2/jsintern.c:128-135 | over any sequence of calls two results are the same address if and only if the strings are equal |
| Enumeration.Flatten | deps/mujs2/jsproperty.c:228-253 | the names listed are distinct, and are exactly those that are enumerable in some table of the prototype chain; a name is listed rightly if and only if it is not hidden |
| Enumeration.NewIterator | deps/mujs2/jsproperty.c:255-289 | the names of for-in: those of the chain or of the object alone, and behind them the string indices that no property of the chain shows, all distinct, in the order of the walk |
| Enumeration.ListedOrder | deps/mujs2/jsproperty.c:228-253 | of two names listed for a chain the first stands at a nearer object, or at the same one and is the lower; where a name stands is the object farthest up that shows it |
| Enumeration.IndicesOrder | deps/mujs2/jsproperty.c:276-287 | the indices come in their order as numbers |
| Enumeration.EnumerableBits | deps/mujs2/mujs.h:81-86 | of the eight combinations of attributes those without DONTENUM are enumerable |
| Enumeration.ListedMeans | deps/mujs2/jsproperty.c:228-253 | the list of the specification, each object's names behind those of its prototypes, has each of those names once |
| Enumeration.ShownIfVisible | deps/mujs2/jsproperty.c:228-253 | for every chain and name, the chain shows the name exactly when its first table that has it does, if and only if that property does not hide an enumerable one farther up |
| Enumeration.ListedRight | deps/mujs2/jsproperty.c:228-253 | the list is right at a name, or at every name, if and only if that name, or none, is hidden; nothing visible is missing |
| Enumeration.HiddenListed | deps/mujs2/jsproperty.c:228-253 | two objects with one property each: the near one is not enumerable, and the name is listed |
| Enumeration.OwnNames | deps/mujs2/jsproperty.c:228-265 | `itwalk` without an object to look in: the own names that are enumerable, in ascending order |
| JsExpressions.ExpRuns | deps/mujs2/jscompile.c:552-726 | for every expression, running its code leaves the stacks as they were with its value on top, or throws its exception, in the memory that evaluation gives |
| JsStatements.ExitRuns | deps/mujs2/jscompile.c:817-868 | the code before a break, continue or return takes off exactly the iterators, scopes and handlers between it and its target |
| JsControl.StmRuns | deps/mujs2/jscompile.c:1001-1210 | for every statement and every completion of it (normal, break, continue, return, throw), the machine arrives where that completion belongs, with the stacks expected there; a statement that does not end keeps it running |
| JsControl.BodyRuns | deps/mujs2/jscompile.c:1309-1355 | a body's code returns or throws what evaluation gives, and outlasts any number of rounds if evaluation does |
| JsControl.BodyEnds | deps/mujs2/jscompile.c:1309-1355 | conversely, when the machine stops evaluation ends with the same outcome |
| JsCompiler.Compiler.Expression | deps/mujs2/jscompile.c:552-726 | emits the code of the expression and only appends; an error is reported only for a tree that is not accepted |
| JsCompiler.Compiler.LabelJumps | deps/mujs2/jscompile.c:739-748 | patches exactly the listed jumps, breaks to one address and continues to the other |
| JsCompiler.Compiler.Statement | deps/mujs2/jscompile.c:1001-1210 | emits the code of the statement, with every operand final but those of jumps to enclosing nodes, all of which are listed at those nodes |
| JsFunction.CompileBody | deps/mujs2/jscompile.c:1309-1355 | code that is returned is the code of the body with no jump left open and every operand in 16 bits; a syntax error is reported if and only if the body is not accepted, and otherwise an error only for an operand that is too wide |
| JsRejected.CodedAccepted | deps/mujs2/jscompile.c:552-726 | only an accepted expression has code |
| JsRejected.StmAccepted | deps/mujs2/jscompile.c:1001-1210 | only an accepted statement has code |
| JsRejected.AcceptedMeans | deps/mujs2/jscompile.c:375-507 | an expression is accepted if and only if everything in it that is stored to, counted or deleted is a name, an index or a member, and the names in object literals are literals |
| JsRejected.BreakAllowed | deps/mujs2/jscompile.c:772-787 | a break finds a target if and only if it stands in a loop or switch, or, with a label, in a statement with that label that is not right in front of it |
| JsRejected.ContinueAllowed | deps/mujs2/jscompile.c:789-803 | a continue finds a target if and only if it stands in a loop, with its label among those in front of that |
| JsFunction.CallMeans | deps/mujs2/jsrun.c:1278-1751 | a call of the compiled body stops if and only if its evaluation ends, with the same value or exception in the same world |
| JsFunction.NeverWrong | deps/mujs2/jsrun.c:1278-1751 | no run of compiled code takes more off a stack than is there, or reads a slot that the frame lacks |
| JsFunction.CallBody | deps/mujs2/jsrun.c:940-960 | compiler and machine together, on a stack that holds other frames below |
| JsPrograms.IfReturns | deps/mujs2/jsvalue.c:118-131 | a call of `if (x) return 1; return 2;` returns 2 if and only if x is undefined, null, false, a zero of either sign, NaN or the empty string, and else 1 |
| JsPrograms.CaseReturns | deps/mujs2/jsvalue.c:605-620 | of `switch (x) { case y: return 1; } return 2;`: 1 if and only if both are undefined, null, the same boolean, the same string or the same object, or numbers that are equal, zeros of either sign being equal and NaN nothing |
| JsPrograms.FallReturns | deps/mujs2/jscompile.c:945-986 | a default clause in the middle is taken only when no case is, and goes on into the next clause |
| JsPrograms.CondReturns | deps/mujs2/jscompile.c:713-721 | `x ? y : z` is z for those values of x and y for the others |
| JsPrograms.OrReturns | deps/mujs2/jscompile.c:695-702 | logical or gives x, unless that is one of those values, and then y |
| JsPrograms.AndReturns | deps/mujs2/jscompile.c:704-711 | logical and gives y, unless x is one of them, and then x |
| JsPrograms.WhileReturns | deps/mujs2/jscompile.c:1053-1061 | the test of a while loop is made before the body, and a break leaves it |
| JsPrograms.DoReturns | deps/mujs2/jscompile.c:1044-1051 | the test of a do loop is made behind the body |
| JsPrograms.ForReturns | deps/mujs2/jscompile.c:1063-1090 | a continue goes to the step of a for loop, and that to the test |
| JsPrograms.InReturns | deps/mujs2/jscompile.c:1092-1112 | a for-in loop has the first name of the iterator, or is left where there is none |
| JsPrograms.LabelReturns | deps/mujs2/jscompile.c:762-803 | a labelled break and a labelled continue from an inner loop go to the outer one |
| JsPrograms.TryReturns | deps/mujs2/jscompile.c:887-909 | a handler sees the exception in a scope of its own |
| JsPrograms.WithReturns | deps/mujs2/jscompile.c:1176-1183 | a with statement evaluates in the scope of the object, and ends in the one before |
| JsPrograms.CrementReturns | deps/mujs2/jscompile.c:435-475 | `x++` gives the value of x before, as a number, and `++x` the one after |
| JsPrograms.BumpReturns | deps/mujs2/jscompile.c:435-475 | both store the one after |
| JsPrograms.AssignOpReturns | deps/mujs2/jscompile.c:477-485 | `x op= y` stores what the operator makes of x and y, in that order |
| JsPrograms.BinaryOrder | deps/mujs2/jscompile.c:278-283 | the left operand of a binary operator is evaluated first, and lies deeper |
| JsPrograms.StoreOrder | deps/mujs2/jscompile.c:375-398 | of `x[y] = z` the object, the name and the value are evaluated in this order |
| JsPrograms.MethodReturns | deps/mujs2/jscompile.c:519-550 | a method is called on the object that it was got from, its arguments in order |
| JsPrograms.ObjectReturns | deps/mujs2/jscompile.c:325-362 | in an object literal a value, a getter and a setter are each stored as what it is, under its name |
| JsPrograms.ArrayReturns | deps/mujs2/jscompile.c:285-299 | the elements of an array literal are stored in order, and a hole counts |
| JsPrograms.TameSane | deps/mujs2/jscompile.c:762-787 | a body is sound if none of its breaks is labelled by its own name and none of its for-in loops is over an indexed place |
| JsVm.Vm.Round | deps/mujs2/jsrun.c:1278-1751 | one round of the loop on the one stack with TOP, BOT and the buffer of handlers does what the step on states says, and leaves everything below the frame alone |
| JsVm.Vm.Execute | deps/mujs2/jsrun.c:1278-1751 | any number of rounds does |
| JsVm.Vm.Throw | deps/mujs2/jsrun.c:1206-1223 | an exception unwinds the stack to what the innermost OP_TRY saw, with the exception on top |
| JsBalanceStm.BodyBalanced | deps/mujs2/jscompile.c:817-868 | in the code of every grounded body each instruction has one depth of operands, scopes and handlers, and leads only to instructions with the depths it leaves; only right behind OP_NEXTITER are there two |
| JsBalanceStm.JumpsHit | deps/mujs2/jscompile.c:233-261 | every jump operand is the address of an instruction |
| JsBalanceStm.CallMeasured | deps/mujs2/jsrun.c:1278-1751 | at every moment of every run the stacks have exactly the depths of the address, each handler those it resumes with, and the machine has not gone wrong |
| JsBalanceStm.SinkingUnbalanced | deps/mujs2/jscompile.c:1119-1142 | `with (null) a: b: break a;` is not grounded, and no assignment of depths to its code exists |
| JsLayout.PartsPlaced | deps/mujs2/jscompile.c:1001-1210 | every statement in a compiled body has its code where its tree says, and every enclosing node's code ends at or behind its end |
| JsFaults.BreaksArrive | deps/mujs2/jscompile.c:762-787 | every break of a compiled body arrives where evaluation says if and only if it is sound: not labelled by its own name, or with nothing compiled behind it in the statement that it jumps behind |
| JsFaults.TargetIsLabel | deps/mujs2/jscompile.c:762-787 | the target of a break is a label's own node if and only if the break is labelled and its name is among the labels in front of the last |
| JsFaults.StuckForever | deps/mujs2/jscompile.c:1119-1142 | `a: b: break a;` is not sound: it should end at once, and its code stands still for ever |
| JsFaults.TwiceEnds | deps/mujs2/jscompile.c:762-787 | `a: while (true) { a: break a; }` should not end; its code leaves the function |
| JsFaults.ForInIndexed | deps/mujs2/jscompile.c:400-433 | for `for (a[b] in o)` the code stores a under the name into b, not the name under b into a |
| JsFaults.ForInIndexedMeant | deps/mujs2/jscompile.c:400-433 | it does what is meant if and only if the library makes the same of both stores, with or without a handler in place |
| JsFaults.AssignGives | deps/mujs2/jscompile.c:375-398 | an assignment evaluates its place, then its value, and gives that value, if and only if the store gives back its operand |
| JsFaults.ResizeReturns | deps/mujs2/jsrun.c:538-554 | `function (a, o) { return a.length = o; }` returns what the store has made of o on the stack |
| JsFold.ToInt32Means | deps/mujs2/jsparse.c:867-881 | the conversion is the integer part modulo 2^32, between -2^31 and 2^31 - 1 |
| JsFold.ShiftsFold | deps/mujs2/jsparse.c:927-929 | for whole numbers i and j, with p = 2^(j mod 32): `i << j` is i * p in its lower 32 bits, `i >> j` and `i >>> j` are i divided by p and rounded down, as a signed and as an unsigned number of 32 bits |
| JsFold.BitsFold | deps/mujs2/jsparse.c:915-932 | the four operators on bits give the signed 32-bit number whose bits are the and, the or, the exclusive or and the complement of the operands' bits |
| JsReduced.LiteralsFold | deps/mujs2/jsparse.c:909-933 | of literals exactly three unary and eleven binary operators are folded: minus changes the sign, arithmetic is the machine's in the order of the operands |
| JsReduced.FoldSReduces | deps/mujs2/jsparse.c:896-938 | no statement has anything left to fold once it is folded |
| JsFold.OperatesAgrees | deps/mujs2/jsrun.c:1505-1670 | the machine's operators, which convert operands of any kind, give on numbers what folding gives |
| JsFold.FoldKeeps | deps/mujs2/jsparse.c:896-938 | a folded expression has the value, the exception and the effects of the original |
| JsFold.ExecKeeps | deps/mujs2/jsparse.c:896-938 | a folded statement completes as the original does, in the same memory |
| JsFolded.FoldSKept | deps/mujs2/jsparse.c:896-938 | folding changes nothing in what the compiler accepts |
| JsFolded.FoldSane | deps/mujs2/jsparse.c:896-938 | folding moves code, but keeps sound statements sound and the others unsound |
| JsFolded.CompileFolded | deps/mujs2/jsparse.c:942-954 | folding and then compiling reports a syntax error if and only if the body was not accepted as it was written |
| JsFolded.FoldedCallMeans | deps/mujs2/jsparse.c:942-954 | a call of the folded and compiled body does what evaluation of the body as it was written says |
| Grisu.Multiply | deps/mujs2/jsdtoa.c:393-406 | four 32-bit products with carries give the 128-bit product rounded to its upper half, with no overflow on the way |
| Grisu.NormalizedBoundaries | deps/mujs2/jsdtoa.c:438-471 | the boundaries of a double, shifted without change of value to a common exponent with the top bit set |
| Grisu.BoundariesAreMidpoints | deps/mujs2/jsdtoa.c:453-471 | the upper boundary is the midpoint to the next double; the lower one is the midpoint to the one before if and only if the double is not the smallest normal one, and is never below it |
| Grisu.DigitGen | deps/mujs2/jsdtoa.c:474-499 | the digits written, scaled, lie within delta below the upper end, at most 18 of them, with no 64-bit overflow |
| PowersOfTen.Chosen | deps/mujs2/jsdtoa.c:379-381 | the approximation of log10(2) chooses a power of ten between 2^n and 10 * 2^n for every exponent of a double |
| PowersOfTen.ExponentFits | deps/mujs2/jsdtoa.c:502-517 | with that choice the product's exponent is between -59 and -56 |
| GrisuPrint.Grisu2 | deps/mujs2/jsdtoa.c:502-517 | for every finite positive double the decimal printed lies strictly between its boundaries, and its at most 18 digits fit in the buffer, given an accurate table of powers |
| GrisuPrint.TableExists | deps/mujs2/jsdtoa.c:370-377 | a table of cached powers as accurate as the printer needs exists |
| NumberString.NumberToString | deps/mujs2/jsvalue.c:229-286 | for every double, the text: "0", NaN and the infinities; the exact decimal of an int; for any other number a decimal strictly between its boundaries. Read again it is the same decimal if and only if the digits behind the eighteenth are zero, as they are of every text that does not start with "0." |
| NumberString.ReadDenoted | deps/mujs2/jsdtoa.c:563-743 | what is read of any laid-out decimal, as a real number, is what it denotes if and only if the digits behind the eighteenth are zero |
| NumberText.FormatExponent | deps/mujs2/jsdtoa.c:24-45 | the sign and the decimal digits of the exponent |
| NumberText.IntText | deps/mujs2/jsvalue.c:133-154 | the decimal digits of the integer, without leading zeros |
| NumberText.DigitsOfNumber | deps/mujs2/jsvalue.c:133-154 | those digits are the number |
| NumberText.NumberToText | deps/mujs2/jsvalue.c:229-286 | digits and exponent in the layout of section 9.8.1 of ECMA-262 5.1 |
| NumberText.LayoutValue | deps/mujs2/jsvalue.c:229-286 | in every layout the text denotes digits times ten to the exponent |
| NumberText.Strtod | deps/mujs2/jsdtoa.c:563-743 | the scanner with its two 9-digit halves computes the reading of the grammar |
| NumberText.ReadRender | deps/mujs2/jsdtoa.c:563-743 | reading any laid-out decimal gives its sign, the number of its first 18 mantissa digits and the exponent that belongs to them |
| NumberForms.ReadSpelled | deps/mujs2/jsdtoa.c:563-743 | every spelling (blanks, a sign, digits with or without a point among them, e or E with a sign, without one, or without digits), with any text behind it that does not go on, is read as its sign, the number of its first 18 digits and its power of ten |
| NumberText.RoundTrip | deps/mujs2/jsvalue.c:229-286 | number to text and back gives the sign, and the same decimal if and only if every mantissa digit behind the eighteenth is zero |
| NumberText.RoundTripDigits | deps/mujs2/jsdtoa.c:626-650 | in terms of the digits printed: the zeros that the layout puts in front count among the eighteen |
| NumberText.RoundTripFails | deps/mujs2/jsdtoa.c:626-650 | seventeen digits laid out as 0.0ddd lose their last one |
| Utf.RuneBack | deps/mujs2/utf.c:45-137 | every 16-bit rune is read back from its bytes, surrogates included, whatever follows |
| Utf.RuneForth | deps/mujs2/utf.c:45-98 | conversely only those bytes are read as that rune; overlong and broken sequences are the error rune, one byte at a time |
| Utf.RuneBytes | deps/mujs2/utf.c:100-137 | the leading byte tells the number of bytes, and the others have six bits each |
| JsonText.Printer.FmtStr | deps/mujs2/json.c:170-198 | appends the quoted and escaped string |
| JsonText.Printer.FmtObject | deps/mujs2/json.c:209-242 | appends the object's text; a property that is not printed leaves nothing behind, its comma and indentation included |
| JsonText.Printer.FmtArray | deps/mujs2/json.c:244-265 | appends the array's text, with null for an element that is not printed |
| JsonText.Stringify | deps/mujs2/json.c:323-364 | undefined for a value that is not printed, else its text with a gap of at most ten spaces |
| JsonReader.Reader.LexJson | deps/mujs2/jslex.c:818-861 | the imperative lexer gives the token of the grammar and stops behind it, and never moves past the end of the text |
| JsonReader.Reader.LexString | deps/mujs2/jslex.c:792-816 | the buffer it fills holds the string of the grammar, and the token the part in front of its first zero rune |
| JsonLexer.CutMeans | deps/mujs2/jslex.c:792-816 | that part has no zero rune, and is the string if and only if that has none |
| JsonReader.Reader.Value | deps/mujs2/json.c:29-93 | the recursive parser with its lookahead computes the parse of the grammar, or fails exactly when that does |
| JsonReader.JsonParse | deps/mujs2/json.c:143-157 | the same of a whole text |
| JsonGrammar.ParseDerives | deps/mujs2/json.c:29-93 | for every text and value, the parse is that value if and only if the grammar of section 15.12.1 of ECMA-262 5.1 derives it from the front of the text, with a token or the end behind; nothing else is read |
| JsonGrammar.WholeDerives | deps/mujs2/json.c:143-157 | the parse that demands the end is the value if and only if the grammar derives it from the whole text |
| JsonRoundTrip.ValueBack | deps/mujs2/json.c:29-93 | a value written in any layout, its members in any order, wherever it stands in a text and whatever follows it, is parsed as what it is in JSON, and parsing goes on behind it |
| JsonRoundTrip.RoundTrip | deps/mujs2/json.c:159-321 | for any value with 32-bit numbers, strings of non-zero runes and its properties in order, and any gap of spaces, printing and parsing gives the value with null for NaN and for elements, and without properties, that are not printed |
| JsonRoundTrip.RoundTripExact | deps/mujs2/json.c:159-321 | it gives back the value itself if and only if the value has no such parts |
| JsonRoundTrip.PutMeans | deps/mujs2/json.c:29-67 | storing a property changes the value of that name to the new one and of no other name, and keeps the properties in order |
| JsonRoundTrip.MembersAnyOrder | deps/mujs2/json.c:45-67 | the text of an object with its members in any order, and any names repeated, is parsed as the object that has for each name the last value written, and no other names |
| JsonForms.PlainString | deps/mujs2/jslex.c:792-816 | for every rune, the string of that rune alone is that rune if and only if it is none of the control characters, quotation mark, backslash and the two line separators, and else an error |
| JsonForms.LetterEscape | deps/mujs2/jslex.c:765-790 | a backslash and any rune but u: seven letters stand for their characters, everything else is an error |
| JsonForms.HexEscape | deps/mujs2/jslex.c:144-157 | a `\u` with four digits, a-f or A-F, is the character with that number |
| JsonForms.NoHexEscape | deps/mujs2/jslex.c:139-142 | any other rune behind `\u` is no digit and stands for itself |
| JsonForms.WhiteInFront | deps/mujs2/jslex.c:110-118 | for every rune, with it in front null is parsed as null if and only if it is one of the ten kinds of white space |
| JsonForms.NumberParsed | deps/mujs2/jslex.c:729-763 | a spelling of a number is parsed if and only if it is one of section 15.12.1.1 of ECMA-262 5.1, as the number that it denotes |
| JsonForms.ZeroInFront | deps/mujs2/jslex.c:729-763 | a spelling with digits behind a leading zero is parsed too, as the whole number that it spells, if and only if its second digit begins a token |
| JsonForms.RunePrinted | deps/mujs2/json.c:170-198 | each rune is printed as an escape of one letter, as four capital digits, or as itself |
| JsonForms.ArrayLines | deps/mujs2/json.c:244-265 | with a gap the elements are on lines of their own, one level deeper than the closing bracket |
| JsonForms.ObjectLines | deps/mujs2/json.c:209-242 | so are the members of an object, behind their names |
| JsonFaults.EndNotAsked | deps/mujs2/json.c:143-157 | for every text, the parse differs from one that demands the end if and only if the token behind the value is neither bad nor the end, and then accepts what that rejects |
| JsonFaults.TrailingText | deps/mujs2/json.c:143-157 | behind any printed value, whatever follows is accepted if and only if its first token is not bad; only behind a number must it be something that ends the number |
| JsonFaults.NumberBehind | deps/mujs2/json.c:143-157 | a value that is not a number with a number right behind it, as in `[]5`, is accepted as the value |
| JsonFaults.StringsStrict | deps/mujs2/jslex.c:765-816 | for every text, the string read differs from one read with four hexadecimal digits demanded behind each `\u` if and only if there is one without them; what the strict reading accepts is read the same |
| JsonFaults.ShortEscape | deps/mujs2/jslex.c:765-790 | an escape without hexadecimal digits is read as nothing |
| JsonFaults.ZeroEnds | deps/mujs2/jslex.c:792-816 | for every string token, the string is the one between the quotes up to its first zero rune, so all of it if and only if it has none |
| JsonFaults.ZeroEscape | deps/mujs2/jslex.c:792-816 | `"\u0000x"` is read as the empty string |
| Calendar.YearFromTimeIsYear | deps/mujs2/jsdate.c:86-108 | for every time, the estimate and its correction give the one year that contains it |
| Calendar.DayInRange | deps/mujs2/jsdate.c:115-118 | the day within the year is one of that year's days |
| Calendar.PartsMakeTime | deps/mujs2/jsdate.c:173-228 | hours, minutes, seconds and milliseconds are in range and make up the time again |
| Calendar.PartsOfMade | deps/mujs2/jsdate.c:173-228 | conversely a time made from parts has those parts |
| Calendar.WeekDays | deps/mujs2/jsdate.c:158-161 | day 0 is a Thursday and the week goes round in seven days, before 1970 too |
| Calendar.Epoch | deps/mujs2/jsdate.c:81-99 | 1970 starts at day 0 and 2000 thirty years and seven days later; the calendar repeats after 400 years with 97 leap days, and which years from 1601 to 2000 these are |

## Findings

Where the code does not do what it is for, the model follows the code. Each of these is a lemma above.

- regexp.c:598-618 counts in `int`, and only the results of repeats are checked. A sequence inside a repeat can make
  the product wrap around to a small number: `(?:` + 516 times `(?:a{254}){129}` + 2065 times `a` + `){254}` is given
  244 instructions and needs 4294967540. `Overruns` says for which patterns this happens (`OvergrownPasses`,
  `Regcompx`).
- jscompile.c:762-787: a labelled break that names another label of its own chain, as in `a: b: break a;`, has the
  label's node as its target. The jumps of that node are never patched, so it jumps to the start of the function
  (`StuckForever`); inside a `with` or `try` it also leaves the stacks too deep (`SinkingUnbalanced`).
- jscompile.c:762-787: labels may be used again inside a statement with that label. A break that is labelled by the
  name of an enclosing statement too leaves that statement (`TwiceEnds`). Without one, as in `a: break a;`, it is
  rejected. `BreaksArrive` has the exact condition for all breaks; it is the one that sound statements have to meet.
- jscompile.c:400-433: the assignment of `for (a[b] in o)` rotates its operands the wrong way (`ForInIndexed`,
  `ForInIndexedMeant`).
- jsrun.c:538-574: storing the `length` of an array or the `lastIndex` of a RegExp converts the operand where it lies
  on the stack, and what is left there is the value of the assignment. With an array a,
  `return a.length = {valueOf: function () { return 3; }}` returns 3 and not the object (`ResizeReturns`;
  `AssignGives` says when this happens).
- jsdtoa.c:626-650: reading keeps eighteen mantissa digits because more "can't affect the value", but the zeros in
  front are among them, so a number printed as 0.0 and
  seventeen digits does not come back (`RoundTrip`, `RoundTripDigits`, `RoundTripFails`). `NumberToString` says which
  texts do.
- jsdtoa.c:453-471: for the smallest normal double the lower boundary is put nearer than the midpoint
  (`BoundariesAreMidpoints`). The decimal printed still lies inside.
- json.c:143-157: JSON.parse does not check that the text ends behind the value: `[]5` is an empty array
  (`EndNotAsked`, `TrailingText`, `NumberBehind`).
- jslex.c:729-763: a number ends at a leading zero, but js_strtod reads on from it: JSON.parse gives 12 for `012`
  (`ZeroInFront`; `NumberParsed` has all other spellings).
- jslex.c:765-816: the result of lexjsonescape is ignored, so `"\u"` is the empty string (`StringsStrict`,
  `ShortEscape`).
- jslex.c:792-816: the buffer goes through js_intern, which takes it to end at its first zero byte, so `"\u0000x"` is
  the empty string too, and two names that differ only behind a zero are one (`ZeroEnds`, `ZeroEscape`).
- jsrun.c:1278-1751: behind OP_NEXTITER there are two depths of the operand stack, told apart by the flag on top. That
  is the only address in compiled code whose depths are not one triple (`BodyBalanced`,
  `CallMeasured`).
- jsproperty.c:228-253: for-in also lists a name that is enumerable farther up the prototype chain and hidden by a
  property that is not (`HiddenListed`; `ListedRight` and `ShownIfVisible` say exactly when the list is right).

## Left out

Regular expressions:

- Back-references and the ignore-case flag.
- The lexer: patterns are given as tokens; `isnewline` on bytes that are not runes; memory exhaustion.
- RegexpEngine.Regcompx: where the C code would write behind its buffer the model stops with Overrun. Signed overflow
  is taken to wrap around.

Collector:

- Cells of the four C types are one tagged class, and the roots in `js_State` are grouped; the bytes of cells, the
  finalizers and js_freestate are not modelled. Saved states in the try buffer are no roots, as in the source.

Tables:

- PropertyTable.PropertyMap.Remove: accessors and attributes are not part of the entries.
- Enumeration.Flatten: an iterator's names are a sequence, not a linked list.
- Interned strings use the nodes of the property tables, whose algorithms are the same as jsintern.c's.

JavaScript:

- `finally`, script and eval code, strict mode with its early errors, reserved words and the check for duplicate
  properties.
- OP_LINE words (jscompile.c:92-99) and line numbers.
- The prologue of cfunbody (jscompile.c:1278-1345): declarations of variables, functions and parameters. A frame is
  given with its slots in place; functions that are not lightweight have the one slot of `this`.
- Function literals stand for their number; inner functions are compiled by themselves.
- The run-time library (property access, conversions, calls) is a parameter, the same for evaluation and machine.
  Calls that never return, the limits of the stacks and memory are not modelled.
- The initial value in `for (var x = e in o)`, which the compiler skips.
- JsVm.Vm.Execute: runs a given number of rounds, since a call need not end.
- JsCompiler.Compiler.Statement: the lists of jumps are kept by depth, not on the tree's nodes, and an error is a
  result, not a longjmp.
- JsFold.FoldKeeps: folding builds new trees where the source overwrites nodes; the arithmetic on doubles is a
  parameter, shared by parser and machine.
- JsBalanceStm.BodyBalanced: needs that a break to a label's own node stands where nothing lies on the stacks; it is
  one-way, since code that is never reached may have any depths.

Numbers and dates:

- GrisuPrint.Grisu2: the 687 entries of the table of powers are a hypothesis; `k_comp` multiplies without rounding.
- NumberText.NumberToText: works on the digits and the exponent that the printer gives; NumberString.NumberToString is
  the whole.
- NumberString.NumberToString: a double is given by its sign, its significand and its exponent, not by its bits.
- NumberText.Strtod: gives the decimal that was read; scaling it to a double, with its rounding and the limits of the
  exponent, is not modelled, nor are hexadecimal numbers.
- NumberText.IntText: the negation of the least int.
- Calendar.YearFromTimeIsYear: times are integers; the division is exact where the source divides doubles.
- Months, MakeDay, local time, and the parsing and printing of dates.

JSON:

- JsonText.Stringify: replacers, toJSON, wrapper objects, gaps that are not spaces, cyclic values; numbers are 32-bit
  integers. An object is the list of its enumerable own properties in order of their names.
- JsonReader.JsonParse: revivers; properties are stored in a new object without regard to setters that
  Object.prototype may have.

The lexer and the parser of JavaScript and the built-in objects are not modelled, nor is anything outside
`deps/mujs2/`.
