# Kconfig, mkhash and two image tools: verified models

This project models the parts of the build tooling whose results the rest of the build relies on, and proves what
they promise.

* **Dependency expressions** (`scripts/config/expr.c`): trees over n, m and y with AND as minimum, OR as maximum and
  NOT as `2 - x`. The rewriting passes are functions on trees with their meaning proved (`expr.dfy`, `exprcompare.dfy`,
  `simplify.dfy`), a loop over slots of one shared tree (`dups.dfy`), when two expressions count as equal
  (`exprsame.dfy`), and the same passes in place on cells with frames (`exprheap.dfy`).
* **Printing and parsing** of expressions: what `expr_print` emits, read by the shift/reduce loop of the grammar
  (`exprprint.dfy`).
* **Symbol evaluation** (`scripts/config/symbol.c`): the plain recursion as a specification (`symbols.dfy`), the
  memoised evaluator that writes into the symbol table (`engine.dfy`), laws of the values (`laws.dfy`), the values read off
  prompts, defaults and dependencies by position (`values.dfy`), the recursive dependency check (`symcheck.dfy`), both
  together (`evaluation.dfy`), and three inputs on which the code does not do what one would expect (`symloop.dfy`,
  `symflag.dfy`, `symmodules.dfy`).
* **The menu tree** (`scripts/config/menu.c`): linked nodes (`menutree.dfy`), the expressions that are rewritten and
  handed down (`menudeps.dfy`, `menucontent.dfy`), who mentions a choice (`menuhomes.dfy`), `menu_finalize` itself
  (`menu.dfy`), and what it means for evaluated configurations (`safety.dfy`) and for the dependency check
  (`finalised.dfy`).
* **The `.config` file** (`scripts/config/confdata.c`): the stackless walk that writes it (`confwrite.dfy`), its lines
  (`confdata.dfy`), and the buffers that escape and unescape strings (`confreader.dfy`).
* **Macros** (`scripts/config/preprocess.c`): expansion as a function (`preprocess.dfy`), the recursive expander with
  its counters (`preprocessor.dfy`), and laws of expansion (`macrolaws.dfy`) and of calls (`macrocalls.dfy`).
* **Digests** (`scripts/mkhash.c`): SHA-256 as in sections 4 to 6 of FIPS 180-4 (`sha256rounds.dfy`, `sha256.dfy`,
  `mkhash_sha256.dfy`) and MD5 as in section 3 of RFC 1321 (`md5rounds.dfy`, `md5.dfy`, `mkhash_md5.dfy`), both as
  streams of chunks (`words.dfy`, `streams.dfy`) and with the example digest of its standard (`sha256example.dfy`,
  `md5example.dfy`).
* **Image tools**: the interlocking checksums of `scripts/cameo-tag.py` (`cameo.dfy`) and the padding loop of
  `tools/padjffs2/src/padjffs2.c` (`padjffs2.dfy`).

## How to read it

Values of symbols are assignments (`Exprs.Valuation`). `Typed` says what the engine guarantees of them: a bool symbol
is n or y, and no symbol is m while MODULES is n (`SymbolLaws.SolutionTyped` proves it of all computed values). `Sane`
adds that no constant that an expression mentions is a numeral equal to 0, 1 or 2; the next section says why.

Where the source updates objects in place, the model is a class or a method over arrays, proved against a function.
Pointers are numbers: symbols index a table, menu nodes a sequence of `next`/`parent`/`list` records, expression cells
a pool. A slot (`struct expr **`) inside one AND/OR level is the path of turns that leads to it.

An *epoch* is the time between two calls of `sym_clear_all_valid`. The cell `modules_val` is an input of each epoch; a
symbol that nothing mentions stands for it. MODULES itself is evaluated like any other symbol, by
`sym_clear_all_valid` first of all and still under the old `modules_val`, which then becomes its value.

A graph of symbols is *covered* if whoever mentions a choice is one of its values or leads, through mentions, to one.
On covered graphs the recursive check is exact. `menu_finalize` makes covered graphs: it puts the choice into the
conditions of its values, of what hangs below them in the menu, and of what these select. That is proved for *closed*
choices (`MenuContent.Decl`): choices that have no name, so that nothing mentions them before `menu_finalize`, and that
share no entry with another choice. An `if` inside such a choice may mention entries of it in any way that matters to
its value; `Dups.SwallowedMention` shows how `expr_eliminate_yn` loses a mention that does not.

The round functions of both digests are generic in the word type and take the operations of the algorithm as a record;
that the code's rewritten `F`, `G`, `Ch` and `Maj` equal the standards' is proved separately on 32-bit words.

## What the proofs found

* **Joining `a=b && a!=c`.** `expr_join_and` drops the second half whenever `b` and `c` are different constants. That is
  wrong when one of them is a numeral: `"1"` equals m by value. `Dups.JoinEqNeExact` gives the exact condition,
  `Dups.JoinNumeralUnsound` an input that fails.
* **`expr_trans_bool` under NOT.** The pass keeps "is n" on trees with NOT over symbols only, which is what it is given
  (`Simplify.TransBoolKeepsNo`); under another NOT it can turn n into m (`Simplify.TransBoolUnderNot`).
* **`expr_trans_compare` of a negation** is right exactly when the operand is not m (`MenuDeps.TransCompareOfNot`).
* **A loop through a named choice.** `sym_check_choice_deps` takes the choice out of the check before its values are
  checked, so a value that depends on a symbol that depends on the choice is not reported when the choice is checked
  first, although no values satisfy all symbols: `NamedLoop.NamedChoiceLoop` runs the check on such a graph. A cycle is
  missed only if somewhere along it there are only mentions of a choice by symbols that do not lead to its values
  (`SymbolCheck.MissedCycle`); `menu_finalize` makes no such mention of a choice without a name
  (`FinalisedChecks.FinalisedNotBare`), so where all choices are closed the check is exact.
* **A setting that is accepted and lost.** A choice loses its user flag when a visible value has none
  (symbol.c:281-286), which changes an input of the next epoch: `LostFlag.SettingLost` sets a symbol to a value in range
  and finds it n after re-evaluation, with nothing selecting it. The change can also reach MODULES:
  `FallenModules.SettingRaised` sets a tristate symbol that depends on nothing to m and finds it y, because MODULES
  fell with a choice when everything was evaluated again. An accepted value takes effect if and only if the direct
  dependency is above n or nothing selects the symbol, as long as no choice that the symbol depends on has lost its
  flag and `modules_val` stays what it was or the symbol is evaluated before it changes (`Engine.Evaluator.SetAndCalc`).
  `modules_val` stays if it was up to date, MODULES comes before the symbol, and no choice before MODULES has lost its
  flag (`Engine.Evaluator.SetTristateValue`).
* **`X := $(X)`.** The variable is listed before its value is expanded, so the reference reads a `value` that has just
  been freed, or that was never set when the variable is new (preprocess.c:292-311). The model makes that an error of
  its own (`MacroLaws.ImmediateSelf`).
* **`ALIGN` in padjffs2** complements a 32-bit mask, so it is right exactly while the result stays below 2^32
  (`PadJffs2.AlignExact`, and `PadJffs2.AlignWraps` for an input that fails).
* **The superset test** for automatic submenus passes exactly for conjunctions that hold every operand of the other
  expression (`SameExprs.SupersetExact`), so an expression that is no conjunction fails it even against itself.
* **Automatic submenus** are wider than the comment above `menu_finalize` says: besides what depends on the symbol
  outright they hold entries that mention it and are no wider than its prompt (`Menu.PlacedMeans`).

## Model

| member | source | states |
|---|---|---|
| `Exprs.StrCmpZero` | scripts/config/expr.c:1079 | a string comparison gives 0 exactly for equal strings |
| `Exprs.CompareConst` | scripts/config/expr.c:1068-1100 | a bool or tristate symbol compares equal to a constant exactly when its value matches it, by word or by numeral |
| `Comparisons.TriOrder` | scripts/config/expr.c:1068-1097 | two bool or tristate symbols compare by n < m < y under all six operators |
| `Comparisons.NumberOrder` | scripts/config/expr.c:1073-1097 | values that read as signed numbers compare by size |
| `Comparisons.StrCmpOrder` | scripts/config/expr.c:1079 | the sign of a string comparison says which text stands first in a dictionary |
| `Comparisons.TextOrder` | scripts/config/expr.c:1068-1097 | two string symbols compare by their texts in that order |
| `Simplify.EliminateYnMeaning` | scripts/config/expr.c:316-397 | removing constant operands keeps the value under every assignment |
| `Simplify.EliminateYnShrinks` | scripts/config/expr.c:316-397 | no y or n operand survives; the tree shrinks exactly when there was one, and is untouched otherwise |
| `Simplify.EliminateYnShape` | scripts/config/expr.c:316-397 | normal trees stay normal, and no new symbol appears |
| `Simplify.DeMorganLighter` | scripts/config/expr.c:794-811 | the tree De Morgan rebuilds is lighter than the negation it replaces, so re-entering the pass ends |
| `Simplify.TransformMeaning` | scripts/config/expr.c:694-849 | the transformation keeps the value under every typed assignment |
| `Simplify.TransformNotMeaning` | scripts/config/expr.c:760-844 | the NOT case gives the negated value |
| `Simplify.TransformCmpMeaning` | scripts/config/expr.c:716-759 | replacing a comparison of a bool symbol with y, m or n keeps the value and leaves no such comparison |
| `Simplify.TransformNormal` | scripts/config/expr.c:694-849 | the result has NOT only over symbols other than y, m, n, and no bool symbol compared with them |
| `Simplify.TransformFixesNormal` | scripts/config/expr.c:694-849 | such trees are left exactly as they are |
| `Simplify.TransformIdempotent` | scripts/config/expr.c:694-849 | transforming twice is transforming once |
| `Simplify.TransBoolKeepsNo` | scripts/config/expr.c:402-426 | with NOT over symbols only, the pass never raises a value and keeps which values are n, both ways |
| `Simplify.TransBoolClears` | scripts/config/expr.c:402-426 | no tristate symbol compared as unequal to n is left, and without one nothing changes |
| `Simplify.TransBoolUnderNot` | scripts/config/expr.c:402-426 | under another NOT it turns n into m |
| `Simplify.ElimEqMeaning` | scripts/config/expr.c:150-190 | what is removed from both sides is one common operand |
| `Simplify.MarkEqMeaning` | scripts/config/expr.c:221-245 | both passes together remove one common AND operand and one common OR operand |
| `Simplify.ExprEqSound` | scripts/config/expr.c:252-303 | expressions found equal have equal values under every assignment |
| `Simplify.SupersetSound` | scripts/config/menu.c:459-468 | if removing what two expressions share leaves y of the second, the first is at most the second everywhere |
| `SameExprs.ExprEqExact` | scripts/config/expr.c:252-303 | where no operand is y or n, two expressions are found equal exactly when they are the same up to order and grouping of operands, at every level |
| `SameExprs.ElimEqParts` | scripts/config/expr.c:150-187 | marking takes from both sides the operands they share, each as often as both have it |
| `SameExprs.SupersetExact` | scripts/config/menu.c:459-468 | the superset test passes exactly when the first is a conjunction with all operands of the second, in any order and grouping |
| `Dups.JoinOrMeaning` | scripts/config/expr.c:431-493 | whatever expr_join_or returns is worth the OR of both operands |
| `Dups.JoinAndMeaning` | scripts/config/expr.c:495-594 | whatever expr_join_and returns is worth the AND of both operands, absent numerals equal to a tristate |
| `Dups.JoinEqNeExact` | scripts/config/expr.c:540-553 | joining a=b && a!=c keeps the value under an assignment if and only if the constants are the same or the present value of a does not equal both |
| `Dups.JoinNumeralUnsound` | scripts/config/expr.c:540-553 | a="1" && a!=m is joined to a="1", y instead of n when a is m |
| `Dups.JoinTame` | scripts/config/expr.c:431-594 | a join is no bigger than its first operand, starts no new level of the same kind, and brings in no new symbol or negation |
| `Dups.PutOther` | scripts/config/expr.c:596-651 | storing through one operand slot leaves every other operand slot of the shared tree alone |
| `Dups.TwoSlots` | scripts/config/expr.c:627-648 | storing two operands with the same combined value keeps the value of the whole tree |
| `Dups.EliminateDups1` | scripts/config/expr.c:596-651 | the two walkers over one tree end; value, symbols and shape are kept; with joins a y or n operand is left to be removed, without any no two operands could be joined |
| `Dups.EliminateDups` | scripts/config/expr.c:664-686 | the loop ends; the value is kept under every typed assignment; in the result no two operands of a level can be joined, and such an expression is returned unchanged |
| `SameExprs.ReducedApart` | scripts/config/expr.c:596-688 | afterwards no level has two operands that are equal up to order and grouping |
| `SameExprs.AnnouncedOr` | scripts/config/expr.c:431-493 | the joins of tests of one symbol under OR that the comments list, in either order |
| `SameExprs.AnnouncedAnd` | scripts/config/expr.c:495-587 | those under AND |
| `SameExprs.AnnouncedEqNe` | scripts/config/expr.c:538-553 | a comparison with one constant absorbs an unequal one with another and contradicts one with the same |
| `Dups.SwaysIsFirm` | scripts/config/expr.c:664-686 | a conjunction whose value depends on a symbol has an operand about it |
| `Dups.JoinFirm` | scripts/config/expr.c:495-594 | joining two operands of a conjunction keeps the symbols they are about, or gives n |
| `Dups.YnFirm` | scripts/config/expr.c:316-397 | removing constant operands keeps the symbols a conjunction is about, or makes it n |
| `Dups.SwallowedMention` | scripts/config/expr.c:316-397 | a mention that does not matter to the value can get lost: the input c && (s OR y) && t && t |
| `ExprHeap.Pool.EliminateYnAt` | scripts/config/expr.c:316-397 | in place, the cells hold the simplified tree, without sharing, and nothing outside the tree changed |
| `ExprHeap.Pool.JoinYnAt` | scripts/config/expr.c:324-392 | the same for one node whose operands are done |
| `ExprHeap.Pool.ReplaceBy` | scripts/config/expr.c:333-338 | the surviving operand moves into the node, whose cells are then its own |
| `ExprHeap.Pool.TransBoolAt` | scripts/config/expr.c:402-426 | in place, on the same cells |
| `ExprHeap.Pool.TransformAt` | scripts/config/expr.c:694-849 | the returned cell holds the transformed tree, on cells of the old tree or new ones |
| `ExprHeap.Pool.TransformCmpAt` | scripts/config/expr.c:716-759 | the comparison cases in place |
| `ExprHeap.Pool.TransformNotAt` | scripts/config/expr.c:760-844 | the negation cases in place |
| `ExprHeap.Pool.DeMorgan` | scripts/config/expr.c:794-811 | reusing both nodes and allocating one gives exactly the dual of the negated operands |
| `PrintParse.Yyparse` | scripts/config/parser.tab.c:1239-1316 | the loop that pushes and pops ends, and gives what the grammar's precedence gives |
| `PrintParse.PrintParsed` | scripts/config/expr.c:1138-1228 | wherever an operand is expected, a printed expression is reduced to one expression before the next token is taken |
| `PrintParse.BinParsed` | scripts/config/parser.tab.c:1665-1707 | the operators shift and reduce by the precedence of AND over OR |
| `PrintParse.LeftGroupedMeaning` | scripts/config/parser.tab.c:1701-1707 | grouping like operators to the left keeps the value |
| `PrintParse.PrintThenParse` | scripts/config/expr.c:1104-1228 | printing and parsing any expression gives it back up to regrouping of like operators, with the same value |
| `PrintParse.AndOrReading` | scripts/config/parser.y:86-90 | operands stay in their order, and AND binds tighter than a following OR |
| `PrintParse.OrAndReading` | scripts/config/parser.y:86-90 | and tighter than an OR in front of it |
| `PrintParse.NotReading` | scripts/config/parser.y:86-90 | NOT binds tighter than both |
| `PrintParse.LeftGroupedFixes` | scripts/config/parser.y:86-90 | exactly the expressions whose like operators group to the left come back unchanged |
| `SymbolSpec.GuardedInvisible` | scripts/config/symbol.c:175-204 | choice values cannot be seen while their choice is n |
| `SymbolSpec.LocalAgree` | scripts/config/symbol.c:302-444 | the fields of a symbol depend only on symbols that come before it |
| `SymbolSpec.SolveIsSolution` | scripts/config/symbol.c:302-444 | the plain recursion without SYMBOL_VALID satisfies the equation of every symbol |
| `SymbolSpec.SolutionUnique` | scripts/config/symbol.c:302-444 | and nothing else does |
| `SymbolLaws.SolutionTyped` | scripts/config/symbol.c:200-201 | computed bool symbols are never m, and no symbol is m without modules |
| `SymbolLaws.ChoiceValueTri` | scripts/config/symbol.c:353-355 | a value of a bool choice is y exactly when the choice settled on it and it is visible |
| `SymbolLaws.PickIsVisible` | scripts/config/symbol.c:244-300 | what a choice settles on is one of its values, and visible |
| `SymbolLaws.ChoiceExclusive` | scripts/config/symbol.c:413-437 | exactly one value is y, a visible one, when the choice is y; none when it is n |
| `SymbolLaws.ValueUnmoved` | scripts/config/symbol.c:476-510 | settings of a symbol and of symbols after it leave the values of all symbols before it as they were |
| `SymbolLaws.AcceptedTakesEffect` | scripts/config/symbol.c:353-390 | an accepted value is the value after re-evaluation if and only if the direct dependency is above n or nothing selects the symbol, whatever happens to the settings of later symbols |
| `SymbolLaws.ModulesUnmoved` | scripts/config/symbol.c:446-455 | MODULES is worth the same after any change of settings that come after it |
| `SymbolLaws.PickTakesEffect` | scripts/config/symbol.c:487-503 | a visible value picked in a choice that is y is what the choice settles on, and is y |
| `ValueLaws.DefaultIsFound` | scripts/config/symbol.c:83-93 | what the defaults give is the first whose condition is not n, no more than that condition, and n if there is none; by position, and exactly one value |
| `ValueLaws.DefaultTakes` | scripts/config/symbol.c:369-384 | a symbol without a user value that nothing selects or implies is worth its first default that applies, m raised to y where it cannot be m |
| `ValueLaws.VisibleIsHighest` | scripts/config/symbol.c:175-205 | a symbol is as visible as its most visible prompt; m counts as n in a tristate value of a choice that is y, and as y where the symbol cannot be m |
| `ValueLaws.DepsAre` | scripts/config/symbol.c:207-238 | the three dependencies of a symbol, a missing direct one y, the others n |
| `ValueLaws.ValueIs` | scripts/config/symbol.c:345-400 | exactly one value is wanted: the user's as far as visible, else the default raised to what is implied within the direct dependency; the symbol has it after selects, which make it n where the dependency is n |
| `ValueLaws.WrittenIs` | scripts/config/symbol.c:345-384 | a symbol is written exactly when it is visible, selected or implied or one of its defaults applies |
| `ValueLaws.PickSettles` | scripts/config/symbol.c:244-300 | a choice settles on the user's pick if that can be seen, else the first default that applies and can be seen, else the first value that can, and on none exactly if none can |
| `ValueLaws.ChoiceIs` | scripts/config/symbol.c:345-411 | the mode of a choice is that of a symbol without defaults; where it would be y it settles, and is n if no value can be seen |
| `ValueLaws.SeenIsVisible` | scripts/config/symbol.c:244-300 | in a choice that is y these are the visible values |
| `ValueLaws.SolutionDecides` | scripts/config/symbol.c:302-444 | a solution gives every symbol, of every kind, the value so described and no other |
| `ValueLaws.AcceptedIsAttained` | scripts/config/symbol.c:457-474 | a symbol no more visible than selected takes no value; otherwise the values in range are exactly those that setting it would give, as long as its dependency is above n or nothing selects it |
| `ValueLaws.ValueAccepts` | scripts/config/symbol.c:471-473 | a visible value of a choice takes y and nothing else |
| `Engine.Evaluator.CalcValues` | scripts/config/symbol.c:302-444 | after any sequence of calls, in any order, every valid symbol holds the value of the plain recursion, which is the one its user value, its first default that applies, implies and selects decide (`ValueLaws.Decided`), and a choice that is y the value it settles on |
| `Engine.Evaluator.CalcAllValues` | scripts/config/symbol.c:244-300 | once all are evaluated, in any order, every bool choice has exactly one y value if it is y and none if it is n |
| `Engine.Evaluator.CalcValue` | scripts/config/symbol.c:302-444 | one call ends, makes the symbol valid with its solution, and touches only symbols it depends on |
| `Engine.Evaluator.FinishValue` | scripts/config/symbol.c:344-437 | from known visibility to the final fields |
| `Engine.Evaluator.NewValue` | scripts/config/symbol.c:344-410 | the value before a choice is settled |
| `Engine.Evaluator.SettleChoice` | scripts/config/symbol.c:413-415 | settling a choice in mode y and marking its values, after its own value is stored |
| `Engine.Evaluator.CalcTristate` | scripts/config/symbol.c:356-388 | user value, defaults, implies and selects, in that order, and the SYMBOL_WRITE flag |
| `Engine.Evaluator.CalcUnset` | scripts/config/symbol.c:367-382 | of a symbol that is not set or not shown: default and implies, and the SYMBOL_WRITE flag |
| `Engine.Evaluator.CalcDefault` | scripts/config/symbol.c:369-375 | the first default whose condition is not n, cut by its condition |
| `Engine.Evaluator.GetDefaultProp` | scripts/config/symbol.c:83-93 | the default at the first position whose condition is not n, none exactly when all are n |
| `Engine.Evaluator.CalcChoice` | scripts/config/symbol.c:413-415 | a choice in mode y settles on its value, or falls back to n; it keeps its user flag only if every visible value has one |
| `Engine.Evaluator.CalcPick` | scripts/config/symbol.c:288-299 | the user's choice if visible, else the default |
| `Engine.Evaluator.CalcVisibilities` | scripts/config/symbol.c:277-286 | the visibilities given to choice values early are the final ones; the result says whether every visible value has a user flag |
| `Engine.Evaluator.CalcValueVisibility` | scripts/config/symbol.c:277-286 | one value: its visibility, and whether it has a user flag if it is visible |
| `Engine.Evaluator.ChoiceDefaultValue` | scripts/config/symbol.c:244-268 | the first visible default of the choice, else its first visible value |
| `Engine.Evaluator.CalcVisibility` | scripts/config/symbol.c:175-236 | visibility and the three dependency values |
| `Engine.Evaluator.CalcPrompts` | scripts/config/symbol.c:181-204 | the OR of all prompts, m hidden for a tristate value of a choice in mode y |
| `Engine.Evaluator.CalcDeps` | scripts/config/symbol.c:208-235 | direct, reverse and implied dependency, m raised to y for bool symbols |
| `Engine.Evaluator.MarkWritten` | scripts/config/symbol.c:426-433 | marking the visible values of a written choice changes no value |
| `Engine.Evaluator.ExprCalcValue` | scripts/config/expr.c:1030-1102 | evaluating an expression through the cache gives its value under the solution |
| `Engine.PickVisible` | scripts/config/symbol.c:270-300 | asking for visibilities while the choice is provisionally y gives the final ones, also when the choice falls back to n |
| `Engine.Evaluator.ClearAllValid` | scripts/config/symbol.c:446-455 | all flags are cleared and MODULES is evaluated under the old modules_val, which becomes its value; what has been evaluated by then holds its value under the old one and does not come after MODULES |
| `Engine.Evaluator.SetTristateValue` | scripts/config/symbol.c:476-510 | accepted exactly when the value is the present one or in range, and a value other than the present one exactly when setting it would give it (`AcceptedRight`, without the range); then the new user value, and for a choice value y also the pick and the flags of the choice and its visible values, on top of the settings as evaluation left them; a changed value begins a new epoch, in which modules_val is the same if it was up to date and no setting up to MODULES has changed |
| `Engine.Evaluator.SetAndCalc` | scripts/config/symbol.c:457-510 | setting a value in range and evaluating again gives that value if and only if the direct dependency is above n or nothing selects the symbol, as long as no choice before the symbol has lost its user flag and modules_val stays or the symbol is evaluated before it changes; a condition known before the call says when modules_val stays |
| `Engine.Evaluator.PickAndCalc` | scripts/config/symbol.c:476-510 | setting a visible value of a choice that is y to y and evaluating again: the choice settles on it, and keeps its user flag if its values were evaluated, under the same provisos |
| `Engine.Evaluator.PickValue` | scripts/config/symbol.c:491-503 | the choice gets the pick and a user flag, its visible values user flags, and nothing else changes |
| `Engine.SetTouches` | scripts/config/symbol.c:485-505 | setting a symbol changes its own user setting and, for a choice value set to y, gives its choice the pick and a flag and its visible values a flag; no other setting changes |
| `Engine.Afresh` | scripts/config/symbol.c:418-424 | after a change of modules_val the state is right for the new epoch where what has been evaluated is worth the same under both |
| `FallenModules.SettingRaised` | scripts/config/symbol.c:446-455 | a tristate symbol that depends on nothing, set to m while modules_val is up to date, that is y after re-evaluation |
| `FallenModules.FirstInOrder` | scripts/config/symbol.c:446-455 | that symbol can be numbered before all others, so no choice comes before it |
| `LostFlag.SettingLost` | scripts/config/symbol.c:281-286 | an accepted setting with direct dependency y and nothing selecting the symbol that is n after re-evaluation |
| `SymbolCheck.Checker.CheckAll` | scripts/config/symbol.c:1184-1216 | for every order of the properties: without a report every symbol comes after all it mentions; a report means a real cycle; the only cycles without report pass mentions of a choice that lead to none of its values; on covered graphs a report is given if and only if there is a cycle |
| `SymbolCheck.Checker.CheckDeps` | scripts/config/symbol.c:1184-1216 | one call of the check keeps the order of what has passed and ends with the marks it found |
| `SymbolCheck.Checker.CheckPlainDeps` | scripts/config/symbol.c:1207-1209 | the branch for an ordinary symbol |
| `SymbolCheck.Checker.CheckSymDeps` | scripts/config/symbol.c:1099-1145 | all expressions of the symbol mention only symbols that have passed |
| `SymbolCheck.Checker.CheckExprDeps` | scripts/config/symbol.c:1064-1096 | the same for one expression |
| `SymbolCheck.Checker.CheckChoiceDeps` | scripts/config/symbol.c:1147-1182 | a choice and its values pass together |
| `SymbolCheck.Checker.CheckChoiceItself` | scripts/config/symbol.c:1157-1164 | the choice's own dependencies, its values marked |
| `SymbolCheck.Checker.CheckChoiceValues` | scripts/config/symbol.c:1166-1170 | the values, the choice no longer marked |
| `SymbolCheck.Checker.CheckChoiceOne` | scripts/config/symbol.c:1166-1170 | one of them |
| `SymbolCheck.NoLoop` | scripts/config/symbol.c:1184-1216 | after a check without report no symbol reaches itself |
| `SymbolCheck.MissedCycle` | scripts/config/symbol.c:1147-1182 | every cycle the check misses passes a mention of a choice that leads to none of its values |
| `SymbolCheck.NoCycle` | scripts/config/symbol.c:1184-1216 | nor, on covered graphs, does any group of a choice and its values |
| `SymbolCheck.AcyclicIsRanked` | scripts/config/symbol.c:1184-1216 | a graph without a cycle has an order in which everything is computed from earlier symbols |
| `SymbolCheck.CheckedIsRanked` | scripts/config/symbol.c:1184-1216 | and so has a covered graph that passes the check |
| `NamedLoop.NamedChoiceLoop` | scripts/config/symbol.c:1160-1170 | the check reports nothing on a graph with a mentioned choice that has a cycle and no solution, in whatever order properties are walked |
| `CheckedEvaluation.AcyclicHasOneSolution` | scripts/config/symbol.c:302-444 | a graph without a cycle has exactly one assignment of values |
| `CheckedEvaluation.CheckThenCalc` | scripts/config/parser.y:506-512 | the check reports exactly the cyclic graphs, where those with a cycle are covered; on graphs without one any sequence of evaluations yields the values of the one solution, each of them the one that defaults, user value, implies and selects decide |
| `MenuTrees.RepRelink` | scripts/config/menu.c:477-481 | redirecting the last node of a list redirects the list |
| `MenuTrees.SpliceLinks` | scripts/config/menu.c:554-563 | after the splice the moved nodes and those behind them form one list under the new parent |
| `MenuDeps.RewriteMMeaning` | scripts/config/menu.c:83-106 | m counts as n while MODULES is n and as itself otherwise |
| `MenuDeps.PassOn` | scripts/config/menu.c:335-339 | rewriting, transforming, joining with the parent's dependency and removing duplicates is worth their AND, mentions nothing new, and is still about every symbol either was about, unless it is n |
| `MenuDeps.TransBoolOn` | scripts/config/menu.c:383-384 | on the condition of a property whose symbol is not tristate the pass keeps which values are n |
| `MenuDeps.TransCompareMeaning` | scripts/config/expr.c:922-985 | comparing with n tells whether the expression is n, where negated operands are y or n |
| `MenuDeps.TransCompareOfNot` | scripts/config/expr.c:953-954 | on a negation it is right if and only if the operand is not m |
| `MenuDeps.TriSymbolsReadAsTri` | scripts/config/expr.c:977-978 | the hypothesis on symbols holds of y, m, n and every bool or tristate symbol |
| `MenuDeps.ContainsMentions` | scripts/config/expr.c:851-877 | the test finds exactly the symbols an expression mentions |
| `MenuDeps.DependsSound` | scripts/config/expr.c:879-906 | what depends on a symbol outright is above n only if the symbol is |
| `MenuDeps.DependsExactly` | scripts/config/expr.c:879-906 | it does so exactly when one operand of the conjunction is the symbol, or says that it is y, m or not n |
| `MenuDeps.AboveNo` | scripts/config/menu.c:436-437 | comparing with n, transforming and removing duplicates says whether the condition is above n |
| `MenuDeps.SupersetIsNarrower` | scripts/config/menu.c:450-470 | what passes the superset test is above n only where the prompt is |
| `MenuContent.HandedHeld` | scripts/config/menu.c:330-411 | what has been handed down the tree stays so while later steps only narrow choice values |
| `MenuContent.EnteredMeaning` | scripts/config/menu.c:387-399 | after all selects of a node the reverse dependency of a symbol is the OR of the old one and of the selecting symbols under their conditions; implies likewise |
| `MenuContent.EnteredFeeds` | scripts/config/menu.c:387-399 | each select and imply of the node counts, and no reverse dependency is lowered |
| `MenuContent.EnteredLifts` | scripts/config/menu.c:387-399 | entering raises reverse and implied dependencies by no more than the selecting and implying symbols are worth, each under its condition |
| `MenuContent.LiftedTrans` | scripts/config/menu.c:285-592 | such bounds add up over steps that leave the conditions of finished nodes alone, or make them choice values |
| `MenuContent.MarkMeaning` | scripts/config/menu.c:486-523 | a marked value is in the list of its choice, and depends in addition on the choice being y exactly if the choice is tristate and it is not |
| `MenuContent.MarkMarks` | scripts/config/menu.c:486-524 | marking choice values only narrows their dependencies and conditions |
| `MenuContent.SettledFramed` | scripts/config/menu.c:285-592 | work elsewhere in the tree leaves a finished node finished |
| `MenuHomes.PassedHoused` | scripts/config/menu.c:335-399 | a closed choice comes into a dependency only from above, and into reverse dependencies only with the entry that selects |
| `MenuHomes.KeptBelow` | scripts/config/menu.c:330-411 | what hangs below an `if` inside a choice mentions the entries the `if` is about, as far as it mentions the choice |
| `MenuHomes.AdoptedTied` | scripts/config/menu.c:441-475 | what an automatic submenu takes over inside a choice leads to the symbol it hangs below |
| `MenuHomes.FlattenedTied` | scripts/config/menu.c:485-564 | once the list of a choice is flattened, every entry is a value or leads to one |
| `Menu.Menus.FinalizeRoot` | scripts/config/menu.c:285-592 | no node is lost, repeated or reordered; every node's parent names the node whose list holds it; only nodes with prompt text keep children; each node got its own dependency and its parent's; each property is n where the dependency of its node is; every select and imply is in force; reverse, implied and direct dependencies are no higher than what selects and implies under its condition, the minimum of a choice under the condition of its prompt, and the dependencies of the nodes of the symbol (`MenuContent.Lifted`); every choice that is not optional has its minimum; every entry of a closed choice that mentions it is a value or leads to one |
| `Menu.Menus.Finalize` | scripts/config/menu.c:285-592 | the same for one call, which may take over following siblings; below an entry of a choice, what mentions the choice leads to that entry |
| `Menu.Menus.FlattenList` | scripts/config/menu.c:485-564 | the last loop keeps all of that |
| `Menu.Menus.FinalizeInside` | scripts/config/menu.c:293-411 | a node parsed with entries |
| `Menu.Menus.FinalizeLeaf` | scripts/config/menu.c:412-484 | a symbol without entries: its submenu and its direct dependency |
| `Menu.Menus.Propagate` | scripts/config/menu.c:330-401 | every child got its own rewritten dependency joined with its parent's, its properties theirs, and what it selects and implies got its share |
| `Menu.Menus.PassChild` | scripts/config/menu.c:335-400 | one child |
| `Menu.Menus.PassProp` | scripts/config/menu.c:357-399 | one property; those written elsewhere are skipped |
| `Menu.Menus.Condition` | scripts/config/menu.c:379-385 | the new condition of a property |
| `Menu.Menus.FinalizeKids` | scripts/config/menu.c:410-411 | the children in turn, each possibly taking over later ones |
| `Menu.Menus.AutoSubmenu` | scripts/config/menu.c:435-481 | the run of following nodes that pass the test becomes the list of the symbol, in order; the first that fails ends it; inside a choice all that is taken over leads to the symbol |
| `Menu.Menus.CloseList` | scripts/config/menu.c:477-481 | the nodes taken over become the list of the symbol |
| `Menu.Menus.TakeSiblings` | scripts/config/menu.c:439-475 | the loop over the nodes after the symbol |
| `Menu.Menus.TakeOne` | scripts/config/menu.c:472-474 | one node is finalised and put below the symbol |
| `Menu.Menus.SubmenuTest` | scripts/config/menu.c:442-467 | passing means depending outright or mentioning the symbol and being no wider than its prompt; failing means not mentioning it, or not depending outright and, where no constant is left, being no conjunction with all operands of the prompt |
| `Menu.PlacedMeans` | scripts/config/menu.c:413-467 | an entry of an automatic submenu is shown only where the symbol above it is above n or its prompt is shown |
| `Menu.Menus.Flatten` | scripts/config/menu.c:485-564 | entries in the list of a choice are marked as values, and children of nodes without prompt text move up right behind them |
| `Menu.Menus.Splice` | scripts/config/menu.c:554-563 | one such move |
| `Menu.Menus.AddMinimum` | scripts/config/menu.c:587-591 | a choice that is not optional is at least m while its prompt is shown, and no more than that is added; nothing else changes |
| `Menu.MinimumLifts` | scripts/config/menu.c:587-591 | the reverse dependency is raised by no more than m under the condition of the prompt |
| `DependencySafety.DependencySafe` | scripts/config/symbol.c:353-388 | a symbol all of whose conditions lie under its direct dependency is above n only if that is, whatever selects or implies it |
| `DependencySafety.FinalisedIsSafe` | scripts/config/menu.c:483 | after menu_finalize, in every evaluated configuration, a symbol defined at one place is above n only if the dependency of its menu node is |
| `DependencySafety.FinalisedSelects` | scripts/config/symbol.c:376-388 | after menu_finalize, in every evaluated configuration, a selected symbol is at least the selecting symbol under the condition, unless its own dependency is n |
| `DependencySafety.FinalisedUnraised` | scripts/config/menu.c:391-394 | after menu_finalize, a symbol whose selects are all n under their conditions has reverse dependency n in every solution, if it is optional or none of its prompts is shown |
| `DependencySafety.FinalisedAtMost` | scripts/config/menu.c:285-592 | after menu_finalize a reverse or implied dependency is worth no more than the highest of what selects or implies the symbol, each under its condition, and of m under the condition of a prompt; a direct one no more than the dependencies of its nodes |
| `DependencySafety.FinalisedDir` | scripts/config/menu.c:483 | a symbol defined at several places depends on the highest of their dependencies |
| `DependencySafety.FinalisedUnimplied` | scripts/config/menu.c:396-399 | a symbol whose implies are all n is not implied |
| `DependencySafety.FinalisedHidden` | scripts/config/menu.c:587-591 | a choice that is not shown and that nothing selects is n, and so are its values |
| `FinalisedChecks.FinalisedNotBare` | scripts/config/menu.c:323-399 | after menu_finalize, who mentions a closed choice is a value of it or leads to one |
| `FinalisedChecks.FinalisedIsCovered` | scripts/config/parser.y:506-510 | if all choices are closed, what menu_finalize leaves is covered, so that the check is exact on it |
| `FinalisedChecks.CheckFinalised` | scripts/config/parser.y:506-512 | on finalised symbols, all choices closed, the check reports exactly the cycles; without one every sequence of evaluations yields the values of the one solution |
| `FinalisedChecks.FinalisedIsGuarded` | scripts/config/menu.c:317-323 | the prompts of the values of a closed choice are n whenever the choice is |
| `ConfWrite.EmitOnce` | scripts/config/confdata.c:970-981 | every symbol to be written is printed exactly once, and no other |
| `ConfWrite.EmitBrackets` | scripts/config/confdata.c:961-994 | headings of menus and their end lines nest |
| `ConfWrite.EmitExpected` | scripts/config/confdata.c:958-1003 | headings and symbols come in the order of the menu tree, each symbol at its first writable place, and a blank line stands exactly between the end of a menu and a symbol that follows it |
| `ConfWrite.HeadingsExpected` | scripts/config/confdata.c:961-969 | the headings are those of the visible nodes without a symbol |
| `ConfWrite.EmitFromStart` | scripts/config/confdata.c:958-1003 | all of this for the whole file |
| `ConfWrite.Writer.Write` | scripts/config/confdata.c:958-1007 | the walk without a stack ends, visits every node exactly once in preorder, writes what the recursive reading writes, and clears the SYMBOL_WRITTEN flags |
| `ConfWrite.Writer.ConfWrite` | scripts/config/confdata.c:958-1007 | and so prints each writable symbol once, in order, with the headings of visible nodes, matching brackets and blank lines where they belong |
| `ConfWrite.Writer.Step` | scripts/config/confdata.c:959-987 | one node keeps what is still to be written |
| `ConfWrite.Writer.Climb` | scripts/config/confdata.c:989-1002 | going up keeps it too, and visits nothing twice |
| `ConfWrite.Writer.EnterNode` | scripts/config/confdata.c:960-981 | what is printed when a node is entered |
| `ConfWrite.Writer.LeaveNode` | scripts/config/confdata.c:989-994 | what is printed when a node is left |
| `Preprocess.Preprocessor.ExpandString` | scripts/config/preprocess.c:498-540 | the scanning loop gives the recursive expansion, and every normal return leaves all exp_count values as they were |
| `Preprocess.Preprocessor.ExpandDollar` | scripts/config/preprocess.c:456-491 | the reference up to its closing parenthesis, or the error that there is none |
| `Preprocess.Preprocessor.FindClose` | scripts/config/preprocess.c:472-482 | the first parenthesis that closes the reference |
| `Preprocess.Preprocessor.EvalClause` | scripts/config/preprocess.c:346-442 | the k-th argument of the enclosing call for the number k written in digits, if there are that many; otherwise name and arguments expanded and called |
| `Preprocess.Preprocessor.SplitClause` | scripts/config/preprocess.c:368-402 | the cuts are exactly the commas outside parentheses |
| `Preprocess.Preprocessor.ExpandAll` | scripts/config/preprocess.c:410-414 | the parts expanded in turn |
| `Preprocess.Preprocessor.CallName` | scripts/config/preprocess.c:416-433 | variable, function, environment, in that order; exp_count bounds the depth and is restored |
| `Preprocess.Preprocessor.VariableAdd` | scripts/config/preprocess.c:279-322 | the three assignments |
| `Macros.EnteringSpends` | scripts/config/preprocess.c:260-274 | each expansion of a recursive variable spends from the sum of 1001 - exp_count, so expansion ends |
| `MacroLaws.ExpandLessBusy` | scripts/config/preprocess.c:251-277 | what expands without error expands to the same with fewer expansions under way |
| `MacroLaws.CallLessBusy` | scripts/config/preprocess.c:251-277 | the same for a call |
| `MacroLaws.RingFails` | scripts/config/preprocess.c:260-265 | variables that refer to each other in a ring end in the error that one of them refers to itself |
| `MacroLaws.ExpandConcat` | scripts/config/preprocess.c:498-540 | a text whose references are closed expands independently of what follows |
| `MacroLaws.ExpandPlain` | scripts/config/preprocess.c:498-540 | text without a dollar sign stands for itself |
| `MacroLaws.AssignKeeps` | scripts/config/preprocess.c:279-322 | an assignment gives the named variable its text, on top of the old one for `+=`, and its flavour, and changes no other |
| `MacroLaws.AssignedCall` | scripts/config/preprocess.c:305-321 | what is assigned with `:=` is expanded once, at the assignment, and what is assigned with `=` at each use |
| `MacroCalls.ArgumentNamed` | scripts/config/preprocess.c:357-366 | `$(k)` is the k-th argument of the enclosing call, counted from 1; with fewer arguments, and for 0, it is an ordinary call by that name |
| `MacroCalls.PartsOfList` | scripts/config/preprocess.c:384-402 | a clause is cut at its commas outside parentheses and nowhere else |
| `MacroCalls.ReferenceIs` | scripts/config/preprocess.c:466-491 | a reference ends at the parenthesis that closes it |
| `MacroCalls.ClauseOfCall` | scripts/config/preprocess.c:384-419 | a clause calls what its first part expands to with what the others expand to, up to fifteen arguments; more are an error |
| `MacroCalls.UserFunction` | scripts/config/preprocess.c:250-277 | a call of a user-defined function is its text with the arguments in place of their numbers |
| `MacroCalls.UserCall` | scripts/config/preprocess.c:346-442 | the same for the call as written, with arguments that are expanded first |
| `MacroCalls.TokenStops` | scripts/config/preprocess.c:562-578 | a token is read up to the first character that ends one |
| `MacroCalls.EndlessCall` | scripts/config/preprocess.c:264-265 | a function whose text is a call of itself ends in the depth error |
| `MacroCalls.Builtins` | scripts/config/preprocess.c:112-221 | the built-in functions, where no variable hides them, with their numbers of arguments |
| `MacroCalls.FromEnvironment` | scripts/config/preprocess.c:421-433 | any other name is the environment variable if it has no arguments, and otherwise nothing |
| `MacroLaws.ImmediateSelf` | scripts/config/preprocess.c:296-311 | an immediate assignment in terms of the variable itself reads a value that is not there |
| `ConfLines.UnescapeEscaped` | scripts/config/confdata.c:256-268 | unescaping undoes escaping for every string, whatever follows the closing quote |
| `ConfLines.PrintIsLine` | scripts/config/confdata.c:693-719 | a printed symbol is one line |
| `ConfLines.ReadPrinted` | scripts/config/confdata.c:438-535 | a printed line read back gives its symbol its value and changes nothing else but its choice |
| `ConfLines.ReadBack` | scripts/config/confdata.c:438-535 | reading what was printed for any list of symbols gives each its value back, leaves all others that are no choices alone, and gives every choice as pick the last of its values printed y, as mode the highest printed, and keeps its user flag unless an m came after a y |
| `ConfLines.WriteThenRead` | scripts/config/confdata.c:344-367 | after a reset exactly the written symbols have a user value, namely the one written, and every choice has the pick, mode and flag its written values stand for |
| `ConfReader.EscapedSize` | scripts/config/confdata.c:655-666 | the computed length is that of the escaped string and its terminator |
| `ConfReader.EscapeString` | scripts/config/confdata.c:649-689 | the buffer of that length is filled exactly |
| `ConfReader.EscapeNext` | scripts/config/confdata.c:674-684 | one round of the copying loop |
| `ConfReader.UnescapeInPlace` | scripts/config/confdata.c:256-268 | closing up in place leaves the unescaped text and touches nothing before it; it fails exactly without a closing quote |
| `ConfReader.CloseUp` | scripts/config/confdata.c:263 | moving the rest of the text down by one |
| `ConfReader.Unescape` | scripts/config/confdata.c:256-268 | the loop computes the recursive reading |
| `ConfReader.Reader.SetSymVal` | scripts/config/confdata.c:226-287 | the new user value by type, or a refusal that changes nothing |
| `ConfReader.Reader.SetBoolean` | scripts/config/confdata.c:238-252 | y and n; anything else is refused |
| `ConfReader.Reader.UpdateChoice` | scripts/config/confdata.c:516-534 | a value that is y becomes the pick of its choice, the mode becomes the higher of both, and the user flag goes if the value is m and the choice was y |
| `ConfReader.Reader.ReadOne` | scripts/config/confdata.c:441-535 | one line |
| `ConfReader.Reader.ReadSimple` | scripts/config/confdata.c:436-535 | the whole file, after a reset |
| `ShaRounds.SlotsTurn` | scripts/mkhash.c:495-501 | the places (64-i)%8 and so on, one step later, are the eight variables moved on by one |
| `ShaRounds.Rnd` | scripts/mkhash.c:489-493 | the three assignments |
| `ShaRounds.Rndr` | scripts/mkhash.c:495-501 | one rotated round is one round of section 6.2.2 of FIPS 180-4 |
| `ShaRounds.SixteenRounds` | scripts/mkhash.c:514-530 | sixteen of them |
| `ShaRounds.SixteenWords` | scripts/mkhash.c:503-505 | the schedule written in place is that of section 6.2.2 |
| `ShaRounds.Transform` | scripts/mkhash.c:459-563 | the transform is the compression of section 6.2.2 |
| `ShaRounds.CompressAgree` | scripts/mkhash.c:449-452 | operations that agree give the same compression |
| `Sha256.CodeAgrees` | scripts/mkhash.c:450-452 | the rewritten Ch and Maj and the rotations are those of section 4.1.2 |
| `Sha256.Be32DecIsWord` | scripts/mkhash.c:127-133 | decoding is most significant byte first |
| `Sha256.DecodeBlock` | scripts/mkhash.c:437-444 | the sixteen words of a block |
| `Sha256.Context.constructor` | scripts/mkhash.c:602-618 | the start state, nothing added yet |
| `Sha256.Context.Update` | scripts/mkhash.c:621-658 | adding bytes: state, count and buffer stand for the longer message, for any lengths |
| `Sha256.Context.CompleteBlocks` | scripts/mkhash.c:649-654 | the loop over whole blocks |
| `Sha256.Context.Pad` | scripts/mkhash.c:573-599 | the state is that of the message padded as in section 5.1.1 |
| `Sha256.Context.Final` | scripts/mkhash.c:664-675 | the digest of the whole message; the context is cleared |
| `Sha256.Be64IsLength` | scripts/mkhash.c:109-115 | the two 32-bit halves are the 64-bit length, most significant byte first |
| `Sha256.HashChunks` | scripts/mkhash.c:715-728 | for every way of cutting a message into chunks, the SHA-256 of the message |
| `Sha256Example.AbcDigest` | scripts/mkhash.c:459-563 | the digest of the text abc is the one that FIPS 180-2, appendix B.1, gives, which fixes constants, functions and padding |
| `Md5Rounds.OrderAgrees` | scripts/mkhash.c:212-281 | the words the STEP lines use are those of section 3.4 of RFC 1321 |
| `Md5Rounds.Step` | scripts/mkhash.c:160-163 | one STEP line is one operation of section 3.4 |
| `Md5Rounds.FourSteps` | scripts/mkhash.c:212-281 | four lines, overwriting a, d, c and b in turn |
| `Md5Rounds.Body` | scripts/mkhash.c:189-297 | one block is the sixty-four operations and the final additions |
| `Md5.FunAgrees` | scripts/mkhash.c:151-155 | the rewritten F and G, H, its regrouped form and I equal those of section 3.4 |
| `Md5.DecodeBlock` | scripts/mkhash.c:165-187 | the words of a block, least significant byte first |
| `Md5.CountCarries` | scripts/mkhash.c:316-319 | hi * 2^29 + lo is the byte count mod 2^61 after every chunk, of any size |
| `Md5.LengthSplit` | scripts/mkhash.c:366-374 | the eight bytes stored are the bit count mod 2^64, low byte first |
| `Md5.Context.constructor` | scripts/mkhash.c:299-308 | the start state |
| `Md5.Context.Hash` | scripts/mkhash.c:310-343 | adding a chunk: registers, counters and buffer stand for the longer message |
| `Md5.Context.BodyBlocks` | scripts/mkhash.c:189-297 | several blocks in one call |
| `Md5.Context.PadTo56` | scripts/mkhash.c:351-364 | padding to 56 mod 64 as in section 3.1, with one more block if the length does not fit |
| `Md5.Context.End` | scripts/mkhash.c:345-396 | the digest of the whole message; the context is cleared |
| `Md5.HashChunks` | scripts/mkhash.c:700-713 | for every way of cutting a message into chunks, the MD5 of the message |
| `Md5Example.AbcDigest` | scripts/mkhash.c:189-297 | the digest of the text abc is the one that RFC 1321, appendix A.5, gives |
| `Streams.Refilled` | scripts/mkhash.c:643-657 | filling up the buffer, then whole blocks, then a rest, consumes exactly the chunk |
| `Streams.PaddedOne` | scripts/mkhash.c:582-584 | with room for the length the padding stays in the last block |
| `Streams.PaddedTwo` | scripts/mkhash.c:585-592 | otherwise it takes one more |
| `Cameo.UpdateOwn` | scripts/cameo-tag.py:79-80 | feeding the CRC register its own low byte shifts that byte out |
| `Cameo.Emptied` | scripts/cameo-tag.py:79-80 | feeding it its own four bytes empties it |
| `Cameo.InvertedCrc` | scripts/cameo-tag.py:83-84 | data followed by its inverted CRC-32, low byte first, has CRC-32 0xffffffff |
| `Cameo.CheckValue` | scripts/cameo-tag.py:79-80 | the CRC-32 of the text 123456789 is 0xcbf43926 |
| `Cameo.SumAppend` | scripts/cameo-tag.py:76-77 | the byte sum of two texts one after the other is the sum of both |
| `Cameo.CameoSumReads` | scripts/cameo-tag.py:76-77 | the four bytes are the digits of the sum of all bytes mod 2^32, most significant first |
| `Cameo.ChecksumHeader` | scripts/cameo-tag.py:82-94 | for every 64-byte header both checks hold at once afterwards, and the bytes outside the fields are kept |
| `Cameo.Together` | scripts/cameo-tag.py:88-93 | the order of the six slice assignments makes each checksum cover the other's bytes |
| `PadJffs2.RoundsUp` | tools/padjffs2/src/padjffs2.c:45 | aligning finds the first multiple at or after the position |
| `PadJffs2.FirstUnique` | tools/padjffs2/src/padjffs2.c:45 | there is one such multiple |
| `PadJffs2.AlignExact` | tools/padjffs2/src/padjffs2.c:45 | with the 32-bit mask ALIGN finds that multiple if and only if it is below 2^32 |
| `PadJffs2.AlignWraps` | tools/padjffs2/src/padjffs2.c:45 | an input where it gives 0 |
| `PadJffs2.LowestBit` | tools/padjffs2/src/padjffs2.c:87-91 | the smallest size still asked for |
| `PadJffs2.DropBits` | tools/padjffs2/src/padjffs2.c:95-99 | every size that the position is a multiple of is done, at least one |
| `PadJffs2.Filler` | tools/padjffs2/src/padjffs2.c:103-117 | 0xff bytes up to the boundary if that is still ahead, a buffer at a time |
| `PadJffs2.NextBoundary` | tools/padjffs2/src/padjffs2.c:93 | the next boundary is past everything written, and no size still asked for was skipped |
| `PadJffs2.PadImage` | tools/padjffs2/src/padjffs2.c:79-126 | the loop ends for every image and mask, and writes what the rounds one after the other say; where all boundaries lie below 2^32, for each requested size the marker starts exactly at the first multiple at or after image length plus offset |
| `PadJffs2.CutEnds` | tools/padjffs2/src/padjffs2.c:93-101 | once the lowest size left has its boundary at 2^32, all sizes count as done, no filler is written, and the marker goes where the output stands |
| `PadJffs2.AlignMultiple` | tools/padjffs2/src/padjffs2.c:45 | also where it is cut the result is a multiple, so each round does away with a size |

## Left out

- Engine.Evaluator.CalcValues: bool and tristate symbols; string, int and hex symbols, their ranges and sym_get_range_prop are not evaluated, and comparisons read their texts as given.
- Engine.Evaluator.ClearAllValid: texts of tristate symbols that are m, read in comparisons while MODULES itself is being evaluated, are those under the old modules_val, where the source reads an unfinished MODULES.
- Engine.Evaluator.SetAndCalc: where modules_val changes and the symbol has not been evaluated before, nothing is said of its value; Engine.Afresh says when evaluation goes on as in a fresh epoch.
- The SYMBOL_WRITE flag of choice values: it is set by their choice, from visibilities of that moment, and no claim is made about it.
- FinalisedChecks.FinalisedIsCovered: for choices without a name whose entries stand in no other choice, and ifs inside them that mention entries only in ways that matter to their value; the converse, which other menu trees give covered graphs, is not stated.
- Dups.JoinAndMeaning: assumes that no constant of the expression is a numeral equal to 0, 1 or 2; Dups.JoinEqNeExact is the exact condition for the join that needs it.
- MenuDeps.TransCompareMeaning: comparisons with n, the only ones menu_finalize makes; a quoted word or string symbol as an operand is excluded.
- Menu.Menus.FinalizeRoot: for choice values the dependency is at most, not exactly, what was handed down, as they are narrowed afterwards; what a choice value selects is bounded by its value alone, for the same reason, and reverse dependencies of choice values, which evaluation never reads, are not bounded; which entries came into submenus is stated call by call (AutoSubmenu).
- Menu.Menus.Finalize: only menus, ifs and choices are parsed with entries inside them, and choices hold no choices, as the grammar has it.
- DependencySafety.FinalisedIsSafe: for config symbols defined at one place; menu.c:483 drops a missing dependency when it is joined with another place's.
- PrintParse.PrintThenParse: on tokens; a quoted constant is printed without its quotes, and an unnamed choice as `<choice>`, so the token stands for the symbol only when it has a name.
- ConfReader.UnescapeInPlace: characters after the closing quote stay in the buffer behind the terminator and are not described.
- PadJffs2.PadImage: mask bits 10 to 31; file access and write errors are not modelled.
- Cameo.ChecksumHeader: the header alone; the second tag at the end of the image and the file access around it are not part of this model.
- expr_eliminate_eq and expr_eq in place: modelled as functions on two separate trees, without their cells and trans_count.
- expr_eliminate_dups: the slots of the shared tree are modelled, the individual cells and their release are not; expr_free of whole subtrees is not modelled anywhere.
- SYMBOL_NO_WRITE, SYMBOL_CHANGED and MENU_CHANGED: display and output flags without influence on the values.
- SYMBOL_NEED_SET_CHOICE_VALUES: set by conf for randconfig and its kind; symbol.c:314-319 and 442-443 then give the values of a choice user settings (set_all_choice_values), which the model takes as given.
- menu_set_type: type inference for choices and their values; types are given.
- Warnings, sym_check_print_recursive and sym_check_prop: messages only.
- The P_CHOICE property: kept as a list of values of each choice.
- Environment lookup and built-in functions of preprocess.c: parameters of the expansion; env_list for dependency files is not modelled.
- conf_read after the lines are read, conf_write_defconfig, autoconf output and renaming of files: file handling and simple loops.
- NUL bytes inside a .config file, and the texts of numerals beyond what the numeral reader parameter says.
- The LALR tables as tables: the parser's decisions are modelled by the precedence the grammar declares.
- The unrolled STEP and RNDr lines: written as groups of four and sixteen in order.
- hash_string, reading files and the command line of mkhash: I/O and hexadecimal printing.
- mconf, nconf, qconf, conf and lxdialog: user interfaces.
