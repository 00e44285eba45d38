# Three-address-code generator of a small compiler, modelled in Dafny

`semantica.c` is the semantic back end of a teaching compiler. The parser's
actions call it to produce numbered three-address code (TAC). It keeps all
of its state in file-level variables:

- the instruction store `instrucciones[10000]`, filled from index 1, with
  the next free index `sig_instruccion`;
- the temporary counter, which names temporaries `$t01`, `$t02`, …;
- a switch-variable stack of depth 10;
- a stack of break lists of depth 20, one list per enclosing loop;
- a recording mode, in which emitted lines go into a 4096-byte text buffer
  instead of the store, so that a loop body can be replayed (loop
  unrolling).

Incomplete jumps are completed later by backpatching. A jump list holds
the indices of incomplete jumps. Backpatching a list to a label appends
`" <label>"` to the text of each instruction it names.

The model has two layers.

- **Values.** The generator's whole state is the datatype `Emission.Gen`.
  Every `sem_*` action is a function from the state before the call to the
  state after it, in the same order of temporary allocations and
  emissions as the C code:
  - `Emission` holds the store, emission and the listing;
  - `JumpLists` holds the lists and backpatching;
  - `Codegen` holds the expression, comparison, stack and recording
    actions;
  - `Symbols` holds types, symbols and attributes;
  - `Strings` holds `%d`, `$t%02d` and the `strtok` line splitting.

  `CodegenFacts` proves what these actions guarantee.
- **The session.** `Semantica.Session` is the same generator as the source
  keeps it: fixed-size arrays for the store and the two stacks, counters,
  the flag and the buffer, all updated in place by methods with loops
  where the C has them (backpatching, block replay, the final listing).
  Each method is proved to move the abstract state `Abs()` exactly as the
  matching `Emission` or `Codegen` function does. So everything proved about the
  functions holds for the session.

Lists are sequences of indices. A slot that was never filled is `None`.
The process exit when the store is full becomes the precondition
`Room(g, k)`: the call's `k` emissions still fit, or the generator is
recording.

One consequence of the source is worth knowing. While recording, `sem_emitir` returns
0, so a comparison made inside a recorded loop body gets true and false
lists `[0]`. Slot 0 never holds an instruction, so backpatching those
lists changes nothing (`CodegenFacts.RelationalWhileRecording`). The
recorded `IF … GOTO` and `GOTO` lines are replayed without a target.

## Model

| member | source | states |
|---|---|---|
| Semantica.Session.constructor | semantica.c:11-25 | the session starts in the initial state: empty store, next index 1, temporary counter 1, not recording, empty stacks and buffer |
| Semantica.Session.GenerarEtiqueta | semantica.c:29-31 | returns the index the next emitted instruction will get, changing nothing |
| Emission.Label | semantica.c:29-31 | no contract of its own: the next index; `CodegenFacts.EmitStores` shows the next emission lands there |
| Semantica.Session.Emitir | semantica.c:32-68 | updates the array and counters exactly as `Emission.Emit`, keeping the state invariant (slots 1..next-1 filled, all others empty) |
| Emission.Emit | semantica.c:32-68 | keeps the invariant; only the store, next index and buffer can change; next advances by one outside recording and stays put while recording |
| CodegenFacts.EmitStores | semantica.c:55-67 | outside recording the text goes to the announced index, which was empty; that index is returned and next becomes index+1; no other slot and not the buffer changes |
| CodegenFacts.EmitRecords | semantica.c:36-52 | while recording the store and next index are untouched and 0 is returned; text and newline are appended only if `len(buffer)+len(text)+2 < 4096` |
| Emission.EmitSeq | semantica.c:32-68 | several emissions in turn keep the invariant and advance next by their count (outside recording) or leave the store alone (recording) |
| Emission.Initial | semantica.c:11-25 | the initial state is valid: every slot empty, next index 1, temporary counter 1, not recording, empty buffer and stacks |
| CodegenFacts.EmitSeqPlaces | semantica.c:55-67 | emissions in turn land in consecutive fresh slots in order; all other slots unchanged |
| CodegenFacts.EmitSeqRecords | semantica.c:36-52 | recorded emissions that fit append exactly their newline-ended lines to the buffer, nothing else changes |
| Semantica.Session.FinalizarSalida | semantica.c:70-78 | the output lines are `"%d: %s\n"` for every filled slot from 1 upwards: exactly next-1 lines, line k for instruction k+1 |
| Emission.ListingComplete | semantica.c:70-78 | in a valid state the listing of slots 1..hi-1 has hi-1 lines, one per instruction in index order |
| Emission.Listing | semantica.c:70-78 | no contract of its own: the `"%d: %s\n"` lines of the filled slots of a range in index order; `Emission.ListingComplete` states their count and order |
| JumpLists.MakeList | semantica.c:82-87 | the new list holds exactly the one given index |
| JumpLists.Merge | semantica.c:89-99 | the merged list is `l1` followed by `l2` (so either one alone when the other is empty), as a multiset the union of both |
| Semantica.Session.Backpatch | semantica.c:101-116 | the loop over the list rewrites the array exactly as `JumpLists.Backpatch`; invariant kept |
| JumpLists.Backpatch | semantica.c:101-116 | the store keeps its length and which slots are filled |
| Emission.BackpatchGen | semantica.c:101-116 | backpatching the state changes only the store: control state, next index and buffer are kept, and so is the invariant |
| JumpLists.PatchOne | semantica.c:104-113 | one node keeps the store's length and which slots are filled; `JumpLists.PatchOneAt` states the content |
| JumpLists.PatchOneAt | semantica.c:104-113 | one list node: the slot it names gets `" " + label` appended if it lies below next and is filled; every other slot is unchanged |
| JumpLists.BackpatchSingle | semantica.c:101-116 | backpatching a one-element list is completing that one instruction |
| JumpLists.BackpatchAt | semantica.c:101-116 | per slot: a filled slot below next gets the label appended once per occurrence of its index in the list; every other slot, and every skipped index (out of range, empty, 0), is left as it was |
| JumpLists.BackpatchSnoc | semantica.c:101-116 | the last node of a list is patched after all the ones before it |
| JumpLists.BackpatchAppend | semantica.c:101-116 | backpatching a concatenation equals backpatching the first part and then the second |
| JumpLists.BackpatchMerge | semantica.c:89-116 | backpatching a merged list equals backpatching its two parts one after the other |
| JumpLists.BackpatchMergeCommutes | semantica.c:89-116 | the order of two merged lists does not change the code backpatching produces |
| JumpLists.BackpatchSkipsAll | semantica.c:105 | a list naming no filled slot below next changes nothing |
| CodegenFacts.BackpatchTwice | semantica.c:101-116 | backpatching one instruction twice appends both labels in order, no failure |
| Semantica.Session.GenerarTemporal | semantica.c:120-124 | returns `$t%02d` of the counter and advances the counter, exactly as `Codegen.GenerarTemporal` |
| Codegen.GenerarTemporal | semantica.c:120-124 | returns the name `TempName` of the old counter, advances the counter by one and changes nothing else |
| Strings.TempNameRoundTrip | semantica.c:122 | the number of a temporary can be read back from its name |
| Strings.TempNameInjective | semantica.c:122 | two temporaries have the same name exactly when they have the same number |
| Strings.TempName | semantica.c:122 | the name starts with `$t` and is at least four characters long; `Strings.TempNameRoundTrip` reads the number back |
| Strings.TempNameNew | semantica.c:122 | the name of temporary n differs from those of all temporaries numbered below n |
| CodegenFacts.Temporales | semantica.c:120-124 | n calls of the temporary generator in a row advance only the counter, by n, and hand out n names |
| CodegenFacts.TemporalesNames | semantica.c:120-124 | the i-th of n consecutive temporaries is named `$t%02d` of the counter plus i |
| CodegenFacts.TemporalesDistinct | semantica.c:120-124 | n consecutive temporaries get n pairwise distinct names, all different from every name handed out earlier |
| Strings.IntToStringRoundTrip | semantica.c:109 | the `%d` text of a label reads back to the label |
| Strings.IntToString | semantica.c:109 | the `%d` text is non-empty and starts with a minus sign exactly for a negative number; `Strings.IntToStringRoundTrip` reads it back |
| Strings.ParseNatToString | semantica.c:74 | the `%d` text of a natural number reads back to it |
| Symbols.CrearAtribs | semantica.c:127-135 | the attributes hold the symbol and have empty true, false and next lists |
| Symbols.CrearLiteral | semantica.c:137-143 | a literal symbol with the given name and type, no pending jumps |
| Semantica.Session.CrearTemporal | semantica.c:146-153 | the new state and the returned value are those of `Codegen.CrearTemporal`: the counter advances and the value is the temporary named after the old counter, unlike every earlier temporary, of the given type, with no pending jumps |
| Codegen.CrearTemporal | semantica.c:146-153 | only the temporary counter advances; the value holds the symbol `TempName(counter)` of the given type, whose name differs from every temporary handed out before, and empty true, false and next lists |
| Symbols.ObtenerSimbolo | semantica.c:155-168 | a declared name yields a copy of its entry and no diagnostic; an undeclared one yields `err` of type Error and the diagnostic `Variable no declarada: <name>`; in both cases the true, false and next lists are empty |
| Semantica.Session.OperarBinario | semantica.c:188-212 | the session evolves exactly as `Codegen.OperarBinario` |
| Codegen.OperarBinario | semantica.c:188-212 | allocates 1 + (number of casts) temporaries and emits as many instructions outside recording |
| Codegen.CastOperand | semantica.c:198-207 | an integer operand costs one temporary and, outside recording, one emitted instruction; any other operand costs nothing; the control state is kept |
| CodegenFacts.OperarBinarioEmits | semantica.c:188-212 | result type REAL exactly when an operand is REAL, held by the temporary numbered by the counter; for REAL, one I2F cast per integer operand into the next temporaries, then `tmp := a op_float b` over the cast names; otherwise `tmp := a op_int b`; 1 or 2 consecutive slots (a REAL operation has a REAL operand, so at most one cast); no other slot and not the buffer change |
| CodegenFacts.OperarBinarioFresh | semantica.c:189-207 | in either mode the result is named `TempName(counter)` and the casts take the numbers after it; the result name differs from every earlier temporary and from each cast name, and each cast name differs from every earlier temporary |
| Semantica.Session.Asignar | semantica.c:214-216 | as `Codegen.Asignar` |
| Codegen.Asignar | semantica.c:214-216 | only keeps the invariant and the control state and advances next by one outside recording; `CodegenFacts.AsignarEmits` states the instruction |
| CodegenFacts.AsignarEmits | semantica.c:214-216 | exactly one instruction `destino := valor` at the next index; the buffer is unchanged |
| Semantica.Session.AsignarArray | semantica.c:218-222 | as `Codegen.AsignarArray` |
| Codegen.AsignarArray | semantica.c:218-222 | only keeps the invariant, allocates one temporary and advances next by two outside recording; `CodegenFacts.AsignarArrayEmits` states the instructions |
| CodegenFacts.AsignarArrayEmits | semantica.c:218-222 | a fresh temporary gets `index MULI 4`, then `a[tmp] := valor`; exactly these two slots change, the buffer does not |
| Semantica.Session.AccederArray | semantica.c:224-230 | as `Codegen.AccederArray` |
| Codegen.AccederArray | semantica.c:224-230 | only keeps the invariant, allocates two temporaries and advances next by two outside recording; `CodegenFacts.AccederArrayEmits` states the instructions and the result |
| CodegenFacts.AccederArrayEmits | semantica.c:224-230 | the offset goes into one fresh temporary and the load into a second, distinct one, which is the INTEGER result; exactly two slots change, the buffer does not |
| Semantica.Session.ImprimirExpresion | semantica.c:232-236 | as `Codegen.ImprimirExpresion` |
| Codegen.ImprimirExpresion | semantica.c:232-236 | only keeps the invariant and the control state and advances next by two outside recording; `CodegenFacts.ImprimirExpresionEmits` states the instructions |
| CodegenFacts.ImprimirExpresionEmits | semantica.c:232-236 | `PARAM name`, then `CALL PUTF, 1` exactly when the value is REAL and `CALL PUTI, 1` otherwise; no other slot and not the buffer change |
| Semantica.Session.CerrarRepeat | semantica.c:238-242 | as `Codegen.CerrarRepeat` |
| Codegen.CerrarRepeat | semantica.c:238-242 | only keeps the invariant and the control state and advances next by two outside recording; `CodegenFacts.CerrarRepeatEmits` states the instructions |
| CodegenFacts.CerrarRepeatEmits | semantica.c:238-242 | the counter increment, then the complete jump `IF c LTI tope GOTO <start>`; no other slot and not the buffer change |
| Semantica.Session.OperarRelacional | semantica.c:246-278 | as `Codegen.OperarRelacional` |
| Codegen.OperarRelacional | semantica.c:246-278 | only keeps the invariant and the control state and advances next by two outside recording; `CodegenFacts.OperarRelacionalEmits` states the instructions and the lists |
| CodegenFacts.OperarRelacionalEmits | semantica.c:246-278 | outside recording: `IF a opX b GOTO` at k and `GOTO` at k+1, result with no symbol, true list [k], false list [k+1], empty next list; suffix F exactly when an operand is REAL, else I; no cast, no temporary; no other slot and not the buffer change |
| CodegenFacts.RelationalThenBackpatch | semantica.c:246-278 | comparing integers x, y with LT and backpatching the lists to 10 and 11 gives `IF x LTI y GOTO 10` and `GOTO 11` |
| CodegenFacts.RelationalWhileRecording | semantica.c:246-278 | while recording the lists are [0] and [0], and backpatching them changes nothing |
| Semantica.Session.PushSwitch | semantica.c:282-286 | as `Codegen.PushSwitch` |
| Codegen.PushSwitch | semantica.c:282-286 | only the switch stack changes; it grows by one below depth 10 and stays at 10 at the bound |
| Semantica.Session.PopSwitch | semantica.c:288-292 | as `Codegen.PopSwitch` |
| Codegen.PopSwitch | semantica.c:288-292 | only the switch stack changes; it loses its top name (stays empty when empty) and keeps the rest in order |
| Semantica.Session.GetSwitchVar | semantica.c:294-297 | returns `Codegen.GetSwitchVar` of the state, changing nothing |
| Codegen.GetSwitchVar | semantica.c:294-297 | no contract of its own: the top name, or `err` on an empty stack; `CodegenFacts.SwitchStackLifo` states both cases |
| CodegenFacts.SwitchStackLifo | semantica.c:282-297 | below depth 10 a pushed name is the current one and popping restores the stack; at depth 10 a push is ignored; on an empty stack the current name is `err` and a pop does nothing |
| CodegenFacts.NestedSwitches | semantica.c:282-297 | after an inner switch closes, the outer variable is current again |
| Semantica.Session.InitBreakLayer | semantica.c:301-306 | as `Codegen.InitBreakLayer`: an empty list pushed below depth 20, nothing at depth 20 (`CodegenFacts.BreakLayerBound`) |
| Codegen.InitBreakLayer | semantica.c:301-306 | only the break stack changes; it grows by one below depth 20 and stays at 20 at the bound |
| CodegenFacts.BreakLayerBound | semantica.c:301-314 | below depth 20, opening then closing an empty layer restores the state; at depth 20 the opening is ignored, so the following close pops and backpatches the enclosing layer instead |
| Semantica.Session.CloseBreakLayer | semantica.c:308-314 | as `Codegen.CloseBreakLayer`, popping and then running the backpatch loop on the popped list |
| Codegen.CloseBreakLayer | semantica.c:308-314 | only the store and the break stack change; the stack loses its top list (stays empty when empty) and keeps the rest in order |
| Semantica.Session.AddBreak | semantica.c:316-324 | as `Codegen.AddBreak` |
| Codegen.AddBreak | semantica.c:316-324 | keeps the invariant, the depth of the break stack, the temporary counter, the switch stack and the mode; with no layer open nothing changes; otherwise the state is that of emitting `GOTO`, and the index that emission returns is appended to the top list alone |
| CodegenFacts.AddBreakWhileRecording | semantica.c:316-324 | while recording, a break leaves the store and next index alone, appends `GOTO` and a newline to the buffer when they fit, and adds index 0 to the top list only |
| CodegenFacts.AddBreakTopOnly | semantica.c:316-324 | one `GOTO` at the next index, its index appended to the top list only; a no-op on an empty stack |
| CodegenFacts.CloseBreakLayerTopOnly | semantica.c:308-314 | pops the top list and backpatches exactly that list; a no-op on an empty stack |
| CodegenFacts.CloseSingleBreak | semantica.c:308-314 | closing a layer with one break completes it as `GOTO <label>` and leaves every other slot alone |
| CodegenFacts.InitThenAdd | semantica.c:301-324 | a new layer with one break: a `GOTO` at the next index, and the layer list is exactly that index |
| CodegenFacts.AddToTop | semantica.c:316-324 | a break on a non-empty stack appends its index to the innermost list and leaves the outer lists as they were |
| CodegenFacts.OneLayerTwoBreaks | semantica.c:301-324 | open a layer and break twice: `GOTO` at k and k+1, one new list [k, k+1] on top of the old stack |
| CodegenFacts.CloseTwoBreaks | semantica.c:308-314 | closing a layer holding [k, k+1] completes both as `GOTO <label>`, restores the outer stack and leaves every other slot alone |
| CodegenFacts.TwoBreaksResolved | semantica.c:301-324 | open a layer, break twice, close on L: both jumps become `GOTO L`, the stack is as before, no other slot changes |
| CodegenFacts.TwoNestedBreaks | semantica.c:301-324 | two nested layers with one break each: `GOTO` at k and k+1, lists [k] and [k+1] on top of the old stack |
| CodegenFacts.NestedInnerClose | semantica.c:301-324 | closing the inner layer completes only the inner break; the outer one stays incomplete and its layer open |
| CodegenFacts.NestedBreaksStayApart | semantica.c:301-324 | closing the outer layer then completes only the outer break and restores the stack: inner breaks never reach an outer layer |
| Semantica.Session.StartRecord | semantica.c:328-331 | as `Codegen.StartRecord` |
| Codegen.StartRecord | semantica.c:328-331 | recording on and the buffer empty; nothing else changes |
| Semantica.Session.StopRecord | semantica.c:333-336 | as `Codegen.StopRecord`: recording off, a copy of the buffer returned |
| Codegen.StopRecord | semantica.c:333-336 | recording off and the returned block is the buffer; nothing else changes |
| Semantica.Session.EmitirBloque | semantica.c:339-349 | the `strtok` loop emits the block's non-empty lines in order, as `Codegen.EmitirBloque`; a NULL block does nothing |
| Codegen.EmitirBloque | semantica.c:339-349 | keeps the invariant and the control state; next advances by the block's line count outside recording; a NULL block changes nothing |
| Strings.FirstNewline | semantica.c:342-346 | the first newline of a text, or its end: no newline before it |
| Strings.Lines | semantica.c:342-346 | the tokens `strtok` yields on `"\n"`: non-empty pieces without newline |
| Strings.JoinSnoc | semantica.c:44-46 | appending one more recorded line extends the buffer by that line and a newline |
| Strings.LinesOfJoin | semantica.c:342-346 | splitting the recorded buffer gives back exactly the recorded lines |
| CodegenFacts.RecordCaptures | semantica.c:328-336 | recording lines that fit changes only the buffer, and the captured block is their newline-ended concatenation |
| CodegenFacts.BlockPlaces | semantica.c:339-349 | per slot: replaying a block puts its line i at next + i and leaves every slot outside that range as it was |
| CodegenFacts.ReplayLines | semantica.c:339-349 | replaying a block whose lines are `ts` advances next by their count and places them in order |
| CodegenFacts.RecordThenReplay | semantica.c:328-349 | replaying a captured block puts its lines, in order, at the next fresh indices, nothing else changes |
| CodegenFacts.SpanGrows | semantica.c:339-349 | the slots of replay copy c end before copy n starts when c < n |
| CodegenFacts.SpanIsProduct | semantica.c:339-349 | the slots taken by c copies of an m-line block number c·m |
| CodegenFacts.Replays | semantica.c:339-349 | n replays of a block advance the next index by n times its line count |
| CodegenFacts.ReplaysPlace | semantica.c:339-349 | after n replays, line i of copy c sits at next + Span(c, m) + i (Span(c, m) = c·m by `SpanIsProduct`): the copies take distinct consecutive ranges |

## Left out

- Output and memory: `sem_finalizar_salida` returns its lines instead of writing them to a `FILE*`. The `free` calls, `malloc` and `strdup` are not modelled.
- Truncation of instruction texts by `vsnprintf`/`snprintf` to 255 characters in the store and to 1023 while recording is not modelled. Texts are unbounded strings.
- Emission.Emit: the process exit at capacity (semantica.c:57) is modelled as the precondition `Room`, not as termination.
- Integer overflow of the counters and of `%d` is not modelled; the temporary counter is an unbounded natural.
- Emission.Emit: NUL characters inside a text would cut the C string short; the model treats text as an ordinary character sequence.
- Jump lists are sequences. The linked nodes of `sem_merge` and its walk to the tail are not modelled, nor what sharing them entails. In C, merging a list with itself links it into a cycle, and a later backpatch would not terminate.
- JumpLists.Backpatch: a negative index in a list is undefined behaviour in C (an access before the array); the model skips it.
- Codegen.OperarBinario: the cast temporary's name is written back through the operand's shared symbol pointer (semantica.c:201, 206). The model uses it locally and does not change the caller's symbol.
- Semantica.Session.OperarBinario: an operand without a symbol (a boolean expression) would dereference NULL in C; the session methods require the operands to carry a symbol.
- Emission.Emit: a recorded line that does not fit the 4096-byte buffer is dropped silently; the diagnostic the source prints to standard error (semantica.c:48) is output and is not modelled.
- Symbols.Undeclared: the source formats the diagnostic with `sprintf` into a 100-byte array (semantica.c:158-159), which overflows for names longer than 76 characters; the model returns the whole text.
- Codegen.OperarRelacional: `op_completo` holds 10 bytes in C, so an operator longer than 8 characters overflows it; the model concatenates without a bound.
- The `quad` field and the symbol's value union are not modelled; no action of this file reads them.
- `sem_declarar` and `sem_declarar_array` only call the external symbol table, which is not part of this model. `sem_obtener_simbolo` sees the table as a map, and `yyerror` as a returned diagnostic.
- `semantica.h` holds only prototypes, which are out of date with respect to the `.c`; the model follows the `.c`.
