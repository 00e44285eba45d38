/**
 * The code-generation actions of the three-address-code generator, each
 * as a function from the generator state before the call to the state
 * after it (and the action's result). Each one performs its temporary
 * allocations and emissions in the same order as the source.
 */
module Codegen {
  import opened Wrappers
  import opened Strings
  import opened JumpLists
  import opened Symbols
  import opened Emission

  /** `sem_generar_temporal`: the name `$t%02d` of the counter, which then advances. */
  function GenerarTemporal(g: Gen): (r: (Gen, string))
    requires Valid(g)
    ensures Valid(r.0) && r.0.temps == g.temps + 1 && r.1 == TempName(g.temps)
    ensures r.0.instrs == g.instrs && r.0.next == g.next && r.0.buffer == g.buffer
    ensures r.0.recording == g.recording && r.0.switches == g.switches && r.0.breaks == g.breaks
  {
    (g.(temps := g.temps + 1), TempName(g.temps))
  }

  /**
   * `sem_crear_temporal`: a fresh temporary wrapped as a value of type
   * `tipo`; its name is that of the counter, unlike every name handed out
   * before, and it carries no pending jumps.
   */
  function CrearTemporal(g: Gen, tipo: Tipo): (r: (Gen, Atribs))
    requires Valid(g)
    ensures Valid(r.0) && r.0 == g.(temps := g.temps + 1)
    ensures r.1.simb == Some(Symbol(TempName(g.temps), tipo))
    ensures r.1.truelist == [] && r.1.falselist == [] && r.1.nextlist == []
    ensures forall k :: 0 <= k < g.temps ==> r.1.simb.value.nombre != TempName(k)
  {
    TempNameNew(g.temps);
    var (g1, nombre) := GenerarTemporal(g);
    (g1, CrearLiteral(nombre, tipo))
  }

  /** A binary operation is done in real arithmetic when either operand is real. */
  predicate IsRealOp(a: Symbol, b: Symbol)
  {
    a.tipo == Real || b.tipo == Real
  }

  /** How many I2F casts `sem_operar_binario` emits: one per integer operand of a real operation. */
  function CastCount(a: Symbol, b: Symbol): (n: nat)
    ensures n <= 1
    ensures n == 1 <==> IsRealOp(a, b) && (a.tipo == Entero || b.tipo == Entero)
  {
    if IsRealOp(a, b) then (if a.tipo == Entero then 1 else 0) + (if b.tipo == Entero then 1 else 0) else 0
  }

  /** How many of `k` emissions reach the store: all of them outside recording, none while recording. */
  function Emitted(g: Gen, k: nat): nat
  {
    if g.recording then 0 else k
  }

  /**
   * The cast step of `sem_operar_binario` for one operand: an integer
   * operand is converted into a new temporary, whose name replaces the
   * operand's; any other operand keeps its name.
   */
  function CastOperand(g: Gen, s: Symbol): (r: (Gen, string))
    requires Valid(g) && Room(g, if s.tipo == Entero then 1 else 0)
    ensures Valid(r.0)
    ensures r.0.recording == g.recording && r.0.switches == g.switches && r.0.breaks == g.breaks
    ensures r.0.temps == g.temps + (if s.tipo == Entero then 1 else 0)
    ensures r.0.next == g.next + Emitted(g, if s.tipo == Entero then 1 else 0)
  {
    if s.tipo == Entero then
      var (g1, tempCast) := GenerarTemporal(g);
      (Emit(g1, tempCast + " := I2F " + s.nombre).0, tempCast)
    else
      (g, s.nombre)
  }

  /** `sem_operar_binario`. */
  function OperarBinario(g: Gen, a: Symbol, b: Symbol, opInt: string, opFloat: string): (r: (Gen, Atribs))
    requires Valid(g) && Room(g, 1 + CastCount(a, b))
    ensures Valid(r.0)
    ensures r.0.recording == g.recording && r.0.switches == g.switches && r.0.breaks == g.breaks
    ensures r.0.temps == g.temps + 1 + CastCount(a, b)
    ensures r.0.next == g.next + Emitted(g, 1 + CastCount(a, b))
  {
    var (g1, temporal) := GenerarTemporal(g);
    if IsRealOp(a, b) then
      var (g2, nombreA) := CastOperand(g1, a);
      var (g3, nombreB) := CastOperand(g2, b);
      (Emit(g3, temporal + " := " + nombreA + " " + opFloat + " " + nombreB).0, CrearLiteral(temporal, Real))
    else
      (Emit(g1, temporal + " := " + a.nombre + " " + opInt + " " + b.nombre).0, CrearLiteral(temporal, Entero))
  }

  /** `sem_asignar`. */
  function Asignar(g: Gen, destino: string, valor: Symbol): (r: Gen)
    requires Valid(g) && Room(g, 1)
    ensures Valid(r) && SameControl(g, r) && r.next == g.next + Emitted(g, 1)
  {
    Emit(g, destino + " := " + valor.nombre).0
  }

  /** The byte offset of an array element: the index times the element size 4. */
  function OffsetText(tOffset: string, indice: Symbol): string
  {
    tOffset + " := " + indice.nombre + " MULI 4"
  }

  /** `sem_asignar_array`. */
  function AsignarArray(g: Gen, nombreArray: string, indice: Symbol, valor: Symbol): (r: Gen)
    requires Valid(g) && Room(g, 2)
    ensures Valid(r) && r.temps == g.temps + 1 && r.next == g.next + Emitted(g, 2)
    ensures r.recording == g.recording && r.switches == g.switches && r.breaks == g.breaks
  {
    var (g1, tOffset) := GenerarTemporal(g);
    var g2 := Emit(g1, OffsetText(tOffset, indice)).0;
    Emit(g2, nombreArray + "[" + tOffset + "] := " + valor.nombre).0
  }

  /** `sem_acceder_array`: the loaded value is always typed integer. */
  function AccederArray(g: Gen, nombreArray: string, indice: Symbol): (r: (Gen, Atribs))
    requires Valid(g) && Room(g, 2)
    ensures Valid(r.0) && r.0.temps == g.temps + 2 && r.0.next == g.next + Emitted(g, 2)
    ensures r.0.recording == g.recording && r.0.switches == g.switches && r.0.breaks == g.breaks
  {
    var (g1, tOffset) := GenerarTemporal(g);
    var g2 := Emit(g1, OffsetText(tOffset, indice)).0;
    var (g3, tRes) := GenerarTemporal(g2);
    (Emit(g3, tRes + " := " + nombreArray + "[" + tOffset + "]").0, CrearLiteral(tRes, Entero))
  }

  /** The output call for a value of type `tipo`. */
  function PutCall(tipo: Tipo): string
  {
    if tipo == Real then "CALL PUTF, 1" else "CALL PUTI, 1"
  }

  /** `sem_imprimir_expresion`. */
  function ImprimirExpresion(g: Gen, s: Symbol): (r: Gen)
    requires Valid(g) && Room(g, 2)
    ensures Valid(r) && SameControl(g, r) && r.next == g.next + Emitted(g, 2)
  {
    var g1 := Emit(g, "PARAM " + s.nombre).0;
    Emit(g1, PutCall(s.tipo)).0
  }

  /** `sem_cerrar_repeat`: increment the counter, jump back while it is below the bound. */
  function CerrarRepeat(g: Gen, contador: Symbol, tope: Symbol, etiquetaInicio: int): (r: Gen)
    requires Valid(g) && Room(g, 2)
    ensures Valid(r) && SameControl(g, r) && r.next == g.next + Emitted(g, 2)
  {
    var g1 := Emit(g, contador.nombre + " := " + contador.nombre + " ADDI 1").0;
    Emit(g1, "IF " + contador.nombre + " LTI " + tope.nombre + " GOTO " + IntToString(etiquetaInicio)).0
  }

  /** The comparison opcode: `op` with suffix F when either operand is real, else I. */
  function OpCompleto(a: Symbol, b: Symbol, op: string): string
  {
    op + (if IsRealOp(a, b) then "F" else "I")
  }

  /** The incomplete conditional jump of a comparison. */
  function IfText(a: Symbol, b: Symbol, op: string): string
  {
    "IF " + a.nombre + " " + OpCompleto(a, b, op) + " " + b.nombre + " GOTO"
  }

  /**
   * `sem_operar_relacional`: an incomplete conditional jump, then an
   * incomplete unconditional one; their indices form the true and the
   * false list of a result that has no symbol.
   */
  function OperarRelacional(g: Gen, a: Symbol, b: Symbol, op: string): (r: (Gen, Atribs))
    requires Valid(g) && Room(g, 2)
    ensures Valid(r.0) && SameControl(g, r.0) && r.0.next == g.next + Emitted(g, 2)
  {
    var (g1, instrTrue) := Emit(g, IfText(a, b, op));
    var (g2, instrFalse) := Emit(g1, "GOTO");
    (g2, Atribs(None, MakeList(instrTrue), MakeList(instrFalse), []))
  }

  /** `sem_push_switch`: ignored when the stack already holds MaxSwitch names. */
  function PushSwitch(g: Gen, nombreVar: string): (r: Gen)
    requires Valid(g)
    ensures Valid(r) && r.(switches := g.switches) == g
    ensures |r.switches| == if |g.switches| < MaxSwitch then |g.switches| + 1 else MaxSwitch
  {
    if |g.switches| < MaxSwitch then g.(switches := g.switches + [nombreVar]) else g
  }

  /** `sem_pop_switch`: a no-op on an empty stack. */
  function PopSwitch(g: Gen): (r: Gen)
    requires Valid(g)
    ensures Valid(r) && r.(switches := g.switches) == g
    ensures |r.switches| == if |g.switches| > 0 then |g.switches| - 1 else 0
    ensures r.switches == g.switches[..|r.switches|]
  {
    if |g.switches| > 0 then g.(switches := g.switches[..|g.switches| - 1]) else g
  }

  /** `sem_get_switch_var`: the innermost switch variable, or "err" outside any switch. */
  function GetSwitchVar(g: Gen): string
  {
    if |g.switches| > 0 then g.switches[|g.switches| - 1] else "err"
  }

  /** `sem_init_break_layer`: push an empty list, ignored at depth MaxBreak. */
  function InitBreakLayer(g: Gen): (r: Gen)
    requires Valid(g)
    ensures Valid(r) && r.(breaks := g.breaks) == g
    ensures |r.breaks| == if |g.breaks| < MaxBreak then |g.breaks| + 1 else MaxBreak
  {
    if |g.breaks| < MaxBreak then g.(breaks := g.breaks + [[]]) else g
  }

  /** `sem_close_break_layer`: pop the top list and backpatch it to the label. */
  function CloseBreakLayer(g: Gen, etiquetaDestino: int): (r: Gen)
    requires Valid(g)
    ensures Valid(r) && r.(instrs := g.instrs, breaks := g.breaks) == g
    ensures |r.breaks| == if |g.breaks| > 0 then |g.breaks| - 1 else 0
    ensures r.breaks == g.breaks[..|r.breaks|]
  {
    if |g.breaks| > 0 then
      var top := g.breaks[|g.breaks| - 1];
      BackpatchGen(g.(breaks := g.breaks[..|g.breaks| - 1]), top, etiquetaDestino)
    else
      g
  }

  /** Emissions `sem_add_break` performs: one GOTO inside a layer, none outside. */
  function BreakEmits(g: Gen): nat
  {
    if |g.breaks| > 0 then 1 else 0
  }

  /** `sem_add_break`: emit an incomplete GOTO and add it to the top list. */
  function AddBreak(g: Gen): (r: Gen)
    requires Valid(g) && Room(g, BreakEmits(g))
    ensures Valid(r) && |r.breaks| == |g.breaks|
    ensures r.recording == g.recording && r.temps == g.temps && r.switches == g.switches
    ensures |g.breaks| == 0 ==> r == g
    ensures |g.breaks| > 0 ==> r.(breaks := g.breaks) == Emit(g, "GOTO").0
    ensures |g.breaks| > 0 ==> r.breaks == g.breaks[|g.breaks| - 1 := g.breaks[|g.breaks| - 1] + [Emit(g, "GOTO").1]]
  {
    if |g.breaks| > 0 then
      var (g1, salto) := Emit(g, "GOTO");
      var top := |g1.breaks| - 1;
      g1.(breaks := g1.breaks[top := Merge(g1.breaks[top], MakeList(salto))])
    else
      g
  }

  /** `sem_start_record`: switch to recording and clear the buffer. */
  function StartRecord(g: Gen): (r: Gen)
    requires Valid(g)
    ensures Valid(r) && r.recording && r.buffer == ""
    ensures r.(recording := g.recording, buffer := g.buffer) == g
  {
    g.(recording := true, buffer := "")
  }

  /** `sem_stop_record`: back to normal emission; the result is a copy of the buffer. */
  function StopRecord(g: Gen): (r: (Gen, string))
    requires Valid(g)
    ensures Valid(r.0) && !r.0.recording && r.1 == g.buffer
    ensures r.0.(recording := g.recording) == g
  {
    (g.(recording := false), g.buffer)
  }

  /** Emissions `sem_emitir_bloque` performs: one per line of the block. */
  function BlockEmits(bloque: Option<string>): nat
  {
    if bloque.None? then 0 else |Lines(bloque.value)|
  }

  /** `sem_emitir_bloque`: re-emit each line of the block; NULL does nothing. */
  function EmitirBloque(g: Gen, bloque: Option<string>): (r: Gen)
    requires Valid(g) && Room(g, BlockEmits(bloque))
    ensures Valid(r) && SameControl(g, r)
    ensures r.next == g.next + Emitted(g, BlockEmits(bloque))
    ensures bloque.None? ==> r == g
  {
    if bloque.None? then g else EmitSeq(g, Lines(bloque.value))
  }
}
