/**
 * What the generator guarantees, stated over the functions of `Emission`
 * and `Codegen`: where each emission lands, what recording and replay
 * produce, what the expression and comparison actions emit, how fresh the
 * temporaries are, and how the switch and break stacks nest.
 */
module CodegenFacts {
  import opened Wrappers
  import opened Strings
  import opened JumpLists
  import opened Symbols
  import opened Emission
  import opened Codegen

  // ---------------------------------------------------------------------
  // Emission

  /**
   * Outside recording, an emission stores the text at the index the label
   * function announced, in a slot that was empty, returns that index and
   * advances it by one; no other slot changes.
   */
  lemma EmitStores(g: Gen, text: string)
    requires Valid(g) && !g.recording && Room(g, 1)
    ensures var (h, i) := Emit(g, text);
      && i == Label(g) && g.instrs[i].None?
      && h.instrs[i] == Some(text) && h.next == i + 1 && Label(h) == i + 1
      && (forall j :: 0 <= j < |g.instrs| && j != i ==> h.instrs[j] == g.instrs[j])
      && h.buffer == g.buffer
  {
  }

  /**
   * While recording, an emission leaves the store and the next index alone
   * and returns 0; the text and a newline are appended to the buffer only
   * when they fit in it.
   */
  lemma EmitRecords(g: Gen, text: string)
    requires Valid(g) && g.recording
    ensures var (h, i) := Emit(g, text);
      && i == 0 && h.instrs == g.instrs && h.next == g.next
      && h.buffer == if |g.buffer| + |text| + 2 < TamCodeBuffer then g.buffer + text + "\n" else g.buffer
  {
  }

  /** Outside recording, texts emitted in turn land in consecutive fresh slots, in order. */
  lemma {:induction false} EmitSeqPlaces(g: Gen, ts: seq<string>)
    requires Valid(g) && !g.recording && Room(g, |ts|)
    ensures EmitSeq(g, ts).buffer == g.buffer
    ensures forall j :: 0 <= j < |g.instrs| ==>
      EmitSeq(g, ts).instrs[j] == if g.next <= j < g.next + |ts| then Some(ts[j - g.next]) else g.instrs[j]
    decreases |ts|
  {
    if ts != [] {
      var init, t := ts[..|ts| - 1], ts[|ts| - 1];
      EmitSeqPlaces(g, init);
      var mid := EmitSeq(g, init);
      var h := EmitSeq(g, ts);
      assert h == Emit(mid, t).0;
      forall j | 0 <= j < |g.instrs|
        ensures h.instrs[j] == if g.next <= j < g.next + |ts| then Some(ts[j - g.next]) else g.instrs[j]
      {
        if j != mid.next && g.next <= j < g.next + |init| {
          assert init[j - g.next] == ts[j - g.next];
        }
      }
    }
  }

  /** While recording, texts that fit are appended to the buffer as newline-ended lines. */
  lemma {:induction false} EmitSeqRecords(g: Gen, ts: seq<string>)
    requires Valid(g) && g.recording
    requires |g.buffer| + |Join(ts)| + 1 < TamCodeBuffer
    ensures EmitSeq(g, ts) == g.(buffer := g.buffer + Join(ts))
    decreases |ts|
  {
    if ts != [] {
      var init, t := ts[..|ts| - 1], ts[|ts| - 1];
      assert ts == init + [t];
      JoinSnoc(init, t);
      EmitSeqRecords(g, init);
      assert g.buffer + Join(init) + t + "\n" == g.buffer + Join(ts);
    }
  }

  // ---------------------------------------------------------------------
  // Recording and replay (loop unrolling)

  /**
   * Recording lines captures them in the buffer and nothing else: the
   * store and the next index stay as they were, and the captured block
   * splits back into exactly the recorded lines.
   */
  lemma RecordCaptures(g: Gen, ts: seq<string>)
    requires Valid(g) && !g.recording
    requires forall k :: 0 <= k < |ts| ==> IsLine(ts[k])
    requires |Join(ts)| + 1 < TamCodeBuffer
    ensures StopRecord(EmitSeq(StartRecord(g), ts)) == (g.(buffer := Join(ts)), Join(ts))
    ensures Lines(Join(ts)) == ts
  {
    EmitSeqRecords(StartRecord(g), ts);
    assert "" + Join(ts) == Join(ts);
    LinesOfJoin(ts);
  }

  /** Outside recording, replaying a block puts its lines at the next fresh indices (one slot at a time). */
  lemma BlockPlaces(h: Gen, bloque: string, j: int)
    requires Valid(h) && !h.recording && Room(h, |Lines(bloque)|) && 0 <= j < |h.instrs|
    ensures EmitirBloque(h, Some(bloque)).instrs[j]
         == if h.next <= j < h.next + |Lines(bloque)| then Some(Lines(bloque)[j - h.next]) else h.instrs[j]
  {
    EmitSeqPlaces(h, Lines(bloque));
  }

  /**
   * Replaying a block captured from lines `ts` places them, in order, at
   * the next fresh indices; no other slot changes.
   */
  lemma RecordThenReplay(g: Gen, ts: seq<string>)
    requires Valid(g) && !g.recording
    requires forall k :: 0 <= k < |ts| ==> IsLine(ts[k])
    requires |Join(ts)| + 1 < TamCodeBuffer
    requires g.next + |ts| <= MaxInstrucciones
    ensures Lines(Join(ts)) == ts &&
      var g3 := EmitirBloque(StopRecord(EmitSeq(StartRecord(g), ts)).0, Some(Join(ts)));
      && g3.next == g.next + |ts|
      && forall j :: 0 <= j < |g.instrs| ==>
           g3.instrs[j] == if g.next <= j < g.next + |ts| then Some(ts[j - g.next]) else g.instrs[j]
  {
    RecordCaptures(g, ts);
    var h := StopRecord(EmitSeq(StartRecord(g), ts)).0;
    assert h.instrs == g.instrs && h.next == g.next && !h.recording;
    ReplayLines(h, Join(ts), ts);
    var g3 := EmitirBloque(h, Some(Join(ts)));
    forall j | 0 <= j < |g.instrs|
      ensures g3.instrs[j] == if g.next <= j < g.next + |ts| then Some(ts[j - g.next]) else g.instrs[j]
    {
      assert g3.instrs[j] == if h.next <= j < h.next + |ts| then Some(ts[j - h.next]) else h.instrs[j];
    }
  }

  /** Replaying a block whose lines are `ts` places them, in order, at the next fresh indices. */
  lemma ReplayLines(h: Gen, bloque: string, ts: seq<string>)
    requires Valid(h) && !h.recording
    requires Lines(bloque) == ts
    requires h.next + |ts| <= MaxInstrucciones
    ensures var h2 := EmitirBloque(h, Some(bloque));
      && h2.next == h.next + |ts|
      && forall j :: 0 <= j < |h.instrs| ==>
           h2.instrs[j] == if h.next <= j < h.next + |ts| then Some(ts[j - h.next]) else h.instrs[j]
  {
    var h2 := EmitirBloque(h, Some(bloque));
    forall j | 0 <= j < |h.instrs|
      ensures h2.instrs[j] == if h.next <= j < h.next + |ts| then Some(ts[j - h.next]) else h.instrs[j]
    {
      BlockPlaces(h, bloque, j);
    }
  }

  /** `c` copies of `m` lines take c·m slots, counted copy by copy. */
  function Span(c: nat, m: nat): nat
  {
    if c == 0 then 0 else Span(c - 1, m) + m
  }

  /** The slots of `c` copies of `m` lines: c·m. */
  lemma {:induction false} SpanIsProduct(c: nat, m: nat)
    ensures Span(c, m) == c * m
  {
    if c > 0 {
      SpanIsProduct(c - 1, m);
      assert (c - 1) * m + m == c * m;
    }
  }

  /** Copy `c` ends no later than copy `n` starts, when c < n. */
  lemma {:induction false} SpanGrows(c: nat, n: nat, m: nat)
    requires c < n
    ensures Span(c, m) + m <= Span(n, m)
    decreases n
  {
    if c < n - 1 {
      SpanGrows(c, n - 1, m);
    }
  }

  /** The state after replaying `bloque` `n` times in a row. */
  function Replays(g: Gen, bloque: string, n: nat): (r: Gen)
    requires Valid(g) && !g.recording && g.next + Span(n, |Lines(bloque)|) <= MaxInstrucciones
    ensures Valid(r) && !r.recording && r.next == g.next + Span(n, |Lines(bloque)|)
    decreases n
  {
    if n == 0 then g
    else EmitirBloque(Replays(g, bloque, n - 1), Some(bloque))
  }

  /**
   * Unrolling: replaying a block `n` times gives `n` consecutive copies of
   * its lines; line i of copy c sits at next + c·m + i, where m is the
   * block's line count.
   */
  lemma {:induction false} ReplaysPlace(g: Gen, bloque: string, n: nat, c: nat, i: nat)
    requires Valid(g) && !g.recording && g.next + Span(n, |Lines(bloque)|) <= MaxInstrucciones
    requires c < n && i < |Lines(bloque)|
    ensures 0 <= g.next + Span(c, |Lines(bloque)|) + i < |g.instrs|
    ensures Replays(g, bloque, n).instrs[g.next + Span(c, |Lines(bloque)|) + i] == Some(Lines(bloque)[i])
    decreases n
  {
    var ls := Lines(bloque);
    var m := |ls|;
    var prev := Replays(g, bloque, n - 1);
    var j := g.next + Span(c, m) + i;
    SpanGrows(c, n, m);
    BlockPlaces(prev, bloque, j);
    if c < n - 1 {
      SpanGrows(c, n - 1, m);
      ReplaysPlace(g, bloque, n - 1, c, i);
    }
  }

  // ---------------------------------------------------------------------
  // Temporaries

  /** `n` calls of the temporary generator in a row: the state after them and the names they gave. */
  function Temporales(g: Gen, n: nat): (r: (Gen, seq<string>))
    requires Valid(g)
    ensures Valid(r.0) && r.0 == g.(temps := g.temps + n) && |r.1| == n
    decreases n
  {
    if n == 0 then (g, [])
    else
      var (g1, nombres) := Temporales(g, n - 1);
      var (g2, t) := GenerarTemporal(g1);
      (g2, nombres + [t])
  }

  /** The `i`-th of `n` consecutive temporaries is named after the counter plus `i`. */
  lemma {:induction false} TemporalesNames(g: Gen, n: nat)
    requires Valid(g)
    ensures forall i :: 0 <= i < n ==> Temporales(g, n).1[i] == TempName(g.temps + i)
    decreases n
  {
    if n > 0 {
      TemporalesNames(g, n - 1);
      var prev := Temporales(g, n - 1).1;
      var ns := Temporales(g, n).1;
      assert ns == prev + [TempName(g.temps + n - 1)];
      forall i | 0 <= i < n
        ensures ns[i] == TempName(g.temps + i)
      {
        if i < n - 1 {
          assert ns[i] == prev[i];
        }
      }
    }
  }

  /**
   * `n` consecutive temporaries have `n` distinct names, none of which was
   * handed out before them.
   */
  lemma TemporalesDistinct(g: Gen, n: nat)
    requires Valid(g)
    ensures forall i, j :: 0 <= i < j < n ==> Temporales(g, n).1[i] != Temporales(g, n).1[j]
    ensures forall i, k :: 0 <= i < n && 0 <= k < g.temps ==> Temporales(g, n).1[i] != TempName(k)
  {
    var ns := Temporales(g, n).1;
    TemporalesNames(g, n);
    forall i, j | 0 <= i < j < n
      ensures ns[i] != ns[j]
    {
      TempNameInjective(g.temps + i, g.temps + j);
    }
    forall i, k | 0 <= i < n && 0 <= k < g.temps
      ensures ns[i] != TempName(k)
    {
      TempNameInjective(g.temps + i, k);
    }
  }

  // ---------------------------------------------------------------------
  // Expressions

  /**
   * `sem_operar_binario` outside recording: the result is real exactly
   * when either operand is, and is held by the fresh temporary numbered
   * by the counter; a real operation first emits one I2F cast per integer
   * operand (into the next temporaries), then the operation itself with
   * the real opcode, an integer one emits the operation alone with the
   * integer opcode: 1 or 2 instructions in consecutive slots (a real
   * operation has a real operand, so at most one cast), nothing else
   * changed.
   */
  lemma OperarBinarioEmits(g: Gen, a: Symbol, b: Symbol, opInt: string, opFloat: string)
    requires Valid(g) && !g.recording && Room(g, 1 + CastCount(a, b))
    ensures var (h, r) := OperarBinario(g, a, b, opInt, opFloat);
      var isReal := a.tipo == Real || b.tipo == Real;
      var n := 1 + CastCount(a, b);
      var c := g.temps;
      var nombreA := if isReal && a.tipo == Entero then TempName(c + 1) else a.nombre;
      var nombreB := if isReal && b.tipo == Entero then TempName(c + n - 1) else b.nombre;
      && 1 <= n <= 2
      && r == CrearLiteral(TempName(c), if isReal then Real else Entero)
      && h.next == g.next + n && h.temps == c + n && h.buffer == g.buffer
      && (isReal && a.tipo == Entero ==> h.instrs[g.next] == Some(TempName(c + 1) + " := I2F " + a.nombre))
      && (isReal && b.tipo == Entero ==> h.instrs[g.next + n - 2] == Some(TempName(c + n - 1) + " := I2F " + b.nombre))
      && h.instrs[g.next + n - 1]
         == Some(TempName(c) + " := " + nombreA + " " + (if isReal then opFloat else opInt) + " " + nombreB)
      && (forall j :: 0 <= j < |g.instrs| && !(g.next <= j < g.next + n) ==> h.instrs[j] == g.instrs[j])
  {
  }

  /**
   * The temporaries one binary operation uses are new, in recording mode
   * too: the result is named after the counter, the casts after the
   * numbers that follow it, and none of these names equals another one or
   * any name handed out before the operation.
   */
  lemma OperarBinarioFresh(g: Gen, a: Symbol, b: Symbol, opInt: string, opFloat: string)
    requires Valid(g) && Room(g, 1 + CastCount(a, b))
    ensures var (h, r) := OperarBinario(g, a, b, opInt, opFloat);
      var c := g.temps;
      && r.simb.Some? && r.simb.value.nombre == TempName(c)
      && h.temps == c + 1 + CastCount(a, b)
      && (forall k :: 0 <= k < c ==> r.simb.value.nombre != TempName(k))
      && (forall i :: c < i < h.temps ==> TempName(i) != r.simb.value.nombre)
      && (forall i, k :: c < i < h.temps && 0 <= k < c ==> TempName(i) != TempName(k))
  {
    forall i: nat, j: nat | i != j
      ensures TempName(i) != TempName(j)
    {
      TempNameInjective(i, j);
    }
  }

  /** `sem_asignar` outside recording: one copy instruction `destino := valor`. */
  lemma AsignarEmits(g: Gen, destino: string, valor: Symbol)
    requires Valid(g) && !g.recording && Room(g, 1)
    ensures var h := Asignar(g, destino, valor);
      && h.next == g.next + 1 && h.buffer == g.buffer
      && h.instrs == g.instrs[g.next := Some(destino + " := " + valor.nombre)]
  {
  }

  /**
   * `sem_asignar_array` outside recording: the index times 4 into a fresh
   * temporary, then the indexed store through that offset.
   */
  lemma AsignarArrayEmits(g: Gen, nombreArray: string, indice: Symbol, valor: Symbol)
    requires Valid(g) && !g.recording && Room(g, 2)
    ensures var h := AsignarArray(g, nombreArray, indice, valor);
      var t := TempName(g.temps);
      && h.next == g.next + 2 && h.temps == g.temps + 1 && h.buffer == g.buffer
      && h.instrs == g.instrs[g.next := Some(t + " := " + indice.nombre + " MULI 4")]
                             [g.next + 1 := Some(nombreArray + "[" + t + "] := " + valor.nombre)]
  {
  }

  /**
   * `sem_acceder_array` outside recording: the offset into one fresh
   * temporary, the indexed load into a second one, which is the integer
   * result.
   */
  lemma AccederArrayEmits(g: Gen, nombreArray: string, indice: Symbol)
    requires Valid(g) && !g.recording && Room(g, 2)
    ensures var (h, r) := AccederArray(g, nombreArray, indice);
      var t := TempName(g.temps);
      var tRes := TempName(g.temps + 1);
      && t != tRes
      && r == CrearLiteral(tRes, Entero)
      && h.next == g.next + 2 && h.temps == g.temps + 2 && h.buffer == g.buffer
      && h.instrs == g.instrs[g.next := Some(t + " := " + indice.nombre + " MULI 4")]
                             [g.next + 1 := Some(tRes + " := " + nombreArray + "[" + t + "]")]
  {
    TempNameInjective(g.temps, g.temps + 1);
  }

  /**
   * `sem_imprimir_expresion` outside recording: the operand as a parameter,
   * then the real output call exactly when the operand is real.
   */
  lemma ImprimirExpresionEmits(g: Gen, s: Symbol)
    requires Valid(g) && !g.recording && Room(g, 2)
    ensures var h := ImprimirExpresion(g, s);
      && h.next == g.next + 2 && h.buffer == g.buffer
      && h.instrs[g.next] == Some("PARAM " + s.nombre)
      && (h.instrs[g.next + 1] == Some("CALL PUTF, 1") <==> s.tipo == Real)
      && (h.instrs[g.next + 1] == Some("CALL PUTI, 1") <==> s.tipo != Real)
      && (forall j :: 0 <= j < |g.instrs| && j != g.next && j != g.next + 1 ==> h.instrs[j] == g.instrs[j])
  {
  }

  /**
   * `sem_cerrar_repeat` outside recording: the counter increment, then a
   * complete conditional jump back to the loop header.
   */
  lemma CerrarRepeatEmits(g: Gen, contador: Symbol, tope: Symbol, etiquetaInicio: int)
    requires Valid(g) && !g.recording && Room(g, 2)
    ensures var h := CerrarRepeat(g, contador, tope, etiquetaInicio);
      && h.next == g.next + 2 && h.buffer == g.buffer
      && h.instrs == g.instrs[g.next := Some(contador.nombre + " := " + contador.nombre + " ADDI 1")]
                             [g.next + 1 := Some("IF " + contador.nombre + " LTI " + tope.nombre + " GOTO " + IntToString(etiquetaInicio))]
  {
  }

  // ---------------------------------------------------------------------
  // Comparisons

  /**
   * `sem_operar_relacional` outside recording: the incomplete conditional
   * jump at the next index k and the incomplete GOTO at k+1; the result has
   * no symbol, true list [k] and false list [k+1]. The opcode ends in F
   * exactly when an operand is real, and no cast is emitted.
   */
  lemma OperarRelacionalEmits(g: Gen, a: Symbol, b: Symbol, op: string)
    requires Valid(g) && !g.recording && Room(g, 2)
    ensures var (h, r) := OperarRelacional(g, a, b, op);
      var k := Label(g);
      && r.simb.None? && r.truelist == [k] && r.falselist == [k + 1] && r.nextlist == []
      && h.next == k + 2 && h.temps == g.temps && h.buffer == g.buffer
      && h.instrs[k] == Some("IF " + a.nombre + " " + OpCompleto(a, b, op) + " " + b.nombre + " GOTO")
      && h.instrs[k + 1] == Some("GOTO")
      && (OpCompleto(a, b, op) == op + "F" <==> IsRealOp(a, b))
      && (OpCompleto(a, b, op) == op + "I" <==> !IsRealOp(a, b))
      && (forall j :: 0 <= j < |g.instrs| && j != k && j != k + 1 ==> h.instrs[j] == g.instrs[j])
  {
    var o := OpCompleto(a, b, op);
    assert o[|op|] == if IsRealOp(a, b) then 'F' else 'I';
    assert (op + "F")[|op|] == 'F' && (op + "I")[|op|] == 'I';
  }

  /**
   * Comparing two integers x and y with LT and then backpatching the true
   * list to 10 and the false list to 11 yields `IF x LTI y GOTO 10` and
   * `GOTO 11`.
   */
  lemma RelationalThenBackpatch(g: Gen)
    requires Valid(g) && !g.recording && Room(g, 2)
    ensures var (h, r) := OperarRelacional(g, Symbol("x", Entero), Symbol("y", Entero), "LT");
      var patched := BackpatchGen(BackpatchGen(h, r.truelist, 10), r.falselist, 11);
      && patched.instrs[g.next] == Some("IF x LTI y GOTO 10")
      && patched.instrs[g.next + 1] == Some("GOTO 11")
  {
    var (h, r) := OperarRelacional(g, Symbol("x", Entero), Symbol("y", Entero), "LT");
    var k := g.next;
    assert r.truelist == [k] && r.falselist == [k + 1];
    var x, y := Symbol("x", Entero), Symbol("y", Entero);
    assert OpCompleto(x, y, "LT") == "LTI";
    assert IfText(x, y, "LT") == "IF x LTI y GOTO";
    assert h.instrs[k] == Some("IF x LTI y GOTO") && h.instrs[k + 1] == Some("GOTO");
    var h1 := BackpatchGen(h, [k], 10);
    BackpatchSingle(h.instrs, h.next, k, 10);
    BackpatchSingle(h1.instrs, h1.next, k + 1, 11);
    TenAndEleven();
    assert h1.instrs[k] == Some("IF x LTI y GOTO" + " 10");
    assert "IF x LTI y GOTO" + " 10" == "IF x LTI y GOTO 10";
    assert "GOTO" + " 11" == "GOTO 11";
  }

  /** The decimal texts of the two labels used above. */
  lemma TenAndEleven()
    ensures Target(10) == " 10" && Target(11) == " 11"
  {
    assert DigitChar(0) == '0' && DigitChar(1) == '1';
    assert NatToString(1) == "1";
    assert NatToString(10) == NatToString(1) + [DigitChar(0)];
    assert NatToString(11) == NatToString(1) + [DigitChar(1)];
  }

  /**
   * A comparison made while recording gets true and false lists [0]: no
   * instruction lives at index 0, so backpatching them completes nothing,
   * and the recorded jump lines stay without a target.
   */
  lemma RelationalWhileRecording(g: Gen, a: Symbol, b: Symbol, op: string, lbl: int)
    requires Valid(g) && g.recording
    ensures var (h, r) := OperarRelacional(g, a, b, op);
      && r.truelist == [0] && r.falselist == [0]
      && h.instrs == g.instrs && h.next == g.next
      && BackpatchGen(h, r.truelist, lbl) == h
      && BackpatchGen(h, r.falselist, lbl) == h
  {
    var (h, r) := OperarRelacional(g, a, b, op);
    BackpatchSkipsAll(h.instrs, h.next, [0], lbl);
  }

  // ---------------------------------------------------------------------
  // Backpatching on the state

  /**
   * Backpatching an instruction twice does not fail: it appends a second
   * label after the first.
   */
  lemma BackpatchTwice(g: Gen, k: int, x: int, y: int)
    requires Valid(g) && 1 <= k < g.next
    ensures BackpatchGen(BackpatchGen(g, [k], x), [k], y).instrs[k]
         == Some(g.instrs[k].value + " " + IntToString(x) + " " + IntToString(y))
  {
    var h := BackpatchGen(g, [k], x);
    BackpatchSingle(g.instrs, g.next, k, x);
    BackpatchSingle(h.instrs, h.next, k, y);
    var v := g.instrs[k].value;
    assert h.instrs[k] == Some(v + Target(x));
    TwoTargets(v, x, y);
  }

  /** Two targets appended one after the other, spelled out. */
  lemma TwoTargets(v: string, x: int, y: int)
    ensures v + Target(x) + Target(y) == v + " " + IntToString(x) + " " + IntToString(y)
  {
  }

  // ---------------------------------------------------------------------
  // Switch stack

  /**
   * Below the depth bound, the switch stack is last in, first out: the
   * pushed name is the current one, and popping restores the stack. At the
   * bound a push is ignored; outside any switch the current name is "err".
   */
  lemma SwitchStackLifo(g: Gen, nombre: string)
    requires Valid(g)
    ensures |g.switches| < MaxSwitch ==>
      GetSwitchVar(PushSwitch(g, nombre)) == nombre && PopSwitch(PushSwitch(g, nombre)) == g
    ensures |g.switches| == MaxSwitch ==> PushSwitch(g, nombre) == g
    ensures g.switches == [] ==> GetSwitchVar(g) == "err" && PopSwitch(g) == g
  {
    if |g.switches| < MaxSwitch {
      var h := PushSwitch(g, nombre);
      assert h == g.(switches := g.switches + [nombre]);
      assert h.switches[..|g.switches|] == g.switches;
      assert PopSwitch(h) == g.(switches := g.switches);
    }
  }

  /** Nested switches: after the inner one closes, the outer variable is current again. */
  lemma NestedSwitches(g: Gen, exterior: string, interior: string)
    requires Valid(g) && |g.switches| + 2 <= MaxSwitch
    ensures var g1 := PushSwitch(g, exterior);
      var g2 := PushSwitch(g1, interior);
      && GetSwitchVar(g2) == interior
      && GetSwitchVar(PopSwitch(g2)) == exterior
      && PopSwitch(PopSwitch(g2)) == g
  {
    SwitchStackLifo(g, exterior);
    SwitchStackLifo(PushSwitch(g, exterior), interior);
  }

  // ---------------------------------------------------------------------
  // Break layers

  /**
   * Outside recording, a break emits one incomplete GOTO at the next
   * index and adds that index to the top list only; on an empty stack it
   * does nothing.
   */
  lemma AddBreakTopOnly(g: Gen)
    requires Valid(g) && !g.recording && Room(g, BreakEmits(g))
    ensures var h := AddBreak(g);
      var n := |g.breaks|;
      && (n == 0 ==> h == g)
      && (n > 0 ==>
           && h.instrs == g.instrs[g.next := Some("GOTO")] && h.next == g.next + 1
           && h.breaks[..n - 1] == g.breaks[..n - 1]
           && h.breaks[n - 1] == g.breaks[n - 1] + [g.next])
  {
  }

  /**
   * A break while recording: the store and the next index stay as they
   * are, `GOTO` and a newline go to the buffer when they fit, and the index
   * 0 that the emission returns joins the top list only.
   */
  lemma AddBreakWhileRecording(g: Gen)
    requires Valid(g) && g.recording && |g.breaks| > 0
    ensures var h := AddBreak(g);
      var n := |g.breaks|;
      && h.instrs == g.instrs && h.next == g.next && h.temps == g.temps
      && h.buffer == (if |g.buffer| + 6 < TamCodeBuffer then g.buffer + "GOTO\n" else g.buffer)
      && h.breaks[..n - 1] == g.breaks[..n - 1]
      && h.breaks[n - 1] == g.breaks[n - 1] + [0]
  {
    EmitRecords(g, "GOTO");
  }

  /**
   * Closing a layer pops the top list and backpatches exactly that list;
   * with no layer open it does nothing.
   */
  lemma CloseBreakLayerTopOnly(g: Gen, lbl: int)
    requires Valid(g)
    ensures var h := CloseBreakLayer(g, lbl);
      var n := |g.breaks|;
      && (n == 0 ==> h == g)
      && (n > 0 ==>
           && h.breaks == g.breaks[..n - 1] && h.next == g.next
           && h.instrs == JumpLists.Backpatch(g.instrs, g.next, g.breaks[n - 1], lbl))
  {
  }

  /**
   * The break stack's depth bound. Below it, opening a layer and closing it
   * with no break in between restores the state. At the bound the opening
   * is ignored, so the close meant for the ignored layer pops and
   * backpatches the enclosing one instead.
   */
  lemma BreakLayerBound(g: Gen, lbl: int)
    requires Valid(g)
    ensures |g.breaks| < MaxBreak ==> CloseBreakLayer(InitBreakLayer(g), lbl) == g
    ensures |g.breaks| == MaxBreak ==> InitBreakLayer(g) == g
    ensures |g.breaks| == MaxBreak ==> CloseBreakLayer(InitBreakLayer(g), lbl) == CloseBreakLayer(g, lbl)
  {
    if |g.breaks| < MaxBreak {
      var h := InitBreakLayer(g);
      assert h.breaks[..|h.breaks| - 1] == g.breaks;
      assert JumpLists.Backpatch(g.instrs, g.next, [], lbl) == g.instrs;
    }
  }

  /** A new layer with one break in it. */
  lemma InitThenAdd(g: Gen)
    requires Valid(g) && !g.recording && |g.breaks| < MaxBreak && Room(g, 1)
    ensures var h := AddBreak(InitBreakLayer(g));
      && h.breaks == g.breaks + [[g.next]] && !h.recording
      && h.instrs == g.instrs[g.next := Some("GOTO")] && h.next == g.next + 1
  {
    assert Merge([], [g.next]) == [g.next];
  }

  /** A break in the innermost layer: its index is appended to that layer's list. */
  lemma AddToTop(g: Gen, outer: seq<JumpList>, top: JumpList)
    requires Valid(g) && !g.recording && g.breaks == outer + [top] && Room(g, 1)
    ensures var h := AddBreak(g);
      && h.breaks == outer + [top + [g.next]] && !h.recording
      && h.instrs == g.instrs[g.next := Some("GOTO")] && h.next == g.next + 1
  {
    assert (outer + [top])[|outer| := top + [g.next]] == outer + [top + [g.next]];
  }

  /** One layer opened, with two breaks in it. */
  function OneLayerTwoBreaks(g: Gen): (h: Gen)
    requires Valid(g) && !g.recording && |g.breaks| < MaxBreak && Room(g, 2)
    ensures Valid(h) && h.next == g.next + 2
    ensures h.instrs == g.instrs[g.next := Some("GOTO")][g.next + 1 := Some("GOTO")]
    ensures h.breaks == g.breaks + [[g.next, g.next + 1]]
  {
    InitThenAdd(g);
    var g1 := AddBreak(InitBreakLayer(g));
    AddToTop(g1, g.breaks, [g.next]);
    assert [g.next] + [g.next + 1] == [g.next, g.next + 1];
    AddBreak(g1)
  }

  /**
   * Opening a layer, breaking twice and closing it on label L completes
   * both breaks as `GOTO L` and leaves the stack as it was.
   */
  lemma TwoBreaksResolved(g: Gen, lbl: int)
    requires Valid(g) && !g.recording && |g.breaks| < MaxBreak && Room(g, 2)
    ensures var h := CloseBreakLayer(OneLayerTwoBreaks(g), lbl);
      && h.breaks == g.breaks && h.next == g.next + 2
      && h.instrs[g.next] == Some("GOTO " + IntToString(lbl))
      && h.instrs[g.next + 1] == Some("GOTO " + IntToString(lbl))
      && forall j :: 0 <= j < |g.instrs| && j != g.next && j != g.next + 1 ==> h.instrs[j] == g.instrs[j]
  {
    CloseTwoBreaks(OneLayerTwoBreaks(g), g.breaks, g.next, lbl);
  }

  /** Closing a layer that holds two breaks completes both and nothing else. */
  lemma CloseTwoBreaks(h: Gen, outer: seq<JumpList>, k: int, lbl: int)
    requires Valid(h) && h.breaks == outer + [[k, k + 1]] && 1 <= k && k + 1 < h.next
    requires h.instrs[k] == Some("GOTO") && h.instrs[k + 1] == Some("GOTO")
    ensures var r := CloseBreakLayer(h, lbl);
      && r.breaks == outer && r.next == h.next
      && r.instrs[k] == Some("GOTO " + IntToString(lbl))
      && r.instrs[k + 1] == Some("GOTO " + IntToString(lbl))
      && forall j :: 0 <= j < |h.instrs| && j != k && j != k + 1 ==> r.instrs[j] == h.instrs[j]
  {
    var l := [k, k + 1];
    assert (outer + [l])[..|outer|] == outer;
    assert l[..1] == [k];
    BackpatchSingle(h.instrs, h.next, k, lbl);
    GotoTarget(lbl);
  }

  /** A completed GOTO. */
  lemma GotoTarget(lbl: int)
    ensures "GOTO" + Target(lbl) == "GOTO " + IntToString(lbl)
  {
  }

  /** Two nested layers opened, the outer one first, with one break in each. */
  function TwoNestedBreaks(g: Gen): (h: Gen)
    requires Valid(g) && !g.recording && |g.breaks| + 2 <= MaxBreak && Room(g, 2)
    ensures Valid(h) && h.next == g.next + 2
    ensures h.instrs[g.next] == Some("GOTO") && h.instrs[g.next + 1] == Some("GOTO")
    ensures h.breaks == (g.breaks + [[g.next]]) + [[g.next + 1]]
  {
    InitThenAdd(g);
    var g1 := AddBreak(InitBreakLayer(g));
    InitThenAdd(g1);
    AddBreak(InitBreakLayer(g1))
  }

  /** Closing a layer that holds one break completes that break and nothing else. */
  lemma CloseSingleBreak(h: Gen, outer: seq<JumpList>, k: int, lbl: int)
    requires Valid(h) && h.breaks == outer + [[k]] && 1 <= k < h.next
    requires h.instrs[k] == Some("GOTO")
    ensures var r := CloseBreakLayer(h, lbl);
      && r.breaks == outer && r.next == h.next
      && r.instrs[k] == Some("GOTO " + IntToString(lbl))
      && forall j :: 0 <= j < |h.instrs| && j != k ==> r.instrs[j] == h.instrs[j]
  {
    assert (outer + [[k]])[..|outer|] == outer;
    BackpatchSingle(h.instrs, h.next, k, lbl);
    GotoTarget(lbl);
  }

  /**
   * Nested layers, inner part: closing the inner layer completes only the
   * inner break; the outer break stays incomplete and its layer stays open.
   */
  lemma NestedInnerClose(g: Gen, interior: int)
    requires Valid(g) && !g.recording && |g.breaks| + 2 <= MaxBreak && Room(g, 2)
    ensures var k := g.next;
      var g3 := CloseBreakLayer(TwoNestedBreaks(g), interior);
      && g3.instrs[k] == Some("GOTO")
      && g3.instrs[k + 1] == Some("GOTO " + IntToString(interior))
      && g3.breaks == g.breaks + [[k]] && g3.next == k + 2
  {
    CloseSingleBreak(TwoNestedBreaks(g), g.breaks + [[g.next]], g.next + 1, interior);
  }

  /**
   * Nested layers do not see each other's breaks: after the inner layer is
   * closed, closing the outer one completes only the outer break, leaves
   * the inner break's target as it was and restores the stack.
   */
  lemma NestedBreaksStayApart(g: Gen, interior: int, exterior: int)
    requires Valid(g) && !g.recording && |g.breaks| + 2 <= MaxBreak && Room(g, 2)
    ensures var k := g.next;
      var g3 := CloseBreakLayer(TwoNestedBreaks(g), interior);
      var g4 := CloseBreakLayer(g3, exterior);
      && g4.instrs[k] == Some("GOTO " + IntToString(exterior))
      && g4.instrs[k + 1] == Some("GOTO " + IntToString(interior))
      && g4.breaks == g.breaks
  {
    NestedInnerClose(g, interior);
    var g3 := CloseBreakLayer(TwoNestedBreaks(g), interior);
    CloseSingleBreak(g3, g.breaks, g.next, exterior);
  }
}
