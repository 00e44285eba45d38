/**
 * The generator as the source keeps it: file-level variables updated in
 * place. A `Session` holds them; each method does what the corresponding
 * `sem_*` function does, and is proved to move the session's abstract
 * state `Abs()` exactly as the matching function of `Codegen` prescribes.
 */
module Semantica {
  import opened Wrappers
  import opened Strings
  import opened JumpLists
  import opened Symbols
  import opened Emission
  import Codegen

  class Session {
    /** `instrucciones`: slot i holds instruction i, NULL (None) if never emitted. */
    const instrucciones: array<Option<string>>
    var sigInstruccion: int
    var contadorTemporales: nat
    /** `switch_stack`, used up to `switchTop`. */
    const switchStack: array<string>
    var switchTop: int
    /** `break_list_stack`, used up to `breakListTop`. */
    const breakListStack: array<JumpList>
    var breakListTop: int
    var recording: bool
    /** `code_buffer` up to its terminating NUL. */
    var codeBuffer: string

    ghost predicate Shaped()
      reads this
    {
      && instrucciones.Length == MaxInstrucciones
      && switchStack.Length == MaxSwitch
      && breakListStack.Length == MaxBreak
      && 0 <= switchTop <= MaxSwitch
      && 0 <= breakListTop <= MaxBreak
    }

    /** The session's state as a value. */
    ghost function Abs(): Gen
      reads this, instrucciones, switchStack, breakListStack
      requires Shaped()
    {
      Gen(instrucciones[..], sigInstruccion, contadorTemporales, recording, codeBuffer,
          switchStack[..switchTop], breakListStack[..breakListTop])
    }

    ghost predicate Valid()
      reads this, instrucciones, switchStack, breakListStack
    {
      Shaped() && Emission.Valid(Abs())
    }

    /** The static initial values of the source's file-level variables. */
    constructor ()
      ensures Valid() && Abs() == Initial()
    {
      instrucciones := new Option<string>[MaxInstrucciones](_ => None);
      switchStack := new string[MaxSwitch](_ => "");
      breakListStack := new JumpList[MaxBreak](_ => []);
      sigInstruccion, contadorTemporales := 1, 1;
      switchTop, breakListTop := 0, 0;
      recording, codeBuffer := false, "";
    }

    /** `sem_generar_etiqueta`. */
    method GenerarEtiqueta() returns (etiqueta: int)
      requires Valid()
      ensures etiqueta == Label(Abs())
    {
      etiqueta := sigInstruccion;
    }

    /** `sem_emitir`; the process exit at capacity is excluded by `Room`. */
    method Emitir(text: string) returns (indice: int)
      requires Valid() && Room(Abs(), 1)
      modifies this, instrucciones
      ensures Valid()
      ensures (Abs(), indice) == Emit(old(Abs()), text)
    {
      if recording {
        if |codeBuffer| + |text| + 2 < TamCodeBuffer {
          codeBuffer := codeBuffer + text + "\n";
        }
        return 0;
      }
      instrucciones[sigInstruccion] := Some(text);
      indice := sigInstruccion;
      sigInstruccion := sigInstruccion + 1;
    }

    /** `sem_finalizar_salida`: the lines written to the output, in index order. */
    method FinalizarSalida() returns (salida: seq<string>)
      requires Valid()
      ensures salida == Listing(instrucciones[..], 1, sigInstruccion)
      ensures |salida| == sigInstruccion - 1
      ensures forall k :: 0 <= k < |salida| ==> salida[k] == Line(k + 1, instrucciones[k + 1].value)
    {
      salida := [];
      var i := 1;
      while i < sigInstruccion
        invariant 1 <= i <= sigInstruccion
        invariant salida == Listing(instrucciones[..], 1, i)
      {
        if instrucciones[i].Some? {
          salida := salida + [Line(i, instrucciones[i].value)];
        }
        i := i + 1;
      }
      ListingComplete(Abs(), sigInstruccion);
    }

    /** `sem_backpatch`: walk the list, completing every instruction it names. */
    method Backpatch(lista: JumpList, etiquetaDestino: int)
      requires Valid()
      modifies instrucciones
      ensures Valid()
      ensures Abs() == BackpatchGen(old(Abs()), lista, etiquetaDestino)
    {
      var i := 0;
      while i < |lista|
        invariant 0 <= i <= |lista|
        invariant instrucciones[..] == JumpLists.Backpatch(old(instrucciones[..]), sigInstruccion, lista[..i], etiquetaDestino)
      {
        var ref := lista[i];
        if 0 <= ref < sigInstruccion && instrucciones[ref].Some? {
          instrucciones[ref] := Some(instrucciones[ref].value + Target(etiquetaDestino));
        }
        assert lista[..i + 1][..i] == lista[..i];
        i := i + 1;
      }
      assert lista[..i] == lista;
    }

    /** `sem_generar_temporal`. */
    method GenerarTemporal() returns (nombre: string)
      requires Valid()
      modifies this
      ensures Valid()
      ensures (Abs(), nombre) == Codegen.GenerarTemporal(old(Abs()))
    {
      nombre := TempName(contadorTemporales);
      contadorTemporales := contadorTemporales + 1;
    }

    /** `sem_crear_temporal`. */
    method CrearTemporal(tipo: Tipo) returns (a: Atribs)
      requires Valid()
      modifies this
      ensures Valid()
      ensures (Abs(), a) == Codegen.CrearTemporal(old(Abs()), tipo)
    {
      var nombre := GenerarTemporal();
      a := CrearLiteral(nombre, tipo);
    }

    /**
     * `sem_operar_binario`. Where the source rebinds the operand's name to
     * the cast temporary, the model rebinds a local copy.
     */
    method OperarBinario(a: Atribs, b: Atribs, opInt: string, opFloat: string) returns (r: Atribs)
      requires Valid() && a.simb.Some? && b.simb.Some?
      requires Room(Abs(), 1 + Codegen.CastCount(a.simb.value, b.simb.value))
      modifies this, instrucciones
      ensures Valid()
      ensures (Abs(), r) == Codegen.OperarBinario(old(Abs()), a.simb.value, b.simb.value, opInt, opFloat)
    {
      var sa, sb := a.simb.value, b.simb.value;
      ghost var g0 := Abs();
      var temporal := GenerarTemporal();
      ghost var g1 := Abs();
      var tipoResult := Entero;
      var instruccion := opInt;
      var nombreA, nombreB := sa.nombre, sb.nombre;
      if sa.tipo == Real || sb.tipo == Real {
        tipoResult := Real;
        instruccion := opFloat;
        if sa.tipo == Entero {
          var tempCast := GenerarTemporal();
          var _ := Emitir(tempCast + " := I2F " + nombreA);
          nombreA := tempCast;
        }
        assert (Abs(), nombreA) == Codegen.CastOperand(g1, sa);
        ghost var g2 := Abs();
        if sb.tipo == Entero {
          var tempCast := GenerarTemporal();
          var _ := Emitir(tempCast + " := I2F " + nombreB);
          nombreB := tempCast;
        }
        assert (Abs(), nombreB) == Codegen.CastOperand(g2, sb);
      }
      var _ := Emitir(temporal + " := " + nombreA + " " + instruccion + " " + nombreB);
      r := CrearLiteral(temporal, tipoResult);
    }

    /** `sem_asignar`. */
    method Asignar(destino: string, valor: Atribs)
      requires Valid() && valor.simb.Some? && Room(Abs(), 1)
      modifies this, instrucciones
      ensures Valid()
      ensures Abs() == Codegen.Asignar(old(Abs()), destino, valor.simb.value)
    {
      var _ := Emitir(destino + " := " + valor.simb.value.nombre);
    }

    /** `sem_asignar_array`. */
    method AsignarArray(nombreArray: string, indice: Atribs, valor: Atribs)
      requires Valid() && indice.simb.Some? && valor.simb.Some? && Room(Abs(), 2)
      modifies this, instrucciones
      ensures Valid()
      ensures Abs() == Codegen.AsignarArray(old(Abs()), nombreArray, indice.simb.value, valor.simb.value)
    {
      var tOffset := GenerarTemporal();
      var _ := Emitir(tOffset + " := " + indice.simb.value.nombre + " MULI 4");
      var _ := Emitir(nombreArray + "[" + tOffset + "] := " + valor.simb.value.nombre);
    }

    /** `sem_acceder_array`. */
    method AccederArray(nombreArray: string, indice: Atribs) returns (r: Atribs)
      requires Valid() && indice.simb.Some? && Room(Abs(), 2)
      modifies this, instrucciones
      ensures Valid()
      ensures (Abs(), r) == Codegen.AccederArray(old(Abs()), nombreArray, indice.simb.value)
    {
      var tOffset := GenerarTemporal();
      var _ := Emitir(tOffset + " := " + indice.simb.value.nombre + " MULI 4");
      var tRes := GenerarTemporal();
      var _ := Emitir(tRes + " := " + nombreArray + "[" + tOffset + "]");
      r := CrearLiteral(tRes, Entero);
    }

    /** `sem_imprimir_expresion`. */
    method ImprimirExpresion(s: Atribs)
      requires Valid() && s.simb.Some? && Room(Abs(), 2)
      modifies this, instrucciones
      ensures Valid()
      ensures Abs() == Codegen.ImprimirExpresion(old(Abs()), s.simb.value)
    {
      var _ := Emitir("PARAM " + s.simb.value.nombre);
      if s.simb.value.tipo == Real {
        var _ := Emitir("CALL PUTF, 1");
      } else {
        var _ := Emitir("CALL PUTI, 1");
      }
    }

    /** `sem_cerrar_repeat`. */
    method CerrarRepeat(contador: Symbol, tope: Symbol, etiquetaInicio: int)
      requires Valid() && Room(Abs(), 2)
      modifies this, instrucciones
      ensures Valid()
      ensures Abs() == Codegen.CerrarRepeat(old(Abs()), contador, tope, etiquetaInicio)
    {
      var _ := Emitir(contador.nombre + " := " + contador.nombre + " ADDI 1");
      var _ := Emitir("IF " + contador.nombre + " LTI " + tope.nombre + " GOTO " + IntToString(etiquetaInicio));
    }

    /** `sem_operar_relacional`. */
    method OperarRelacional(a: Atribs, b: Atribs, op: string) returns (r: Atribs)
      requires Valid() && a.simb.Some? && b.simb.Some? && Room(Abs(), 2)
      modifies this, instrucciones
      ensures Valid()
      ensures (Abs(), r) == Codegen.OperarRelacional(old(Abs()), a.simb.value, b.simb.value, op)
    {
      var sa, sb := a.simb.value, b.simb.value;
      var sufijo := "I";
      if sa.tipo == Real || sb.tipo == Real {
        sufijo := "F";
      }
      var opCompleto := op + sufijo;
      var instrTrue := Emitir("IF " + sa.nombre + " " + opCompleto + " " + sb.nombre + " GOTO");
      var instrFalse := Emitir("GOTO");
      r := Atribs(None, MakeList(instrTrue), MakeList(instrFalse), []);
    }

    /** `sem_push_switch`. */
    method PushSwitch(nombreVar: string)
      requires Valid()
      modifies this, switchStack
      ensures Valid()
      ensures Abs() == Codegen.PushSwitch(old(Abs()), nombreVar)
    {
      if switchTop < MaxSwitch {
        switchStack[switchTop] := nombreVar;
        switchTop := switchTop + 1;
      }
    }

    /** `sem_pop_switch`. */
    method PopSwitch()
      requires Valid()
      modifies this
      ensures Valid()
      ensures Abs() == Codegen.PopSwitch(old(Abs()))
    {
      if switchTop > 0 {
        switchTop := switchTop - 1;
      }
    }

    /** `sem_get_switch_var`. */
    method GetSwitchVar() returns (nombre: string)
      requires Valid()
      ensures nombre == Codegen.GetSwitchVar(Abs())
    {
      if switchTop > 0 {
        return switchStack[switchTop - 1];
      }
      return "err";
    }

    /** `sem_init_break_layer`. */
    method InitBreakLayer()
      requires Valid()
      modifies this, breakListStack
      ensures Valid()
      ensures Abs() == Codegen.InitBreakLayer(old(Abs()))
    {
      if breakListTop < MaxBreak {
        breakListStack[breakListTop] := [];
        breakListTop := breakListTop + 1;
      }
    }

    /** `sem_close_break_layer`. */
    method CloseBreakLayer(etiquetaDestino: int)
      requires Valid()
      modifies this, instrucciones
      ensures Valid()
      ensures Abs() == Codegen.CloseBreakLayer(old(Abs()), etiquetaDestino)
    {
      if breakListTop > 0 {
        breakListTop := breakListTop - 1;
        Backpatch(breakListStack[breakListTop], etiquetaDestino);
      }
    }

    /** `sem_add_break`. */
    method AddBreak()
      requires Valid() && Room(Abs(), Codegen.BreakEmits(Abs()))
      modifies this, instrucciones, breakListStack
      ensures Valid()
      ensures Abs() == Codegen.AddBreak(old(Abs()))
    {
      if breakListTop > 0 {
        var salto := Emitir("GOTO");
        breakListStack[breakListTop - 1] := Merge(breakListStack[breakListTop - 1], MakeList(salto));
      }
    }

    /** `sem_start_record`. */
    method StartRecord()
      requires Valid()
      modifies this
      ensures Valid()
      ensures Abs() == Codegen.StartRecord(old(Abs()))
    {
      recording := true;
      codeBuffer := "";
    }

    /** `sem_stop_record`. */
    method StopRecord() returns (bloque: string)
      requires Valid()
      modifies this
      ensures Valid()
      ensures (Abs(), bloque) == Codegen.StopRecord(old(Abs()))
    {
      recording := false;
      bloque := codeBuffer;
    }

    /**
     * `sem_emitir_bloque`: like `strtok`, skip the newlines, take the
     * characters up to the next newline as one line and emit it.
     */
    method EmitirBloque(bloque: Option<string>)
      requires Valid() && Room(Abs(), Codegen.BlockEmits(bloque))
      modifies this, instrucciones
      ensures Valid()
      ensures Abs() == Codegen.EmitirBloque(old(Abs()), bloque)
    {
      if bloque.None? {
        return;
      }
      var resto := bloque.value;
      ghost var hechas: seq<string> := [];
      while resto != []
        invariant Valid()
        invariant hechas + Lines(resto) == Lines(bloque.value)
        invariant Room(old(Abs()), |hechas|)
        invariant Abs() == EmitSeq(old(Abs()), hechas)
        decreases |resto|
      {
        if resto[0] == '\n' {
          resto := resto[1..];
        } else {
          var k := FirstNewline(resto);
          var linea := resto[..k];
          assert Lines(resto) == [linea] + Lines(resto[k..]);
          var _ := Emitir(linea);
          assert (hechas + [linea])[..|hechas|] == hechas;
          hechas := hechas + [linea];
          resto := resto[k..];
        }
      }
      assert hechas + Lines(resto) == hechas;
    }
  }
}
