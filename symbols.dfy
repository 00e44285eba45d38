/**
 * Symbols and the attributes threaded through the grammar actions.
 */
module Symbols {
  import opened Wrappers
  import opened JumpLists

  /** The types the generator distinguishes (T_ENTERO, T_REAL, T_ERROR). */
  datatype Tipo = Entero | Real | Error

  /** A declared variable, a literal or a generated temporary. */
  datatype Symbol = Symbol(nombre: string, tipo: Tipo)

  /**
   * The value of a grammar action: an arithmetic expression carries a
   * symbol, a boolean one carries its true and false jump lists instead.
   */
  datatype Atribs = Atribs(simb: Option<Symbol>, truelist: JumpList, falselist: JumpList, nextlist: JumpList)

  /** A value expression holding `s`, with no pending jumps (`crear_atribs`). */
  function CrearAtribs(s: Symbol): (a: Atribs)
    ensures a.simb == Some(s)
    ensures a.truelist == [] && a.falselist == [] && a.nextlist == []
  {
    Atribs(Some(s), [], [], [])
  }

  /** A literal (or a fresh temporary) named `valor` of type `tipo`, with no side effect. */
  function CrearLiteral(valor: string, tipo: Tipo): (a: Atribs)
    ensures a.simb.Some? && a.simb.value.nombre == valor && a.simb.value.tipo == tipo
    ensures a.truelist == [] && a.falselist == [] && a.nextlist == []
  {
    CrearAtribs(Symbol(valor, tipo))
  }

  /** The diagnostic reported for an undeclared name. */
  function Undeclared(nombre: string): string
  {
    "Variable no declarada: " + nombre
  }

  /**
   * `sem_obtener_simbolo` over the symbol table seen as a map from names
   * to symbols: a declared name yields a copy of its entry; an undeclared
   * one yields the placeholder `err` of type Error and a diagnostic, and
   * generation goes on.
   */
  function ObtenerSimbolo(tabla: map<string, Symbol>, nombre: string): (r: (Atribs, Option<string>))
    ensures r.0.simb.Some? && r.0.truelist == [] && r.0.falselist == [] && r.0.nextlist == []
    ensures r.1.Some? <==> nombre !in tabla
    ensures nombre in tabla ==> r.0.simb.value == tabla[nombre]
    ensures nombre !in tabla ==> r.0.simb.value == Symbol("err", Error) && r.1.value == Undeclared(nombre)
  {
    if nombre !in tabla then
      (CrearLiteral("err", Error), Some(Undeclared(nombre)))
    else
      var info := tabla[nombre];
      (CrearAtribs(Symbol(info.nombre, info.tipo)), None)
  }
}
