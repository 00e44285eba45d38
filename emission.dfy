/**
 * The instruction store and the recording buffer: the generator's state
 * as a value, and instruction emission on it.
 */
module Emission {
  import opened Wrappers
  import opened Strings
  import opened JumpLists

  /** Capacity of the instruction store (MAX_INSTRUCCIONES). */
  const MaxInstrucciones: int := 10000
  /** Size of the recording buffer, terminating NUL included. */
  const TamCodeBuffer: int := 4096
  /** Depth of the switch-variable stack. */
  const MaxSwitch: int := 10
  /** Depth of the break-list stack. */
  const MaxBreak: int := 20

  /**
   * Every file-level variable of the generator: the store
   * `instrucciones[0..MaxInstrucciones)` (None for a NULL slot), the next
   * index `sig_instruccion`, the temporary counter, the recording flag and
   * buffer, and the used parts of the switch and break stacks (top last).
   */
  datatype Gen = Gen(
    instrs: seq<Option<string>>,
    next: int,
    temps: nat,
    recording: bool,
    buffer: string,
    switches: seq<string>,
    breaks: seq<JumpList>)

  /**
   * The state invariant: indices are handed out from 1 upwards, so exactly
   * the slots 1 .. next-1 hold an instruction; the counters and stacks stay
   * within their bounds.
   */
  predicate Valid(g: Gen)
  {
    && |g.instrs| == MaxInstrucciones
    && 1 <= g.next <= MaxInstrucciones
    && (forall i :: 0 <= i < |g.instrs| ==> (g.instrs[i].Some? <==> 1 <= i < g.next))
    && g.temps >= 1
    && |g.buffer| < TamCodeBuffer
    && |g.switches| <= MaxSwitch
    && |g.breaks| <= MaxBreak
  }

  /** The state at the start of a compilation. */
  function Initial(): (g: Gen)
    ensures Valid(g) && !g.recording && g.next == 1
    ensures g.temps == 1 && g.buffer == "" && g.switches == [] && g.breaks == []
    ensures forall i :: 0 <= i < |g.instrs| ==> g.instrs[i].None?
  {
    Gen(seq(MaxInstrucciones, _ => None), 1, 1, false, "", [], [])
  }

  /**
   * `k` more emissions do not reach the store's capacity, where the
   * source stops the process.
   */
  predicate Room(g: Gen, k: nat)
  {
    g.recording || g.next + k <= MaxInstrucciones
  }

  /** What emission leaves alone: the mode, the temporaries and both stacks. */
  predicate SameControl(g: Gen, h: Gen)
  {
    h.recording == g.recording && h.temps == g.temps && h.switches == g.switches && h.breaks == g.breaks
  }

  /** `sem_generar_etiqueta`: the index the next instruction will get. */
  function Label(g: Gen): int
  {
    g.next
  }

  /**
   * `sem_emitir`. While recording, the text and a newline are appended to
   * the buffer when they fit (otherwise they are dropped) and 0 is
   * returned; otherwise the text is stored at the next index, which is
   * returned and advanced.
   */
  function Emit(g: Gen, text: string): (r: (Gen, int))
    requires Valid(g) && Room(g, 1)
    ensures Valid(r.0) && SameControl(g, r.0)
    ensures r.0.next == if g.recording then g.next else g.next + 1
  {
    if g.recording then
      var buffer := if |g.buffer| + |text| + 2 < TamCodeBuffer then g.buffer + text + "\n" else g.buffer;
      (g.(buffer := buffer), 0)
    else
      (g.(instrs := g.instrs[g.next := Some(text)], next := g.next + 1), g.next)
  }

  /** The texts `ts` emitted one after the other. */
  function EmitSeq(g: Gen, ts: seq<string>): (r: Gen)
    requires Valid(g) && Room(g, |ts|)
    ensures Valid(r) && SameControl(g, r)
    ensures r.next == if g.recording then g.next else g.next + |ts|
    ensures g.recording ==> r.instrs == g.instrs
    decreases |ts|
  {
    if ts == [] then g
    else Emit(EmitSeq(g, ts[..|ts| - 1]), ts[|ts| - 1]).0
  }

  /** `sem_backpatch` on the state: only the store changes. */
  function BackpatchGen(g: Gen, l: JumpList, lbl: int): (r: Gen)
    requires Valid(g)
    ensures Valid(r) && SameControl(g, r) && r.next == g.next && r.buffer == g.buffer
  {
    g.(instrs := Backpatch(g.instrs, g.next, l, lbl))
  }

  /** One output line `"%d: %s\n"`. */
  function Line(i: nat, text: string): string
  {
    NatToString(i) + ": " + text + "\n"
  }

  /** The lines `sem_finalizar_salida` writes for the slots lo .. hi-1 that are not NULL. */
  function Listing(instrs: seq<Option<string>>, lo: nat, hi: nat): seq<string>
    requires hi <= |instrs|
    decreases hi
  {
    if hi <= lo then []
    else Listing(instrs, lo, hi - 1) + (if instrs[hi - 1].Some? then [Line(hi - 1, instrs[hi - 1].value)] else [])
  }

  /**
   * In a valid state every slot from 1 to next-1 holds an instruction, so
   * the listing has one line per emitted instruction, in index order.
   */
  lemma {:induction false} ListingComplete(g: Gen, hi: nat)
    requires Valid(g) && 1 <= hi <= g.next
    ensures |Listing(g.instrs, 1, hi)| == hi - 1
    ensures forall k :: 0 <= k < hi - 1 ==> Listing(g.instrs, 1, hi)[k] == Line(k + 1, g.instrs[k + 1].value)
    decreases hi
  {
    if hi > 1 {
      ListingComplete(g, hi - 1);
      assert g.instrs[hi - 1].Some?;
    }
  }
}
