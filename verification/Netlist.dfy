/** Flat gate-level netlists in the shape of Yosys JSON, and what they mean.

    A module's meaning is the set of its settled valuations: an assignment of a
    value to every net that agrees with the input ports, with every cell and with
    the state of every flop. Cutting, merging, renumbering and splicing netlists
    are then statements about settled valuations, with no evaluation order in
    them. NetlistEval shows that an acyclic module has exactly one. */
module Netlist {

  datatype Option<+T> = None | Some(value: T)

  // Generated names are constructors rather than prefixed strings.
  datatype Tag =
    | Ppi | Ppo
    | CtrlBranch | QMux | QInv | DBranch | DMux | DInv | Observe | QPo
    | EnInv | EnD | EnQ | EnOr
    | Wbi | Wbo | WbObserve
    | Inside(inst: Name)
    | Indexed(i: nat)

  datatype Name = Text(text: string) | Made(tag: Tag, base: Name)

  datatype Bit = Net(id: nat) | Lit(value: bool)

  datatype Pin =
    | A | B | Y
    | D | Q | SDI | SE | CLK | CTRL | EN
    | From | To | CTI | CTO
    | Named(name: Name)

  // The single async control a flop may have; both are active low.
  datatype Control = NoControl | Reset | Set

  // The level of the enable pin that loads D.
  datatype Enable = NoEnable | High | Low

  datatype Kind =
    | Lib(typ: string)                     // a library gate, or an instance of a block
    | Buf | Inv | And2 | Or2               // the generated gates
    | Flop(ctl: Control, en: Enable)       // a library flop
    | Scan(ctl: Control)                   // a generic scan flop
    | WbcIn(scan: bool) | WbcOut(scan: bool)   // transparent wrapper cells, plain or shiftable

  datatype Cell = Cell(kind: Kind, outs: set<Pin>, conns: map<Pin, seq<Bit>>)

  datatype Dir = Input | Output

  datatype Port = Port(dir: Dir, bits: seq<Bit>)

  datatype Module = Module(ports: map<Name, Port>, cells: map<Name, Cell>)

  datatype Fault = NoFault | Stuck(net: nat, value: bool)

  // What each output bit of a library gate computes from its input pins.
  type Library = (string, Pin, nat, map<Pin, seq<bool>>) -> bool
  type Valuation = nat -> bool
  type Inputs = (Name, nat) -> bool
  type State = Name -> bool

  /* ---- values ---- */

  function BitVal(v: Valuation, b: Bit): bool
  {
    match b
    case Net(n) => v(n)
    case Lit(c) => c
  }

  function BitsVal(v: Valuation, bits: seq<Bit>): (r: seq<bool>)
  {
    seq(|bits|, i requires 0 <= i < |bits| => BitVal(v, bits[i]))
  }

  // A single-bit input pin's value; an unconnected pin reads as 0.
  function PinVal(v: Valuation, c: Cell, p: Pin): bool
  {
    p in c.conns && p !in c.outs && |c.conns[p]| > 0 && BitVal(v, c.conns[p][0])
  }

  function Ins(v: Valuation, c: Cell): map<Pin, seq<bool>>
  {
    map p | p in c.conns && p !in c.outs :: BitsVal(v, c.conns[p])
  }

  function Override(ctl: Control, line: bool, x: bool): bool
  {
    match ctl
    case NoControl => x
    case Reset => x && line
    case Set => x || !line
  }

  // What drives output bit i of pin p, given the cell's own state s.
  function OutVal(lib: Library, c: Cell, p: Pin, i: nat, s: bool, v: Valuation): bool
  {
    match c.kind
    case Lib(t) => lib(t, p, i, Ins(v, c))
    case Buf => PinVal(v, c, A)
    case Inv => !PinVal(v, c, A)
    case And2 => PinVal(v, c, A) && PinVal(v, c, B)
    case Or2 => PinVal(v, c, A) || PinVal(v, c, B)
    case Flop(ctl, _) =>
      var x := Override(ctl, PinVal(v, c, CTRL), s);
      if p == Q then x else !x
    case Scan(ctl) =>
      // While scan enable is on the async control is gated off.
      if PinVal(v, c, SE) then s else Override(ctl, PinVal(v, c, CTRL), s)
    case WbcIn(_) => if p == CTO then s else PinVal(v, c, From)
    case WbcOut(_) => if p == CTO then s else PinVal(v, c, From)
  }

  // The state a flop takes at the clock edge.
  function NextVal(c: Cell, s: bool, v: Valuation): bool
  {
    match c.kind
    case Flop(ctl, en) =>
      var load := en.NoEnable? || (PinVal(v, c, EN) == en.High?);
      Override(ctl, PinVal(v, c, CTRL), if load then PinVal(v, c, D) else s)
    case Scan(ctl) =>
      if PinVal(v, c, SE) then PinVal(v, c, SDI)
      else Override(ctl, PinVal(v, c, CTRL), PinVal(v, c, D))
    case _ => s
  }

  /* ---- settled valuations ---- */

  predicate Free(f: Fault, n: nat) { f.Stuck? ==> f.net != n }

  ghost predicate CellOk(lib: Library, f: Fault, c: Cell, s: bool, v: Valuation)
  {
    forall p, i :: p in c.conns && p in c.outs && 0 <= i < |c.conns[p]| && c.conns[p][i].Net?
                   && Free(f, c.conns[p][i].id)
                   ==> v(c.conns[p][i].id) == OutVal(lib, c, p, i, s, v)
  }

  ghost predicate PortOk(f: Fault, env: Inputs, name: Name, port: Port, v: Valuation)
  {
    port.dir.Input? ==>
      forall i :: 0 <= i < |port.bits| && port.bits[i].Net? && Free(f, port.bits[i].id)
                  ==> v(port.bits[i].id) == env(name, i)
  }

  ghost predicate Settled(lib: Library, m: Module, f: Fault, env: Inputs, st: State, v: Valuation)
  {
    && (f.Stuck? ==> v(f.net) == f.value)
    && (forall name :: name in m.ports ==> PortOk(f, env, name, m.ports[name], v))
    && (forall inst :: inst in m.cells ==> CellOk(lib, f, m.cells[inst], st(inst), v))
  }

  function Next(m: Module, st: State, v: Valuation): State
  {
    inst => if inst in m.cells then NextVal(m.cells[inst], st(inst), v) else st(inst)
  }

  /* ---- net ids in use ---- */

  ghost predicate BitsBelow(bits: seq<Bit>, k: nat)
  {
    forall i :: 0 <= i < |bits| && bits[i].Net? ==> bits[i].id < k
  }

  ghost predicate CellBelow(c: Cell, k: nat)
  {
    forall p :: p in c.conns ==> BitsBelow(c.conns[p], k)
  }

  // Every net id of the module is smaller than k, so k is a fresh id.
  ghost predicate Below(m: Module, k: nat)
  {
    && (forall name :: name in m.ports ==> BitsBelow(m.ports[name].bits, k))
    && (forall inst :: inst in m.cells ==> CellBelow(m.cells[inst], k))
  }

  ghost predicate FaultBelow(f: Fault, k: nat) { f.Stuck? ==> f.net < k }

  ghost predicate AgreeBelow(v: Valuation, w: Valuation, k: nat)
  {
    forall n: nat :: n < k ==> v(n) == w(n)
  }

  lemma BitsAgree(v: Valuation, w: Valuation, bits: seq<Bit>, k: nat)
    requires AgreeBelow(v, w, k) && BitsBelow(bits, k)
    ensures BitsVal(v, bits) == BitsVal(w, bits)
  {
    assert forall i :: 0 <= i < |bits| ==> BitVal(v, bits[i]) == BitVal(w, bits[i]);
  }

  lemma CellAgree(lib: Library, v: Valuation, w: Valuation, c: Cell, k: nat)
    requires AgreeBelow(v, w, k) && CellBelow(c, k)
    ensures Ins(v, c) == Ins(w, c)
    ensures forall p :: PinVal(v, c, p) == PinVal(w, c, p)
    ensures forall p, i: nat, s :: OutVal(lib, c, p, i, s, v) == OutVal(lib, c, p, i, s, w)
    ensures forall s :: NextVal(c, s, v) == NextVal(c, s, w)
  {
    forall p | p in c.conns
      ensures BitsVal(v, c.conns[p]) == BitsVal(w, c.conns[p])
    {
      BitsAgree(v, w, c.conns[p], k);
    }
  }

  // A net that occurs nowhere may take any value.
  lemma SettledAgree(lib: Library, m: Module, f: Fault, env: Inputs, st: State,
                     v: Valuation, w: Valuation, k: nat)
    requires AgreeBelow(v, w, k) && Below(m, k) && FaultBelow(f, k)
    requires Settled(lib, m, f, env, st, v)
    ensures Settled(lib, m, f, env, st, w)
  {
    forall inst | inst in m.cells
      ensures CellOk(lib, f, m.cells[inst], st(inst), w)
    {
      var c := m.cells[inst];
      assert CellOk(lib, f, c, st(inst), v);
      CellAgree(lib, v, w, c, k);
    }
  }

  // A cell sees only the values on its pins.
  lemma SameOnPins(lib: Library, c: Cell, v: Valuation, w: Valuation)
    requires forall p :: p in c.conns ==> BitsVal(v, c.conns[p]) == BitsVal(w, c.conns[p])
    ensures Ins(v, c) == Ins(w, c)
    ensures forall p :: PinVal(v, c, p) == PinVal(w, c, p)
    ensures forall p, i: nat, s :: OutVal(lib, c, p, i, s, v) == OutVal(lib, c, p, i, s, w)
    ensures forall s :: NextVal(c, s, v) == NextVal(c, s, w)
  {
    forall p | p in c.conns && |c.conns[p]| > 0 ensures BitVal(v, c.conns[p][0]) == BitVal(w, c.conns[p][0]) {
      assert BitsVal(v, c.conns[p])[0] == BitsVal(w, c.conns[p])[0];
    }
  }

  // The valuations agree on the cell's nets.
  ghost predicate AgreeOn(c: Cell, v: Valuation, w: Valuation)
  {
    forall p, i :: p in c.conns && 0 <= i < |c.conns[p]| ==> BitVal(v, c.conns[p][i]) == BitVal(w, c.conns[p][i])
  }

  lemma CellOkAgree(lib: Library, f: Fault, c: Cell, s: bool, v: Valuation, w: Valuation)
    requires AgreeOn(c, v, w)
    ensures CellOk(lib, f, c, s, v) <==> CellOk(lib, f, c, s, w)
    ensures NextVal(c, s, v) == NextVal(c, s, w)
  {
    forall p | p in c.conns ensures BitsVal(v, c.conns[p]) == BitsVal(w, c.conns[p]) {}
    assert Ins(v, c) == Ins(w, c);
    assert forall p :: PinVal(v, c, p) == PinVal(w, c, p);
    assert forall p, i: nat :: OutVal(lib, c, p, i, s, v) == OutVal(lib, c, p, i, s, w);
    hide OutVal, Ins, PinVal, NextVal;
    assert forall p, i :: p in c.conns && 0 <= i < |c.conns[p]| && c.conns[p][i].Net? ==> v(c.conns[p][i].id) == w(c.conns[p][i].id);
  }

  /* ---- replacing one net by another ---- */

  function SubBit(b: Bit, q: nat, r: nat): Bit { if b == Net(q) then Net(r) else b }

  function SubBits(bits: seq<Bit>, q: nat, r: nat): (res: seq<Bit>)
  {
    seq(|bits|, i requires 0 <= i < |bits| => SubBit(bits[i], q, r))
  }

  function SubCell(c: Cell, q: nat, r: nat): Cell
  {
    c.(conns := map p | p in c.conns :: SubBits(c.conns[p], q, r))
  }

  function SubFault(f: Fault, q: nat, r: nat): Fault
  {
    if f.Stuck? && f.net == q then Stuck(r, f.value) else f
  }

  // The full scan: q becomes r in every cell and in every port outside `keep`.
  function Substitute(m: Module, q: nat, r: nat, keep: set<Name>): Module
  {
    Module(map name | name in m.ports ::
             if name in keep then m.ports[name]
             else Port(m.ports[name].dir, SubBits(m.ports[name].bits, q, r)),
           map inst | inst in m.cells :: SubCell(m.cells[inst], q, r))
  }

  // The valuation of the original netlist that a valuation of the rewired one stands for.
  function Pull(v: Valuation, q: nat, r: nat): Valuation
  {
    (n: nat) => if n == q then v(r) else v(n)
  }

  lemma BitsSub(v: Valuation, bits: seq<Bit>, q: nat, r: nat)
    ensures BitsVal(v, SubBits(bits, q, r)) == BitsVal(Pull(v, q, r), bits)
  {
    assert forall i :: 0 <= i < |bits| ==>
      BitVal(v, SubBit(bits[i], q, r)) == BitVal(Pull(v, q, r), bits[i]);
  }

  lemma CellSub(lib: Library, v: Valuation, c: Cell, q: nat, r: nat)
    ensures Ins(v, SubCell(c, q, r)) == Ins(Pull(v, q, r), c)
    ensures forall p :: PinVal(v, SubCell(c, q, r), p) == PinVal(Pull(v, q, r), c, p)
    ensures forall p, i: nat, s :: OutVal(lib, SubCell(c, q, r), p, i, s, v)
                              == OutVal(lib, c, p, i, s, Pull(v, q, r))
    ensures forall s :: NextVal(SubCell(c, q, r), s, v) == NextVal(c, s, Pull(v, q, r))
  {
    forall p | p in c.conns
      ensures BitsVal(v, SubBits(c.conns[p], q, r)) == BitsVal(Pull(v, q, r), c.conns[p])
    {
      BitsSub(v, c.conns[p], q, r);
    }
  }

  // Renaming a net to one the module does not use changes nothing, faults included.
  lemma CellOkSub(lib: Library, f: Fault, c: Cell, s: bool, v: Valuation, q: nat, r: nat, k: nat)
    requires CellBelow(c, k) && FaultBelow(f, k) && k <= r
    ensures CellOk(lib, SubFault(f, q, r), SubCell(c, q, r), s, v)
       <==> CellOk(lib, f, c, s, Pull(v, q, r))
  {
    var c', w, g := SubCell(c, q, r), Pull(v, q, r), SubFault(f, q, r);
    CellSub(lib, v, c, q, r);
    if CellOk(lib, g, c', s, v) {
      forall p, i | p in c.conns && p in c.outs && 0 <= i < |c.conns[p]| && c.conns[p][i].Net?
                    && Free(f, c.conns[p][i].id)
        ensures w(c.conns[p][i].id) == OutVal(lib, c, p, i, s, w)
      {
        assert c'.conns[p][i] == SubBit(c.conns[p][i], q, r);
      }
    }
    if CellOk(lib, f, c, s, w) {
      forall p, i | p in c'.conns && p in c'.outs && 0 <= i < |c'.conns[p]| && c'.conns[p][i].Net?
                    && Free(g, c'.conns[p][i].id)
        ensures v(c'.conns[p][i].id) == OutVal(lib, c', p, i, s, v)
      {
        assert c'.conns[p][i] == SubBit(c.conns[p][i], q, r);
      }
    }
  }

  lemma PortOkSub(f: Fault, env: Inputs, name: Name, port: Port, v: Valuation, q: nat, r: nat, k: nat)
    requires BitsBelow(port.bits, k) && FaultBelow(f, k) && k <= r
    ensures PortOk(SubFault(f, q, r), env, name, Port(port.dir, SubBits(port.bits, q, r)), v)
       <==> PortOk(f, env, name, port, Pull(v, q, r))
  {
    var bits' := SubBits(port.bits, q, r);
    assert forall i :: 0 <= i < |bits'| ==> bits'[i] == SubBit(port.bits[i], q, r);
    assert forall i :: 0 <= i < |port.bits| ==> SubBit(port.bits[i], q, r) == bits'[i];
  }

  // Ports left alone by a rewire: outputs, or inputs that do not carry the net.
  ghost predicate KeptPortsAvoid(m: Module, q: nat, keep: set<Name>)
  {
    forall name :: name in keep && name in m.ports && m.ports[name].dir.Input?
                   ==> Net(q) !in m.ports[name].bits
  }

  lemma SettledSub(lib: Library, m: Module, f: Fault, env: Inputs, st: State, v: Valuation,
                   q: nat, r: nat, keep: set<Name>, k: nat)
    requires Below(m, k) && FaultBelow(f, k) && q < k <= r
    requires KeptPortsAvoid(m, q, keep)
    ensures Settled(lib, Substitute(m, q, r, keep), SubFault(f, q, r), env, st, v)
       <==> Settled(lib, m, f, env, st, Pull(v, q, r))
  {
    var m', w, g := Substitute(m, q, r, keep), Pull(v, q, r), SubFault(f, q, r);
    forall name | name in m.ports
      ensures PortOk(g, env, name, m'.ports[name], v) <==> PortOk(f, env, name, m.ports[name], w)
    {
      if name !in keep {
        PortOkSub(f, env, name, m.ports[name], v, q, r, k);
      }
    }
    forall inst | inst in m.cells
      ensures CellOk(lib, g, m'.cells[inst], st(inst), v) <==> CellOk(lib, f, m.cells[inst], st(inst), w)
    {
      CellOkSub(lib, f, m.cells[inst], st(inst), v, q, r, k);
    }
    assert m'.ports.Keys == m.ports.Keys && m'.cells.Keys == m.cells.Keys;
  }
}
