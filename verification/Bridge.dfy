/**
 The way of a circuit to the server: the intermediate form as JSON, the safety check of untrusted JSON, and the
 Qiskit circuit rebuilt from it.
 */
module Bridge {
  import opened CanonicalJson
  import opened Qiskit
  import opened Statevector
  import opened Wrappers

  datatype Arity = Arity(params: nat, qubits: nat)

  type Gates = map<string, Arity>

  const ALLOWED_GATES: Gates := map[
    "h" := Arity(0, 1), "x" := Arity(0, 1), "y" := Arity(0, 1), "z" := Arity(0, 1),
    "s" := Arity(0, 1), "sdg" := Arity(0, 1), "t" := Arity(0, 1), "tdg" := Arity(0, 1), "sx" := Arity(0, 1),
    "id" := Arity(0, 1),
    "rz" := Arity(1, 1), "rx" := Arity(1, 1), "ry" := Arity(1, 1),
    "cx" := Arity(0, 2), "cz" := Arity(0, 2), "swap" := Arity(0, 2),
    "ccx" := Arity(0, 3)
  ]

  const MAX_QUBITS := 10
  const MAX_GATES := 256
  const MAX_SHOTS := 8192

  // --- the intermediate form as JSON -----------------------------------------------------------

  function QubitItems(qubits: seq<nat>): seq<Value> {
    seq(|qubits|, i requires 0 <= i < |qubits| => PyInt(qubits[i]))
  }

  function ParamItems(params: seq<real>): seq<Value> {
    seq(|params|, i requires 0 <= i < |params| => PyFloat(Finite(params[i])))
  }

  function GateDict(g: Gate): Value {
    PyDict([Entry("name", PyStr(g.name)), Entry("qubits", PyList(QubitItems(g.qubits))),
      Entry("params", PyList(ParamItems(g.params)))])
  }

  function GateDicts(gates: seq<Gate>): seq<Value> {
    seq(|gates|, i requires 0 <= i < |gates| => GateDict(gates[i]))
  }

  /** ir_to_dict */
  function IrToDict(ir: Circuit): Value {
    PyDict([Entry("schema", PyStr("qlir/1.0")), Entry("n_qubits", PyInt(ir.nQubits)),
      Entry("gates", PyList(GateDicts(ir.gates)))])
  }

  function Get(entries: seq<Entry>, key: string): Option<Value>
    decreases |entries|
  {
    if entries == [] then None
    else if entries[0].key == key then Some(entries[0].value)
    else Get(entries[1..], key)
  }

  // --- the safety check ----------------------------------------------------------------------

  /** Distinct qubit numbers in range. */
  predicate SafeQubits(items: seq<Value>, n: int, arity: nat) {
    && |items| == arity
    && (forall i :: 0 <= i < |items| ==> items[i].PyInt? && 0 <= items[i].n < n)
    && (forall i, j :: 0 <= i < j < |items| ==> items[i] != items[j])
  }

  predicate IsFiniteNumber(v: Value) {
    v.PyInt? || (v.PyFloat? && v.f.Finite?)
  }

  predicate SafeParams(items: seq<Value>, arity: nat) {
    |items| == arity && forall i :: 0 <= i < |items| ==> IsFiniteNumber(items[i])
  }

  /** The list under a key, or the default when the key is missing. */
  function ListAt(entries: seq<Entry>, key: string, default: Option<seq<Value>>): Option<seq<Value>> {
    var v := Get(entries, key);
    if v.None? then default else if v.value.PyList? then Some(v.value.items) else None
  }

  function NameOf(g: Value): Option<string> {
    if g.PyDict? && Get(g.entries, "name").Some? && Get(g.entries, "name").value.PyStr?
    then Some(Get(g.entries, "name").value.s) else None
  }

  function QubitsAt(g: Value): Option<seq<Value>> {
    if g.PyDict? then ListAt(g.entries, "qubits", None) else None
  }

  function ParamsAt(g: Value): Option<seq<Value>> {
    if g.PyDict? then ListAt(g.entries, "params", Some([])) else None
  }

  /** A gate dict that dict_to_ir can read: a name, qubit numbers and numbers for parameters. */
  predicate ReadableGate(g: Value) {
    && NameOf(g).Some?
    && QubitsAt(g).Some? && (forall i :: 0 <= i < |QubitsAt(g).value| ==> IsQubit(QubitsAt(g).value[i]))
    && ParamsAt(g).Some? && (forall i :: 0 <= i < |ParamsAt(g).value| ==> IsFiniteNumber(ParamsAt(g).value[i]))
  }

  predicate IsQubit(v: Value) {
    v.PyInt? && v.n >= 0
  }

  predicate SafeGate(allowed: Gates, g: Value, n: int): (r: bool)
    ensures r ==> ReadableGate(g)
  {
    && NameOf(g).Some? && NameOf(g).value in allowed
    && QubitsAt(g).Some? && SafeQubits(QubitsAt(g).value, n, allowed[NameOf(g).value].qubits)
    && ParamsAt(g).Some? && SafeParams(ParamsAt(g).value, allowed[NameOf(g).value].params)
  }

  function SizeOf(v: Value): Option<int> {
    if v.PyDict? && Get(v.entries, "n_qubits").Some? && Get(v.entries, "n_qubits").value.PyInt?
    then Some(Get(v.entries, "n_qubits").value.n) else None
  }

  function GatesAt(v: Value): Option<seq<Value>> {
    if v.PyDict? then ListAt(v.entries, "gates", None) else None
  }

  /** A circuit dict that dict_to_ir can read. */
  predicate ReadableCircuit(v: Value) {
    && SizeOf(v).Some? && SizeOf(v).value >= 0 && GatesAt(v).Some?
    && forall i :: 0 <= i < |GatesAt(v).value| ==> ReadableGate(GatesAt(v).value[i])
  }

  /** What an untrusted circuit must be: bounded, and made of allowed gates on distinct qubits in range. */
  predicate SafeCircuit(allowed: Gates, v: Value): (r: bool)
    ensures r ==> ReadableCircuit(v)
  {
    && SizeOf(v).Some? && 1 <= SizeOf(v).value <= MAX_QUBITS
    && GatesAt(v).Some? && 1 <= |GatesAt(v).value| <= MAX_GATES
    && forall i :: 0 <= i < |GatesAt(v).value| ==> SafeGate(allowed, GatesAt(v).value[i], SizeOf(v).value)
  }

  function NumberValue(v: Value): real
    requires IsFiniteNumber(v)
  {
    if v.PyInt? then v.n as real else v.f.x
  }

  /** The gate a gate dict describes. */
  function GateOf(g: Value): Gate
    requires ReadableGate(g)
  {
    var qubits, params := QubitsAt(g).value, ParamsAt(g).value;
    Gate(NameOf(g).value,
         seq<nat>(|qubits|, i requires 0 <= i < |qubits| => qubits[i].n),
         seq(|params|, i requires 0 <= i < |params| => NumberValue(params[i])))
  }

  /** The circuit a circuit dict describes. */
  function IrOf(v: Value): Circuit
    requires ReadableCircuit(v)
  {
    var gates := GatesAt(v).value;
    Circuit(SizeOf(v).value, seq(|gates|, i requires 0 <= i < |gates| => GateOf(gates[i])))
  }

  method AssertSafeParams(items: seq<Value>, arity: nat) returns (r: Result<seq<Value>>)
    ensures r.Ok? <==> SafeParams(items, arity)
    ensures r.Ok? ==> |r.value| == |items|
    ensures r.Ok? ==> forall i :: 0 <= i < |items| ==> r.value[i] == PyFloat(Finite(NumberValue(items[i])))
  {
    if |items| != arity {
      return Err("params has the wrong number of entries");
    }
    var floats: seq<Value> := [];
    for i := 0 to |items|
      invariant |floats| == i
      invariant forall j :: 0 <= j < i ==> IsFiniteNumber(items[j])
      invariant forall j :: 0 <= j < i ==> floats[j] == PyFloat(Finite(NumberValue(items[j])))
    {
      if !IsFiniteNumber(items[i]) {
        return Err("params must be finite numbers");
      }
      floats := floats + [PyFloat(Finite(NumberValue(items[i])))];
    }
    return Ok(floats);
  }

  /** assert_safe_circuit: accepts exactly the safe circuits, and returns their canonical form. */
  method AssertSafeCircuit(allowed: Gates, v: Value) returns (r: Result<Value>)
    ensures r.Ok? <==> SafeCircuit(allowed, v)
    ensures r.Ok? ==> r.value == IrToDict(IrOf(v))
  {
    var n := SizeOf(v);
    if n.None? || !(1 <= n.value <= MAX_QUBITS) {
      return Err("n_qubits must be an int in range");
    }
    var gates := GatesAt(v);
    if gates.None? || !(1 <= |gates.value| <= MAX_GATES) {
      return Err("gates must be a list of allowed length");
    }
    var canon: seq<Value> := [];
    for i := 0 to |gates.value|
      invariant |canon| == i
      invariant forall j :: 0 <= j < i ==> SafeGate(allowed, gates.value[j], n.value)
      invariant forall j :: 0 <= j < i ==> canon[j] == GateDict(GateOf(gates.value[j]))
    {
      var g := gates.value[i];
      var name := NameOf(g);
      if name.None? || name.value !in allowed {
        return Err("gate name not in allowlist");
      }
      var qubits := QubitsAt(g);
      if qubits.None? || !SafeQubits(qubits.value, n.value, allowed[name.value].qubits) {
        return Err("qubits must be distinct ints in range");
      }
      var params := ParamsAt(g);
      if params.None? {
        return Err("params must be a list");
      }
      var floats := AssertSafeParams(params.value, allowed[name.value].params);
      if floats.Err? {
        return Err(floats.error);
      }
      var gate := GateOf(g);
      assert floats.value == ParamItems(gate.params);
      assert qubits.value == QubitItems(gate.qubits);
      canon := canon + [PyDict([Entry("name", PyStr(name.value)), Entry("qubits", PyList(qubits.value)),
        Entry("params", PyList(floats.value))])];
    }
    assert canon == GateDicts(IrOf(v).gates);
    return Ok(PyDict([Entry("schema", PyStr("qlir/1.0")), Entry("n_qubits", PyInt(n.value)),
           Entry("gates", PyList(canon))]));
  }

  /** dict_to_ir, on any circuit dict it can read, checked or stored. */
  method DictToIr(v: Value) returns (ir: Circuit)
    requires ReadableCircuit(v)
    ensures ir == IrOf(v)
  {
    var items := GatesAt(v).value;
    var gates: seq<Gate> := [];
    for i := 0 to |items|
      invariant |gates| == i
      invariant forall j :: 0 <= j < i ==> gates[j] == GateOf(items[j])
    {
      gates := gates + [GateOf(items[i])];
    }
    ir := Circuit(SizeOf(v).value, gates);
  }

  // --- round trips -------------------------------------------------------------------------------

  predicate SafeIrGate(allowed: Gates, g: Gate, n: nat) {
    && g.name in allowed
    && |g.qubits| == allowed[g.name].qubits && |g.params| == allowed[g.name].params
    && (forall i :: 0 <= i < |g.qubits| ==> g.qubits[i] < n)
    && (forall i, j :: 0 <= i < j < |g.qubits| ==> g.qubits[i] != g.qubits[j])
  }

  /** A circuit of any size, made of gates of the table on distinct qubits in range. */
  predicate WellFormedIr(allowed: Gates, ir: Circuit) {
    forall i :: 0 <= i < |ir.gates| ==> SafeIrGate(allowed, ir.gates[i], ir.nQubits)
  }

  predicate SafeIr(allowed: Gates, ir: Circuit) {
    1 <= ir.nQubits <= MAX_QUBITS && 1 <= |ir.gates| <= MAX_GATES && WellFormedIr(allowed, ir)
  }

  lemma GateDictReads(g: Gate)
    ensures NameOf(GateDict(g)) == Some(g.name)
    ensures QubitsAt(GateDict(g)) == Some(QubitItems(g.qubits))
    ensures ParamsAt(GateDict(g)) == Some(ParamItems(g.params))
  {
    var entries := GateDict(g).entries;
    assert "name"[0] == 'n' && "qubits"[0] == 'q' && "params"[0] == 'p';
    assert Get(entries, "qubits") == Get(entries[1..], "qubits");
    assert Get(entries, "params") == Get(entries[1..], "params") == Get(entries[1..][1..], "params");
  }

  lemma IrDictReads(ir: Circuit)
    ensures SizeOf(IrToDict(ir)) == Some(ir.nQubits)
    ensures GatesAt(IrToDict(ir)) == Some(GateDicts(ir.gates))
  {
    var entries := IrToDict(ir).entries;
    assert "schema"[0] == 's' && "n_qubits"[0] == 'n' && "gates"[0] == 'g';
    assert Get(entries, "n_qubits") == Get(entries[1..], "n_qubits");
    assert Get(entries, "gates") == Get(entries[1..], "gates") == Get(entries[1..][1..], "gates");
  }

  lemma GateRoundTrip(g: Gate)
    ensures ReadableGate(GateDict(g)) && GateOf(GateDict(g)) == g
  {
    GateDictReads(g);
    var items := QubitItems(g.qubits);
    assert forall i :: 0 <= i < |items| ==> items[i] == PyInt(g.qubits[i]);
    assert GateOf(GateDict(g)).qubits == g.qubits;
    assert GateOf(GateDict(g)).params == g.params;
  }

  lemma SafeGateIff(allowed: Gates, g: Gate, n: nat)
    ensures SafeGate(allowed, GateDict(g), n) <==> SafeIrGate(allowed, g, n)
  {
    GateDictReads(g);
    var items := QubitItems(g.qubits);
    if SafeGate(allowed, GateDict(g), n) {
      assert forall i :: 0 <= i < |g.qubits| ==> items[i] == PyInt(g.qubits[i]);
    }
  }

  /** Every circuit written as JSON reads back unchanged, and passes the check exactly when it is safe. */
  lemma IrRoundTrip(allowed: Gates, ir: Circuit)
    ensures ReadableCircuit(IrToDict(ir)) && IrOf(IrToDict(ir)) == ir
    ensures SafeCircuit(allowed, IrToDict(ir)) <==> SafeIr(allowed, ir)
  {
    IrDictReads(ir);
    var dicts := GateDicts(ir.gates);
    forall i | 0 <= i < |ir.gates|
      ensures ReadableGate(dicts[i]) && GateOf(dicts[i]) == ir.gates[i]
      ensures SafeGate(allowed, dicts[i], ir.nQubits) <==> SafeIrGate(allowed, ir.gates[i], ir.nQubits)
    {
      GateRoundTrip(ir.gates[i]);
      SafeGateIff(allowed, ir.gates[i], ir.nQubits);
    }
    assert IrOf(IrToDict(ir)).gates == ir.gates;
  }

  lemma SafeGateReads(allowed: Gates, g: Value, n: nat)
    requires SafeGate(allowed, g, n)
    ensures SafeIrGate(allowed, GateOf(g), n)
  {
    var items, qubits := QubitsAt(g).value, GateOf(g).qubits;
    forall j, k | 0 <= j < k < |qubits|
      ensures qubits[j] != qubits[k]
    {
      assert items[j] == PyInt(qubits[j]) && items[k] == PyInt(qubits[k]);
    }
  }

  /** What the check lets through is safe, so checking the canonical form again changes nothing. */
  lemma SafeMeansSafeIr(allowed: Gates, v: Value)
    requires SafeCircuit(allowed, v)
    ensures SafeIr(allowed, IrOf(v))
    ensures SafeCircuit(allowed, IrToDict(IrOf(v)))
    ensures IrOf(IrToDict(IrOf(v))) == IrOf(v)
  {
    var gates := GatesAt(v).value;
    forall i | 0 <= i < |gates|
      ensures SafeIrGate(allowed, GateOf(gates[i]), SizeOf(v).value)
    {
      SafeGateReads(allowed, gates[i], SizeOf(v).value);
    }
    IrRoundTrip(allowed, IrOf(v));
  }

  /** What a gate builder accepts: its parameters and qubits are there, in range and distinct. */
  predicate Buildable(builders: Gates, g: Gate, n: nat) {
    && g.name in builders
    && |g.params| >= builders[g.name].params && |g.qubits| >= builders[g.name].qubits
    && (forall i :: 0 <= i < builders[g.name].qubits ==> g.qubits[i] < n)
    && (forall i, j :: 0 <= i < j < builders[g.name].qubits ==> g.qubits[i] != g.qubits[j])
  }

  /** The operation a builder appends: it reads as many parameters and qubits as its gate has. */
  function Built(builders: Gates, g: Gate, n: nat): Gate
    requires Buildable(builders, g, n)
  {
    Gate(g.name, g.qubits[..builders[g.name].qubits], g.params[..builders[g.name].params])
  }

  /** qiskit_from_ir */
  method QiskitFromIr(builders: Gates, ir: Circuit) returns (r: Result<QCircuit>)
    ensures r.Ok? <==> forall i :: 0 <= i < |ir.gates| ==> Buildable(builders, ir.gates[i], ir.nQubits)
    ensures r.Ok? ==> |r.value.ops| == |ir.gates| && r.value == Rebuilt(ir).(ops := r.value.ops)
    ensures r.Ok? ==> forall i :: 0 <= i < |ir.gates| ==>
            r.value.ops[i] == Op(Built(builders, ir.gates[i], ir.nQubits), [])
    ensures WellFormedIr(builders, ir) ==> r == Ok(Rebuilt(ir))
  {
    var ops: seq<Op> := [];
    for i := 0 to |ir.gates|
      invariant |ops| == i
      invariant forall j :: 0 <= j < i ==> Buildable(builders, ir.gates[j], ir.nQubits)
      invariant forall j :: 0 <= j < i ==> ops[j] == Op(Built(builders, ir.gates[j], ir.nQubits), [])
    {
      if !Buildable(builders, ir.gates[i], ir.nQubits) {
        return Err("unsupported gate or operands in circuit IR");
      }
      ops := ops + [Op(Built(builders, ir.gates[i], ir.nQubits), [])];
    }
    if WellFormedIr(builders, ir) {
      assert forall i :: 0 <= i < |ir.gates| ==> ops[i] == Plain(ir.gates)[i];
      assert ops == Plain(ir.gates);
    }
    return Ok(QCircuit(ir.nQubits, DefaultRegisters(ir.nQubits), {}, [], 0.0, ops));
  }

  predicate NoDirectives(gates: Gates) {
    "measure" !in gates && "barrier" !in gates
  }

  lemma AllowedHasNoDirectives()
    ensures NoDirectives(ALLOWED_GATES)
  {}

  /** A well-formed circuit rebuilt in Qiskit gives back the same intermediate form, and is transpiled as it is. */
  lemma RebuiltIsSame(allowed: Gates, ir: Circuit)
    requires WellFormedIr(allowed, ir) && NoDirectives(allowed)
    ensures ToIr(Rebuilt(ir)) == ir && Prepared(Rebuilt(ir)) == Rebuilt(ir)
  {
    forall i | 0 <= i < |ir.gates|
      ensures !IsDirective(Op(ir.gates[i], []))
    {
      assert SafeIrGate(allowed, ir.gates[i], ir.nQubits);
    }
    PlainGates(ir.gates);
  }

  /** What int() makes of a value: a number, a TypeError or ValueError, or for an infinity an OverflowError. */
  datatype Coerced = Number(n: int) | NoNumber | Infinite

  /** clamp_shots; only the OverflowError gets through. */
  function ClampShots(shots: Coerced): (r: Result<int>)
    ensures r.Err? <==> shots.Infinite?
    ensures r.Ok? ==> 1 <= r.value <= MAX_SHOTS
    ensures shots.NoNumber? ==> r == Ok(1024)
    ensures shots.Number? && 1 <= shots.n <= MAX_SHOTS ==> r == Ok(shots.n)
    ensures shots.Number? && shots.n < 1 ==> r == Ok(1)
    ensures shots.Number? && shots.n > MAX_SHOTS ==> r == Ok(MAX_SHOTS)
  {
    match shots
    case Infinite => Err("cannot convert float infinity to integer")
    case NoNumber => Ok(1024)
    case Number(n) => Ok(if n < 1 then 1 else if n > MAX_SHOTS then MAX_SHOTS else n)
  }
}
