/** The execution context carried through one turn: a string-keyed variable
    map (`state`), the step cursor, the accumulated outputs and errors, and
    the transient customer reference. */
module WorkflowContext {
  import opened Optional
  import opened Values

  /** The active customer, reduced to what the pipeline reads from it. */
  datatype CustomerRef = CustomerRef(id: nat, brandId: nat)

  datatype Context = Context(
    state: map<string, Value>,
    cursor: nat,
    customer: Option<CustomerRef>,
    outputs: seq<Value>,
    errors: seq<string>)

  /** `WorkflowContext.new(initial_state)`: the state is exactly the map
      passed in; everything else starts empty. */
  function New(initial: map<string, Value>): (c: Context)
    ensures c.state == initial
    ensures c.cursor == 0 && c.customer.None?
    ensures |c.outputs| == 0 && |c.errors| == 0
  {
    Context(initial, 0, None, [], [])
  }

  /** `WorkflowContext.new` with no argument. */
  function Fresh(): (c: Context)
    ensures c.state == map[] && c.cursor == 0 && c.customer.None?
    ensures |c.outputs| == 0 && |c.errors| == 0
  {
    New(map[])
  }

  /** `get(key)`: the entry under `key.to_s`, or `nil`. */
  function Get(c: Context, k: Key): (v: Value)
    ensures KeyName(k) !in c.state ==> v == Null
    ensures KeyName(k) in c.state ==> v == c.state[KeyName(k)]
  {
    At(c.state, KeyName(k))
  }

  /** `set(key, value)`: writes `value` under `key.to_s`; no other entry,
      nor the cursor, outputs, errors or customer, changes. */
  function Set(c: Context, k: Key, v: Value): (r: Context)
    ensures r.state.Keys == c.state.Keys + {KeyName(k)}
    ensures Get(r, k) == v
    ensures forall n | n in c.state && n != KeyName(k) :: r.state[n] == c.state[n]
    ensures r.cursor == c.cursor && r.customer == c.customer
    ensures r.outputs == c.outputs && r.errors == c.errors
  {
    c.(state := c.state[KeyName(k) := v])
  }

  /** `advance_step`: the cursor moves forward by exactly one. */
  function AdvanceStep(c: Context): (r: Context)
    ensures r.cursor == c.cursor + 1
    ensures r.state == c.state && r.customer == c.customer
    ensures r.outputs == c.outputs && r.errors == c.errors
  {
    c.(cursor := c.cursor + 1)
  }

  /** `halt!`: sets the reserved `halted` flag to true. */
  function Halt(c: Context): (r: Context)
    ensures Get(r, StringKey("halted")) == Bool(true)
    ensures r.state.Keys == c.state.Keys + {"halted"}
    ensures forall n | n in c.state && n != "halted" :: r.state[n] == c.state[n]
    ensures r.cursor == c.cursor && r.customer == c.customer
    ensures r.outputs == c.outputs && r.errors == c.errors
  {
    Set(c, StringKey("halted"), Bool(true))
  }

  /** The value read back after a write is the value written, under every
      spelling of a key that normalises to the same name, and the earlier
      value under any other key. */
  lemma GetAfterSet(c: Context, k: Key, v: Value, k': Key)
    ensures Get(Set(c, k, v), k') == if KeyName(k') == KeyName(k) then v else Get(c, k')
  {
  }

  /** A symbol key and the string of its name address the same entry. */
  lemma SymbolAndStringInterchangeable(c: Context, name: string, v: Value)
    ensures Get(Set(c, Symbol(name), v), StringKey(name)) == v
    ensures Get(Set(c, StringKey(name), v), Symbol(name)) == v
    ensures Set(c, Symbol(name), v) == Set(c, StringKey(name), v)
  {
  }

  /** Halting twice is the same as halting once. */
  lemma HaltIdempotent(c: Context)
    ensures Halt(Halt(c)) == Halt(c)
  {
  }

  /** Writes to two different names commute. */
  lemma SetCommutes(c: Context, k1: Key, v1: Value, k2: Key, v2: Value)
    requires KeyName(k1) != KeyName(k2)
    ensures Set(Set(c, k1, v1), k2, v2) == Set(Set(c, k2, v2), k1, v1)
  {
  }
}
