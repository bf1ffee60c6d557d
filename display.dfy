/** The bounded display text of a value (`VariableInspector.value_inspect`). */
module Display {
  import opened Values
  import opened Text

  /** The longest display text `value_inspect` asks for. */
  const MAX_LENGTH := 180

  /** A bounded, cycle-safe stringifier (`LimitedPP.safe_inspect` with
      `short: true`): given a value and a maximum length it never returns more
      than that many characters. */
  type SafeInspect = f: (Value, nat) -> string | forall v, n :: |f(v, n)| <= n
    witness (v: Value, n: nat) => ""

  /** The host's formatting of values: the stringifier above, and `String#dump`
      of the string a NaiveString wraps. */
  datatype Host = Host(safeInspect: SafeInspect, dump: Value -> string)

  /** `value_inspect(obj)`: the stringifier's output for `obj`, capped at
      MAX_LENGTH characters. Every `char` sequence is valid text here, so the
      re-encoding step leaves it unchanged. */
  function ValueInspect(h: Host, v: Value): (r: string)
    ensures |r| <= MAX_LENGTH
  {
    h.safeInspect(v, MAX_LENGTH)
  }

  /** Display text that ends in "...". The stringifier ends the text this way
      when it clips it; that convention belongs to the stringifier and is not
      a constraint of the SafeInspect type. */
  predicate Abridged(s: string) {
    EndsWith(s, "...")
  }
}
