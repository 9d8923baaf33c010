/**
 * The effectful functions the `macrofx` combinators wrap
 * (`packages/macrofx/src/types.ts`): a named function of its arguments that
 * either returns a value or throws.
 */
module MacroFx {
  import opened JsValue

  /** How one call of a wrapped function ends. */
  datatype Outcome = Returned(value: Value) | Threw(error: Value)

  /**
   * A wrapped function with its dependencies already applied. `run(args, n)`
   * is the outcome of its `n`-th invocation (counting from 0), so that a
   * function may fail a few times and then succeed.
   */
  datatype Op = Op(name: string, run: (seq<Value>, nat) -> Outcome)
}
