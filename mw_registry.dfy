/**
 * Named middleware (`packages/web/src/mw_registry.ts`): a registry maps a
 * capability name to a middleware, and `composeNamed` wraps a handler in the
 * middleware for a list of names, first name outermost.
 */
module MwRegistry {
  import opened Router

  type Registry<!S> = map<string, Middleware<S>>

  /** `defineRegistry<C>()(defs)`: a typing aid that hands back its argument. */
  function DefineRegistry<S>(defs: Registry<S>): (r: Registry<S>)
    ensures r == defs
  {
    defs
  }

  /** `names.map(n => reg[n]).filter(Boolean)`: the middleware of the known names, in list order. */
  function Resolve<S>(reg: Registry<S>, names: seq<string>): (chain: seq<Middleware<S>>)
    ensures |chain| <= |names|
    ensures (forall i :: 0 <= i < |names| ==> names[i] !in reg) ==> chain == []
    decreases |names|
  {
    if |names| == 0 then []
    else if names[0] in reg then [reg[names[0]]] + Resolve(reg, names[1..])
    else Resolve(reg, names[1..])
  }

  /** `composeNamed(reg, names)(h)`: the resolved chain folded from the right onto `h`. */
  function ComposeNamed<S>(reg: Registry<S>, names: seq<string>, h: Handler<S>): Handler<S> {
    Compose(Resolve(reg, names), h)
  }

  /** Resolving a concatenation resolves each part. */
  lemma {:induction false} ResolveAppend<S>(reg: Registry<S>, xs: seq<string>, ys: seq<string>)
    ensures Resolve(reg, xs + ys) == Resolve(reg, xs) + Resolve(reg, ys)
    decreases |xs|
  {
    if |xs| == 0 {
      assert xs + ys == ys;
    } else {
      assert (xs + ys)[1..] == xs[1..] + ys;
      ResolveAppend(reg, xs[1..], ys);
    }
  }

  /**
   * Composition by name distributes over concatenation of name lists:
   * the middleware of `xs` wrap the handler built from `ys`.
   */
  lemma ComposeNamedAppend<S>(reg: Registry<S>, xs: seq<string>, ys: seq<string>, h: Handler<S>)
    ensures ComposeNamed(reg, xs + ys, h) == ComposeNamed(reg, xs, ComposeNamed(reg, ys, h))
  {
    ResolveAppend(reg, xs, ys);
    ComposeAppend(Resolve(reg, xs), Resolve(reg, ys), h);
  }

  /**
   * One name resolves to its registry entry, or to nothing when unknown.
   * With `ResolveAppend` this fixes the chain of every list: the entries of
   * the known names, in list order.
   */
  lemma ResolveSingle<S>(reg: Registry<S>, n: string)
    ensures Resolve(reg, [n]) == if n in reg then [reg[n]] else []
  {
    assert [n][1..] == [];
  }

  /** Every entry of a resolved chain comes from a name in the list that the registry knows. */
  lemma {:induction false} ResolveFromKnown<S>(reg: Registry<S>, names: seq<string>, i: nat)
    requires i < |Resolve(reg, names)|
    ensures exists j :: 0 <= j < |names| && names[j] in reg && Resolve(reg, names)[i] == reg[names[j]]
    decreases |names|
  {
    var rest := names[1..];
    if names[0] in reg && i == 0 {
      assert Resolve(reg, names)[0] == reg[names[0]];
    } else {
      var i' := if names[0] in reg then i - 1 else i;
      ResolveFromKnown(reg, rest, i');
      var j :| 0 <= j < |rest| && rest[j] in reg && Resolve(reg, rest)[i'] == reg[rest[j]];
      assert names[j + 1] == rest[j];
    }
  }

  /** One known name wraps the handler in its middleware; an unknown one leaves it as it is. */
  lemma ComposeNamedSingle<S>(reg: Registry<S>, n: string, h: Handler<S>)
    ensures ComposeNamed(reg, [n], h) == if n in reg then reg[n](h) else h
  {
    ResolveSingle(reg, n);
    if n in reg {
      ComposeSmall(reg[n], reg[n], h);
    }
  }

  /** With two known names the first wraps the second. */
  lemma ComposeNamedPair<S>(reg: Registry<S>, a: string, b: string, h: Handler<S>)
    requires a in reg && b in reg
    ensures ComposeNamed(reg, [a, b], h) == reg[a](reg[b](h))
  {
    assert [a, b][1..] == [b];
    assert [b][1..] == [];
    assert Resolve(reg, [a, b]) == [reg[a], reg[b]];
    ComposeSmall(reg[a], reg[b], h);
  }

  /** No names, or only unknown names, leave the handler as it is. */
  lemma ComposeNamedUnknown<S>(reg: Registry<S>, names: seq<string>, h: Handler<S>)
    requires forall i :: 0 <= i < |names| ==> names[i] !in reg
    ensures ComposeNamed(reg, names, h) == h
  {
  }

  /** Dropping an unknown name anywhere in the list changes nothing. */
  lemma ComposeNamedSkipsUnknown<S>(reg: Registry<S>, xs: seq<string>, n: string, ys: seq<string>, h: Handler<S>)
    requires n !in reg
    ensures ComposeNamed(reg, xs + [n] + ys, h) == ComposeNamed(reg, xs + ys, h)
  {
    ResolveAppend(reg, xs + [n], ys);
    ResolveAppend(reg, xs, [n]);
    ResolveAppend(reg, xs, ys);
    assert Resolve(reg, [n]) == [] by { assert [n][1..] == []; }
    assert Resolve(reg, xs + [n] + ys) == Resolve(reg, xs + ys);
  }
}
