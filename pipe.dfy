/** `pipe(a, ...fns)` (`packages/core/src/lib/pipe.ts`): feeds `a` through `fns` from left to right. */
module Pipe {

  function Pipe<A>(a: A, fns: seq<A -> A>): A
    decreases |fns|
  {
    if |fns| == 0 then a else Pipe(fns[0](a), fns[1..])
  }

  /** With no functions `pipe` returns its input; with one it applies it; with two the first runs first. */
  lemma PipeSmall<A>(a: A, f: A -> A, g: A -> A)
    ensures Pipe(a, []) == a
    ensures Pipe(a, [f]) == f(a)
    ensures Pipe(a, [f, g]) == g(f(a))
  {
    assert [f][1..] == [];
    assert [f, g][1..] == [g];
    assert Pipe(f(a), [g]) == g(f(a));
  }

  /** Piping through `fs + gs` is piping through `fs`, then through `gs`. */
  lemma {:induction false} PipeAppend<A>(a: A, fs: seq<A -> A>, gs: seq<A -> A>)
    ensures Pipe(a, fs + gs) == Pipe(Pipe(a, fs), gs)
    decreases |fs|
  {
    if |fs| > 0 {
      assert (fs + gs)[1..] == fs[1..] + gs;
      PipeAppend(fs[0](a), fs[1..], gs);
    } else {
      assert fs + gs == gs;
    }
  }
}
