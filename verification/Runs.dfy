/** Runs of a state machine whose step may be impossible. */
module Runs {
  import opened Results
  ghost predicate Chain<S, E>(move: (S, E) -> Option<S>, s: S, es: seq<E>, t: S)
    decreases |es|
  {
    if es == [] then s == t
    else
      var next := move(s, es[0]);
      next.Some? && Chain(move, next.value, es[1..], t)
  }

  lemma {:induction false} ChainAppends<S, E>(move: (S, E) -> Option<S>, s: S, es: seq<E>, t: S, fs: seq<E>, u: S)
    requires Chain(move, s, es, t) && Chain(move, t, fs, u)
    ensures Chain(move, s, es + fs, u)
    decreases |es|
  {
    if es == [] {
      assert es + fs == fs;
    } else {
      var all := es + fs;
      assert all[0] == es[0] && all[1..] == es[1..] + fs;
      ChainAppends(move, move(s, es[0]).value, es[1..], t, fs, u);
    }
  }
}
