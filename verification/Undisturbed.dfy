/** Several steps of one thread in a row, with no step of another thread in between. */
module Undisturbed {
  import opened Base
  import opened Pipeline

  /** A sequence of flusher steps. */
  ghost predicate FlushesTo(c: Config, s: State, n: nat, t: State)
    decreases n
  {
    if n == 0 then s == t else CanFlush(c, s) && FlushesTo(c, DoFlush(c, s), n - 1, t)
  }

  lemma {:induction false} FlushesOn(c: Config, s: State, m: nat, t: State, n: nat, u: State)
    requires FlushesTo(c, s, m, t) && FlushesTo(c, t, n, u)
    ensures FlushesTo(c, s, m + n, u)
    decreases m
  {
    hide DoFlush, CanFlush;
    if m == 0 {
    } else {
      FlushesOn(c, DoFlush(c, s), m - 1, t, n, u);
    }
  }

  /** A sequence of fsyncer steps. */
  ghost predicate SyncsTo(c: Config, s: State, n: nat, t: State)
    decreases n
  {
    if n == 0 then s == t else CanSync(c, s) && SyncsTo(c, DoSync(c, s), n - 1, t)
  }

  /** A sequence of steps of cursor `k`. */
  ghost predicate ReadsTo(c: Config, s: State, k: nat, n: nat, t: State)
    decreases n
  {
    if n == 0 then s == t else CanRead(c, s, k) && ReadsTo(c, DoRead(c, s, k), k, n - 1, t)
  }
}
