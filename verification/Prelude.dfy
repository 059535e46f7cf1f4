/** Small types shared by every component. */
module Prelude {

  datatype Option<+T> = None | Some(value: T)

  datatype Result<+T, +E> = Ok(value: T) | Err(error: E)

  function Max(a: int, b: int): int {
    if a < b then b else a
  }

  function Min(a: int, b: int): int {
    if a < b then a else b
  }

  lemma {:induction false} SubsetSize<T>(a: set<T>, b: set<T>)
    requires a <= b
    ensures |a| <= |b|
  {
    if a != {} {
      var x :| x in a;
      SubsetSize(a - {x}, b - {x});
    }
  }
}

/** Genre lists, compared through an arbitrary normalisation of each genre. */
module Genres {

  type Genre = string

  function NormAll(norm: Genre -> Genre, gs: seq<Genre>): seq<Genre> {
    seq(|gs|, i requires 0 <= i < |gs| => norm(gs[i]))
  }

  lemma NormNext(norm: Genre -> Genre, gs: seq<Genre>, g: Genre)
    ensures NormAll(norm, gs + [g]) == NormAll(norm, gs) + [norm(g)]
  {
  }

  predicate SameGenres(norm: Genre -> Genre, a: seq<Genre>, b: seq<Genre>) {
    NormAll(norm, a) == NormAll(norm, b)
  }
}

/** Faults between the durable steps of a tool: each step goes ahead, raises, or never returns. */
module Faults {

  datatype Fate = Go | Fail | Crash

  /** How a step ended: carried out, an exception, or the process died. */
  datatype Step = Fine | Raised | Dead

  /** How an invocation ended; only Refused promises that nothing changed. */
  datatype Outcome = Done | Refused | Failed | Crashed

  predicate Quiet(fates: seq<Fate>) {
    forall i :: 0 <= i < |fates| ==> fates[i] == Go
  }
}
