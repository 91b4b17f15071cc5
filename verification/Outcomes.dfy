/** Shared vocabulary: optional values and what a database write may do. */
module Outcomes {

  datatype Option<+T> = None | Some(value: T)

  /** The three fates of one SQL statement.  `Applied` is a success; `Rejected` returned an error
      and changed nothing; `Unseen` took effect although its caller was told of an error. */
  datatype Write = Applied | Rejected | Unseen {

    predicate Lands() { this != Rejected }

    predicate Errs() { this != Applied }
  }

  /** What a table is after a statement that would turn `before` into `after`. */
  function Land<T>(w: Write, before: T, after: T): T {
    if w.Lands() then after else before
  }
}
