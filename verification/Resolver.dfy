/** The chain of resolver contexts the encoder climbs (resolver/context.go). */
module Resolver {
  import opened Messages

  /** A context that has a path component. PathParent skips virtual children, so every context
      the encoder can reach has one. */
  class Context {
    /** PathParent: null directly below the root. */
    const parent: Context?
    /** PathComponent.QueryNodeId or PathComponent.ArrayIndex. */
    const step: Step
    /** The full result path of this context. */
    ghost const path: Path

    /** The mutable fields of PathComponent. */
    var posIdentifier: nat
    var value: Option<Primitive>
    var error: seq<Byte>
    var isFinal: bool

    /** FieldChild and ArrayChild: a new, unlabelled component below `parent`. */
    constructor (parent: Context?, step: Step)
      requires parent != null ==> Chained(parent)
      ensures this.parent == parent && this.step == step
      ensures Chained(this)
      ensures path == (if parent == null then [] else parent.path) + [step]
      ensures posIdentifier == 0 && value == None && error == [] && !isFinal
    {
      this.parent := parent;
      this.step := step;
      this.path := (if parent == null then [] else parent.path) + [step];
      posIdentifier, value, error, isFinal := 0, None, [], false;
    }
  }

  /** Each path extends the parent's by the context's own step, up to the top. */
  ghost predicate Chained(c: Context)
    decreases |c.path|
  {
    if c.parent == null then c.path == [c.step]
    else c.path == c.parent.path + [c.step] && Chained(c.parent)
  }
}
