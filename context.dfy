/**
 * The traversal context threaded through one top-level call.
 */
module TraversalContext {
  import opened Types

  /**
   * Per-call traversal state: the visiting set used for cycle detection,
   * the class- and property-metadata stacks, and the depth counter.  The
   * direction and format are fixed for the lifetime of the context.
   */
  class Context {
    const direction: string
    const format: string
    var visiting: set<Value>
    var classStack: seq<ClassMetadata>
    var propertyStack: seq<PropertyMetadata>
    var depth: int

    constructor (direction: string, format: string)
      ensures this.direction == direction && this.format == format
      ensures visiting == {} && classStack == [] && propertyStack == [] && depth == 0
    {
      this.direction := direction;
      this.format := format;
      visiting := {};
      classStack := [];
      propertyStack := [];
      depth := 0;
    }

    predicate IsVisiting(v: Value)
      reads this
    {
      v in visiting
    }

    /** Adds `v` to the visiting set; reports whether it was absent before. */
    method StartVisiting(v: Value) returns (added: bool)
      modifies this`visiting
      ensures added == (v !in old(visiting))
      ensures visiting == old(visiting) + {v}
    {
      added := v !in visiting;
      visiting := visiting + {v};
    }

    method StopVisiting(v: Value)
      modifies this`visiting
      ensures visiting == old(visiting) - {v}
    {
      visiting := visiting - {v};
    }

    method PushClassMetadata(m: ClassMetadata)
      modifies this`classStack
      ensures classStack == old(classStack) + [m]
    {
      classStack := classStack + [m];
    }

    method PopClassMetadata()
      modifies this`classStack
      ensures classStack == if old(classStack) == [] then [] else old(classStack)[..|old(classStack)| - 1]
    {
      if classStack != [] {
        classStack := classStack[..|classStack| - 1];
      }
    }

    method PushPropertyMetadata(p: PropertyMetadata)
      modifies this`propertyStack
      ensures propertyStack == old(propertyStack) + [p]
    {
      propertyStack := propertyStack + [p];
    }

    method PopPropertyMetadata()
      modifies this`propertyStack
      ensures propertyStack == if old(propertyStack) == [] then [] else old(propertyStack)[..|old(propertyStack)| - 1]
    {
      if propertyStack != [] {
        propertyStack := propertyStack[..|propertyStack| - 1];
      }
    }

    method IncreaseDepth()
      modifies this`depth
      ensures depth == old(depth) + 1
    {
      depth := depth + 1;
    }

    method DecreaseDepth()
      modifies this`depth
      ensures depth == old(depth) - 1
    {
      depth := depth - 1;
    }
  }
}
