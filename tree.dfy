/** The part of a behaviour tree that node execution touches: the call stack of
    nodes currently executing (innermost last) and the flat list of nodes made
    active during this pass, addressed by index and nulled when a node completes.
    The tree's blackboard storage and its ambient "current tree" cell are not part
    of this model; the tree is passed explicitly. */
module ArborTree {

  /** The tree context as a value. */
  datatype TreeState = TreeState(stack: seq<object>, active: seq<object?>)

  class Tree {
    var stack: seq<object>
    var active: seq<object?>

    /** A tree at rest, before any update pass. */
    constructor ()
      ensures stack == [] && active == []
    {
      stack := [];
      active := [];
    }

    function State(): (s: TreeState)
      reads this
      ensures s.stack == stack && s.active == active
    {
      TreeState(stack, active)
    }
  }
}
