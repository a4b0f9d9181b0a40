/** The iterators as objects that advance in place. */
module AstWalk {
  import opened Basics
  import opened Ast
  import opened AstFlags
  import opened AstThreading
  import opened AstIterators

  class PreorderIterator {
    const cells: seq<Cell>
    var curr: int
    var depth: nat
    var top: int
    const prevDepths: array<nat>

    ghost predicate Valid()
      reads this
    {
      prevDepths.Length == MAX_AST_DEPTH && -1 <= top < MAX_AST_DEPTH
    }

    ghost function State(): PreState
      requires Valid()
      reads this, prevDepths
    {
      PreState(curr, depth, prevDepths[..top + 1])
    }

    constructor (cells: seq<Cell>, node: nat)
      requires HeaderAt(cells, node)
      ensures Valid() && fresh(prevDepths) && this.cells == cells && State() == PreStart(cells, node)
    {
      this.cells := cells;
      curr := if cells[node].structure.leaf then -1 else node + cells[node].own;
      depth := 0;
      top := -1;
      prevDepths := new nat[MAX_AST_DEPTH];
      new;
      assert prevDepths[..0] == [];
    }

    predicate HasNext()
      reads this
    {
      curr != -1
    }

    method Next() returns (item: Item)
      requires Valid() && PreNext(cells, State()).Ok?
      modifies this`curr, this`depth, this`top, prevDepths
      ensures Valid() && item == old(Item(curr, depth)) && Ok(State()) == old(PreNext(cells, State()))
    {
      ghost var stack := prevDepths[..top + 1];
      var node := cells[curr];
      item := Item(curr, depth);
      curr := curr + node.own;
      if !node.structure.leaf {
        if !node.structure.last {
          assert top + 1 < MAX_AST_DEPTH;
          top := top + 1;
          prevDepths[top] := depth;
          assert prevDepths[..top + 1] == stack + [depth];
        }
        assert depth + 1 < MAX_AST_DEPTH;
        depth := depth + 1;
      } else if node.structure.last {
        if top == -1 {
          curr := -1;
        } else {
          depth := prevDepths[top];
          top := top - 1;
          assert prevDepths[..top + 1] == Front(stack);
        }
      }
    }
  }

  /** Draining the preorder iterator of a completed tree. */
  method CollectPreorder(cells: seq<Cell>, base: nat, ghost t: Tree, ghost first: bool, ghost last: bool)
    returns (items: seq<Item>)
    requires Stored(cells, base, t, first, last) && ForestHeight(t.kids) <= MAX_AST_DEPTH
    ensures items == PreorderItems(t.kids, base + t.info.Own(), 0)
  {
    hide Stored, PreNext, PreorderItems;
    PreorderVisitsAll(t, cells, base, first, last);
    assert HeaderAt(cells, base) by {
      DescendantsAreSubtreeStart(t, cells, base, first, last);
    }
    var it := new PreorderIterator(cells, base);
    ghost var all := PreSteps(cells, PreStart(cells, base), ForestCount(t.kids)).value;
    ghost var left := ForestCount(t.kids);
    items := [];
    while it.HasNext()
      invariant it.Valid() && it.cells == cells && fresh(it) && fresh(it.prevDepths)
      invariant PreSteps(cells, it.State(), left).Ok?
      invariant items + PreSteps(cells, it.State(), left).value.0 == all.0
      invariant PreSteps(cells, it.State(), left).value.1 == all.1
      decreases left
    {
      PreStepsOne(cells, it.State(), left);
      ghost var before := items;
      ghost var s := it.State();
      var item := it.Next();
      items := items + [item];
      left := left - 1;
      assert before + ([item] + PreSteps(cells, it.State(), left).value.0)
          == items + PreSteps(cells, it.State(), left).value.0;
    }
    PreExhausted(cells, it.State(), left);
  }

  lemma DescendantsAreSubtreeStart(t: Tree, cells: seq<Cell>, base: nat, first: bool, last: bool)
    requires Stored(cells, base, t, first, last)
    ensures HeaderAt(cells, base)
  {
  }

  // An exhausted iterator can hand out nothing more.
  lemma PreExhausted(cells: seq<Cell>, s: PreState, n: nat)
    requires s.curr == -1 && PreSteps(cells, s, n).Ok?
    ensures PreSteps(cells, s, n).value.0 == []
  {
  }

  class PostorderIterator {
    const cells: seq<Cell>
    const start: nat
    var depth: int
    const offsets: array<nat>

    ghost predicate Valid()
      reads this
    {
      offsets.Length == MAX_AST_DEPTH && -1 <= depth < MAX_AST_DEPTH
    }

    // The array holds offsets from the start.
    ghost function State(): PostState
      requires Valid()
      reads this, offsets
    {
      PostState(seq(depth + 1, i requires 0 <= i <= depth
          && depth < offsets.Length reads this, offsets => start + offsets[i]))
    }

    constructor (cells: seq<Cell>, node: nat)
      requires PostStart(cells, node).Ok?
      ensures Valid() && fresh(offsets) && this.cells == cells && Ok(State()) == PostStart(cells, node)
    {
      this.cells := cells;
      start := node;
      depth := -1;
      offsets := new nat[MAX_AST_DEPTH];
      new;
      DescendFrom(node);
    }

    // Records the path of first children below `node`.
    method DescendFrom(node: nat)
      requires Valid() && start <= node && Descend(cells, node, State().offsets).Ok?
      modifies this`depth, offsets
      ensures Valid() && Ok(State()) == old(Descend(cells, node, State().offsets))
    {
      var curr := node;
      while !cells[curr].structure.leaf
        invariant Valid() && start <= curr < |cells| && cells[curr].Header?
        invariant Descend(cells, curr, State().offsets) == old(Descend(cells, node, State().offsets))
        decreases |cells| - curr
      {
        ghost var path := State().offsets;
        curr := curr + cells[curr].own;
        depth := depth + 1;
        assert depth < MAX_AST_DEPTH;
        offsets[depth] := curr - start;
        assert State().offsets == path + [curr];
      }
    }

    predicate HasNext()
      reads this
    {
      depth >= 0
    }

    method Next() returns (item: Item)
      requires Valid() && PostNext(cells, State()).Ok?
      modifies this`depth, offsets
      ensures Valid() && Ok(State()) == old(PostNext(cells, State()))
      ensures item == old(Item(Top(State().offsets), depth))
    {
      ghost var path := State().offsets;
      var curr := start + offsets[depth];
      item := Item(curr, depth);
      if !cells[curr].structure.last {
        curr := curr + cells[curr].next;
        offsets[depth] := curr - start;
        assert State().offsets == Front(path) + [curr];
        DescendFrom(curr);
      } else {
        depth := depth - 1;
        assert State().offsets == Front(path);
      }
    }
  }
}
