/** From the text of an expression to its completed tree. */
module Frontend {
  import opened Ast
  import opened AstPool
  import opened Operators
  import opened Partition
  import opened ExprText
  import opened ExprRoundTrip
  import opened ExprPrinter
  import opened ExprParsers

  /** Writing an operator tree with the parentheses it needs, parsing the text and completing the
      builder stores exactly that tree, in preorder, behind what the pool held. */
  method ParseAndComplete(pool: AstPool, input: seq<Lexeme>, ghost e: Expr, ghost rest: seq<Lexeme>)
    returns (r: Outcome, panicked: bool, root: nat)
    requires pool.Valid() && pool.nodeBuilder == [] && pool.sourceBuilder == []
    requires Proper(e, true) && input == Text(Parenthesize(e)) + rest && Ends(Peek(rest, 0).token, true)
    requires Height(TreeOf(e)) <= MAX_AST_DEPTH || OpenLists(TreeOf(e)) > MAX_AST_DEPTH
    modifies pool
    ensures r.Done? ==> Small(Parenthesize(e)) && (panicked <==> OpenLists(TreeOf(e)) > MAX_AST_DEPTH)
    ensures r.Failed? ==> !Small(Parenthesize(e))
    ensures r.Done? && !panicked ==> (
      && pool.Valid() && root == |old(pool.nodes)| && |pool.nodes| == root + Qwords(TreeOf(e))
      && pool.nodes[..root] == old(pool.nodes) && pool.sources[..root] == old(pool.sources)
      && Stored(pool.nodes[root..], 0, TreeOf(e), true, true) && SourcesStored(pool.sources[root..], 0, TreeOf(e)))
  {
    hide Operators.ParseExpr, Parenthesize, Text, Proper, Small, Ends, TreeOf, Laid, SourcesLaid, Stored, SourcesStored;
    panicked, root := false, 0;
    RoundTrip(e, true, rest);
    var parser := new ExprParser(pool, input);
    var token;
    ghost var t;
    r, token, t := parser.ParseExpr(true);
    if r.Done? {
      panicked, root := pool.CompleteAst(t);
    }
  }
}
