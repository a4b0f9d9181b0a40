/** The nodes of the tree a text is meant to have, told apart by their sources. */
module ExprAgreement {
  import opened Basics
  import opened Ast
  import opened Operators
  import opened ExprText
  import opened ExprRoundTrip
  import opened ExprSources

  // ---------- Every source of a tree belongs to one node ----------

  predicate Apart(t: Tree)
    decreases t
  {
    t.info.source !in ForestSources(t.kids) && ForestApart(t.kids)
  }

  predicate ForestApart(f: Forest)
    decreases f
  {
    match f
    case Nil => true
    case Cons(h, tl) => Apart(h) && ForestApart(tl) && Sources(h) !! ForestSources(tl)
  }

  lemma OneForest(t: Tree)
    ensures ForestSources(One(t)) == Sources(t) && (Apart(t) ==> ForestApart(One(t)))
  {
    hide Sources, Apart;
    assert ForestSources(One(t)) == Sources(t) + ForestSources(Nil);
  }

  // The sources of the trees are those of the tokens, each of them once.
  ghost predicate FromText(input: seq<Lexeme>, pos: nat, end: nat, f: Forest) {
    end <= |input| && ForestSources(f) <= Tokens(input, pos, end) && ForestApart(f)
  }

  ghost predicate TreeFrom(input: seq<Lexeme>, pos: nat, end: nat, t: Tree) {
    end <= |input| && Sources(t) <= Tokens(input, pos, end) && Apart(t)
  }

  lemma OneFrom(input: seq<Lexeme>, pos: nat, end: nat, t: Tree)
    requires TreeFrom(input, pos, end, t)
    ensures FromText(input, pos, end, One(t))
  {
    hide Sources, ForestSources, Apart, ForestApart, Tokens;
    OneForest(t);
  }

  // Two ranges in a row.
  lemma ConsFrom(input: seq<Lexeme>, pos: nat, middle: nat, from: nat, end: nat, t: Tree, f: Forest)
    requires TreeFrom(input, pos, middle, t) && FromText(input, from, end, f) && pos <= middle <= from <= end
    requires Distinct(input)
    ensures FromText(input, pos, end, Cons(t, f))
  {
    hide Sources, Apart;
    TokensApart(input, pos, middle, end);
    TokensMore(input, from, end, middle, end);
    TokensMore(input, pos, middle, pos, end);
    TokensMore(input, middle, end, pos, end);
    assert ForestSources(Cons(t, f)) == Sources(t) + ForestSources(f);
  }

  lemma Wider(input: seq<Lexeme>, pos: nat, end: nat, pos': nat, end': nat, f: Forest)
    requires FromText(input, pos, end, f) && pos' <= pos && end <= end' <= |input|
    ensures FromText(input, pos', end', f)
  {
    hide ForestSources, ForestApart;
    TokensMore(input, pos, end, pos', end');
  }

  // A node made of the token at `at`, which is none of those of its children.
  lemma NodeFrom(input: seq<Lexeme>, pos: nat, end: nat, at: nat, info: Info, f: Forest)
    requires FromText(input, pos, end, f) && pos <= at < end && Distinct(input) && info.source == SourceOf(input[at])
    requires info.source !in ForestSources(f)
    ensures TreeFrom(input, pos, end, Node(info, f))
  {
  }

  lemma Missing(input: seq<Lexeme>, pos: nat, end: nat, at: nat, f: Forest)
    requires FromText(input, pos, end, f) && Distinct(input) && at < |input| && (at < pos || end <= at)
    ensures SourceOf(input[at]) !in ForestSources(f)
  {
    hide ForestSources, ForestApart;
  }

  lemma {:induction false} TreeFromText(input: seq<Lexeme>, pos: nat, e: Expr)
    requires Reads(input, pos, e) && Distinct(input)
    ensures TreeFrom(input, pos, pos + Length(e), TreeOf(e))
    decreases e, 2
  {
    hide TreeFrom, FromText, Distinct, Reads, TreeOf, Length;
    match e
    case Paren(_, _, _) => UnaryFrom(input, pos, e);
    case Prefix(_, _, _, _, _) => UnaryFrom(input, pos, e);
    case Postfix(_, _, _) => UnaryFrom(input, pos, e);
    case Member(_, _, _, _) => UnaryFrom(input, pos, e);
    case Infix(_, _, _, _) => InfixFrom(input, pos, e);
    case Index(_, _, _, _) => IndexFrom(input, pos, e);
    case Call(_, _, _) => CallFrom(input, pos, e);
    case ArrayType(_, _, _, _) => ArrayTypeFrom(input, pos, e);
    case _ => AtomFrom(input, pos, e);
  }

  lemma {:induction false} UnaryFrom(input: seq<Lexeme>, pos: nat, e: Expr)
    requires Reads(input, pos, e) && Distinct(input) && (e.Paren? || e.Prefix? || e.Postfix? || e.Member?)
    ensures TreeFrom(input, pos, pos + Length(e), TreeOf(e))
    decreases e, 1
  {
    hide TreeFrom, FromText, Distinct, Reads, TreeOf, Length;
    ReadsInside(input, pos, e);
    var inner := e.inner;
    var from := pos + if e.Paren? then 1 else if e.Prefix? then if e.isMut then 2 else 1 else 0;
    UnaryShape(input, pos, e, from);
    TreeFromText(input, from, inner);
    if e.Paren? {
      TreeWider(input, from, from + Length(inner), pos, pos + Length(e), TreeOf(inner));
    } else {
      var at := if e.Prefix? then pos else pos + Length(inner);
      Single(input, from, from + Length(inner), pos, pos + Length(e), at, TreeOf(e).info, TreeOf(inner));
    }
  }

  lemma UnaryShape(input: seq<Lexeme>, pos: nat, e: Expr, from: nat)
    requires Reads(input, pos, e) && (e.Paren? || e.Prefix? || e.Postfix? || e.Member?)
    requires from == pos + if e.Paren? then 1 else if e.Prefix? then if e.isMut then 2 else 1 else 0
    ensures Reads(input, from, e.inner) && from + Length(e.inner) <= pos + Length(e)
    ensures if e.Paren? then TreeOf(e) == TreeOf(e.inner) else TreeOf(e) == Node(TreeOf(e).info, One(TreeOf(e.inner)))
    ensures !e.Paren? ==>
      var at := if e.Prefix? then pos else pos + Length(e.inner);
      at < |input| && at < pos + Length(e) && (at < from || from + Length(e.inner) <= at)
          && TreeOf(e).info.source == SourceOf(input[at])
  {
  }

  lemma {:induction false} InfixFrom(input: seq<Lexeme>, pos: nat, e: Expr)
    requires Reads(input, pos, e) && Distinct(input) && e.Infix?
    ensures TreeFrom(input, pos, pos + Length(e), TreeOf(e))
    decreases e, 1
  {
    hide TreeFrom, FromText, Distinct;
    ReadsInside(input, pos, e);
    var at, end := pos + Length(e.left), pos + Length(e);
    TreeFromText(input, pos, e.left);
    TreeFromText(input, at + 1, e.right);
    OneFrom(input, at + 1, end, TreeOf(e.right));
    Pair(input, pos, at, at + 1, end, end, at, TreeOf(e).info, TreeOf(e.left), One(TreeOf(e.right)));
  }

  lemma {:induction false} IndexFrom(input: seq<Lexeme>, pos: nat, e: Expr)
    requires Reads(input, pos, e) && Distinct(input) && e.Index?
    ensures TreeFrom(input, pos, pos + Length(e), TreeOf(e))
    decreases e, 1
  {
    hide TreeFrom, FromText, Distinct;
    ReadsInside(input, pos, e);
    var at := pos + Length(e.inner);
    TreeFromText(input, pos, e.inner);
    TreeFromText(input, at + 1, e.index);
    OneFrom(input, at + 1, at + 1 + Length(e.index), TreeOf(e.index));
    Pair(input, pos, at, at + 1, at + 1 + Length(e.index), pos + Length(e), at, TreeOf(e).info, TreeOf(e.inner),
      One(TreeOf(e.index)));
  }

  lemma {:induction false} CallFrom(input: seq<Lexeme>, pos: nat, e: Expr)
    requires Reads(input, pos, e) && Distinct(input) && e.Call?
    ensures TreeFrom(input, pos, pos + Length(e), TreeOf(e))
    decreases e, 1
  {
    hide TreeFrom, FromText, Distinct, ForestOf, ReadsArgs, ArgsLength;
    ReadsInside(input, pos, e);
    var at, end := pos + Length(e.inner), pos + Length(e);
    TreeFromText(input, pos, e.inner);
    ArgsFromText(input, at + 1, e.args);
    Pair(input, pos, at, at + 1, end, end, at, TreeOf(e).info, TreeOf(e.inner), ForestOf(e.args));
  }

  lemma {:induction false} ArrayTypeFrom(input: seq<Lexeme>, pos: nat, e: Expr)
    requires Reads(input, pos, e) && Distinct(input) && e.ArrayType?
    ensures TreeFrom(input, pos, pos + Length(e), TreeOf(e))
    decreases e, 1
  {
    hide TreeFrom, FromText, Distinct;
    ReadsInside(input, pos, e);
    var at := pos + 1 + Length(e.count);
    TreeFromText(input, pos + 1, e.count);
    TreeFromText(input, at + 1, e.inner);
    OneFrom(input, at + 1, pos + Length(e), TreeOf(e.inner));
    ArrayFrom(input, pos, at, pos + Length(e), TreeOf(e).info, TreeOf(e.count), TreeOf(e.inner));
  }

  lemma TreeWider(input: seq<Lexeme>, pos: nat, end: nat, pos': nat, end': nat, t: Tree)
    requires TreeFrom(input, pos, end, t) && pos' <= pos && end <= end' <= |input|
    ensures TreeFrom(input, pos', end', t)
  {
    hide Sources, Apart;
    TokensMore(input, pos, end, pos', end');
  }

  lemma AtomFrom(input: seq<Lexeme>, pos: nat, e: Expr)
    requires Reads(input, pos, e) && Distinct(input) && (e.Name? || e.Leaf? || e.Implied?)
    ensures TreeFrom(input, pos, pos + Length(e), TreeOf(e))
  {
    assert TreeOf(e).info.source == SourceOf(input[pos]);
    assert FromText(input, pos, pos + Length(e), Nil);
    NodeFrom(input, pos, pos + Length(e), pos, TreeOf(e).info, Nil);
  }

  // One child in `[from, to)`.
  lemma Single(input: seq<Lexeme>, from: nat, to: nat, pos: nat, end: nat, at: nat, info: Info, t: Tree)
    requires TreeFrom(input, from, to, t) && Distinct(input) && pos <= from && to <= end <= |input| && pos <= at < end
    requires (at < from || to <= at) && info.source == SourceOf(input[at])
    ensures TreeFrom(input, pos, end, Node(info, One(t)))
  {
    hide TreeFrom, FromText, Distinct;
    OneFrom(input, from, to, t);
    Missing(input, from, to, at, One(t));
    Wider(input, from, to, pos, end, One(t));
    NodeFrom(input, pos, end, at, info, One(t));
  }

  // The token between the first child and the others.
  lemma Pair(input: seq<Lexeme>, pos: nat, middle: nat, from: nat, to: nat, end: nat, at: nat, info: Info, t: Tree,
             f: Forest)
    requires TreeFrom(input, pos, middle, t) && FromText(input, from, to, f) && Distinct(input)
    requires pos <= middle <= at < from <= to <= end <= |input| && info.source == SourceOf(input[at])
    ensures TreeFrom(input, pos, end, Node(info, Cons(t, f)))
  {
    hide FromText, Distinct;
    Missing(input, from, to, at, f);
    NotYet(input, pos, middle, at);
    ConsFrom(input, pos, middle, from, to, t, f);
    Wider(input, pos, to, pos, end, Cons(t, f));
    assert ForestSources(Cons(t, f)) == Sources(t) + ForestSources(f);
    NodeFrom(input, pos, end, at, info, Cons(t, f));
  }

  lemma ArrayFrom(input: seq<Lexeme>, pos: nat, at: nat, end: nat, info: Info, l: Tree, r: Tree)
    requires TreeFrom(input, pos + 1, at, l) && FromText(input, at + 1, end, One(r)) && Distinct(input)
    requires pos + 1 <= at && at + 1 <= end <= |input| && info.source == SourceOf(input[pos])
    ensures TreeFrom(input, pos, end, Node(info, Cons(l, One(r))))
  {
    hide TreeFrom, FromText, Distinct;
    ConsFrom(input, pos + 1, at, at + 1, end, l, One(r));
    Missing(input, pos + 1, end, pos, Cons(l, One(r)));
    Wider(input, pos + 1, end, pos, end, Cons(l, One(r)));
    NodeFrom(input, pos, end, pos, info, Cons(l, One(r)));
  }

  lemma {:induction false} ArgsFromText(input: seq<Lexeme>, pos: nat, args: Exprs)
    requires ReadsArgs(input, pos, args) && Distinct(input)
    ensures FromText(input, pos, pos + ArgsLength(args), ForestOf(args))
    decreases args, 0
  {
    hide TreeFrom, Distinct, Length, TreeOf, Reads;
    ArgsInside(input, pos, args);
    match args
    case NoArgs(_) =>
    case Arg(arg, _, rest) =>
      TreeFromText(input, pos, arg);
      if rest.Arg? {
        ArgsFromText(input, pos + Length(arg) + 1, rest);
        ConsFrom(input, pos, pos + Length(arg), pos + Length(arg) + 1, pos + ArgsLength(args), TreeOf(arg),
          ForestOf(rest));
      } else {
        assert ForestOf(args) == One(TreeOf(arg));
        OneFrom(input, pos, pos + Length(arg), TreeOf(arg));
        Wider(input, pos, pos + Length(arg), pos, pos + ArgsLength(args), One(TreeOf(arg)));
      }
  }

  // ---------- Agreement with the meant tree ----------

  // Whatever has the source of the root of `e` is the tree of `e`.
  ghost predicate RootAgrees(t: Tree, e: Expr) {
    forall u | Has(t, u) && u.info.source == TreeOf(e).info.source :: u == TreeOf(e)
  }

  /** All nodes of `e` that occur in `t` occur as they are meant. */
  ghost predicate Agrees(t: Tree, e: Expr)
    decreases e, 0
  {
    RootAgrees(t, e) && match e
    case Paren(_, inner, _) => Agrees(t, inner)
    case Prefix(_, _, _, _, inner) => Agrees(t, inner)
    case Postfix(_, _, inner) => Agrees(t, inner)
    case Infix(_, _, left, right) => Agrees(t, left) && Agrees(t, right)
    case Member(_, inner, _, _) => Agrees(t, inner)
    case Call(_, inner, args) => Agrees(t, inner) && ArgsAgree(t, args)
    case Index(_, inner, index, _) => Agrees(t, inner) && Agrees(t, index)
    case ArrayType(_, count, _, inner) => Agrees(t, count) && Agrees(t, inner)
    case _ => true
  }

  ghost predicate ArgsAgree(t: Tree, args: Exprs)
    decreases args, 0
  {
    match args
    case NoArgs(_) => true
    case Arg(arg, _, rest) => Agrees(t, arg) && ArgsAgree(t, rest)
  }

  lemma {:induction false} AgreesInside(t: Tree, u: Tree, e: Expr)
    requires Agrees(t, e) && Has(t, u)
    ensures Agrees(u, e)
    decreases e, 0
  {
    hide Has, TreeOf;
    RootInside(t, u, e);
    match e
    case Paren(_, inner, _) => AgreesInside(t, u, inner);
    case Prefix(_, _, _, _, inner) => AgreesInside(t, u, inner);
    case Postfix(_, _, inner) => AgreesInside(t, u, inner);
    case Infix(_, _, left, right) => AgreesInside(t, u, left); AgreesInside(t, u, right);
    case Member(_, inner, _, _) => AgreesInside(t, u, inner);
    case Call(_, inner, args) => AgreesInside(t, u, inner); ArgsInsideToo(t, u, args);
    case Index(_, inner, index, _) => AgreesInside(t, u, inner); AgreesInside(t, u, index);
    case ArrayType(_, count, _, inner) => AgreesInside(t, u, count); AgreesInside(t, u, inner);
    case _ =>
  }

  lemma RootInside(t: Tree, u: Tree, e: Expr)
    requires RootAgrees(t, e) && Has(t, u)
    ensures RootAgrees(u, e)
  {
    hide TreeOf;
    forall v | Has(u, v)
      ensures Has(t, v)
    {
      HasTrans(t, u, v);
    }
  }

  lemma {:induction false} ArgsInsideToo(t: Tree, u: Tree, args: Exprs)
    requires ArgsAgree(t, args) && Has(t, u)
    ensures ArgsAgree(u, args)
    decreases args, 0
  {
    match args
    case NoArgs(_) =>
    case Arg(arg, _, rest) => AgreesInside(t, u, arg); ArgsInsideToo(t, u, rest);
  }

  // What has a source of `f` in `t` is inside `f`.
  ghost predicate Localized(t: Tree, f: Forest) {
    forall u | Has(t, u) && u.info.source in ForestSources(f) :: ForestHas(f, u)
  }

  ghost predicate LocalizedTree(t: Tree, v: Tree) {
    forall u | Has(t, u) && u.info.source in Sources(v) :: Has(v, u)
  }

  lemma {:induction false} OwnSource(t: Tree, u: Tree)
    requires Has(t, u)
    ensures u.info.source in Sources(t)
    decreases t
  {
    HasSources(t, u);
  }

  lemma LocalizedKids(t: Tree, v: Tree)
    requires LocalizedTree(t, v) && Apart(v)
    ensures Localized(t, v.kids)
    ensures forall u | Has(t, u) && u.info.source == v.info.source :: u == v
  {
    forall u | Has(t, u) && u.info.source in Sources(v)
      ensures u.info.source in ForestSources(v.kids) ==> ForestHas(v.kids, u)
      ensures u.info.source == v.info.source ==> u == v
    {
      assert Has(v, u);
      if u != v { ForestHasSources(v.kids, u); }
    }
  }

  lemma LocalizedParts(t: Tree, h: Tree, tl: Forest)
    requires Localized(t, Cons(h, tl)) && ForestApart(Cons(h, tl))
    ensures LocalizedTree(t, h) && Localized(t, tl)
  {
    assert ForestSources(Cons(h, tl)) == Sources(h) + ForestSources(tl);
    forall u | Has(t, u) && u.info.source in ForestSources(Cons(h, tl))
      ensures u.info.source in Sources(h) ==> Has(h, u)
      ensures u.info.source in ForestSources(tl) ==> ForestHas(tl, u)
    {
      if Has(h, u) { OwnSource(h, u); } else { ForestHasSources(tl, u); }
    }
  }

  lemma {:induction false} LocalizedAgrees(t: Tree, e: Expr)
    requires LocalizedTree(t, TreeOf(e)) && Apart(TreeOf(e))
    ensures Agrees(t, e)
    decreases e, 0
  {
    hide LocalizedTree, Localized, Has, Sources, ForestSources, Apart, ForestOf;
    var v := TreeOf(e);
    LocalizedKids(t, v);
    ApartKids(v);
    match e
    case Paren(_, inner, _) => LocalizedAgrees(t, inner);
    case Prefix(_, _, _, _, inner) => LocalizedParts(t, TreeOf(inner), Nil); LocalizedAgrees(t, inner);
    case Postfix(_, _, inner) => LocalizedParts(t, TreeOf(inner), Nil); LocalizedAgrees(t, inner);
    case Infix(_, _, left, right) =>
      LocalizedParts(t, TreeOf(left), One(TreeOf(right)));
      LocalizedParts(t, TreeOf(right), Nil);
      LocalizedAgrees(t, left);
      LocalizedAgrees(t, right);
    case Member(_, inner, _, _) => LocalizedParts(t, TreeOf(inner), Nil); LocalizedAgrees(t, inner);
    case Call(_, inner, args) =>
      LocalizedParts(t, TreeOf(inner), ForestOf(args));
      LocalizedAgrees(t, inner);
      LocalizedArgs(t, args);
    case Index(_, inner, index, _) =>
      LocalizedParts(t, TreeOf(inner), One(TreeOf(index)));
      LocalizedParts(t, TreeOf(index), Nil);
      LocalizedAgrees(t, inner);
      LocalizedAgrees(t, index);
    case ArrayType(_, count, _, inner) =>
      LocalizedParts(t, TreeOf(count), One(TreeOf(inner)));
      LocalizedParts(t, TreeOf(inner), Nil);
      LocalizedAgrees(t, count);
      LocalizedAgrees(t, inner);
    case _ =>
  }

  lemma ApartKids(t: Tree)
    requires Apart(t)
    ensures ForestApart(t.kids)
  {
  }

  lemma {:induction false} LocalizedArgs(t: Tree, args: Exprs)
    requires Localized(t, ForestOf(args)) && ForestApart(ForestOf(args))
    ensures ArgsAgree(t, args)
    decreases args, 0
  {
    hide LocalizedTree, Localized, Has, Sources, ForestSources, TreeOf;
    match args
    case NoArgs(_) =>
    case Arg(arg, _, rest) =>
      LocalizedParts(t, TreeOf(arg), ForestOf(rest));
      LocalizedAgrees(t, arg);
      LocalizedArgs(t, rest);
  }

  /** The meant tree agrees with what is meant. */
  lemma MeantAgrees(input: seq<Lexeme>, pos: nat, e: Expr)
    requires Reads(input, pos, e) && Distinct(input)
    ensures Agrees(TreeOf(e), e)
  {
    hide Reads, Agrees, Has, Sources, Apart;
    TreeFromText(input, pos, e);
    LocalizedAgrees(TreeOf(e), e);
  }
}
