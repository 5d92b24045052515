/** Flattening of an EXPLAIN plan (`_walk_plan`): the preorder list of its nodes, each with
    its depth. The list determines the tree, and every well-shaped list is the list of one. */
module PlanTree {
  import opened Contracts

  /** A plan node of the JSON plan, in which every key may be missing. */
  datatype Plan = Plan(
    nodeType: Option<string>, relation: Option<string>, cost: Option<real>, rows: Option<int>,
    plans: Plans)

  /** The value under `Plans`: absent or null, or a list. */
  datatype Plans = Absent | Listed(nodes: seq<Plan>)

  datatype Label = Label(nodeType: string, relation: Option<string>, cost: real, rows: int)
  datatype Row = Row(depth: int, tag: Label)

  function LabelOf(p: Plan): Label {
    Label(if p.nodeType.Some? then p.nodeType.value else "?", p.relation,
          if p.cost.Some? then p.cost.value else 0.0, if p.rows.Some? then p.rows.value else 0)
  }

  function Children(p: Plan): seq<Plan>
    ensures forall c :: c in Children(p) ==> c < p
  {
    if p.plans.Listed? then p.plans.nodes else []
  }

  function Walk(p: Plan, depth: int): seq<Row>
    decreases p, 1
  {
    [Row(depth, LabelOf(p))] + WalkAll(p, Children(p), depth + 1)
  }

  /** The rows of the first children of p. */
  function WalkAll(p: Plan, cs: seq<Plan>, depth: int): seq<Row>
    requires forall c :: c in cs ==> c < p
    decreases p, 0, |cs|
  {
    if cs == [] then []
    else
      assert cs[0] in cs && forall c :: c in cs[1..] ==> c in cs;
      Walk(cs[0], depth) + WalkAll(p, cs[1..], depth)
  }

  /** The labelled tree behind a plan. */
  datatype Tree = Node(tag: Label, kids: Forest)
  datatype Forest = Nil | Cons(first: Tree, rest: Forest)

  function Normal(p: Plan): Tree
    decreases p, 1
  {
    Node(LabelOf(p), NormalAll(p, Children(p)))
  }

  function NormalAll(p: Plan, cs: seq<Plan>): Forest
    requires forall c :: c in cs ==> c < p
    decreases p, 0, |cs|
  {
    if cs == [] then Nil
    else
      assert cs[0] in cs && forall c :: c in cs[1..] ==> c in cs;
      Cons(Normal(cs[0]), NormalAll(p, cs[1..]))
  }

  function Rows(t: Tree, depth: int): seq<Row> {
    [Row(depth, t.tag)] + RowsAll(t.kids, depth + 1)
  }

  function RowsAll(f: Forest, depth: int): seq<Row> {
    match f case Nil => [] case Cons(t, r) => Rows(t, depth) + RowsAll(r, depth)
  }

  function Size(t: Tree): nat {
    1 + SizeAll(t.kids)
  }

  function SizeAll(f: Forest): nat {
    match f case Nil => 0 case Cons(t, r) => Size(t) + SizeAll(r)
  }

  /** The imperative walk: a list that each child's rows are appended to. */
  method WalkPlan(p: Plan, depth: int) returns (out: seq<Row>)
    ensures out == Walk(p, depth)
    decreases p
  {
    out := [Row(depth, LabelOf(p))];
    var cs := Children(p);
    for i := 0 to |cs|
      invariant out + WalkAll(p, cs[i..], depth + 1) == Walk(p, depth)
    {
      var sub := WalkPlan(cs[i], depth + 1);
      assert cs[i..][1..] == cs[i + 1..];
      assert out + (sub + WalkAll(p, cs[i + 1..], depth + 1)) == out + sub + WalkAll(p, cs[i + 1..], depth + 1);
      out := out + sub;
    }
    assert out + [] == out;
  }

  // ------------------------------------------------------------------ the decoder

  /** A forest of trees at one depth, read from the front of a list, and what is left. */
  datatype Parsed = Parsed(forest: Forest, rest: seq<Row>)

  function Parse(rows: seq<Row>, depth: int): (r: Parsed)
    ensures |r.rest| <= |rows|
    decreases |rows|
  {
    if rows == [] || rows[0].depth != depth then Parsed(Nil, rows)
    else
      var kids := Parse(rows[1..], depth + 1);
      var more := Parse(kids.rest, depth);
      Parsed(Cons(Node(rows[0].tag, kids.forest), more.forest), more.rest)
  }

  /** What may follow the rows of a forest at some depth. */
  predicate EndsAt(rows: seq<Row>, depth: int) {
    rows == [] || rows[0].depth < depth
  }

  lemma Layout(h: Row, a: seq<Row>, b: seq<Row>, c: seq<Row>)
    ensures ([h] + a) + b + c == [h] + (a + (b + c))
  {}

  /** Parsing inverts flattening, whatever shallower rows follow. */
  lemma {:induction false} ParseRows(f: Forest, depth: int, rest: seq<Row>)
    requires EndsAt(rest, depth)
    ensures Parse(RowsAll(f, depth) + rest, depth) == Parsed(f, rest)
    decreases f
  {
    match f {
      case Nil =>
        assert RowsAll(f, depth) + rest == rest;
      case Cons(t, r) =>
        var tail := RowsAll(r, depth) + rest;
        var rows := RowsAll(f, depth) + rest;
        var kids := RowsAll(t.kids, depth + 1);
        assert Rows(t, depth) == [Row(depth, t.tag)] + kids;
        assert rows == Rows(t, depth) + RowsAll(r, depth) + rest;
        Layout(Row(depth, t.tag), kids, RowsAll(r, depth), rest);
        assert rows[0] == Row(depth, t.tag) && rows[1..] == kids + tail;
        ForestStart(r, depth);
        ParseRows(t.kids, depth + 1, tail);
        ParseRows(r, depth, rest);
    }
  }

  lemma ForestStart(f: Forest, depth: int)
    ensures RowsAll(f, depth) != [] ==> RowsAll(f, depth)[0].depth == depth
    ensures RowsAll(f, depth) == [] <==> f.Nil?
  {}

  // ------------------------------------------------------------------ the image

  /** A root at the given depth, everything else deeper, and no level skipped on the way down. */
  predicate WellShaped(rows: seq<Row>, depth: int) {
    && rows != [] && rows[0].depth == depth
    && (forall k :: 1 <= k < |rows| ==> depth < rows[k].depth <= rows[k - 1].depth + 1)
  }

  /** No row above the depth, and no level skipped; the first row is at the depth. */
  predicate Shaped(rows: seq<Row>, depth: int) {
    && (rows != [] ==> rows[0].depth == depth)
    && (forall k :: 0 <= k < |rows| ==> depth <= rows[k].depth)
    && (forall k :: 1 <= k < |rows| ==> rows[k].depth <= rows[k - 1].depth + 1)
  }

  lemma ShapedConcat(a: seq<Row>, b: seq<Row>, depth: int)
    requires Shaped(a, depth) && Shaped(b, depth)
    ensures Shaped(a + b, depth)
  {}

  lemma {:induction false} RowsAreShaped(f: Forest, depth: int)
    ensures Shaped(RowsAll(f, depth), depth)
    decreases f
  {
    if f.Cons? {
      RowsAreShaped(f.first.kids, depth + 1);
      RowsAreShaped(f.rest, depth);
      ShapedConcat(Rows(f.first, depth), RowsAll(f.rest, depth), depth);
    }
  }

  /** No level is skipped on the way down. */
  predicate NoSkip(rows: seq<Row>) {
    forall k :: 1 <= k < |rows| ==> rows[k].depth <= rows[k - 1].depth + 1
  }

  lemma NoSkipDrop(rows: seq<Row>, n: nat)
    requires n <= |rows| && NoSkip(rows)
    ensures NoSkip(rows[n..])
  {
    forall k | 1 <= k < |rows| - n ensures rows[n..][k].depth <= rows[n..][k - 1].depth + 1 {
      assert rows[n + k].depth <= rows[n + k - 1].depth + 1;
    }
  }

  /** Parsing such a list rebuilds a prefix of it exactly, up to the first shallower row. */
  lemma {:induction false} ParseRebuilds(rows: seq<Row>, depth: int)
    requires NoSkip(rows) && (rows != [] ==> rows[0].depth <= depth)
    ensures var p := Parse(rows, depth);
            RowsAll(p.forest, depth) + p.rest == rows && EndsAt(p.rest, depth)
    decreases |rows|
  {
    if rows == [] || rows[0].depth != depth {
      assert [] + rows == rows;
    } else {
      ParseUnfold(rows, depth);
      hide Parse, RowsAll;
      var kids := Parse(rows[1..], depth + 1);
      NoSkipDrop(rows, 1);
      ParseRebuilds(rows[1..], depth + 1);
      SuffixIs(rows, RowsAll(kids.forest, depth + 1), kids.rest);
      NoSkipDrop(rows, |rows| - |kids.rest|);
      ParseRebuilds(kids.rest, depth);
      var more := Parse(kids.rest, depth);
      Reassemble(rows, RowsAll(kids.forest, depth + 1), RowsAll(more.forest, depth), more.rest);
    }
  }

  lemma ParseUnfold(rows: seq<Row>, depth: int)
    requires rows != [] && rows[0].depth == depth
    ensures var kids := Parse(rows[1..], depth + 1);
            var more := Parse(kids.rest, depth);
            && Parse(rows, depth).rest == more.rest
            && RowsAll(Parse(rows, depth).forest, depth)
               == ([rows[0]] + RowsAll(kids.forest, depth + 1)) + RowsAll(more.forest, depth)
  {}

  lemma SuffixIs(rows: seq<Row>, a: seq<Row>, b: seq<Row>)
    requires rows != [] && a + b == rows[1..]
    ensures b == rows[|rows| - |b|..]
  {
    assert rows == [rows[0]] + a + b;
  }

  lemma Reassemble(rows: seq<Row>, a: seq<Row>, b: seq<Row>, c: seq<Row>)
    requires rows != [] && a + (b + c) == rows[1..]
    ensures ([rows[0]] + a) + b + c == rows
  {
    assert rows == [rows[0]] + (a + (b + c));
  }

  // ------------------------------------------------------------------ main results

  /** The walk is the flattening of the labelled tree. */
  lemma {:induction false} WalkIsRows(p: Plan, depth: int)
    ensures Walk(p, depth) == Rows(Normal(p), depth)
    decreases p, 1
  {
    WalkAllIsRows(p, Children(p), depth + 1);
  }

  lemma {:induction false} WalkAllIsRows(p: Plan, cs: seq<Plan>, depth: int)
    requires forall c :: c in cs ==> c < p
    ensures WalkAll(p, cs, depth) == RowsAll(NormalAll(p, cs), depth)
    decreases p, 0, |cs|
  {
    if cs != [] {
      assert cs[0] in cs && forall c :: c in cs[1..] ==> c in cs;
      WalkIsRows(cs[0], depth);
      WalkAllIsRows(p, cs[1..], depth);
    }
  }

  /** The walk loses no structure: the decoder rebuilds exactly the labelled tree. */
  lemma DecodeWalk(p: Plan, depth: int)
    ensures Parse(Walk(p, depth), depth) == Parsed(Cons(Normal(p), Nil), [])
  {
    WalkIsRows(p, depth);
    var f := Cons(Normal(p), Nil);
    assert RowsAll(f, depth) + [] == Rows(Normal(p), depth);
    ParseRows(f, depth, []);
  }

  /** Two plans flatten to the same list exactly when their labelled trees are the same. */
  lemma WalkInjective(p: Plan, q: Plan, depth: int)
    ensures Walk(p, depth) == Walk(q, depth) <==> Normal(p) == Normal(q)
  {
    DecodeWalk(p, depth);
    DecodeWalk(q, depth);
    WalkIsRows(p, depth);
    WalkIsRows(q, depth);
  }

  lemma {:induction false} RowCount(f: Forest, depth: int)
    ensures |RowsAll(f, depth)| == SizeAll(f)
    decreases f
  {
    if f.Cons? {
      RowCount(f.first.kids, depth + 1);
      RowCount(f.rest, depth);
    }
  }

  /** One row per node, and the depths are those of a preorder. */
  lemma WalkShape(p: Plan, depth: int)
    ensures |Walk(p, depth)| == Size(Normal(p))
    ensures WellShaped(Walk(p, depth), depth)
  {
    WalkIsRows(p, depth);
    RowCount(Normal(p).kids, depth + 1);
    RowsAreShaped(Normal(p).kids, depth + 1);
  }

  /** Every well-shaped list is the flattening of exactly one labelled tree. */
  lemma WellShapedIsWalk(rows: seq<Row>, depth: int) returns (t: Tree)
    requires WellShaped(rows, depth)
    ensures Rows(t, depth) == rows && Parse(rows, depth) == Parsed(Cons(t, Nil), [])
  {
    hide Parse, RowsAll, Rows;
    AllIsBelow(rows, depth);
    t := Node(rows[0].tag, Parse(rows[1..], depth + 1).forest);
    OneTree(t, rows, depth);
  }

  lemma AllIsBelow(rows: seq<Row>, depth: int)
    requires WellShaped(rows, depth)
    ensures RowsAll(Parse(rows[1..], depth + 1).forest, depth + 1) + [] == rows[1..]
  {
    hide Parse, RowsAll, Rows;
    var tail := rows[1..];
    var kids := Parse(tail, depth + 1);
    NoSkipDrop(rows, 1);
    ParseRebuilds(tail, depth + 1);
    hide NoSkip, EndsAt;
    SuffixIs(rows, RowsAll(kids.forest, depth + 1), kids.rest);
    hide WellShaped;
    NothingLeft(rows, depth, |rows| - |kids.rest|);
  }

  lemma NothingLeft(rows: seq<Row>, depth: int, n: nat)
    requires WellShaped(rows, depth) && 1 <= n <= |rows| && EndsAt(rows[n..], depth + 1)
    ensures rows[n..] == []
  {}

  lemma OneTree(t: Tree, rows: seq<Row>, depth: int)
    requires rows != [] && rows[0] == Row(depth, t.tag) && RowsAll(t.kids, depth + 1) + [] == rows[1..]
    ensures Rows(t, depth) == rows && Parse(rows, depth) == Parsed(Cons(t, Nil), [])
  {
    assert RowsAll(t.kids, depth + 1) + [] == RowsAll(t.kids, depth + 1);
    assert rows == [rows[0]] + rows[1..];
    var f := Cons(t, Nil);
    assert RowsAll(f, depth) + [] == Rows(t, depth);
    ParseRows(f, depth, []);
  }

  // ------------------------------------------------------------------ the nodes, one by one

  /** The nodes of a plan, each before those under its `Plans`. */
  function Preorder(p: Plan): (ns: seq<Plan>)
    ensures |ns| >= 1 && ns[0] == p
    decreases p, 1
  {
    match p.plans
    case Absent => [p]
    case Listed(nodes) => [p] + PreorderAll(p, nodes)
  }

  function PreorderAll(p: Plan, cs: seq<Plan>): seq<Plan>
    requires forall c :: c in cs ==> c < p
    decreases p, 0, |cs|
  {
    if cs == [] then []
    else
      assert cs[0] in cs && forall c :: c in cs[1..] ==> c in cs;
      Preorder(cs[0]) + PreorderAll(p, cs[1..])
  }

  /** A row has the four entries of its node, and the stock value for a missing one. */
  predicate Shows(r: Row, p: Plan) {
    && r.tag.nodeType == (if p.nodeType == None then "?" else p.nodeType.value)
    && r.tag.relation == p.relation
    && r.tag.cost == (if p.cost == None then 0.0 else p.cost.value)
    && r.tag.rows == (if p.rows == None then 0 else p.rows.value)
  }

  ghost predicate ShowsAll(rows: seq<Row>, ns: seq<Plan>) {
    |rows| == |ns| && forall k :: 0 <= k < |ns| ==> Shows(rows[k], ns[k])
  }

  lemma ShowsConcat(a: seq<Row>, b: seq<Row>, m: seq<Plan>, n: seq<Plan>)
    requires ShowsAll(a, m) && ShowsAll(b, n)
    ensures ShowsAll(a + b, m + n)
  {}

  /** The walk has one row for every node of the plan, in this order, with the node's entries. */
  lemma {:induction false} RowsShowNodes(p: Plan, depth: int)
    ensures ShowsAll(Walk(p, depth), Preorder(p))
    decreases p, 1
  {
    var head := [Row(depth, LabelOf(p))];
    assert ShowsAll(head, [p]);
    if p.plans.Listed? {
      RowsShowAll(p, p.plans.nodes, depth + 1);
      ShowsConcat(head, WalkAll(p, p.plans.nodes, depth + 1), [p], PreorderAll(p, p.plans.nodes));
    } else {
      assert head + [] == head;
    }
  }

  lemma {:induction false} RowsShowAll(p: Plan, cs: seq<Plan>, depth: int)
    requires forall c :: c in cs ==> c < p
    ensures ShowsAll(WalkAll(p, cs, depth), PreorderAll(p, cs))
    decreases p, 0, |cs|
  {
    if cs != [] {
      assert cs[0] in cs && forall c :: c in cs[1..] ==> c in cs;
      RowsShowNodes(cs[0], depth);
      RowsShowAll(p, cs[1..], depth);
      ShowsConcat(Walk(cs[0], depth), WalkAll(p, cs[1..], depth), Preorder(cs[0]), PreorderAll(p, cs[1..]));
    }
  }
}
