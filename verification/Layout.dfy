/** How the inventory's columns are put in order (core/audit_entries.py). */
module Layout {
  import opened Wrappers
  import opened Columns

  const PRESS := "Press/Machine #"
  const TOOL := "Tool #"
  const ASSEMBLY := "EOAT Assembly ID"
  const EOAT_TYPE := "EOAT Type"

  /** `TOOLING_COLUMN_ORDER`. */
  function ToolingOrder(): seq<string>
  {
    ["EOAT Type", "EOAT Moves", "Connection Type", "Number of Parts Picked", "# of Cylinders", "Cylinder Type",
     "# of Grippers", "Gripper Type", "Gripper Model", "# of Cups", "Cup Type/Material", "Cup Diameter/Size",
     "Vacuum Generator Type", "Air Circuit Architecture", "EOAT Vacuum Circuits", "EOAT Pressure Circuits",
     "EOAT Interchangeable Circuits", "External Vacuum Circuits", "External Pressure Circuits",
     "External Interchangeable Circuits"]
  }

  /** Moves the column under `x` to `target`, unless it is there already. */
  function MoveTo(t: Table, x: string, target: nat): (r: Table)
    requires x in Headers(t) && target <= |t|
    ensures |r| == |t|
  {
    var source := Index(Headers(t), x);
    if source == target then t else Move(t, source, target)
  }

  /** Moves the column under `x` right behind the one under `a`, if both are there. */
  function MoveBehind(t: Table, a: string, x: string): Table
  {
    if a !in Headers(t) || x !in Headers(t) then t else MoveTo(t, x, Index(Headers(t), a) + 1)
  }

  /** The tooling headers that the table has, in their order. */
  function Present(order: seq<string>, hs: seq<string>): (r: seq<string>)
    ensures forall h :: h in r <==> h in order && h in hs
  {
    if order == [] then []
    else (if order[0] in hs then [order[0]] else []) + Present(order[1..], hs)
  }

  /** `_order_tooling_columns` from its k-th header on. */
  function OrderFrom(t: Table, present: seq<string>, k: nat): (r: Table)
    requires EOAT_TYPE in Headers(t) && forall h :: h in present ==> h in Headers(t)
    requires k <= |present|
    decreases |present| - k
  {
    if k == |present| then t
    else
      var target := Index(Headers(t), EOAT_TYPE) + k;
      if target > |t| then t
      else
        var moved := MoveTo(t, present[k], target);
        assert forall h :: h in Headers(moved) <==> h in Headers(t) by { MoveToHeaders(t, present[k], target); }
        OrderFrom(moved, present, k + 1)
  }

  lemma MoveToHeaders(t: Table, x: string, target: nat)
    requires x in Headers(t) && target <= |t|
    ensures forall h :: h in Headers(MoveTo(t, x, target)) <==> h in Headers(t)
  {
    var source := Index(Headers(t), x);
    MoveHeaders(t, source, target);
    MoveMembers(Headers(t), source, target);
  }

  function OrderTooling(t: Table): Table
  {
    if EOAT_TYPE !in Headers(t) then t
    else OrderFrom(t, Present(ToolingOrder(), Headers(t)), 0)
  }

  /** The three moves, as the workbook migration makes them. */
  function Arrange(t: Table): Table
  {
    OrderTooling(MoveBehind(MoveBehind(t, PRESS, TOOL), TOOL, ASSEMBLY))
  }

  /* ---- What a move does ---- */

  lemma SameColumnsSelf(t: Table)
    ensures SameColumns(t, t)
  {
  }

  lemma MoveBehindEffect(t: Table, a: string, x: string)
    requires Distinct(Headers(t)) && a != x
    ensures var u := MoveBehind(t, a, x);
      && Distinct(Headers(u)) && SameColumns(t, u) && |u| == |t|
      && (a in Headers(t) && x in Headers(t) ==> Follows(Headers(u), a, x))
      && (Follows(Headers(t), a, x) ==> u == t)
      && (forall p, q :: Follows(Headers(t), p, q) && x != p && x != q && p != a ==> Follows(Headers(u), p, q))
  {
    hide Index, Headers, Move, Distinct, SameColumns;
    var hs := Headers(t);
    SameColumnsSelf(t);
    if a in hs && x in hs && Index(hs, x) != Index(hs, a) + 1 {
      var source, target := Index(hs, x), Index(hs, a) + 1;
      MoveKeepsColumns(t, source, target);
      MoveHeaders(t, source, target);
      MovedFollows(hs, a, x);
      forall p, q | Follows(hs, p, q) && x != p && x != q && p != a
        ensures Follows(Headers(MoveBehind(t, a, x)), p, q)
      {
        MoveParts(hs, a, x, p, q);
      }
    }
  }

  /** The first `k` headers stand in a row. */
  ghost predicate Chained(hs: seq<string>, present: seq<string>, k: nat)
  {
    forall i :: 0 < i < k && i < |present| ==> Follows(hs, present[i - 1], present[i])
  }

  lemma {:induction false} ChainIndex(hs: seq<string>, present: seq<string>, k: nat)
    requires k < |present| && present[0] in hs && Chained(hs, present, k + 1)
    ensures present[k] in hs && Index(hs, present[k]) == Index(hs, present[0]) + k
  {
    if k > 0 {
      ChainIndex(hs, present, k - 1);
      assert Follows(hs, present[k - 1], present[k]);
    }
  }

  /** What the ordering must not disturb: a pair of columns outside the tooling. */
  ghost predicate Outside(present: seq<string>, pairs: set<(string, string)>)
  {
    forall p, q :: (p, q) in pairs ==> p !in present && q !in present
  }

  ghost predicate AllFollow(hs: seq<string>, pairs: set<(string, string)>)
  {
    forall p, q :: (p, q) in pairs ==> Follows(hs, p, q)
  }

  /** One round: the k-th header joins the row, and nothing else is parted. */
  lemma OrderStep(t: Table, present: seq<string>, k: nat, pairs: set<(string, string)>)
    requires Distinct(Headers(t)) && forall h :: h in present ==> h in Headers(t)
    requires Distinct(present) && 0 < k < |present|
    requires Chained(Headers(t), present, k) && Outside(present, pairs) && AllFollow(Headers(t), pairs)
    ensures var u := MoveBehind(t, present[k - 1], present[k]);
      && Distinct(Headers(u)) && SameColumns(t, u) && |u| == |t|
      && Chained(Headers(u), present, k + 1) && AllFollow(Headers(u), pairs)
      && (Follows(Headers(t), present[k - 1], present[k]) ==> u == t)
      && forall h :: h in present ==> h in Headers(u)
  {
    hide MoveBehind, Follows, Headers;
    var a, x := present[k - 1], present[k];
    assert a != x && a in present && x in present;
    MoveBehindEffect(t, a, x);
    forall i | 0 < i < k + 1 && i < |present|
      ensures Follows(Headers(MoveBehind(t, a, x)), present[i - 1], present[i])
    {
      if i < k {
        assert Follows(Headers(t), present[i - 1], present[i]);
        assert x != present[i - 1] && x != present[i] && present[i - 1] != a;
      }
    }
    forall p, q | (p, q) in pairs ensures Follows(Headers(MoveBehind(t, a, x)), p, q) {
      assert Follows(Headers(t), p, q);
    }
  }

  /** The target of a round is the place behind the header before. */
  lemma OrderTarget(t: Table, present: seq<string>, k: nat)
    requires Distinct(Headers(t)) && forall h :: h in present ==> h in Headers(t)
    requires present != [] && present[0] == EOAT_TYPE && k < |present| && Chained(Headers(t), present, k)
    requires EOAT_TYPE in Headers(t)
    ensures var target := Index(Headers(t), EOAT_TYPE) + k;
      && target <= |t|
      && MoveTo(t, present[k], target) == if k == 0 then t else MoveBehind(t, present[k - 1], present[k])
  {
    hide Index, Headers, Move, Distinct;
    if k > 0 {
      ChainIndex(Headers(t), present, k - 1);
      assert present[k - 1] in present && present[k] in present;
    }
  }

  lemma {:induction false} OrderFromEffect(t: Table, present: seq<string>, k: nat, pairs: set<(string, string)>)
    requires Distinct(Headers(t)) && EOAT_TYPE in Headers(t) && forall h :: h in present ==> h in Headers(t)
    requires present != [] && present[0] == EOAT_TYPE && Distinct(present) && k <= |present|
    requires Chained(Headers(t), present, k) && Outside(present, pairs) && AllFollow(Headers(t), pairs)
    ensures var u := OrderFrom(t, present, k);
      && Distinct(Headers(u)) && SameColumns(t, u) && |u| == |t|
      && Chained(Headers(u), present, |present|) && AllFollow(Headers(u), pairs)
      && (Chained(Headers(t), present, |present|) ==> u == t)
    decreases |present| - k
  {
    hide MoveTo, MoveBehind, Follows, Headers, Index, Distinct, AllFollow, Outside;
    if k < |present| {
      OrderTarget(t, present, k);
      var moved := if k == 0 then t else MoveBehind(t, present[k - 1], present[k]);
      if k > 0 { OrderStep(t, present, k, pairs); }
      OrderFromEffect(moved, present, k + 1, pairs);
      if Chained(Headers(t), present, |present|) && k > 0 {
        assert Follows(Headers(t), present[k - 1], present[k]);
      }
    }
  }

  /* ---- The arrangement ---- */

  /** Tells the tooling headers apart. */
  function Code(h: string): int
  {
    if |h| < 6 then 0 else |h| * 1000 + h[5] as int
  }

  function ToolingCodes(): seq<int>
  {
    [9084, 10077, 15099, 22114, 14067, 13100, 13071, 12101, 13101, 9067,
     17121, 17105, 21109, 24105, 20086, 22080, 29073, 24110, 26110, 33110]
  }

  lemma ToolingCoded()
    ensures |ToolingOrder()| == |ToolingCodes()|
    ensures forall i :: 0 <= i < |ToolingOrder()| ==> Code(ToolingOrder()[i]) == ToolingCodes()[i]
  {
    assert Code("EOAT Type") == 9084;
    assert Code("EOAT Moves") == 10077;
    assert Code("Connection Type") == 15099;
    assert Code("Number of Parts Picked") == 22114;
    assert Code("# of Cylinders") == 14067;
    assert Code("Cylinder Type") == 13100;
    assert Code("# of Grippers") == 13071;
    assert Code("Gripper Type") == 12101;
    assert Code("Gripper Model") == 13101;
    assert Code("# of Cups") == 9067;
    assert Code("Cup Type/Material") == 17121;
    assert Code("Cup Diameter/Size") == 17105;
    assert Code("Vacuum Generator Type") == 21109;
    assert Code("Air Circuit Architecture") == 24105;
    assert Code("EOAT Vacuum Circuits") == 20086;
    assert Code("EOAT Pressure Circuits") == 22080;
    assert Code("EOAT Interchangeable Circuits") == 29073;
    assert Code("External Vacuum Circuits") == 24110;
    assert Code("External Pressure Circuits") == 26110;
    assert Code("External Interchangeable Circuits") == 33110;
  }

  lemma ToolingDistinct()
    ensures Distinct(ToolingOrder())
    ensures PRESS !in ToolingOrder() && TOOL !in ToolingOrder() && ASSEMBLY !in ToolingOrder()
  {
    hide ToolingOrder;
    ToolingCoded();
    assert Code(PRESS) == 15047 && Code(TOOL) == 6035 && Code(ASSEMBLY) == 16065;
  }

  lemma {:induction false} PresentDistinct(order: seq<string>, hs: seq<string>)
    requires Distinct(order)
    ensures Distinct(Present(order, hs))
  {
    if order != [] {
      PresentDistinct(order[1..], hs);
      var rest := Present(order[1..], hs);
      assert order[0] !in order[1..];
      assert order[0] !in rest;
    }
  }

  lemma {:induction false} PresentSame(order: seq<string>, hs: seq<string>, hs': seq<string>)
    requires forall h :: h in hs <==> h in hs'
    ensures Present(order, hs) == Present(order, hs')
  {
    if order != [] { PresentSame(order[1..], hs, hs'); }
  }

  /** The pairs that ordering the tooling must leave together. */
  ghost function Kept(hs: seq<string>): set<(string, string)>
  {
    (if Follows(hs, PRESS, TOOL) then {(PRESS, TOOL)} else {}) +
    (if Follows(hs, TOOL, ASSEMBLY) then {(TOOL, ASSEMBLY)} else {})
  }

  lemma OrderToolingEffect(t: Table)
    requires Distinct(Headers(t))
    ensures var u := OrderTooling(t);
            var present := Present(ToolingOrder(), Headers(t));
      && Distinct(Headers(u)) && SameColumns(t, u) && |u| == |t|
      && (Follows(Headers(t), PRESS, TOOL) ==> Follows(Headers(u), PRESS, TOOL))
      && (Follows(Headers(t), TOOL, ASSEMBLY) ==> Follows(Headers(u), TOOL, ASSEMBLY))
      && (EOAT_TYPE in Headers(t) ==> Chained(Headers(u), present, |present|))
      && (EOAT_TYPE in Headers(t) ==> Chained(Headers(t), present, |present|) ==> u == t)
      && (EOAT_TYPE !in Headers(t) ==> u == t)
  {
    hide ToolingOrder, Follows, Headers, OrderFrom;
    var present := Present(ToolingOrder(), Headers(t));
    if EOAT_TYPE in Headers(t) {
      ToolingDistinct();
      PresentDistinct(ToolingOrder(), Headers(t));
      ToolingStarts(Headers(t));
      OrderFromEffect(t, present, 0, Kept(Headers(t)));
    }
  }

  lemma ToolingStarts(hs: seq<string>)
    requires EOAT_TYPE in hs
    ensures var present := Present(ToolingOrder(), hs); present != [] && present[0] == EOAT_TYPE
  {
    hide Index;
    assert ToolingOrder()[0] == EOAT_TYPE;
  }

  /** The columns are in order: press, tool and assembly stand together, and the tooling headers that are
      there stand in a row in their order, from the EOAT type on. */
  ghost predicate Arranged(hs: seq<string>)
  {
    && (PRESS in hs && TOOL in hs ==> Follows(hs, PRESS, TOOL))
    && (TOOL in hs && ASSEMBLY in hs ==> Follows(hs, TOOL, ASSEMBLY))
    && (EOAT_TYPE in hs ==>
          var present := Present(ToolingOrder(), hs);
          Chained(hs, present, |present|))
  }

  /** Arranging keeps every value of every row under every header and puts the columns in order, whatever
      order they came in; a table in order is left alone, so a second run moves nothing. */
  lemma ArrangeEffect(t: Table)
    requires Distinct(Headers(t))
    ensures var u := Arrange(t);
      && SameColumns(t, u) && Distinct(Headers(u)) && |u| == |t|
      && Arranged(Headers(u))
      && (Arranged(Headers(t)) ==> u == t)
      && Arrange(u) == u
  {
    ArrangeOnce(t);
    ArrangeOnce(Arrange(t));
  }

  lemma ArrangeOnce(t: Table)
    requires Distinct(Headers(t))
    ensures var u := Arrange(t);
      && SameColumns(t, u) && Distinct(Headers(u)) && |u| == |t|
      && Arranged(Headers(u))
      && (Arranged(Headers(t)) ==> u == t)
  {
    hide ToolingOrder, Follows, Headers, OrderTooling, MoveBehind, Chained;
    var t1 := MoveBehind(t, PRESS, TOOL);
    var t2 := MoveBehind(t1, TOOL, ASSEMBLY);
    MoveBehindEffect(t, PRESS, TOOL);
    MoveBehindEffect(t1, TOOL, ASSEMBLY);
    OrderToolingEffect(t2);
    PresentSame(ToolingOrder(), Headers(t2), Headers(OrderTooling(t2)));
    assert PRESS in Headers(t) && TOOL in Headers(t) ==> Follows(Headers(t2), PRESS, TOOL);
    if PRESS !in Headers(t) || TOOL !in Headers(t) { NotThere(t, PRESS, TOOL); }
    if TOOL !in Headers(t) || ASSEMBLY !in Headers(t) { NotThere(t1, TOOL, ASSEMBLY); }
  }

  lemma NotThere(t: Table, a: string, x: string)
    requires a !in Headers(t) || x !in Headers(t)
    ensures MoveBehind(t, a, x) == t
  {
  }
}
