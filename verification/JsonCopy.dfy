/**
 The TypeScript SDK's copy of a value into plain JSON, with its set of ancestors. The value is a finite object graph:
 objects may be shared, and may refer to themselves.
 */
module JsonCopy {
  import opened Unicode

  // ----- Strings -----

  type Utf16 = seq<CodeUnit>

  predicate UnitFine(s: Utf16, i: nat)
    requires i < |s|
  {
    s[i] != 0 && (High(s[i]) ==> i + 1 < |s| && Low(s[i + 1])) && (Low(s[i]) ==> i > 0 && High(s[i - 1]))
  }

  /** No NUL, and surrogates come in pairs. */
  predicate StringOk(s: Utf16) {
    forall i: nat | i < |s| :: UnitFine(s, i)
  }

  /** The code points a `u` regular expression steps through: proper surrogate pairs count as one. */
  function Points(s: Utf16): seq<nat> {
    if |s| == 0 then []
    else if |s| > 1 && High(s[0]) && Low(s[1]) then [Pair(s[0], s[1])] + Points(s[2..])
    else [s[0]] + Points(s[1..])
  }

  /**
   A match of the expression at code point i: NUL, a high surrogate not before a low one, or
   a low one not after a high one.
   */
  predicate MatchAt(ps: seq<nat>, i: nat)
    requires i < |ps|
  {
    ps[i] == 0 || (High(ps[i]) && !(i + 1 < |ps| && Low(ps[i + 1]))) || (Low(ps[i]) && !(i > 0 && High(ps[i - 1])))
  }

  predicate Matches(s: Utf16) {
    HasMatch(Points(s))
  }

  predicate Lone(c: nat) {
    c == 0 || High(c) || Low(c)
  }

  predicate HasLone(ps: seq<nat>) {
    exists i: nat | i < |ps| :: Lone(ps[i])
  }

  predicate HasMatch(ps: seq<nat>) {
    exists i: nat | i < |ps| :: MatchAt(ps, i)
  }

  /** Code points never show a high surrogate right before a low one. */
  lemma {:induction false} PointsApart(s: Utf16, i: nat)
    requires i + 1 < |Points(s)|
    ensures !(High(Points(s)[i]) && Low(Points(s)[i + 1]))
    decreases |s|
  {
    var skip := if |s| > 1 && High(s[0]) && Low(s[1]) then 2 else 1;
    assert Points(s)[1..] == Points(s[skip..]);
    if i > 0 {
      PointsApart(s[skip..], i - 1);
    } else if skip == 1 {
      assert |s[1..]| > 0;
      FirstPoint(s[1..]);
    }
  }

  lemma FirstPoint(s: Utf16)
    requires |s| > 0
    ensures |Points(s)| > 0 && (Low(Points(s)[0]) ==> Low(s[0]))
  {
  }

  /** The expression matches exactly where a NUL or a lone surrogate is left. */
  lemma MatchMeansLone(s: Utf16)
    ensures Matches(s) <==> HasLone(Points(s))
  {
    var ps := Points(s);
    forall i: nat | i < |ps| ensures MatchAt(ps, i) <==> Lone(ps[i]) {
      if i + 1 < |ps| {
        PointsApart(s, i);
      }
      if i > 0 {
        PointsApart(s, i - 1);
      }
    }
    if i: nat :| i < |ps| && Lone(ps[i]) {
      assert MatchAt(ps, i);
    }
    if Matches(s) {
      var i: nat :| i < |ps| && MatchAt(ps, i);
      assert Lone(ps[i]);
    }
  }

  /** The first two units of a string do not matter for the rest when they are a pair. */
  lemma AfterPair(s: Utf16)
    requires |s| > 1 && High(s[0]) && Low(s[1])
    ensures StringOk(s) <==> StringOk(s[2..])
  {
    var t := s[2..];
    forall i: nat | i < |t| ensures UnitFine(t, i) <==> UnitFine(s, i + 2) {
      assert t[i] == s[i + 2];
    }
    if StringOk(t) {
      forall i: nat | i < |s| ensures UnitFine(s, i) {
        assert i > 1 ==> UnitFine(t, i - 2);
      }
    }
    if StringOk(s) {
      forall i: nat | i < |t| ensures UnitFine(t, i) {
        assert UnitFine(s, i + 2);
      }
    }
  }

  lemma AfterUnit(s: Utf16)
    requires |s| > 0 && !(|s| > 1 && High(s[0]) && Low(s[1]))
    ensures StringOk(s) <==> !Lone(s[0]) && StringOk(s[1..])
  {
    var t := s[1..];
    if !Lone(s[0]) {
      forall i: nat | i < |t| ensures UnitFine(t, i) <==> UnitFine(s, i + 1) {
        assert t[i] == s[i + 1];
      }
      if StringOk(t) {
        forall i: nat | i < |s| ensures UnitFine(s, i) {
          assert i > 0 ==> UnitFine(t, i - 1);
        }
      }
      if StringOk(s) {
        forall i: nat | i < |t| ensures UnitFine(t, i) {
          assert UnitFine(s, i + 1);
        }
      }
    } else {
      assert !UnitFine(s, 0);
    }
  }

  lemma {:induction false} LoneMeansIllFormed(s: Utf16)
    ensures HasLone(Points(s)) <==> !StringOk(s)
    decreases |s|
  {
    if |s| > 0 {
      var skip := if |s| > 1 && High(s[0]) && Low(s[1]) then 2 else 1;
      var ps, qs := Points(s), Points(s[skip..]);
      LoneMeansIllFormed(s[skip..]);
      assert forall i: nat | i < |qs| :: ps[i + 1] == qs[i];
      if skip == 2 {
        AfterPair(s);
      } else {
        AfterUnit(s);
      }
      if i: nat :| i < |qs| && Lone(qs[i]) {
        assert Lone(ps[i + 1]);
      }
      if i: nat :| i < |ps| && Lone(ps[i]) && !Lone(ps[0]) {
        assert Lone(qs[i - 1]);
      }
    }
  }

  /** The string is the UTF-16 form of some scalar values, none of them NUL. */
  ghost predicate WellFormed(s: Utf16) {
    exists ps :: Spells(ps, s)
  }

  ghost predicate Spells(ps: seq<nat>, s: Utf16) {
    Scalars(ps) && 0 !in ps && Encode(ps) == s
  }

  /** Without a lone surrogate, the code points of a string spell it. */
  lemma {:induction false} PointsSpell(s: Utf16)
    requires !HasLone(Points(s))
    ensures Spells(Points(s), s)
    decreases |s|
  {
    if |s| > 0 {
      var skip := if |s| > 1 && High(s[0]) && Low(s[1]) then 2 else 1;
      var p, qs := Points(s)[0], Points(s[skip..]);
      assert Points(s) == [p] + qs;
      NoLoneLater(p, qs);
      PointsSpell(s[skip..]);
      if skip == 2 {
        PairsExact(s[0], s[1]);
      } else {
        SinglesExact(s[0]);
      }
      assert s == s[..skip] + s[skip..] && Units(p) == s[..skip];
      SpellsMore(p, qs, s[skip..]);
    }
  }

  lemma NoLoneLater(p: nat, qs: seq<nat>)
    requires !HasLone([p] + qs)
    ensures !Lone(p) && !HasLone(qs)
  {
    assert !Lone(([p] + qs)[0]);
    forall i: nat | i < |qs| ensures !Lone(qs[i]) {
      assert ([p] + qs)[i + 1] == qs[i];
    }
  }

  lemma SpellsMore(p: nat, qs: seq<nat>, t: Utf16)
    requires Scalar(p) && p != 0 && Spells(qs, t)
    ensures Spells([p] + qs, Units(p) + t)
  {
    assert ([p] + qs)[1..] == qs;
  }

  /** And what scalar values spell has no lone surrogate. */
  lemma {:induction false} SpelledIsOk(ps: seq<nat>, s: Utf16)
    requires Spells(ps, s)
    ensures StringOk(s)
  {
    if |ps| > 0 {
      var us, t := Units(ps[0]), Encode(ps[1..]);
      SpelledIsOk(ps[1..], t);
      assert s == us + t && s[|us|..] == t;
      if |us| == 2 {
        PairsExact(us[0], us[1]);
        AfterPair(s);
      } else {
        SinglesExact(us[0]);
        AfterUnit(s);
      }
    }
  }

  /** The regular expression rejects exactly the strings that are not well-formed UTF-16 without NUL. */
  lemma ExpressionExact(s: Utf16)
    ensures Matches(s) <==> !StringOk(s)
    ensures Matches(s) <==> !WellFormed(s)
  {
    MatchMeansLone(s);
    LoneMeansIllFormed(s);
    if StringOk(s) {
      PointsSpell(s);
    }
    if ps :| Spells(ps, s) {
      SpelledIsOk(ps, s);
    }
  }

  // ----- Values and object graphs -----

  /** A JavaScript value; objects are nodes of a graph. `Unsupported`: undefined, a function, a symbol, a bigint. */
  datatype Js = Null | Bool(b: bool) | Str(s: Utf16) | Num(n: real) | NotFinite | Unsupported | Obj(id: nat)

  /** An array, a plain object with its entries, or an object with another prototype. */
  datatype Node = List(items: seq<Js>) | Record(keys: seq<Utf16>, items: seq<Js>) | Exotic

  type Graph = seq<Node>

  function Children(node: Node): seq<Js> {
    if node.Exotic? then [] else node.items
  }

  predicate Inside(g: Graph, v: Js) {
    v.Obj? ==> v.id < |g|
  }

  predicate GraphOk(g: Graph) {
    forall a | 0 <= a < |g| ::
      && (forall i | 0 <= i < |Children(g[a])| :: Inside(g, Children(g[a])[i]))
      && (g[a].Record? ==> |g[a].keys| == |g[a].items|)
  }

  datatype Error = BadString | BadValue | Cycle | NotPlain

  /** Plain JSON, a finite tree. */
  datatype Json =
    | JNull | JBool(b: bool) | JString(s: Utf16) | JNumber(n: real)
    | JArray(items: seq<Json>) | JObject(keys: seq<Utf16>, items: seq<Json>)

  datatype Result = Copied(tree: Json) | Rejected(error: Error)

  /** The tree is the value with every reference followed. */
  predicate Unfolds(g: Graph, v: Js, t: Json)
    requires GraphOk(g) && Inside(g, v)
    decreases t, 0
  {
    match t
    case JNull => v == Null
    case JBool(b) => v == Bool(b)
    case JString(s) => v == Str(s)
    case JNumber(n) => v == Num(n)
    case JArray(items) =>
      v.Obj? && g[v.id].List? && |items| == |g[v.id].items| && forall i | 0 <= i < |items| ::
        UnfoldsAt(g, v.id, i, items[i])
    case JObject(keys, items) =>
      v.Obj? && g[v.id].Record? && keys == g[v.id].keys && |items| == |g[v.id].items|
      && forall i | 0 <= i < |items| :: UnfoldsAt(g, v.id, i, items[i])
  }

  predicate UnfoldsAt(g: Graph, a: nat, i: nat, t: Json)
    requires GraphOk(g) && a < |g| && i < |Children(g[a])|
    decreases t, 1
  {
    Unfolds(g, Children(g[a])[i], t)
  }

  /** A value has at most one unfolding, so the copy is determined. */
  lemma {:induction false} UnfoldingUnique(g: Graph, v: Js, t: Json, u: Json)
    requires GraphOk(g) && Inside(g, v) && Unfolds(g, v, t) && Unfolds(g, v, u)
    ensures t == u
    decreases t
  {
    if t.JArray? || t.JObject? {
      forall i | 0 <= i < |t.items| ensures t.items[i] == u.items[i] {
        assert UnfoldsAt(g, v.id, i, t.items[i]) && UnfoldsAt(g, v.id, i, u.items[i]);
        UnfoldingUnique(g, Children(g[v.id])[i], t.items[i], u.items[i]);
      }
    }
  }

  // ----- What is accepted -----

  predicate LeafFault(v: Js, e: Error) {
    match e
    case BadString => v.Str? && !StringOk(v.s)
    case BadValue => v.NotFinite? || v.Unsupported?
    case Cycle => false
    case NotPlain => false
  }

  predicate LeafOk(v: Js) {
    !LeafFault(v, BadString) && !LeafFault(v, BadValue)
  }

  predicate NodeFault(node: Node, e: Error) {
    || (e == NotPlain && node.Exotic?)
    || (exists i | 0 <= i < |Children(node)| :: LeafFault(Children(node)[i], e))
    || (e == BadString && node.Record? && exists i | 0 <= i < |node.keys| :: !StringOk(node.keys[i]))
  }

  predicate NodeOk(node: Node) {
    !NodeFault(node, NotPlain) && !NodeFault(node, BadString) && !NodeFault(node, BadValue)
  }

  ghost predicate Edge(g: Graph, a: nat, b: nat) {
    a < |g| && exists i | 0 <= i < |Children(g[a])| :: Children(g[a])[i] == Obj(b)
  }

  /** A path through the graph that starts at v. */
  ghost predicate IsPath(g: Graph, v: Js, p: seq<nat>) {
    && |p| > 0 && v == Obj(p[0]) && p[|p| - 1] < |g|
    && forall i | 0 <= i < |p| - 1 :: Edge(g, p[i], p[i + 1])
  }

  /** The path ends where it has been before, or at an ancestor. */
  ghost predicate Returns(p: seq<nat>, ancestors: set<nat>)
    requires |p| > 0
  {
    p[|p| - 1] in ancestors || p[|p| - 1] in p[..|p| - 1]
  }

  ghost predicate Faulty(g: Graph, p: seq<nat>, ancestors: set<nat>, e: Error)
    requires |p| > 0 && p[|p| - 1] < |g|
  {
    if e == Cycle then Returns(p, ancestors) else NodeFault(g[p[|p| - 1]], e)
  }

  /** The value has the fault: itself, or at the end of a path from it. */
  ghost predicate Has(g: Graph, v: Js, ancestors: set<nat>, e: Error) {
    LeafFault(v, e) || exists p :: IsPath(g, v, p) && Faulty(g, p, ancestors, e)
  }

  ghost predicate Acceptable(g: Graph, v: Js, ancestors: set<nat>) {
    forall e :: !Has(g, v, ancestors, e)
  }

  lemma StartAtNode(g: Graph, id: nat, p: seq<nat>)
    requires id < |g| && IsPath(g, Obj(id), p) && |p| > 1
    ensures exists i | 0 <= i < |Children(g[id])| ::
      Children(g[id])[i] == Obj(p[1]) && IsPath(g, Children(g[id])[i], p[1..])
  {
    assert Edge(g, p[0], p[1]);
    var i :| 0 <= i < |Children(g[id])| && Children(g[id])[i] == Obj(p[1]);
    forall j | 0 <= j < |p[1..]| - 1 ensures Edge(g, p[1..][j], p[1..][j + 1]) {
      assert Edge(g, p[j + 1], p[j + 2]);
    }
    assert IsPath(g, Children(g[id])[i], p[1..]);
  }

  lemma PrependNode(g: Graph, id: nat, i: nat, p: seq<nat>)
    requires id < |g| && i < |Children(g[id])| && IsPath(g, Children(g[id])[i], p)
    ensures IsPath(g, Obj(id), [id] + p)
  {
    var q := [id] + p;
    forall j | 0 <= j < |q| - 1 ensures Edge(g, q[j], q[j + 1]) {
      if j > 0 {
        assert Edge(g, p[j - 1], p[j]);
      }
    }
  }

  /** A fault below a node is a fault of the node. */
  lemma FaultRises(g: Graph, id: nat, i: nat, ancestors: set<nat>, e: Error)
    requires id < |g| && i < |Children(g[id])| && Has(g, Children(g[id])[i], ancestors + {id}, e)
    ensures Has(g, Obj(id), ancestors, e)
  {
    var c := Children(g[id])[i];
    if LeafFault(c, e) {
      assert IsPath(g, Obj(id), [id]) && Faulty(g, [id], ancestors, e);
    } else {
      var p :| IsPath(g, c, p) && Faulty(g, p, ancestors + {id}, e);
      PrependNode(g, id, i, p);
      var q := [id] + p;
      assert q[|q| - 1] == p[|p| - 1] && q[..|q| - 1] == [id] + p[..|p| - 1];
      assert Faulty(g, q, ancestors, e);
    }
  }

  /** And every fault of a node is its own or lies below it. */
  lemma FaultFalls(g: Graph, id: nat, ancestors: set<nat>, e: Error)
    requires id < |g| && Has(g, Obj(id), ancestors, e)
    ensures (if e == Cycle then id in ancestors else NodeFault(g[id], e))
      || exists i | 0 <= i < |Children(g[id])| :: Has(g, Children(g[id])[i], ancestors + {id}, e)
  {
    var p :| IsPath(g, Obj(id), p) && Faulty(g, p, ancestors, e);
    if |p| == 1 {
      assert p[..0] == [];
    } else {
      StartAtNode(g, id, p);
      var i :| 0 <= i < |Children(g[id])| && Children(g[id])[i] == Obj(p[1]) && IsPath(g, Children(g[id])[i], p[1..]);
      var q := p[1..];
      assert q[|q| - 1] == p[|p| - 1] && p[..|p| - 1] == [id] + q[..|q| - 1];
      assert Faulty(g, q, ancestors + {id}, e);
      assert Has(g, Children(g[id])[i], ancestors + {id}, e);
    }
  }

  /** A node is acceptable exactly when it is no ancestor, is fine itself, and its children are acceptable below it. */
  lemma AcceptableNode(g: Graph, id: nat, ancestors: set<nat>)
    requires id < |g|
    ensures Acceptable(g, Obj(id), ancestors) <==>
      id !in ancestors && NodeOk(g[id]) && forall i | 0 <= i < |Children(g[id])| ::
        Acceptable(g, Children(g[id])[i], ancestors + {id})
  {
    if Acceptable(g, Obj(id), ancestors) {
      assert IsPath(g, Obj(id), [id]) && [id][..0] == [];
      forall e: Error | e != Cycle ensures !NodeFault(g[id], e) {
        assert !Has(g, Obj(id), ancestors, e);
        assert !Faulty(g, [id], ancestors, e);
      }
      assert !Has(g, Obj(id), ancestors, Cycle) && !Faulty(g, [id], ancestors, Cycle);
      forall i, e | 0 <= i < |Children(g[id])| ensures !Has(g, Children(g[id])[i], ancestors + {id}, e) {
        if Has(g, Children(g[id])[i], ancestors + {id}, e) {
          FaultRises(g, id, i, ancestors, e);
        }
      }
    } else {
      var e :| Has(g, Obj(id), ancestors, e);
      FaultFalls(g, id, ancestors, e);
    }
  }

  lemma AcceptableLeaf(g: Graph, v: Js, ancestors: set<nat>)
    requires !v.Obj?
    ensures Acceptable(g, v, ancestors) <==> LeafOk(v)
  {
    forall e ensures Has(g, v, ancestors, e) <==> LeafFault(v, e) {
    }
  }

  // ----- The copy -----

  function Below(n: nat): (ids: set<nat>)
    ensures forall i: nat :: i in ids <==> i < n
  {
    if n == 0 then {} else Below(n - 1) + {n - 1}
  }

  function Nodes(g: Graph): set<nat> {
    Below(|g|)
  }

  /** A copy of the children is underway below node `id`: so many are done. */
  ghost predicate CopiedSoFar(g: Graph, id: nat, ancestors: set<nat>, trees: seq<Json>)
    requires GraphOk(g) && id < |g| && |trees| <= |Children(g[id])|
  {
    forall i | 0 <= i < |trees| :: Acceptable(g, Children(g[id])[i], ancestors) && UnfoldsAt(g, id, i, trees[i])
  }

  class Copier {
    const graph: Graph
    var ancestors: set<nat>

    constructor (graph: Graph)
      ensures this.graph == graph && ancestors == {}
    {
      this.graph := graph;
      ancestors := {};
    }

    /**
     jsonValue: terminates on every finite graph, leaves the set of ancestors as it found it, accepts exactly the
     values from which no cycle, no unsupported value and no ill-formed string can be reached, and then returns
     their unfolding. A rejection names a fault the value has.
     */
    method JsonValue(v: Js) returns (r: Result)
      requires GraphOk(graph) && Inside(graph, v)
      modifies this
      ensures ancestors == old(ancestors)
      ensures r.Copied? <==> Acceptable(graph, v, ancestors)
      ensures r.Copied? ==> Unfolds(graph, v, r.tree)
      ensures r.Rejected? ==> Has(graph, v, ancestors, r.error)
      decreases Nodes(graph) - ancestors, 0
    {
      if !v.Obj? {
        AcceptableLeaf(graph, v, ancestors);
        r := CopyLeaf(v);
        return;
      }
      ghost var above := ancestors;
      AcceptableNode(graph, v.id, above);
      if v.id in ancestors {
        assert IsPath(graph, v, [v.id]) && Faulty(graph, [v.id], above, Cycle);
        return Rejected(Cycle);
      }
      if graph[v.id].Exotic? {
        assert IsPath(graph, v, [v.id]) && Faulty(graph, [v.id], above, NotPlain);
        return Rejected(NotPlain);
      }
      ancestors := ancestors + {v.id};
      assert Nodes(graph) - ancestors < Nodes(graph) - above by {
        assert v.id in Nodes(graph) - above && v.id !in Nodes(graph) - ancestors;
      }
      r := CopyChildren(v.id, above);
      ancestors := ancestors - {v.id};
      assert ancestors == above;
    }

    /** The loop over the items of an array, or the entries of an object, inside the try block. */
    method CopyChildren(id: nat, ghost above: set<nat>) returns (r: Result)
      requires GraphOk(graph) && id < |graph| && !graph[id].Exotic? && id !in above && ancestors == above + {id}
      modifies this
      ensures ancestors == old(ancestors)
      ensures r.Copied? <==> NodeOk(graph[id]) && forall i | 0 <= i < |Children(graph[id])| ::
        Acceptable(graph, Children(graph[id])[i], ancestors)
      ensures r.Copied? ==> Unfolds(graph, Obj(id), r.tree)
      ensures r.Rejected? ==> Has(graph, Obj(id), above, r.error)
      decreases Nodes(graph) - ancestors, 1
    {
      var node := graph[id];
      var trees := [];
      while |trees| < |node.items|
        invariant |trees| <= |node.items| && ancestors == above + {id}
        invariant CopiedSoFar(graph, id, ancestors, trees)
        invariant node.Record? ==> forall i | 0 <= i < |trees| :: StringOk(node.keys[i])
      {
        if node.Record? {
          var name := CopyLeaf(Str(node.keys[|trees|]));
          if name.Rejected? {
            KeyFault(graph, id, |trees|, above);
            return name;
          }
        }
        assert node.items[|trees|] == Children(graph[id])[|trees|];
        var item := JsonValue(node.items[|trees|]);
        if item.Rejected? {
          FaultRises(graph, id, |trees|, above, item.error);
          return item;
        }
        trees := trees + [item.tree];
      }
      AllCopied(graph, id, ancestors, trees);
      r := Copied(if node.List? then JArray(trees) else JObject(node.keys, trees));
    }
  }

  /** The branches for values that are not objects. */
  method CopyLeaf(v: Js) returns (r: Result)
    requires !v.Obj?
    ensures r.Copied? <==> LeafOk(v)
    ensures r.Copied? ==> forall g | GraphOk(g) :: Unfolds(g, v, r.tree)
    ensures r.Rejected? ==> LeafFault(v, r.error)
  {
    match v
    case Null => r := Copied(JNull);
    case Bool(b) => r := Copied(JBool(b));
    case Str(s) =>
      ExpressionExact(s);
      r := if Matches(s) then Rejected(BadString) else Copied(JString(s));
    case Num(n) => r := Copied(JNumber(n));
    case NotFinite => r := Rejected(BadValue);
    case Unsupported => r := Rejected(BadValue);
  }

  lemma KeyFault(g: Graph, id: nat, i: nat, above: set<nat>)
    requires id < |g| && g[id].Record? && i < |g[id].keys| && !StringOk(g[id].keys[i])
    ensures NodeFault(g[id], BadString) && Has(g, Obj(id), above, BadString)
  {
    assert IsPath(g, Obj(id), [id]) && Faulty(g, [id], above, BadString);
  }

  lemma AllCopied(g: Graph, id: nat, ancestors: set<nat>, trees: seq<Json>)
    requires GraphOk(g) && id < |g| && !g[id].Exotic?
    requires |trees| == |g[id].items| && CopiedSoFar(g, id, ancestors, trees)
    requires g[id].Record? ==> forall i | 0 <= i < |g[id].keys| :: StringOk(g[id].keys[i])
    ensures NodeOk(g[id]) && Unfolds(g, Obj(id), if g[id].List? then JArray(trees) else JObject(g[id].keys, trees))
  {
    forall i, e | 0 <= i < |Children(g[id])| ensures !LeafFault(Children(g[id])[i], e) {
      assert Acceptable(g, Children(g[id])[i], ancestors);
      assert !Has(g, Children(g[id])[i], ancestors, e);
    }
  }
}
