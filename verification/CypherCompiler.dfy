/** Cypher MATCH and WHERE compiled to patterns, closure rules and value filters
    (crates/polargraph-query/src/cypher.rs). */
module CypherCompiler {
  import opened Sequences
  import opened Datalog
  import opened Rules
  import opened Closure
  import opened Cypher

  datatype ValueFilter = ValueFilter(variable: string, pred: string, value: FilterValue)

  /** Everything the compiler accumulates. */
  datatype Output = Output(
    patterns: seq<VarPattern>,
    rules: seq<Rule>,
    filters: seq<ValueFilter>,
    edgeFilters: seq<ValueFilter>,
    closed: set<string>,
    edgeVars: set<string>,
    anon: nat)

  const START := Output([], [], [], [], {}, {}, 0)

  // ── Names ────────────────────────────────────────────────────────────────

  function Digit(n: nat): char
    requires n < 10
  {
    "0123456789"[n]
  }

  function Decimal(n: nat): string {
    if n < 10 then [Digit(n)] else Decimal(n / 10) + [Digit(n % 10)]
  }

  function AnonName(n: nat): string { "__anon_" + Decimal(n) }

  function NameOf(variable: Option<string>, anon: nat): string {
    match variable case Some(v) => v case None => AnonName(anon)
  }

  function NextAnon(variable: Option<string>, anon: nat): nat { if variable.Some? then anon else anon + 1 }

  // ── What compiling emits ─────────────────────────────────────────────────

  function PlainPattern(subject: string, pred: string, obj: Term): VarPattern {
    VarPattern(Var(subject), Some(pred), None, obj, None, None, InUnion)
  }

  function LabelPattern(v: Vocabulary, x: string, nodeLabel: string): VarPattern {
    PlainPattern(x, RDF_TYPE, Bound(v.classNode(nodeLabel)))
  }

  function LabelPatterns(v: Vocabulary, x: string, node: NodePat): seq<VarPattern> {
    if node.nodeLabel.Some? then [LabelPattern(v, x, node.nodeLabel.value)] else []
  }

  function PropFilters(v: Vocabulary, x: string, props: seq<(string, FilterValue)>): seq<ValueFilter> {
    seq(|props|, i requires 0 <= i < |props| => ValueFilter(x, v.resolve(props[i].0), props[i].1))
  }

  /** The property scan that binds an unlabelled standalone node. */
  function BindingPatterns(v: Vocabulary, x: string, node: NodePat): seq<VarPattern> {
    if node.nodeLabel.None? && node.props != [] then [PlainPattern(x, v.resolve(node.props[0].0), Any)] else []
  }

  function EmitNodeFilters(v: Vocabulary, x: string, node: NodePat, out: Output): Output {
    out.(patterns := out.patterns + LabelPatterns(v, x, node), filters := out.filters + PropFilters(v, x, node.props))
  }

  function EmitNodeBinding(v: Vocabulary, x: string, node: NodePat, out: Output): Output {
    out.(patterns := out.patterns + LabelPatterns(v, x, node) + BindingPatterns(v, x, node),
         filters := out.filters + PropFilters(v, x, node.props))
  }

  function HopSubject(direction: Direction, x: string, y: string): string { if direction.Out? then x else y }

  function HopObject(direction: Direction, x: string, y: string): string { if direction.Out? then y else x }

  /** One edge, a bounded walk, or a fact of the predicate's closure. */
  function RelPattern(v: Vocabulary, rel: RelPat, direction: Direction, x: string, y: string): VarPattern {
    var pred := v.resolve(rel.pred);
    var s, o := HopSubject(direction, x, y), Var(HopObject(direction, x, y));
    if !rel.recursive then PlainPattern(s, pred, o).(edgeVar := rel.variable)
    else if rel.maxHops.Some? then PlainPattern(s, pred, o).(maxHops := rel.maxHops)
    else PlainPattern(s, Tc(pred), o)
  }

  predicate Unbounded(rel: RelPat) { rel.recursive && rel.maxHops.None? }

  function ClosureRules(pred: string, closed: set<string>): seq<Rule> {
    if pred in closed then [] else [BaseRule(Tc(pred), pred), StepRule(Tc(pred), pred)]
  }

  function EmitRel(v: Vocabulary, rel: RelPat, direction: Direction, x: string, y: string, out: Output): Output {
    var pred, done := v.resolve(rel.pred), out.(patterns := out.patterns + [RelPattern(v, rel, direction, x, y)]);
    if Unbounded(rel) then done.(rules := out.rules + ClosureRules(pred, out.closed), closed := out.closed + {pred})
    else done.(edgeVars := out.edgeVars + RelNames(rel))
  }

  function EmitHop(v: Vocabulary, hop: HopPat, x: string, out: Output): Output {
    var y := NameOf(hop.end.variable, out.anon);
    EmitNodeFilters(v, y, hop.end,
      EmitRel(v, hop.rel, hop.direction, x, y, out.(anon := NextAnon(hop.end.variable, out.anon))))
  }

  function EmitHops(v: Vocabulary, hops: seq<HopPat>, x: string, out: Output): Output
    decreases |hops|
  {
    if hops == [] then out
    else EmitHops(v, hops[1..], NameOf(hops[0].end.variable, out.anon), EmitHop(v, hops[0], x, out))
  }

  function EmitPath(v: Vocabulary, path: CypherPath, out: Output): Output {
    var x := NameOf(path.start.variable, out.anon);
    var named := out.(anon := NextAnon(path.start.variable, out.anon));
    if path.hops == [] then EmitNodeBinding(v, x, path.start, named)
    else EmitHops(v, path.hops, x, EmitNodeFilters(v, x, path.start, named))
  }

  function EmitPaths(v: Vocabulary, paths: seq<CypherPath>, out: Output): Output {
    if paths == [] then out else EmitPaths(v, paths[1..], EmitPath(v, paths[0], out))
  }

  /** A condition on a relationship variable goes to the edge filters. */
  function EmitWhere(v: Vocabulary, w: WhereEq, out: Output): Output {
    var filter := ValueFilter(w.variable, v.resolve(w.prop), w.value);
    if w.variable in out.edgeVars then out.(edgeFilters := out.edgeFilters + [filter])
    else out.(filters := out.filters + [filter])
  }

  function EmitWheres(v: Vocabulary, ws: seq<WhereEq>, out: Output): Output {
    if ws == [] then out else EmitWheres(v, ws[1..], EmitWhere(v, ws[0], out))
  }

  function EndVars(vp: VarPattern): set<string> {
    (if vp.subject.Var? then {vp.subject.name} else {}) + if vp.obj.Var? then {vp.obj.name} else {}
  }

  function BoundVars(ps: seq<VarPattern>): set<string> {
    if ps == [] then {} else EndVars(ps[0]) + BoundVars(ps[1..])
  }

  /** One property scan per filter variable that no pattern binds. */
  function ScanPatterns(filters: seq<ValueFilter>, bound: set<string>): seq<VarPattern> {
    if filters == [] then []
    else if filters[0].variable in bound then ScanPatterns(filters[1..], bound)
    else
      var scan := PlainPattern(filters[0].variable, filters[0].pred, Any);
      [scan] + ScanPatterns(filters[1..], bound + {filters[0].variable})
  }

  function BindFilterVars(out: Output): Output {
    out.(patterns := out.patterns + ScanPatterns(out.filters, BoundVars(out.patterns)))
  }

  function Compile(v: Vocabulary, q: CypherQuery): Output {
    BindFilterVars(EmitWheres(v, q.wheres, EmitPaths(v, q.paths, START)))
  }

  // ── The compiler itself ──────────────────────────────────────────────────

  /** The vectors, sets and counter that `compile_path` and its helpers push to. */
  class Compiler {
    const v: Vocabulary
    var patterns: seq<VarPattern>
    var rules: seq<Rule>
    var filters: seq<ValueFilter>
    var edgeFilters: seq<ValueFilter>
    var closed: set<string>
    var edgeVars: set<string>
    var anon: nat

    constructor (v: Vocabulary)
      ensures this.v == v && State() == START
    {
      this.v := v;
      patterns, rules, filters, edgeFilters, closed, edgeVars, anon := [], [], [], [], {}, {}, 0;
    }

    function State(): Output
      reads this
    {
      Output(patterns, rules, filters, edgeFilters, closed, edgeVars, anon)
    }

    method GetOrAnon(variable: Option<string>) returns (name: string)
      modifies this`anon
      ensures name == NameOf(variable, old(anon)) && anon == NextAnon(variable, old(anon))
    {
      match variable {
        case Some(x) => name := x;
        case None =>
          name := AnonName(anon);
          anon := anon + 1;
      }
    }

    method PushFilters(x: string, props: seq<(string, FilterValue)>)
      modifies this`filters
      ensures filters == old(filters) + PropFilters(v, x, props)
    {
      for i := 0 to |props|
        invariant filters == old(filters) + PropFilters(v, x, props[..i])
      {
        filters := filters + [ValueFilter(x, v.resolve(props[i].0), props[i].1)];
      }
      assert props[..|props|] == props;
    }

    method NodeFilters(x: string, node: NodePat)
      modifies this
      ensures State() == EmitNodeFilters(v, x, node, old(State()))
    {
      if node.nodeLabel.Some? {
        patterns := patterns + [LabelPattern(v, x, node.nodeLabel.value)];
      }
      PushFilters(x, node.props);
    }

    method NodeBinding(x: string, node: NodePat)
      modifies this
      ensures State() == EmitNodeBinding(v, x, node, old(State()))
    {
      if node.nodeLabel.Some? {
        patterns := patterns + [LabelPattern(v, x, node.nodeLabel.value)];
      }
      var firstProp := node.nodeLabel.None?;
      ghost var labelled := patterns;
      for i := 0 to |node.props|
        invariant filters == old(filters) + PropFilters(v, x, node.props[..i])
        invariant patterns == labelled + if i > 0 then BindingPatterns(v, x, node) else []
        invariant firstProp == (node.nodeLabel.None? && i == 0)
        invariant rules == old(rules) && edgeFilters == old(edgeFilters) && closed == old(closed) &&
                  edgeVars == old(edgeVars) && anon == old(anon)
      {
        var key := v.resolve(node.props[i].0);
        if firstProp {
          patterns := patterns + [PlainPattern(x, key, Any)];
          firstProp := false;
        }
        filters := filters + [ValueFilter(x, key, node.props[i].1)];
      }
      assert node.props[..|node.props|] == node.props;
    }

    method Rel(rel: RelPat, direction: Direction, x: string, y: string)
      modifies this
      ensures State() == EmitRel(v, rel, direction, x, y, old(State()))
    {
      var pred := v.resolve(rel.pred);
      var s, o := HopSubject(direction, x, y), Var(HopObject(direction, x, y));
      if rel.recursive {
        if rel.maxHops.Some? {
          patterns := patterns + [PlainPattern(s, pred, o).(maxHops := rel.maxHops)];
        } else {
          if pred !in closed {
            closed := closed + {pred};
            rules := rules + [BaseRule(Tc(pred), pred)];
            rules := rules + [StepRule(Tc(pred), pred)];
          }
          patterns := patterns + [PlainPattern(s, Tc(pred), o)];
        }
      } else {
        if rel.variable.Some? {
          edgeVars := edgeVars + {rel.variable.value};
        }
        patterns := patterns + [PlainPattern(s, pred, o).(edgeVar := rel.variable)];
      }
    }

    method Path(path: CypherPath)
      modifies this
      ensures State() == EmitPath(v, path, old(State()))
    {
      var current := GetOrAnon(path.start.variable);
      if path.hops == [] {
        NodeBinding(current, path.start);
        return;
      }
      NodeFilters(current, path.start);
      for i := 0 to |path.hops|
        invariant EmitHops(v, path.hops[i..], current, State()) == EmitPath(v, path, old(State()))
      {
        var hop := path.hops[i];
        assert path.hops[i..][0] == hop && path.hops[i..][1..] == path.hops[i + 1..];
        ghost var before := State();
        var end := GetOrAnon(hop.end.variable);
        Rel(hop.rel, hop.direction, current, end);
        NodeFilters(end, hop.end);
        assert State() == EmitHop(v, hop, current, before);
        current := end;
      }
    }

    method Where(w: WhereEq)
      modifies this
      ensures State() == EmitWhere(v, w, old(State()))
    {
      var filter := ValueFilter(w.variable, v.resolve(w.prop), w.value);
      if w.variable in edgeVars {
        edgeFilters := edgeFilters + [filter];
      } else {
        filters := filters + [filter];
      }
    }

    /** The variables at the ends of the patterns. */
    method Bound() returns (bound: set<string>)
      ensures bound == BoundVars(patterns)
    {
      bound := {};
      for i := 0 to |patterns|
        invariant bound + BoundVars(patterns[i..]) == BoundVars(patterns)
      {
        assert patterns[i..][0] == patterns[i] && patterns[i..][1..] == patterns[i + 1..];
        bound := bound + EndVars(patterns[i]);
      }
    }

    /** Give every filter variable that nothing binds a property scan. */
    method BindFilters()
      modifies this
      ensures State() == BindFilterVars(old(State()))
    {
      var bound := Bound();
      for i := 0 to |filters|
        invariant State() == old(State()).(patterns := patterns)
        invariant patterns + ScanPatterns(filters[i..], bound)
               == old(patterns) + ScanPatterns(filters, BoundVars(old(patterns)))
      {
        assert filters[i..][0] == filters[i] && filters[i..][1..] == filters[i + 1..];
        if filters[i].variable !in bound {
          bound := bound + {filters[i].variable};
          patterns := patterns + [PlainPattern(filters[i].variable, filters[i].pred, Any)];
        }
      }
    }
  }

  method CompileQuery(v: Vocabulary, q: CypherQuery) returns (out: Output)
    ensures out == Compile(v, q)
  {
    var c := new Compiler(v);
    for i := 0 to |q.paths|
      invariant c.v == v && EmitPaths(v, q.paths[i..], c.State()) == EmitPaths(v, q.paths, START)
    {
      assert q.paths[i..][0] == q.paths[i] && q.paths[i..][1..] == q.paths[i + 1..];
      c.Path(q.paths[i]);
    }
    for i := 0 to |q.wheres|
      invariant c.v == v &&
                EmitWheres(v, q.wheres[i..], c.State()) == EmitWheres(v, q.wheres, EmitPaths(v, q.paths, START))
    {
      assert q.wheres[i..][0] == q.wheres[i] && q.wheres[i..][1..] == q.wheres[i + 1..];
      c.Where(q.wheres[i]);
    }
    c.BindFilters();
    out := c.State();
  }
}
