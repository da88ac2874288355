// Which expressions may define a grid variable (findDefinitions in
// translator/def_analysis.cc): a fixpoint over declarations and assignments.
module DefAnalysis {

  type Var = nat

  // A defining expression; declarations without one define a variable as NULL.
  datatype Def = Null | Expr(id: nat)

  datatype Initializer =
    | NoInitializer
    | Unknown                // neither an assignment nor an aggregate
    | Value(def: nat)        // an expression that is not a variable
    | Copy(source: Var)

  // relevant: the type is one of the types asked for.
  datatype Decl = Decl(name: Var, relevant: bool, init: Initializer)

  datatype Assign = Assign(relevant: bool, lhs: Var, rhs: Var)

  datatype Program = Program(vars: seq<Decl>, asns: seq<Assign>)

  type DefMap = map<Var, seq<Def>>

  // ---------------------------------------------------------- specification

  ghost predicate Seeded(p: Program, v: Var, d: Def) {
    exists i :: 0 <= i < |p.vars| && IsSeed(p.vars[i], v, d)
  }

  // An initializer that is no variable contributes itself, or NULL.
  predicate Contributes(init: Initializer, d: Def) {
    match init
    case NoInitializer => d == Null
    case Unknown => d == Null
    case Value(e) => d == Expr(e)
    case Copy(_) => false
  }

  ghost predicate IsSeed(decl: Decl, v: Var, d: Def) {
    decl.relevant && decl.name == v && Contributes(decl.init, d)
  }

  // v receives the definitions of u.
  ghost predicate Flows(p: Program, u: Var, v: Var) {
    || (exists i :: 0 <= i < |p.vars| && IsCopy(p.vars[i], u, v))
    || (exists i :: 0 <= i < |p.asns| && IsAssign(p.asns[i], u, v))
  }

  ghost predicate IsCopy(decl: Decl, u: Var, v: Var) {
    decl.relevant && decl.name == v && decl.init == Copy(u)
  }

  ghost predicate IsAssign(asn: Assign, u: Var, v: Var) {
    asn.relevant && asn.lhs == v && asn.rhs == u
  }

  // A chain of copies from a variable seeded with d to v.
  ghost predicate Chain(p: Program, chain: seq<Var>, v: Var, d: Def) {
    && |chain| > 0 && Seeded(p, chain[0], d) && chain[|chain| - 1] == v
    && forall i | 0 <= i < |chain| - 1 :: Flows(p, chain[i], chain[i + 1])
  }

  ghost predicate Defines(p: Program, v: Var, d: Def) {
    exists chain :: Chain(p, chain, v, d)
  }

  ghost predicate Recorded(m: DefMap, v: Var, d: Def) {
    v in m && d in m[v]
  }

  lemma SeedDefines(p: Program, v: Var, d: Def)
    requires Seeded(p, v, d)
    ensures Defines(p, v, d)
  {
    assert Chain(p, [v], v, d);
  }

  lemma FlowDefines(p: Program, u: Var, v: Var, d: Def)
    requires Defines(p, u, d) && Flows(p, u, v)
    ensures Defines(p, v, d)
  {
    var chain :| Chain(p, chain, u, d);
    var longer := chain + [v];
    forall i | 0 <= i < |longer| - 1 ensures Flows(p, longer[i], longer[i + 1]) {
      if i < |chain| - 1 {
        assert Flows(p, chain[i], chain[i + 1]);
      }
    }
    assert Chain(p, longer, v, d);
  }

  // ------------------------------------------------------------- operations

  ghost predicate Distinct(s: seq<Def>) {
    forall i, j | 0 <= i < j < |s| :: s[i] != s[j]
  }

  // Adds the definition unless it is there already; tells whether it did.
  method RegisterDef(v: Var, def: Def, m: DefMap) returns (r: DefMap, changed: bool)
    ensures forall w, d :: Recorded(r, w, d) <==> Recorded(m, w, d) || (w == v && d == def)
    ensures changed <==> !Recorded(m, v, def)
    ensures !changed ==> r == m
    ensures (forall w | w in m :: Distinct(m[w])) ==> forall w | w in r :: Distinct(r[w])
  {
    if v !in m {
      return m[v := [def]], true;
    }
    if def !in m[v] {
      return m[v := m[v] + [def]], true;
    }
    return m, false;
  }

  // Adds all definitions of src to dst.
  method MergeDefs(dst: Var, src: Var, m: DefMap) returns (r: DefMap, changed: bool)
    ensures forall w, d :: Recorded(r, w, d) <==> Recorded(m, w, d) || (w == dst && Recorded(m, src, d))
    ensures changed <==> exists d :: Recorded(m, src, d) && !Recorded(m, dst, d)
    ensures !changed ==> r == m
    ensures (forall w | w in m :: Distinct(m[w])) ==> forall w | w in r :: Distinct(r[w])
  {
    r, changed := m, false;
    if src !in m {
      return;
    }
    var srcDefs := m[src];
    for i := 0 to |srcDefs|
      invariant forall w, d :: Recorded(r, w, d) <==> Recorded(m, w, d) || (w == dst && d in srcDefs[..i])
      invariant changed <==> exists d :: d in srcDefs[..i] && !Recorded(m, dst, d)
      invariant !changed ==> r == m
      invariant (forall w | w in m :: Distinct(m[w])) ==> forall w | w in r :: Distinct(r[w])
    {
      var c;
      r, c := RegisterDef(dst, srcDefs[i], r);
      assert srcDefs[..i + 1] == srcDefs[..i] + [srcDefs[i]];
      assert c ==> srcDefs[i] in srcDefs[..i + 1];
      changed := changed || c;
    }
    assert srcDefs[..|srcDefs|] == srcDefs;
  }

  // The declaration, or the assignment, adds nothing any more.
  ghost predicate DeclDone(m: DefMap, decl: Decl) {
    decl.relevant ==>
      match decl.init
      case Copy(u) => forall d :: Recorded(m, u, d) ==> Recorded(m, decl.name, d)
      case Value(e) => Recorded(m, decl.name, Expr(e))
      case NoInitializer => Recorded(m, decl.name, Null)
      case Unknown => Recorded(m, decl.name, Null)
  }

  ghost predicate AsnDone(m: DefMap, asn: Assign) {
    asn.relevant ==> forall d :: Recorded(m, asn.rhs, d) ==> Recorded(m, asn.lhs, d)
  }

  // What is recorded after a declaration was handled.
  ghost predicate Handled(m: DefMap, decl: Decl, v: Var, d: Def) {
    || Recorded(m, v, d)
    || (v == decl.name && if decl.init.Copy? then Recorded(m, decl.init.source, d) else Contributes(decl.init, d))
  }

  method HandleVarDecl(decl: Decl, m: DefMap) returns (r: DefMap, changed: bool)
    requires decl.relevant
    ensures forall v, d :: Recorded(r, v, d) <==> Handled(m, decl, v, d)
    ensures decl.init.Value? ==> Recorded(r, decl.name, Expr(decl.init.def))
    ensures decl.init.NoInitializer? || decl.init.Unknown? ==> Recorded(r, decl.name, Null)
    ensures decl.init.Copy? ==> forall d :: Recorded(m, decl.init.source, d) ==> Recorded(r, decl.name, d)
    ensures changed <==> !DeclDone(m, decl)
    ensures !changed ==> r == m
    ensures (forall w | w in m :: Distinct(m[w])) ==> forall w | w in r :: Distinct(r[w])
  {
    match decl.init {
      case NoInitializer => r, changed := RegisterDef(decl.name, Null, m);
      case Unknown => r, changed := RegisterDef(decl.name, Null, m);
      case Value(e) => r, changed := RegisterDef(decl.name, Expr(e), m);
      case Copy(u) => r, changed := MergeDefs(decl.name, u, m);
    }
  }

  // ---------------------------------------------------------- termination

  ghost function Pairs(m: DefMap): set<(Var, Def)> {
    set v, d | v in m && d in m[v] :: (v, d)
  }

  lemma PairsAre(m: DefMap, v: Var, d: Def)
    ensures (v, d) in Pairs(m) <==> Recorded(m, v, d)
  {
  }

  // The variables that can receive definitions, and the definitions.
  ghost function Targets(p: Program): set<Var> {
    (set i | 0 <= i < |p.vars| :: p.vars[i].name) + (set i | 0 <= i < |p.asns| :: p.asns[i].lhs)
  }

  ghost function Seeds(p: Program): set<Def> {
    {Null} + set i | 0 <= i < |p.vars| && p.vars[i].init.Value? :: Expr(p.vars[i].init.def)
  }

  ghost function Universe(p: Program): set<(Var, Def)> {
    set v, d | v in Targets(p) && d in Seeds(p) :: (v, d)
  }

  // Everything recorded is a definition, is recorded once, and comes from
  // finitely many pairs.
  ghost predicate Sound(p: Program, m: DefMap) {
    && (forall v, d | Recorded(m, v, d) :: Defines(p, v, d) && v in Targets(p) && d in Seeds(p))
    && (forall v | v in m :: Distinct(m[v]))
  }

  lemma SoundPairs(p: Program, m: DefMap)
    requires Sound(p, m)
    ensures Pairs(m) <= Universe(p)
  {
    forall x | x in Pairs(m) ensures x in Universe(p) {
      PairsAre(m, x.0, x.1);
    }
  }

  lemma DeclSound(p: Program, m: DefMap, i: nat, r: DefMap)
    requires Sound(p, m) && i < |p.vars| && p.vars[i].relevant
    requires forall v, d :: Recorded(r, v, d) <==> Handled(m, p.vars[i], v, d)
    requires forall v | v in r :: Distinct(r[v])
    ensures Sound(p, r)
  {
    var decl := p.vars[i];
    forall v, d | Recorded(r, v, d) ensures Defines(p, v, d) && v in Targets(p) && d in Seeds(p) {
      if !Recorded(m, v, d) {
        match decl.init {
          case Copy(u) =>
            assert IsCopy(p.vars[i], u, v);
            FlowDefines(p, u, v, d);
          case _ =>
            assert IsSeed(p.vars[i], v, d);
            SeedDefines(p, v, d);
        }
      }
    }
  }

  lemma AsnSound(p: Program, m: DefMap, i: nat, r: DefMap)
    requires Sound(p, m) && i < |p.asns| && p.asns[i].relevant
    requires forall v, d :: Recorded(r, v, d) <==>
      Recorded(m, v, d) || (v == p.asns[i].lhs && Recorded(m, p.asns[i].rhs, d))
    requires forall v | v in r :: Distinct(r[v])
    ensures Sound(p, r)
  {
    var asn := p.asns[i];
    forall v, d | Recorded(r, v, d) ensures Defines(p, v, d) && v in Targets(p) && d in Seeds(p) {
      if !Recorded(m, v, d) {
        assert IsAssign(p.asns[i], asn.rhs, v);
        FlowDefines(p, asn.rhs, v, d);
      }
    }
  }

  // A step that changes something adds a pair.
  lemma Grows(before: DefMap, after: DefMap, v: Var, d: Def)
    requires forall w, e :: Recorded(before, w, e) ==> Recorded(after, w, e)
    requires Recorded(after, v, d) && !Recorded(before, v, d)
    ensures Pairs(before) < Pairs(after)
  {
    forall x | x in Pairs(before) ensures x in Pairs(after) {
      PairsAre(before, x.0, x.1);
      PairsAre(after, x.0, x.1);
    }
    PairsAre(before, v, d);
    PairsAre(after, v, d);
  }

  // What a pass has done so far: nothing, with everything visited done, or it
  // added pairs.
  ghost predicate Progressed(m: DefMap, r: DefMap, changed: bool) {
    if changed then Pairs(m) < Pairs(r) else r == m
  }

  method VisitDecl(p: Program, i: nat, m: DefMap) returns (r: DefMap, changed: bool)
    requires Sound(p, m) && i < |p.vars|
    ensures Sound(p, r) && Progressed(m, r, changed) && (!changed ==> DeclDone(m, p.vars[i]))
  {
    if !p.vars[i].relevant {
      return m, false;
    }
    r, changed := HandleVarDecl(p.vars[i], m);
    DeclSound(p, m, i, r);
    if changed {
      ghost var d := match p.vars[i].init
        case Copy(u) => (var e :| Recorded(m, u, e) && !Recorded(m, p.vars[i].name, e); e)
        case Value(e) => Expr(e)
        case NoInitializer => Null
        case Unknown => Null;
      assert Handled(m, p.vars[i], p.vars[i].name, d);
      Grows(m, r, p.vars[i].name, d);
    }
  }

  method VisitAsn(p: Program, i: nat, m: DefMap) returns (r: DefMap, changed: bool)
    requires Sound(p, m) && i < |p.asns|
    ensures Sound(p, r) && Progressed(m, r, changed) && (!changed ==> AsnDone(m, p.asns[i]))
  {
    var asn := p.asns[i];
    if !asn.relevant {
      return m, false;
    }
    r, changed := MergeDefs(asn.lhs, asn.rhs, m);
    AsnSound(p, m, i, r);
    if changed {
      ghost var d :| Recorded(m, asn.rhs, d) && !Recorded(m, asn.lhs, d);
      Grows(m, r, asn.lhs, d);
    }
  }

  // One pass over all declarations and assignments.
  method Pass(p: Program, m: DefMap) returns (r: DefMap, changed: bool)
    requires Sound(p, m)
    ensures Sound(p, r) && Progressed(m, r, changed)
    ensures !changed ==> Closed(p, r)
  {
    r, changed := m, false;
    for i := 0 to |p.vars|
      invariant Sound(p, r) && Progressed(m, r, changed)
      invariant !changed ==> forall j | 0 <= j < i :: DeclDone(m, p.vars[j])
    {
      var c;
      r, c := VisitDecl(p, i, r);
      changed := changed || c;
    }
    for i := 0 to |p.asns|
      invariant Sound(p, r) && Progressed(m, r, changed)
      invariant !changed ==> forall j | 0 <= j < |p.vars| :: DeclDone(m, p.vars[j])
      invariant !changed ==> forall j | 0 <= j < i :: AsnDone(m, p.asns[j])
    {
      var c;
      r, c := VisitAsn(p, i, r);
      changed := changed || c;
    }
  }

  ghost predicate Closed(p: Program, m: DefMap) {
    && (forall j | 0 <= j < |p.vars| :: DeclDone(m, p.vars[j]))
    && (forall j | 0 <= j < |p.asns| :: AsnDone(m, p.asns[j]))
  }

  // A map that nothing adds to records every definition.
  lemma {:induction false} ClosedRecords(p: Program, m: DefMap, chain: seq<Var>, v: Var, d: Def)
    requires Closed(p, m) && Chain(p, chain, v, d)
    ensures Recorded(m, v, d)
  {
    var n := |chain|;
    if n == 1 {
      var i :| 0 <= i < |p.vars| && IsSeed(p.vars[i], v, d);
      assert DeclDone(m, p.vars[i]);
    } else {
      var u := chain[n - 2];
      ClosedRecords(p, m, chain[..n - 1], u, d);
      assert Flows(p, chain[n - 2], chain[n - 2 + 1]);
      if i :| 0 <= i < |p.vars| && IsCopy(p.vars[i], u, v) {
        assert DeclDone(m, p.vars[i]);
      } else {
        var i :| 0 <= i < |p.asns| && IsAssign(p.asns[i], u, v);
        assert AsnDone(m, p.asns[i]);
      }
    }
  }

  // Where a recorded definition comes from.
  ghost predicate FromDecl(p: Program, d: Def) {
    exists i :: 0 <= i < |p.vars| && p.vars[i].relevant
      && match d case Expr(e) => p.vars[i].init == Value(e) case Null => p.vars[i].init.NoInitializer? || p.vars[i].init.Unknown?
  }

  lemma DefinesFromDecl(p: Program, v: Var, d: Def)
    requires Defines(p, v, d)
    ensures FromDecl(p, d)
  {
    var chain :| Chain(p, chain, v, d);
    var i :| 0 <= i < |p.vars| && IsSeed(p.vars[i], chain[0], d);
    assert p.vars[i].relevant && Contributes(p.vars[i].init, d);
  }

  // Passes are repeated until one changes nothing. The result is the least map
  // to which no declaration or assignment adds anything: it records exactly the
  // definitions that reach a variable through a chain of copies.
  method FindDefinitions(p: Program) returns (m: DefMap)
    ensures forall v, d :: Recorded(m, v, d) <==> Defines(p, v, d)
    ensures forall v | v in m :: Distinct(m[v])
    ensures Closed(p, m) && forall n | Closed(p, n) :: forall v, d | Recorded(m, v, d) :: Recorded(n, v, d)
    ensures forall i | 0 <= i < |p.vars| && p.vars[i].relevant ::
      && (p.vars[i].init.Value? ==> Recorded(m, p.vars[i].name, Expr(p.vars[i].init.def)))
      && (p.vars[i].init.NoInitializer? || p.vars[i].init.Unknown? ==> Recorded(m, p.vars[i].name, Null))
    ensures forall v, d | Recorded(m, v, d) :: FromDecl(p, d)
  {
    m := map[];
    var changed := true;
    while changed
      invariant Sound(p, m) && (!changed ==> Closed(p, m))
      decreases |Universe(p) - Pairs(m)|, changed
    {
      ghost var before := m;
      SoundPairs(p, m);
      m, changed := Pass(p, m);
      SoundPairs(p, m);
      if changed {
        SmallerRest(Universe(p), Pairs(before), Pairs(m));
      }
    }
    forall v, d | Defines(p, v, d) ensures Recorded(m, v, d) {
      var chain :| Chain(p, chain, v, d);
      ClosedRecords(p, m, chain, v, d);
    }
    forall i | 0 <= i < |p.vars| && p.vars[i].relevant ensures DeclDone(m, p.vars[i]) {
    }
    forall v, d | Recorded(m, v, d) ensures FromDecl(p, d) && forall n | Closed(p, n) :: Recorded(n, v, d) {
      DefinesFromDecl(p, v, d);
      forall n | Closed(p, n) ensures Recorded(n, v, d) {
        var chain :| Chain(p, chain, v, d);
        ClosedRecords(p, n, chain, v, d);
      }
    }
  }

  lemma SmallerRest<T>(u: set<T>, a: set<T>, b: set<T>)
    requires a < b <= u
    ensures |u - b| < |u - a|
  {
    var x :| x in b && x !in a;
    assert u - b <= (u - a) - {x};
    CardinalityMonotone(u - b, (u - a) - {x});
  }

  lemma {:induction false} CardinalityMonotone<T>(a: set<T>, b: set<T>)
    requires a <= b
    ensures |a| <= |b|
  {
    if a != {} {
      var x :| x in a;
      CardinalityMonotone(a - {x}, b - {x});
    }
  }

  // What FindDefinitions returns.
  ghost predicate IsResult(p: Program, m: DefMap) {
    (forall v, d :: Recorded(m, v, d) <==> Defines(p, v, d)) && forall v | v in m :: Distinct(m[v])
  }

  // The order of declarations and assignments does not matter: the maps that
  // FindDefinitions returns record the same definitions, each once.
  lemma OrderIrrelevant(p: Program, q: Program, m: DefMap, n: DefMap)
    requires forall x :: x in p.vars <==> x in q.vars
    requires forall x :: x in p.asns <==> x in q.asns
    requires IsResult(p, m) && IsResult(q, n)
    ensures forall v, d :: Recorded(m, v, d) <==> Recorded(n, v, d)
    ensures forall v | v in m && v in n :: multiset(m[v]) == multiset(n[v])
  {
    forall v, d ensures Recorded(m, v, d) <==> Recorded(n, v, d) {
      SameDefines(p, q, v, d);
    }
    forall v | v in m && v in n ensures multiset(m[v]) == multiset(n[v]) {
      forall d ensures d in m[v] <==> d in n[v] {
        assert Recorded(m, v, d) <==> Recorded(n, v, d);
      }
      SameElements(m[v], n[v]);
    }
  }

  lemma SameElements(s: seq<Def>, t: seq<Def>)
    requires Distinct(s) && Distinct(t) && forall d :: d in s <==> d in t
    ensures multiset(s) == multiset(t)
  {
    forall d ensures multiset(s)[d] == multiset(t)[d] {
      CountOnce(s, d);
      CountOnce(t, d);
    }
  }

  lemma {:induction false} CountOnce(s: seq<Def>, d: Def)
    requires Distinct(s)
    ensures multiset(s)[d] == if d in s then 1 else 0
  {
    if |s| > 0 {
      CountOnce(s[1..], d);
      assert s == [s[0]] + s[1..];
    }
  }

  lemma SameDefines(p: Program, q: Program, v: Var, d: Def)
    requires forall x :: x in p.vars <==> x in q.vars
    requires forall x :: x in p.asns <==> x in q.asns
    ensures Defines(p, v, d) <==> Defines(q, v, d)
  {
    if Defines(p, v, d) {
      var chain :| Chain(p, chain, v, d);
      SameChain(p, q, chain, v, d);
    }
    if Defines(q, v, d) {
      var chain :| Chain(q, chain, v, d);
      SameChain(q, p, chain, v, d);
    }
  }

  lemma SameChain(p: Program, q: Program, chain: seq<Var>, v: Var, d: Def)
    requires (forall x :: x in p.vars ==> x in q.vars) && forall x :: x in p.asns ==> x in q.asns
    requires Chain(p, chain, v, d)
    ensures Chain(q, chain, v, d)
  {
    var i :| 0 <= i < |p.vars| && IsSeed(p.vars[i], chain[0], d);
    assert p.vars[i] in q.vars;
    forall k | 0 <= k < |chain| - 1 ensures Flows(q, chain[k], chain[k + 1]) {
      assert Flows(p, chain[k], chain[k + 1]);
      SameFlow(p, q, chain[k], chain[k + 1]);
    }
  }

  lemma SameFlow(p: Program, q: Program, u: Var, v: Var)
    requires (forall x :: x in p.vars ==> x in q.vars) && forall x :: x in p.asns ==> x in q.asns
    requires Flows(p, u, v)
    ensures Flows(q, u, v)
  {
    if i :| 0 <= i < |p.vars| && IsCopy(p.vars[i], u, v) {
      assert p.vars[i] in q.vars;
    } else {
      var i :| 0 <= i < |p.asns| && IsAssign(p.asns[i], u, v);
      assert p.asns[i] in q.asns;
    }
  }
}
