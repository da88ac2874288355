// Reading a stencil index off an index expression of a get
// (AnalyzeStencilIndex in translator/stencil_analysis.cc).
module StencilAnalysis {
  import opened StencilRange

  // An index expression. A name stands for a variable or for any expression
  // of a kind that the analysis does not look into.
  datatype Expr =
    | IntVal(value: int)
    | Name(id: nat)
    | Add(lhs: Expr, rhs: Expr)
    | Subtract(lhs: Expr, rhs: Expr)
    | Cast(operand: Expr)
    | Minus(operand: Expr)

  // Done gives the truth value returned and what the out parameter then
  // holds; Abort ends the translation.
  datatype Outcome = Done(ok: bool, idx: StencilIndex) | Abort

  // AnalyzeVarRef: the place of a kernel parameter, from 1, or 0 if there is
  // no such parameter.
  function Position(args: seq<nat>, id: nat): (dim: nat)
    ensures dim == 0 <==> id !in args
    ensures dim > 0 ==> dim <= |args| && args[dim - 1] == id && id !in args[..dim - 1]
  {
    if |args| == 0 then 0
    else if args[0] == id then 1
    else
      var dim := Position(args[1..], id);
      if dim == 0 then 0 else
      assert args[..dim] == [args[0]] + args[1..][..dim - 1];
      dim + 1
  }

  // The analysis of both operands starts from a fresh index, and what it
  // returns is ignored.
  function Analyze(e: Expr, idx: StencilIndex, args: seq<nat>): Outcome {
    match e
    case IntVal(v) => Done(true, StencilIndex(0, v))
    case Name(id) => if id in args then Done(true, StencilIndex(Position(args, id), 0)) else Done(false, idx)
    case Add(l, r) => AnalyzeBinary(Analyze(l, StencilIndex(0, 0), args), Analyze(r, StencilIndex(0, 0), args), 1, idx)
    case Subtract(l, r) => AnalyzeBinary(Analyze(l, StencilIndex(0, 0), args), Analyze(r, StencilIndex(0, 0), args), -1, idx)
    case Cast(x) => Analyze(x, idx, args)
    case Minus(x) =>
      var inner := Analyze(x, idx, args);
      if inner.Done? && inner.ok then Done(true, StencilIndex(-inner.idx.dim, -inner.idx.offset)) else inner
  }

  function AnalyzeBinary(l: Outcome, r: Outcome, sign: int, idx: StencilIndex): Outcome {
    if l.Abort? || r.Abort? then Abort
    else if r.idx.dim != 0 && l.idx.dim != 0 then Done(false, idx)
    else if l.idx.dim != 0 then Done(true, StencilIndex(l.idx.dim, sign * r.idx.offset + l.idx.offset))
    else if r.idx.dim != 0 then Done(true, StencilIndex(sign * r.idx.dim, l.idx.offset + sign * r.idx.offset))
    else Abort
  }

  // ------------------------------------------------------------ the meaning

  function Value(e: Expr, env: nat -> int): int {
    match e
    case IntVal(v) => v
    case Name(id) => env(id)
    case Add(l, r) => Value(l, env) + Value(r, env)
    case Subtract(l, r) => Value(l, env) - Value(r, env)
    case Cast(x) => Value(x, env)
    case Minus(x) => -Value(x, env)
  }

  predicate InArgs(idx: StencilIndex, args: seq<nat>) {
    -|args| <= idx.dim <= |args|
  }

  // A negative dim stands for the negated loop index.
  function IndexValue(idx: StencilIndex, args: seq<nat>, env: nat -> int): int
    requires InArgs(idx, args)
  {
    idx.offset + if idx.dim > 0 then env(args[idx.dim - 1]) else if idx.dim < 0 then -env(args[-idx.dim - 1]) else 0
  }

  function Uses(e: Expr): nat {
    match e
    case IntVal(_) => 0
    case Name(_) => 1
    case Add(l, r) => Uses(l) + Uses(r)
    case Subtract(l, r) => Uses(l) + Uses(r)
    case Cast(x) => Uses(x)
    case Minus(x) => Uses(x)
  }

  function UsesOf(e: Expr, id: nat): (n: nat)
    ensures n <= Uses(e)
  {
    match e
    case IntVal(_) => 0
    case Name(i) => if i == id then 1 else 0
    case Add(l, r) => UsesOf(l, id) + UsesOf(r, id)
    case Subtract(l, r) => UsesOf(l, id) + UsesOf(r, id)
    case Cast(x) => UsesOf(x, id)
    case Minus(x) => UsesOf(x, id)
  }

  // A constant, or one loop index to which constants are added: constant
  // folding has left no operator with two constant operands.
  predicate Legitimate(e: Expr, args: seq<nat>) {
    match e
    case IntVal(_) => true
    case Name(id) => id in args
    case Add(l, r) => Legitimate(l, args) && Legitimate(r, args) && Uses(l) + Uses(r) == 1
    case Subtract(l, r) => Legitimate(l, args) && Legitimate(r, args) && Uses(l) + Uses(r) == 1
    case Cast(x) => Legitimate(x, args)
    case Minus(x) => Legitimate(x, args)
  }

  // Legitimate expressions are accepted, and the index says what they compute.
  lemma {:induction false} LegitimateIsRead(e: Expr, idx: StencilIndex, args: seq<nat>, env: nat -> int)
    requires Legitimate(e, args)
    ensures var out := Analyze(e, idx, args);
      out.Done? && out.ok && InArgs(out.idx, args) && IndexValue(out.idx, args, env) == Value(e, env)
      && (out.idx.dim != 0 <==> Uses(e) == 1) && Uses(e) <= 1
  {
    match e {
      case IntVal(_) =>
      case Name(_) =>
      case Add(l, r) =>
        LegitimateIsRead(l, StencilIndex(0, 0), args, env);
        LegitimateIsRead(r, StencilIndex(0, 0), args, env);
      case Subtract(l, r) =>
        LegitimateIsRead(l, StencilIndex(0, 0), args, env);
        LegitimateIsRead(r, StencilIndex(0, 0), args, env);
      case Cast(x) => LegitimateIsRead(x, idx, args, env);
      case Minus(x) => LegitimateIsRead(x, idx, args, env);
    }
  }

  // A failure leaves the out parameter as it was: the operand counts as 0.
  lemma {:induction false} FailureKeeps(e: Expr, idx: StencilIndex, args: seq<nat>)
    ensures var out := Analyze(e, idx, args);
      out.Done? && !out.ok ==> out.idx == idx
    ensures var out := Analyze(e, idx, args);
      out.Done? && out.ok ==> InArgs(out.idx, args)
  {
    match e {
      case IntVal(_) =>
      case Name(_) =>
      case Add(l, r) =>
        FailureKeeps(l, StencilIndex(0, 0), args);
        FailureKeeps(r, StencilIndex(0, 0), args);
      case Subtract(l, r) =>
        FailureKeeps(l, StencilIndex(0, 0), args);
        FailureKeeps(r, StencilIndex(0, 0), args);
      case Cast(x) => FailureKeeps(x, idx, args);
      case Minus(x) => FailureKeeps(x, idx, args);
    }
  }

  // Because of that an index plus a variable that is no loop index is
  // accepted as the index alone.
  lemma VariableIsDropped(args: seq<nat>, i: nat, n: nat, env: nat -> int)
    requires i in args && n !in args && env(n) != 0
    ensures var out := Analyze(Add(Name(i), Name(n)), StencilIndex(0, 0), args);
      out.Done? && out.ok && InArgs(out.idx, args)
      && IndexValue(out.idx, args, env) != Value(Add(Name(i), Name(n)), env)
  {
    assert Analyze(Name(n), StencilIndex(0, 0), args) == Done(false, StencilIndex(0, 0));
    assert Analyze(Name(i), StencilIndex(0, 0), args) == Done(true, StencilIndex(Position(args, i), 0));
  }

  // ----------------------------------------------- exactly what is accepted

  // No operand of a sum or difference failed unnoticed.
  predicate Noticed(e: Expr, args: seq<nat>) {
    match e
    case IntVal(_) => true
    case Name(_) => true
    case Add(l, r) => Accepted(l, args) && Accepted(r, args) && Noticed(l, args) && Noticed(r, args)
    case Subtract(l, r) => Accepted(l, args) && Accepted(r, args) && Noticed(l, args) && Noticed(r, args)
    case Cast(x) => Noticed(x, args)
    case Minus(x) => Noticed(x, args)
  }

  predicate Accepted(e: Expr, args: seq<nat>) {
    var out := Analyze(e, StencilIndex(0, 0), args);
    out.Done? && out.ok
  }

  // As long as no failure goes unnoticed, exactly the legitimate expressions
  // are accepted: in particular none that uses two loop indices, or one twice.
  lemma {:induction false} AcceptedIffLegitimate(e: Expr, args: seq<nat>)
    ensures Accepted(e, args) && Noticed(e, args) <==> Legitimate(e, args)
  {
    var none := StencilIndex(0, 0);
    match e {
      case IntVal(_) =>
      case Name(_) =>
      case Add(l, r) =>
        AcceptedIffLegitimate(l, args);
        AcceptedIffLegitimate(r, args);
        LegitimateUses(l, args);
        LegitimateUses(r, args);
      case Subtract(l, r) =>
        AcceptedIffLegitimate(l, args);
        AcceptedIffLegitimate(r, args);
        LegitimateUses(l, args);
        LegitimateUses(r, args);
      case Cast(x) => AcceptedIffLegitimate(x, args);
      case Minus(x) => AcceptedIffLegitimate(x, args);
    }
  }

  lemma LegitimateUses(e: Expr, args: seq<nat>)
    ensures var out := Analyze(e, StencilIndex(0, 0), args);
      Legitimate(e, args) ==> Uses(e) <= 1 && (out.Done? && out.idx.dim != 0 <==> Uses(e) == 1)
  {
    if Legitimate(e, args) {
      LegitimateIsRead(e, StencilIndex(0, 0), args, (id: nat) => 0);
    }
  }

  // A failure that goes unnoticed: i + j is rejected, but (i + j) + k is read as
  // k, and uses three loop indices.
  lemma SumIsSwallowed(args: seq<nat>, i: nat, j: nat, k: nat)
    requires i in args && j in args && k in args
    ensures !Accepted(Add(Name(i), Name(j)), args)
    ensures Analyze(Add(Add(Name(i), Name(j)), Name(k)), StencilIndex(0, 0), args)
         == Analyze(Name(k), StencilIndex(0, 0), args)
    ensures Accepted(Add(Add(Name(i), Name(j)), Name(k)), args)
  {
    assert Analyze(Add(Name(i), Name(j)), StencilIndex(0, 0), args) == Done(false, StencilIndex(0, 0));
  }

  // -------------------------------------------------- exactly when it is right

  // Without names an expression is a constant, or the analysis aborts.
  lemma {:induction false} ConstantIsRead(e: Expr, idx: StencilIndex, args: seq<nat>)
    requires Uses(e) == 0 && Analyze(e, idx, args).Done?
    ensures Legitimate(e, args) && Analyze(e, idx, args).ok && Analyze(e, idx, args).idx.dim == 0
  {
    match e {
      case IntVal(_) =>
      case Name(_) =>
      case Add(l, r) =>
        ConstantIsRead(l, StencilIndex(0, 0), args);
        ConstantIsRead(r, StencilIndex(0, 0), args);
      case Subtract(l, r) =>
        ConstantIsRead(l, StencilIndex(0, 0), args);
        ConstantIsRead(r, StencilIndex(0, 0), args);
      case Cast(x) => ConstantIsRead(x, idx, args);
      case Minus(x) => ConstantIsRead(x, idx, args);
    }
  }

  // With one name an accepted expression whose index has a dimension is
  // legitimate.
  lemma {:induction false} OneNameIsRead(e: Expr, idx: StencilIndex, args: seq<nat>)
    requires Uses(e) == 1
    requires var out := Analyze(e, idx, args); out.Done? && out.ok && out.idx.dim != 0
    ensures Legitimate(e, args)
  {
    var none := StencilIndex(0, 0);
    match e {
      case IntVal(_) =>
      case Name(_) =>
      case Add(l, r) =>
        var (constant, other) := if Uses(l) == 0 then (l, r) else (r, l);
        ConstantIsRead(constant, none, args);
        FailureKeeps(other, none, args);
        OneNameIsRead(other, none, args);
      case Subtract(l, r) =>
        var (constant, other) := if Uses(l) == 0 then (l, r) else (r, l);
        ConstantIsRead(constant, none, args);
        FailureKeeps(other, none, args);
        OneNameIsRead(other, none, args);
      case Cast(x) => OneNameIsRead(x, idx, args);
      case Minus(x) => OneNameIsRead(x, idx, args);
    }
  }

  ghost predicate NoRepeat(e: Expr) {
    forall id :: UsesOf(e, id) <= 1
  }

  lemma {:induction false} OnlyName(e: Expr, y: nat)
    requires forall id :: UsesOf(e, id) > 0 ==> id == y
    ensures Uses(e) == UsesOf(e, y)
  {
    match e {
      case IntVal(_) =>
      case Name(i) => assert UsesOf(e, i) > 0;
      case Add(l, r) =>
        forall id | UsesOf(l, id) > 0 || UsesOf(r, id) > 0 ensures id == y { assert UsesOf(e, id) > 0; }
        OnlyName(l, y);
        OnlyName(r, y);
      case Subtract(l, r) =>
        forall id | UsesOf(l, id) > 0 || UsesOf(r, id) > 0 ensures id == y { assert UsesOf(e, id) > 0; }
        OnlyName(l, y);
        OnlyName(r, y);
      case Cast(x) =>
        forall id | UsesOf(x, id) > 0 ensures id == y { assert UsesOf(e, id) > 0; }
        OnlyName(x, y);
      case Minus(x) =>
        forall id | UsesOf(x, id) > 0 ensures id == y { assert UsesOf(e, id) > 0; }
        OnlyName(x, y);
    }
  }

  // Changing the value of a name used once changes the value of the
  // expression; changing one that is not used does not.
  lemma {:induction false} ValueMoves(e: Expr, x: nat, env: nat -> int, moved: nat -> int)
    requires UsesOf(e, x) <= 1
    requires moved(x) == env(x) + 1 && forall id | id != x :: moved(id) == env(id)
    ensures UsesOf(e, x) == 0 ==> Value(e, moved) == Value(e, env)
    ensures UsesOf(e, x) == 1 ==> Value(e, moved) != Value(e, env) && -1 <= Value(e, moved) - Value(e, env) <= 1
  {
    match e {
      case IntVal(_) =>
      case Name(_) =>
      case Add(l, r) =>
        ValueMoves(l, x, env, moved);
        ValueMoves(r, x, env, moved);
      case Subtract(l, r) =>
        ValueMoves(l, x, env, moved);
        ValueMoves(r, x, env, moved);
      case Cast(y) => ValueMoves(y, x, env, moved);
      case Minus(y) => ValueMoves(y, x, env, moved);
    }
  }

  ghost predicate Right(e: Expr, idx: StencilIndex, args: seq<nat>)
    requires InArgs(idx, args)
  {
    forall env: nat -> int :: Value(e, env) == IndexValue(idx, args, env)
  }

  // In an expression that uses no name twice, the index is right for all
  // values of the names exactly if the expression is legitimate.
  lemma RightIffLegitimate(e: Expr, args: seq<nat>)
    requires NoRepeat(e)
    requires var out := Analyze(e, StencilIndex(0, 0), args); out.Done? && out.ok && InArgs(out.idx, args)
    ensures Right(e, Analyze(e, StencilIndex(0, 0), args).idx, args) <==> Legitimate(e, args)
  {
    var none := StencilIndex(0, 0);
    var idx := Analyze(e, none, args).idx;
    if Legitimate(e, args) {
      forall env: nat -> int ensures Value(e, env) == IndexValue(idx, args, env) {
        LegitimateIsRead(e, none, args, env);
      }
    } else {
      var x := UnreadName(e, idx, args);
      var env: nat -> int := (id: nat) => 0;
      var moved: nat -> int := (id: nat) => if id == x then 1 else 0;
      assert UsesOf(e, x) <= 1;
      ValueMoves(e, x, env, moved);
      assert IndexValue(idx, args, env) == IndexValue(idx, args, moved);
      assert Value(e, env) != IndexValue(idx, args, env) || Value(e, moved) != IndexValue(idx, args, moved);
    }
  }

  // The name in an index.
  predicate Reads(idx: StencilIndex, args: seq<nat>, x: nat)
    requires InArgs(idx, args)
  {
    (idx.dim > 0 && args[idx.dim - 1] == x) || (idx.dim < 0 && args[-idx.dim - 1] == x)
  }

  lemma UnreadName(e: Expr, idx: StencilIndex, args: seq<nat>) returns (x: nat)
    requires NoRepeat(e) && Analyze(e, StencilIndex(0, 0), args) == Done(true, idx) && InArgs(idx, args)
    requires !Legitimate(e, args)
    ensures UsesOf(e, x) > 0 && !Reads(idx, args, x)
  {
    var none := StencilIndex(0, 0);
    if forall id :: UsesOf(e, id) > 0 ==> Reads(idx, args, id) {
      var y := if idx.dim > 0 then args[idx.dim - 1] else if idx.dim < 0 then args[-idx.dim - 1] else 0;
      forall id | UsesOf(e, id) > 0 ensures id == y {
        assert Reads(idx, args, id);
      }
      OnlyName(e, y);
      assert UsesOf(e, y) <= 1;
      if Uses(e) == 0 {
        ConstantIsRead(e, none, args);
      } else {
        assert Reads(idx, args, y);
        OneNameIsRead(e, none, args);
      }
      assert false;
    }
    x :| UsesOf(e, x) > 0 && !Reads(idx, args, x);
  }
}
