/** Terms, formulas and axioms of the string solver, and what it means for an assignment of
    values to symbols to satisfy an axiom. A symbolic string is a length term together with
    the name of a character array; a universally quantified axiom ranges its bound variable
    over [0, upper). */
module StringTerms {

  /** A symbol: one that came from the program, or one drawn from the generator's counter
      under a human-readable hint. */
  datatype Name = User(id: string) | Fresh(hint: string, n: nat)

  /** An argument of a string-library call node, by kind. */
  datatype Arg =
    | IntArg(term: IntTerm)
    | CharArg(character: CharTerm)
    | StrArg(str: SymString)
    | PtrArg(target: Name)

  /** Integer-valued terms. `Mistyped` is an argument of another kind used where an integer
      is expected; its value is not determined by the symbols it mentions. */
  datatype IntTerm =
    | Lit(value: int)
    | IntVar(name: Name)
    | Add(left: IntTerm, right: IntTerm)
    | Sub(left: IntTerm, right: IntTerm)
    | Mistyped(arg: Arg)

  /** A character as Java and the string solver see it: one 16-bit UTF-16 code unit, surrogate
      halves included. */
  type CodeUnit = c: int | 0 <= c < 0x1_0000

  /** Character-valued terms: a literal, a character symbol, one cell of an array, or an
      integer cast to a character (which keeps its low sixteen bits). */
  datatype CharTerm =
    | CharLit(c: CodeUnit)
    | CharVar(name: Name)
    | At(cells: Name, index: IntTerm)
    | CodeUnitOf(n: IntTerm)

  /** A string as the solver sees it: its length and the array holding its characters. */
  datatype SymString = SymString(length: IntTerm, content: Name)

  datatype Formula =
    | Gt(left: IntTerm, right: IntTerm)
    | IntEq(left: IntTerm, right: IntTerm)
    | CharEq(cleft: CharTerm, cright: CharTerm)
    | Not(f: Formula)

  /** An axiom: an implication, a plain formula, or "for every `bound` in [0, upper): body". */
  datatype Axiom =
    | Implies(premise: Formula, conclusion: Formula)
    | Plain(formula: Formula)
    | Forall(bound: Name, upper: IntTerm, body: Formula)

  /** An assignment of values to symbols. Every array maps every integer index, so the cells
      of a string's array outside [0, length) hold values nothing else pins down. */
  datatype Model = Model(
    ints: Name -> int,
    chars: Name -> CodeUnit,
    arrays: Name -> (int -> CodeUnit),
    mistyped: Arg -> int)

  /** The value of the bound variable of the quantified axiom being evaluated, if any. */
  datatype Binding = Unbound | Bound(v: Name, k: int)

  function Lookup(m: Model, b: Binding, n: Name): int
  {
    if b.Bound? && b.v == n then b.k else m.ints(n)
  }

  function EvalIn(m: Model, b: Binding, t: IntTerm): int
  {
    match t
    case Lit(v) => v
    case IntVar(n) => Lookup(m, b, n)
    case Add(x, y) => EvalIn(m, b, x) + EvalIn(m, b, y)
    case Sub(x, y) => EvalIn(m, b, x) - EvalIn(m, b, y)
    case Mistyped(a) => m.mistyped(a)
  }

  /** The value of a term outside any quantifier. */
  function Eval(m: Model, t: IntTerm): int
  {
    EvalIn(m, Unbound, t)
  }

  function EvalChar(m: Model, b: Binding, c: CharTerm): CodeUnit
  {
    match c
    case CharLit(x) => x
    case CharVar(n) => m.chars(n)
    case At(a, i) => m.arrays(a)(EvalIn(m, b, i))
    case CodeUnitOf(n) => EvalIn(m, b, n) % 0x1_0000
  }

  predicate Holds(m: Model, b: Binding, f: Formula)
  {
    match f
    case Gt(x, y) => EvalIn(m, b, x) > EvalIn(m, b, y)
    case IntEq(x, y) => EvalIn(m, b, x) == EvalIn(m, b, y)
    case CharEq(x, y) => EvalChar(m, b, x) == EvalChar(m, b, y)
    case Not(g) => !Holds(m, b, g)
  }

  predicate Satisfies(m: Model, ax: Axiom)
  {
    match ax
    case Implies(p, q) => Holds(m, Unbound, p) ==> Holds(m, Unbound, q)
    case Plain(f) => Holds(m, Unbound, f)
    case Forall(v, upper, body) => forall k :: 0 <= k < Eval(m, upper) ==> Holds(m, Bound(v, k), body)
  }

  predicate SatisfiesAll(m: Model, axioms: seq<Axiom>)
  {
    forall i :: 0 <= i < |axioms| ==> Satisfies(m, axioms[i])
  }

  /** The integer symbols a term reads. */
  function IntNames(t: IntTerm): set<Name>
  {
    match t
    case Lit(_) => {}
    case IntVar(n) => {n}
    case Add(a, b) => IntNames(a) + IntNames(b)
    case Sub(a, b) => IntNames(a) + IntNames(b)
    case Mistyped(_) => {}
  }

  /** Binding a symbol a term does not read leaves its value alone. */
  lemma {:induction false} EvalBound(m: Model, v: Name, k: int, t: IntTerm)
    requires v !in IntNames(t)
    ensures EvalIn(m, Bound(v, k), t) == Eval(m, t)
  {
    match t
    case Lit(_) =>
    case IntVar(n) =>
    case Add(x, y) =>
      EvalBound(m, v, k, x);
      EvalBound(m, v, k, y);
    case Sub(x, y) =>
      EvalBound(m, v, k, x);
      EvalBound(m, v, k, y);
    case Mistyped(_) =>
  }

  /** Integer terms do not read arrays. */
  lemma {:induction false} EvalArrays(m: Model, arrays: Name -> (int -> CodeUnit), t: IntTerm)
    ensures Eval(m.(arrays := arrays), t) == Eval(m, t)
  {
    match t
    case Lit(_) =>
    case IntVar(n) =>
    case Add(x, y) =>
      EvalArrays(m, arrays, x);
      EvalArrays(m, arrays, y);
    case Sub(x, y) =>
      EvalArrays(m, arrays, x);
      EvalArrays(m, arrays, y);
    case Mistyped(_) =>
  }

  /** The characters of a string of non-negative length in a model. */
  function Value(m: Model, s: SymString): (r: seq<CodeUnit>)
    requires Eval(m, s.length) >= 0
    ensures |r| == Eval(m, s.length)
    ensures forall i :: 0 <= i < |r| ==> r[i] == m.arrays(s.content)(i)
  {
    seq<CodeUnit>(Eval(m, s.length), i => m.arrays(s.content)(i))
  }

  lemma SatisfiesAllAppend(m: Model, xs: seq<Axiom>, ys: seq<Axiom>)
    ensures SatisfiesAll(m, xs + ys) <==> SatisfiesAll(m, xs) && SatisfiesAll(m, ys)
  {
    if SatisfiesAll(m, xs) && SatisfiesAll(m, ys) {
      forall i | 0 <= i < |xs + ys|
        ensures Satisfies(m, (xs + ys)[i])
      {
        if i >= |xs| {
          assert (xs + ys)[i] == ys[i - |xs|];
        }
      }
    }
    if SatisfiesAll(m, xs + ys) {
      forall i | 0 <= i < |xs|
        ensures Satisfies(m, xs[i])
      {
        assert (xs + ys)[i] == xs[i];
      }
      forall i | 0 <= i < |ys|
        ensures Satisfies(m, ys[i])
      {
        assert (xs + ys)[|xs| + i] == ys[i];
      }
    }
  }
}
