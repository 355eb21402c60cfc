/**
 * The SymPy and numpy calls the strategies make. Nothing about symbolic
 * algebra is modelled: each call is an uninterpreted total function that
 * returns a value or raises, gathered in one record passed to the strategies.
 */
module SymPy {
  import opened Py

  /** A SymPy expression. Symbols, integers and `e + c` are built by the code itself; everything else is opaque. */
  datatype Expr =
    | Symbol(name: string, isInteger: bool, isReal: bool)
    | Integer(value: int)
    | Plus(e: Expr, c: int)
    | Opaque(id: nat)

  /** A fact handed to `sympy.assumptions.assuming`. */
  datatype Fact =
    | IsInteger(e: Expr)
    | AtLeast(e: Expr, bound: int)
    | IsPositive(e: Expr)
    | IsNonzero(e: Expr)
    | IsReal(e: Expr)

  /** A numeric matrix as numpy returns it. */
  type Matrix = seq<seq<real>>

  type NonNegReal = r: real | r >= 0.0

  datatype Engine = Engine(
    /** `sympify(text, locals=env)` */
    sympify: (Value, map<string, Expr>) -> Result<Expr>,
    /** `a - b` */
    minus: (Expr, Expr) -> Result<Expr>,
    /** `simplify(e)` */
    simplify: Expr -> Result<Expr>,
    /** `e == 0` */
    isZero: Expr -> bool,
    /** `str(e)` */
    show: Expr -> string,
    /** `e.subs(mapping)` */
    substitute: (Expr, map<Expr, Expr>) -> Result<Expr>,
    /** `bool(simplify(e))` inside `with assuming(*facts)` */
    decide: (Expr, seq<Fact>) -> Result<bool>,
    /** `bool(e.subs(point))` */
    truthAt: (Expr, map<string, real>) -> Result<bool>,
    /** `float(e.subs(point))` */
    valueAt: (Expr, map<string, real>) -> Result<Fl>,
    /** `lambdify([x], Matrix(F).jacobian(x))` */
    jacobian: (seq<Expr>, seq<Expr>) -> Result<Expr>,
    /** `np.array(Jf(X), dtype=float)` */
    matrixAt: (Expr, seq<real>) -> Result<Matrix>,
    /** `float(np.max(np.linalg.svd(J, compute_uv=False)))` */
    largestSingular: Matrix -> Result<NonNegReal>)

  /** `{s: symbols(s, ...) for s in names}` */
  function SymbolTable(names: seq<string>, isInteger: bool, isReal: bool): (env: map<string, Expr>)
    ensures env.Keys == set s | s in names
    ensures forall s :: s in env ==> env[s] == Symbol(s, isInteger, isReal)
  {
    if names == [] then map[]
    else SymbolTable(names[..|names| - 1], isInteger, isReal)[names[|names| - 1] := Symbol(names[|names| - 1], isInteger, isReal)]
  }
}
