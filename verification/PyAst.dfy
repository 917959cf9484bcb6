/** The part of Python's syntax that the write-contract check looks at.  Expression kinds without a rule of their own
    are `Compound`. */
module PyAst {

  datatype Keyword = Keyword(arg: string, value: Expr)  // `**kwargs` has the empty name

  datatype Expr =
    | Name(id: string)
    | Str(value: string)
    | Const
    | Attribute(obj: Expr, attr: string)
    | Div(left: Expr, right: Expr)
    | Call(func: Expr, args: seq<Expr>, keywords: seq<Keyword>, line: nat)
    | Compound(parts: seq<Expr>)

  /** Assignment targets.  `Store` is a target that binds no name, such as `obj.field`. */
  datatype Target = NameTarget(id: string) | TupleTarget(elts: seq<Target>) | Store

  datatype WithItem = WithItem(context: Expr, target: Target)  // no `as` clause is `Store`

  datatype Handler = Handler(body: seq<Stmt>)

  datatype Stmt =
    | ExprStmt(expr: Expr)
    | Assign(targets: seq<Target>, value: Expr)
    | AnnOnly  // an annotated name without a value
    | With(items: seq<WithItem>, body: seq<Stmt>)
    | If(test: Expr, body: seq<Stmt>, orelse: seq<Stmt>)
    | For(target: Target, iter: Expr, body: seq<Stmt>, orelse: seq<Stmt>)
    | While(test: Expr, body: seq<Stmt>, orelse: seq<Stmt>)
    | Try(body: seq<Stmt>, handlers: seq<Handler>, orelse: seq<Stmt>, final: seq<Stmt>)
    | Def(name: string, defaults: seq<Expr>, body: seq<Stmt>, decorators: seq<Expr>)
    | Class(name: string, bases: seq<Expr>, body: seq<Stmt>, decorators: seq<Expr>)
    | Rebind(names: set<string>, exprs: seq<Expr>)  // augmented assignment, import, del
    | Return(expr: Expr)
    | Raise(expr: Expr)
    | Break
    | Continue

  /** Every simple name bound by an assignment or `as` target. */
  function BoundNames(target: Target): set<string> {
    match target
    case NameTarget(id) => {id}
    case TupleTarget(elts) => BoundNamesOf(elts)
    case Store => {}
  }

  function BoundNamesOf(targets: seq<Target>): set<string> {
    if targets == [] then {} else BoundNames(targets[0]) + BoundNamesOf(targets[1..])
  }

  /** The names a statement may bind in its own scope. */
  function Bound(stmt: Stmt): set<string> {
    match stmt
    case Assign(targets, _) => BoundNamesOf(targets)
    case With(items, body) => ItemNames(items) + BoundB(body)
    case If(_, body, orelse) => BoundB(body) + BoundB(orelse)
    case For(target, _, body, orelse) => BoundNames(target) + BoundB(body) + BoundB(orelse)
    case While(_, body, orelse) => BoundB(body) + BoundB(orelse)
    case Try(body, handlers, orelse, final) =>
      BoundB(body) + BoundH(handlers) + BoundB(orelse) + BoundB(final)
    case Def(name, _, _, _) => {name}
    case Class(name, _, _, _) => {name}
    case Rebind(names, _) => names
    case _ => {}
  }

  function BoundB(block: seq<Stmt>): set<string> {
    if block == [] then {} else Bound(block[0]) + BoundB(block[1..])
  }

  function BoundH(handlers: seq<Handler>): set<string> {
    if handlers == [] then {} else BoundB(handlers[0].body) + BoundH(handlers[1..])
  }

  function ItemNames(items: seq<WithItem>): set<string> {
    if items == [] then {} else BoundNames(items[0].target) + ItemNames(items[1..])
  }
}
