/** Programs as far as runs are built for them: their literals are shorter than a bound, so that private places can be
    named apart from them, and no `.open` leaves open whether its receiver is a path. */
module PyLiterals {
  import opened PurePaths
  import opened PyAst
  import opened WriteScanner
  import opened PyRuns
  import opened StagingFlow

  /** An `.open` whose first two arguments cannot be read as a file and a truncating mode. */
  predicate PlainOpen(call: Expr)
    requires call.Call?
  {
    call.func.Attribute? && call.func.attr == "open" && !QualifiedOpen(call.func) ==>
      !IsTruncatingMode(ArgOr(call.args, 1, call.keywords, "mode")) || OpenTarget(call, FILE_KEYWORDS) == []
  }

  predicate Fair(e: Expr, n: nat) {
    match e
    case Name(_) => true
    case Str(text) => |text| < n
    case Const => true
    case Attribute(obj, _) => Fair(obj, n)
    case Div(left, right) => Fair(left, n) && Fair(right, n)
    case Call(func, args, keywords, _) => PlainOpen(e) && Fair(func, n) && FairAll(args, n) && FairKeywords(keywords, n)
    case Compound(parts) => FairAll(parts, n)
  }

  /** The parts of a call, whatever the call itself. */
  predicate FairParts(call: Expr, n: nat)
    requires call.Call?
  {
    Fair(Receiver(call), n) && FairAll(call.args, n) && FairKeywords(call.keywords, n)
  }

  predicate FairAll(es: seq<Expr>, n: nat) {
    es == [] || (Fair(es[0], n) && FairAll(es[1..], n))
  }

  predicate FairKeywords(ks: seq<Keyword>, n: nat) {
    ks == [] || (Fair(ks[0].value, n) && FairKeywords(ks[1..], n))
  }

  predicate FairItems(items: seq<WithItem>, n: nat) {
    items == [] || (Fair(items[0].context, n) && FairItems(items[1..], n))
  }

  predicate FairStmt(stmt: Stmt, n: nat) {
    match stmt
    case ExprStmt(e) => Fair(e, n)
    case Assign(_, value) => Fair(value, n)
    case With(items, body) => FairItems(items, n) && FairB(body, n)
    case If(test, body, orelse) => Fair(test, n) && FairB(body, n) && FairB(orelse, n)
    case For(_, iter, body, orelse) => Fair(iter, n) && FairB(body, n) && FairB(orelse, n)
    case While(test, body, orelse) => Fair(test, n) && FairB(body, n) && FairB(orelse, n)
    case Try(body, handlers, orelse, final) =>
      FairB(body, n) && FairH(handlers, n) && FairB(orelse, n) && FairB(final, n)
    case Def(_, defaults, body, decorators) => FairAll(defaults, n) && FairB(body, n) && FairAll(decorators, n)
    case Class(_, bases, body, decorators) => FairAll(bases, n) && FairB(body, n) && FairAll(decorators, n)
    case Rebind(_, exprs) => FairAll(exprs, n)
    case Return(e) => Fair(e, n)
    case Raise(e) => Fair(e, n)
    case _ => true
  }

  predicate FairB(block: seq<Stmt>, n: nat) {
    block == [] || (FairStmt(block[0], n) && FairB(block[1..], n))
  }

  predicate FairH(handlers: seq<Handler>, n: nat) {
    handlers == [] || (FairB(handlers[0].body, n) && FairH(handlers[1..], n))
  }

  lemma {:induction false} PartsShort(text: string, current: string, n: nat)
    requires |text| + |current| < n
    ensures forall k | 0 <= k < |Parts(text, current)| :: |Parts(text, current)[k]| < n
    decreases text
  {
    if text != [] {
      if text[0] == '/' {
        PartsShort(text[1..], "", n);
      } else {
        PartsShort(text[1..], current + [text[0]], n);
      }
    }
  }

  /** The parts of a short literal are short. */
  lemma {:induction false} LiteralShort(text: string, n: nat)
    requires |text| < n
    ensures forall k | 0 <= k < |ParsePath(text).parts| :: |ParsePath(text).parts[k]| < n
  {
    PartsShort(text, "", n);
  }
}
