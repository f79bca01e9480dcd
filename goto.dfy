/**
 * A small abstract syntax for the goto-program statements and expressions that the
 * code generator emits. Only the shapes the modelled lowering decisions produce are
 * distinguished; anything built by code outside the model (the lowering of an
 * arbitrary operand, place or rvalue) is an `Opaque` expression with an identifier.
 * Source locations are not modelled.
 */
module Goto {
  import opened Wrappers

  /** The goto-program types that the modelled decisions look at or build. */
  datatype Type =
    | CBool
    | Bool
    | Unit
    | Signed(bits: nat)
    | Unsigned(bits: nat)
    | SSizeT
    | SizeT
    | Pointer(pointee: Type)
    | Code
    | U8Array(len: nat)
    | Named(tag: string)

  /** Property classes attached to assertions. */
  datatype PropertyClass =
    | Assertion
    | SafetyCheck
    | Assume
    | Unreachable
    | SanityCheck

  datatype Expr =
    | Opaque(id: nat)
    | Sym(name: string)
    | IntConst(value: int, typ: Type)
    | BoolConst(truth: bool)
    | NullPtr(typ: Type)
    | Nondet(typ: Type)
    | Cast(e: Expr, typ: Type)
    | Transmute(e: Expr, typ: Type)
    | AddressOf(e: Expr)
    | Deref(e: Expr)
    | Member(e: Expr, field: string)
    | DiscriminantOf(e: Expr)
    | NicheAt(e: Expr, offset: nat, typ: Type)
    | Plus(a: Expr, b: Expr)
    | Eq(a: Expr, b: Expr)
    | Not(e: Expr)
    | IsNonNull(e: Expr)
    | Ite(cond: Expr, thenE: Expr, elseE: Expr)
    | Call(f: Expr, args: seq<Expr>)
    | StructLit(typ: Type, fields: map<string, Expr>)
    | ArrayLit(elems: seq<Expr>)
    | Unimplemented(what: string, issue: string)
    | FloatFromBits(bits: nat, width: nat)
    | UnitValue(typ: Type)
    | StructOf(typ: Type, values: seq<Expr>)
    | SliceFatPtr(typ: Type, data: Expr, len: Expr)

  datatype Stmt =
    | Skip
    | Goto(target: nat)
    | Block(stmts: seq<Stmt>)
    | IfThen(cond: Expr, thenS: Stmt)
    | Switch(value: Expr, cases: seq<SwitchCase>, default: Stmt)
    | Assign(lhs: Expr, rhs: Expr)
    | Decl(sym: Expr, init: Option<Expr>)
    | ExprStmt(e: Expr)
    | Return(retValue: Option<Expr>)
    | AssertAssume(cond: Expr, propClass: PropertyClass, msg: string)
    | Sanity(cond: Expr, msg: string)
    | Deinit(place: Expr)
    | ReachCheck(msg: string)
    | Coverage(counter: string)
    | UnimplementedStmt(what: string, issue: string)
    | MimicUnimplemented(what: string, issue: string)

  datatype SwitchCase = SwitchCase(value: Expr, body: Stmt)
}
