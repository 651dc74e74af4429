/** The expression tree. The statement-level variants Block, VariableDeclaration and
    Assignment are the ones the early code generator walks. */
module Ast {

  datatype BinaryOperationType = Add | Subtract | Multiply | Divide

  datatype UnaryOperationType = Negate

  /** Literal types of the tree; the floating-point kinds are not modelled. */
  datatype PrimitiveType = Int8 | Int16 | Int32 | Int64

  /** A literal's payload is kept as a plain integer next to its type tag. */
  datatype AstNode =
    | BinaryOperation(op: BinaryOperationType, left: AstNode, right: AstNode)
    | UnaryOperation(unaryOp: UnaryOperationType, operand: AstNode)
    | NumericLiteral(primitiveType: PrimitiveType, value: int)
    | Empty
    | Block(children: seq<AstNode>)
    | VariableDeclaration(name: string, declaredType: PrimitiveType)
    | Assignment(target: string, expression: AstNode)
}
