/** The operator tokens and the syntax nodes of operators under their names, with the numbers the
    enumerations of the source give them; operator tokens are counted from the opening parenthesis. */
module OperatorNames {
  const KWD_EVAL: nat := 1
  const KWD_TRY: nat := 2
  const KWD_DEFER: nat := 3
  const KWD_DISTINCT: nat := 4
  const UOP_NOT: nat := 5
  const UOP_LOG_NOT: nat := 6
  const TYP_OPT_PTR: nat := 7
  const TYP_VAR: nat := 8
  const TYP_TAIL_ARRAY: nat := 9
  const TYP_MULTI_PTR: nat := 10
  const TYP_OPT_MULTI_PTR: nat := 11
  const TYP_SLICE: nat := 12
  const OP_MUL_OR_TYP_PTR: nat := 13
  const OP_SUB: nat := 14
  const OP_ADD: nat := 15
  const OP_DIV: nat := 16
  const OP_ADD_TC: nat := 17
  const OP_SUB_TC: nat := 18
  const OP_MUL_TC: nat := 19
  const OP_MOD: nat := 20
  const UOP_ADDR: nat := 21
  const UOP_DEREF: nat := 22
  const OP_AND: nat := 23
  const OP_OR: nat := 24
  const OP_XOR: nat := 25
  const OP_SHL: nat := 26
  const OP_SHR: nat := 27
  const OP_LOG_AND: nat := 28
  const OP_LOG_OR: nat := 29
  const OP_LT: nat := 30
  const OP_GT: nat := 31
  const OP_LE: nat := 32
  const OP_GE: nat := 33
  const OP_NE: nat := 34
  const OP_EQ: nat := 35
  const OP_SET: nat := 36
  const OP_SET_ADD: nat := 37
  const OP_SET_SUB: nat := 38
  const OP_SET_MUL: nat := 39
  const OP_SET_DIV: nat := 40
  const OP_SET_ADD_TC: nat := 41
  const OP_SET_SUB_TC: nat := 42
  const OP_SET_MUL_TC: nat := 43
  const OP_SET_MOD: nat := 44
  const OP_SET_AND: nat := 45
  const OP_SET_OR: nat := 46
  const OP_SET_XOR: nat := 47
  const OP_SET_SHL: nat := 48
  const OP_SET_SHR: nat := 49

  const NODE_IDENTIFIER: nat := 25
  const NODE_CALL: nat := 36
  const NODE_UOP_TYPE_TAIL_ARRAY: nat := 37
  const NODE_UOP_TYPE_SLICE: nat := 38
  const NODE_UOP_TYPE_MULTI_PTR: nat := 39
  const NODE_UOP_TYPE_OPT_MULTI_PTR: nat := 40
  const NODE_UOP_EVAL: nat := 41
  const NODE_UOP_TRY: nat := 42
  const NODE_UOP_DEFER: nat := 43
  const NODE_UOP_DISTINCT: nat := 44
  const NODE_UOP_ADDR: nat := 45
  const NODE_UOP_DEREF: nat := 46
  const NODE_UOP_BIT_NOT: nat := 47
  const NODE_UOP_LOG_NOT: nat := 48
  const NODE_UOP_TYPE_OPT_PTR: nat := 49
  const NODE_UOP_TYPE_VAR_ARGS: nat := 50
  const NODE_IMPLIED_MEMBER: nat := 51
  const NODE_UOP_TYPE_PTR: nat := 52
  const NODE_UOP_NEGATE: nat := 53
  const NODE_UOP_POS: nat := 54
  const NODE_OP_ADD: nat := 55
  const NODE_OP_SUB: nat := 56
  const NODE_OP_MUL: nat := 57
  const NODE_OP_DIV: nat := 58
  const NODE_OP_ADD_TC: nat := 59
  const NODE_OP_SUB_TC: nat := 60
  const NODE_OP_MUL_TC: nat := 61
  const NODE_OP_MOD: nat := 62
  const NODE_OP_BIT_AND: nat := 63
  const NODE_OP_BIT_OR: nat := 64
  const NODE_OP_BIT_XOR: nat := 65
  const NODE_OP_SHIFT_L: nat := 66
  const NODE_OP_SHIFT_R: nat := 67
  const NODE_OP_LOG_AND: nat := 68
  const NODE_OP_LOG_OR: nat := 69
  const NODE_MEMBER: nat := 70
  const NODE_OP_CMP_LT: nat := 71
  const NODE_OP_CMP_GT: nat := 72
  const NODE_OP_CMP_LE: nat := 73
  const NODE_OP_CMP_GE: nat := 74
  const NODE_OP_CMP_NE: nat := 75
  const NODE_OP_CMP_EQ: nat := 76
  const NODE_OP_SET: nat := 77
  const NODE_OP_SET_ADD: nat := 78
  const NODE_OP_SET_SUB: nat := 79
  const NODE_OP_SET_MUL: nat := 80
  const NODE_OP_SET_DIV: nat := 81
  const NODE_OP_SET_ADD_TC: nat := 82
  const NODE_OP_SET_SUB_TC: nat := 83
  const NODE_OP_SET_MUL_TC: nat := 84
  const NODE_OP_SET_MOD: nat := 85
  const NODE_OP_SET_BIT_AND: nat := 86
  const NODE_OP_SET_BIT_OR: nat := 87
  const NODE_OP_SET_BIT_XOR: nat := 88
  const NODE_OP_SET_SHIFT_L: nat := 89
  const NODE_OP_SET_SHIFT_R: nat := 90
  const NODE_OP_TYPE_ARRAY: nat := 91
  const NODE_OP_ARRAY_INDEX: nat := 92

  // What an operator between or behind its operands builds.
  function NodeBehind(sign: nat): nat {
    if sign == OP_MUL_OR_TYP_PTR then NODE_OP_MUL
    else if sign == OP_SUB then NODE_OP_SUB
    else if sign == OP_ADD then NODE_OP_ADD
    else if sign == OP_DIV then NODE_OP_DIV
    else if sign == OP_ADD_TC then NODE_OP_ADD_TC
    else if sign == OP_SUB_TC then NODE_OP_SUB_TC
    else if sign == OP_MUL_TC then NODE_OP_MUL_TC
    else if sign == OP_MOD then NODE_OP_MOD
    else if sign == UOP_ADDR then NODE_UOP_ADDR
    else if sign == UOP_DEREF then NODE_UOP_DEREF
    else if sign == OP_AND then NODE_OP_BIT_AND
    else if sign == OP_OR then NODE_OP_BIT_OR
    else if sign == OP_XOR then NODE_OP_BIT_XOR
    else if sign == OP_SHL then NODE_OP_SHIFT_L
    else if sign == OP_SHR then NODE_OP_SHIFT_R
    else if sign == OP_LOG_AND then NODE_OP_LOG_AND
    else if sign == OP_LOG_OR then NODE_OP_LOG_OR
    else if sign == OP_LT then NODE_OP_CMP_LT
    else if sign == OP_GT then NODE_OP_CMP_GT
    else if sign == OP_LE then NODE_OP_CMP_LE
    else if sign == OP_GE then NODE_OP_CMP_GE
    else if sign == OP_NE then NODE_OP_CMP_NE
    else if sign == OP_EQ then NODE_OP_CMP_EQ
    else if sign == OP_SET then NODE_OP_SET
    else if sign == OP_SET_ADD then NODE_OP_SET_ADD
    else if sign == OP_SET_SUB then NODE_OP_SET_SUB
    else if sign == OP_SET_MUL then NODE_OP_SET_MUL
    else if sign == OP_SET_DIV then NODE_OP_SET_DIV
    else if sign == OP_SET_ADD_TC then NODE_OP_SET_ADD_TC
    else if sign == OP_SET_SUB_TC then NODE_OP_SET_SUB_TC
    else if sign == OP_SET_MUL_TC then NODE_OP_SET_MUL_TC
    else if sign == OP_SET_MOD then NODE_OP_SET_MOD
    else if sign == OP_SET_AND then NODE_OP_SET_BIT_AND
    else if sign == OP_SET_OR then NODE_OP_SET_BIT_OR
    else if sign == OP_SET_XOR then NODE_OP_SET_BIT_XOR
    else if sign == OP_SET_SHL then NODE_OP_SET_SHIFT_L
    else if sign == OP_SET_SHR then NODE_OP_SET_SHIFT_R
    else 0
  }

  // What an operator in front of its operand builds.
  function NodeInFront(sign: nat): nat {
    if sign == KWD_EVAL then NODE_UOP_EVAL
    else if sign == KWD_TRY then NODE_UOP_TRY
    else if sign == KWD_DEFER then NODE_UOP_DEFER
    else if sign == KWD_DISTINCT then NODE_UOP_DISTINCT
    else if sign == UOP_NOT then NODE_UOP_BIT_NOT
    else if sign == UOP_LOG_NOT then NODE_UOP_LOG_NOT
    else if sign == TYP_OPT_PTR then NODE_UOP_TYPE_OPT_PTR
    else if sign == TYP_VAR then NODE_UOP_TYPE_VAR_ARGS
    else if sign == TYP_TAIL_ARRAY then NODE_UOP_TYPE_TAIL_ARRAY
    else if sign == TYP_MULTI_PTR then NODE_UOP_TYPE_MULTI_PTR
    else if sign == TYP_OPT_MULTI_PTR then NODE_UOP_TYPE_OPT_MULTI_PTR
    else if sign == TYP_SLICE then NODE_UOP_TYPE_SLICE
    else if sign == OP_MUL_OR_TYP_PTR then NODE_UOP_TYPE_PTR
    else if sign == OP_SUB then NODE_UOP_NEGATE
    else if sign == OP_ADD then NODE_UOP_POS
    else 0
  }
}
