/** The opcode values of the Chain Protocol virtual machine, version 1. */
module Opcodes {
  import opened Basics

  type Op = byte

  const OP_FALSE: Op := 0x00
  const OP_0: Op := 0x00
  const OP_1: Op := 0x51
  const OP_TRUE: Op := 0x51
  const OP_16: Op := 0x60
  const OP_DATA_1: Op := 0x01
  const OP_DATA_75: Op := 0x4b
  const OP_PUSHDATA1: Op := 0x4c
  const OP_PUSHDATA2: Op := 0x4d
  const OP_PUSHDATA4: Op := 0x4e
  const OP_1NEGATE: Op := 0x4f
  const OP_NOP: Op := 0x61
  const OP_JUMP: Op := 0x63
  const OP_JUMPIF: Op := 0x64
  const OP_VERIFY: Op := 0x69
  const OP_FAIL: Op := 0x6a
  const OP_CHECKPREDICATE: Op := 0xc0
  const OP_TOALTSTACK: Op := 0x6b
  const OP_FROMALTSTACK: Op := 0x6c
  const OP_2DROP: Op := 0x6d
  const OP_2DUP: Op := 0x6e
  const OP_3DUP: Op := 0x6f
  const OP_2OVER: Op := 0x70
  const OP_2ROT: Op := 0x71
  const OP_2SWAP: Op := 0x72
  const OP_IFDUP: Op := 0x73
  const OP_DEPTH: Op := 0x74
  const OP_DROP: Op := 0x75
  const OP_DUP: Op := 0x76
  const OP_NIP: Op := 0x77
  const OP_OVER: Op := 0x78
  const OP_PICK: Op := 0x79
  const OP_ROLL: Op := 0x7a
  const OP_ROT: Op := 0x7b
  const OP_SWAP: Op := 0x7c
  const OP_TUCK: Op := 0x7d
  const OP_CAT: Op := 0x7e
  const OP_SUBSTR: Op := 0x7f
  const OP_LEFT: Op := 0x80
  const OP_RIGHT: Op := 0x81
  const OP_SIZE: Op := 0x82
  const OP_CATPUSHDATA: Op := 0x89
  const OP_INVERT: Op := 0x83
  const OP_AND: Op := 0x84
  const OP_OR: Op := 0x85
  const OP_XOR: Op := 0x86
  const OP_EQUAL: Op := 0x87
  const OP_EQUALVERIFY: Op := 0x88
  const OP_1ADD: Op := 0x8b
  const OP_1SUB: Op := 0x8c
  const OP_2MUL: Op := 0x8d
  const OP_2DIV: Op := 0x8e
  const OP_NEGATE: Op := 0x8f
  const OP_ABS: Op := 0x90
  const OP_NOT: Op := 0x91
  const OP_0NOTEQUAL: Op := 0x92
  const OP_ADD: Op := 0x93
  const OP_SUB: Op := 0x94
  const OP_MUL: Op := 0x95
  const OP_DIV: Op := 0x96
  const OP_MOD: Op := 0x97
  const OP_LSHIFT: Op := 0x98
  const OP_RSHIFT: Op := 0x99
  const OP_BOOLAND: Op := 0x9a
  const OP_BOOLOR: Op := 0x9b
  const OP_NUMEQUAL: Op := 0x9c
  const OP_NUMEQUALVERIFY: Op := 0x9d
  const OP_NUMNOTEQUAL: Op := 0x9e
  const OP_LESSTHAN: Op := 0x9f
  const OP_GREATERTHAN: Op := 0xa0
  const OP_LESSTHANOREQUAL: Op := 0xa1
  const OP_GREATERTHANOREQUAL: Op := 0xa2
  const OP_MIN: Op := 0xa3
  const OP_MAX: Op := 0xa4
  const OP_WITHIN: Op := 0xa5
  const OP_SHA256: Op := 0xa8
  const OP_SHA3: Op := 0xaa
  const OP_CHECKSIG: Op := 0xac
  const OP_CHECKMULTISIG: Op := 0xad
  const OP_TXSIGHASH: Op := 0xae
  const OP_BLOCKHASH: Op := 0xaf
  const OP_CHECKOUTPUT: Op := 0xc1
  const OP_ASSET: Op := 0xc2
  const OP_AMOUNT: Op := 0xc3
  const OP_PROGRAM: Op := 0xc4
  const OP_MINTIME: Op := 0xc5
  const OP_MAXTIME: Op := 0xc6
  const OP_TXDATA: Op := 0xc7
  const OP_ENTRYDATA: Op := 0xc8
  const OP_INDEX: Op := 0xc9
  const OP_ENTRYID: Op := 0xca
  const OP_OUTPUTID: Op := 0xcb
  const OP_NONCE: Op := 0xcc
  const OP_NEXTPROGRAM: Op := 0xcd
  const OP_BLOCKTIME: Op := 0xce

  /** The byte values for which init() installs no operation: they are reserved for expansion. */
  predicate IsExpansion(op: Op)
  {
    || op == 0x50
    || op == 0x62
    || 0x65 <= op <= 0x68
    || op == 0x8a
    || 0xa6 <= op <= 0xa7
    || op == 0xa9
    || op == 0xab
    || 0xb0 <= op <= 0xbf
    || 0xcf <= op <= 0xff
  }
}
