/** The lowered IR a CIR file carries.

    An operation is an opcode with its fields in the order they are written.
    The field datatype is looser than the structs of the original: a value
    whose fields do not have the kinds its opcode calls for is refused by the
    encoder (no struct of the original could hold it). */
module CirIr {
  import opened Wrappers
  import opened CirBytes

  datatype Field =
    | ValueId(id: Text)                       // a value of the function
    | TypeHash(hash: Text)                    // a type of the function
    | Str(text: Text)                         // an interned string
    | OptStr(optText: Option<Text>)
    | OptValueId(optId: Option<Text>)
    | U8(byte: Byte)
    | U32(word: nat)
    | U64(wide: nat)
    | Flag(flag: bool)
    | Slot(slot: nat)                         // a `usize`, written as u32
    | Operator(opKind: Text)                  // operator kind with its consumer columns
    | Trap(trap: Option<(Text, Text)>)        // (condition, code)
    | IntText(decimal: Text)                  // an `i64` kept as decimal text
    | Hex(hex: Text)                          // static data
    | CallTarget(symbol: Text)
    | Place(placeKind: Byte, placeFields: seq<Field>)
    | Block(operations: seq<Op>, result: Text)
    | Ops(ops: seq<Op>)                       // counted, without a result
    | Rows(rows: seq<Row>)                     // counted rows of one shape

  datatype Row = Row(fields: seq<Field>)

  datatype Op = Op(code: Byte, fields: seq<Field>)

  /** What the reader expects at a position. */
  datatype Kind =
    | KValueId | KTypeHash | KStr | KOptStr | KOptValueId | KU8 | KU32 | KU64 | KFlag
    | KSlot | KOperator | KTrap | KIntText | KHex | KCallTarget | KPlace | KBlock | KOps
    | KRows(row: seq<Kind>)

  datatype Json =
    | JNull
    | JBool(b: bool)
    | JNumber(n: int)
    | JString(s: Text)
    | JArray(items: seq<Json>)
    | JObject(entries: seq<(Text, Json)>)

  datatype Layout = Layout(typeHash: Text, kind: Text, sizeBytes: nat, alignBytes: nat,
                           pass: Text, return_: Text, metadata: Json)
  datatype Param = Param(slot: nat, typeHash: Text)
  datatype Local = Local(slot: nat, typeHash: Text, sizeBytes: nat)
  datatype DebugOp = DebugOp(loweredOpId: Text, valueId: Text, loweredOpKind: Text, exprHash: Text)
  datatype ExprOps = ExprOps(exprHash: Text, loweredOpIds: seq<Text>)
  datatype DebugMap = DebugMap(schema: Text, operations: seq<DebugOp>, exprToOps: seq<ExprOps>)

  datatype FunctionIr = FunctionIr(
    schema: Text, symbolHash: Text, defHash: Text, sigHash: Text, bodyHash: Text,
    params: seq<Param>, locals: seq<Local>, returnType: Text,
    layouts: seq<Layout>, operations: seq<Op>, debug: DebugMap)

  datatype Program = Program(target: Text, entryIndex: nat, functions: seq<FunctionIr>)

  /** Facts the codec takes from elsewhere: the operator registry's columns for
      a kind, the well-known scalar type hashes, and the JSON text codec. */
  datatype Env = Env(
    operatorColumns: Text -> Option<(Byte, Byte, Byte)>,
    scalarMeta: Text -> Option<(Byte, nat)>,
    printJson: Json -> Text,
    parseJson: Text -> Option<Json>)

  /** Canonical JSON text loses nothing. */
  ghost predicate Lossless(env: Env) {
    forall j :: env.parseJson(env.printJson(j)) == Some(j)
  }

  // ---------------------------------------------------------------- operation shapes

  /** Field order written by the encoder after each opcode. */
  function WriteShape(code: Byte): Option<seq<Kind>> {
    match code
    case 0 => Some([KValueId, KSlot, KTypeHash])                                   // param
    case 1 => Some([KValueId, KIntText, KTypeHash])                                // const_i64
    case 2 => Some([KValueId, KFlag, KTypeHash])                                   // const_bool
    case 3 => Some([KValueId, KTypeHash])                                          // const_unit
    case 4 => Some([KValueId, KOperator, KValueId, KTypeHash])                     // unary
    case 5 => Some([KValueId, KValueId, KTypeHash])                                // int_cast
    case 6 => Some([KValueId, KOperator, KValueId, KValueId, KTypeHash, KTrap])    // binary
    case 7 => Some([KValueId, KCallTarget, KOptStr, KRows([KValueId]), KOptValueId, KTypeHash]) // call
    case 8 => Some([KValueId, KValueId, KBlock, KBlock, KTypeHash])                // if
    case 9 => Some([KValueId, KValueId, KTypeHash, KRows(ARM_SHAPE), KTypeHash])   // case
    case 10 => Some([KValueId, KValueId, KTypeHash, KValueId, KValueId, KSlot, KSlot, KSlot,
                     KBlock, KTypeHash, KTypeHash, KTypeHash])                     // fold
    case 11 => Some([KValueId, KSlot, KValueId, KBlock, KBlock, KTypeHash, KTypeHash]) // loop
    case 12 => Some([KValueId, KValueId, KStr, KTypeHash, KTypeHash])              // borrow_shared
    case 13 => Some([KValueId, KValueId, KStr, KTypeHash, KTypeHash])              // borrow_mut
    case 14 => Some([KValueId, KValueId, KTypeHash])                               // deref_shared
    case 15 => Some([KValueId, KValueId, KTypeHash])                               // deref_mut
    case 16 => Some([KValueId, KValueId, KTypeHash, KTypeHash])                    // deref_box
    case 17 => Some([KValueId, KValueId, KTypeHash, KTypeHash, KSlot])             // unbox_move
    case 18 => Some([KValueId, KU64, KU64, KTypeHash, KTypeHash])                  // heap_alloc
    case 19 => Some([KValueId, KValueId, KTypeHash, KTypeHash])                    // ptr_cast
    case 20 => Some([KValueId, KValueId, KTypeHash, KTypeHash, KFlag])             // deref_raw
    case 21 => Some([KValueId, KPlace])                                            // addr_of_param
    case 22 => Some([KValueId, KPlace])                                            // addr_of_local
    case 23 => Some([KValueId, KPlace])                                            // addr_of_field
    case 24 => Some([KValueId, KPlace])                                            // addr_of_enum_payload
    case 25 => Some([KValueId, KPlace])                                            // addr_of_index
    case 26 => Some([KValueId, KStr, KHex, KU64, KTypeHash])                       // static_data_address
    case 27 => Some([KValueId, KValueId, KValueId, KValueId, KTypeHash, KTypeHash]) // construct_slice
    case 28 => Some([KValueId, KValueId, KTypeHash, KTypeHash])                    // slice_len
    case 29 => Some([KValueId, KValueId, KTypeHash, KTypeHash])                    // slice_data
    case 30 => Some([KValueId, KValueId, KU64, KTypeHash, KTypeHash])              // vec_new
    case 31 => Some([KValueId, KValueId, KValueId, KTypeHash, KTypeHash, KTypeHash]) // vec_push
    case 32 => Some([KValueId, KValueId, KValueId, KTypeHash, KTypeHash, KTypeHash]) // vec_get
    case 33 => Some([KValueId, KValueId, KTypeHash, KTypeHash])                    // vec_len
    case 34 => Some([KValueId, KValueId, KStr, KHex, KU64, KTypeHash])             // string_new
    case 35 => Some([KValueId, KValueId, KTypeHash, KTypeHash])                    // string_len
    case 36 => Some([KValueId, KValueId, KValueId, KTypeHash])                     // string_with_capacity
    case 37 => Some([KValueId, KValueId, KValueId, KTypeHash, KTypeHash])          // string_push
    case 38 => Some([KValueId, KValueId, KValueId, KTypeHash, KTypeHash])          // string_get
    case 39 => Some([KValueId, KValueId, KValueId, KValueId, KTypeHash, KTypeHash]) // string_set
    case 40 => Some([KValueId, KTypeHash])                                         // arg_count
    case 41 => Some([KValueId, KValueId, KTypeHash])                               // arg_len
    case 42 => Some([KValueId, KValueId, KValueId, KTypeHash])                     // arg_byte
    case 43 => Some([KValueId, KValueId, KU64, KOptValueId, KTypeHash])            // bounds_check
    case 44 => Some([KValueId, KValueId, KValueId, KValueId, KTypeHash])           // slice_range_check
    case 45 => Some([KValueId, KValueId, KTypeHash])                               // load_enum_tag
    case 46 => Some([KValueId, KTypeHash, KStr, KOptStr, KU64])                    // store_enum_tag
    case 47 => Some([KValueId, KValueId, KTypeHash])                               // load
    case 48 => Some([KValueId, KValueId, KTypeHash])                               // store
    case 49 => Some([KValueId, KValueId, KTypeHash])                               // copy
    case 50 => Some([KValueId, KValueId, KTypeHash])                               // move
    case 51 => Some([KValueId, KTypeHash])                                         // drop
    case 52 => Some([KValueId, KTypeHash])                                         // free_box_shell
    case 53 => Some([KValueId, KFlag, KOptStr, KTypeHash])                         // borrow_debug
    case 54 => Some([KValueId, KTypeHash])                                         // return
    case 55 => Some([KValueId, KTypeHash])                                         // early_return
    case _ => None
  }

  const ARM_SHAPE: seq<Kind> := [KStr, KOptStr, KU64, KTypeHash, KU64, KBlock]

  /** Field order of each place kind. */
  function PlaceShape(kind: Byte): Option<seq<Kind>> {
    match kind
    case 0 => Some([KSlot, KTypeHash, KFlag])                                      // param
    case 1 => Some([KSlot, KTypeHash])                                             // local
    case 2 => Some([KValueId, KStr, KOptStr, KTypeHash, KU64, KTypeHash])          // field
    case 3 => Some([KValueId, KStr, KOptStr, KTypeHash, KU64, KU64, KTypeHash])    // enum payload
    case 4 => Some([KValueId, KValueId, KTypeHash, KTypeHash])                     // index
    case _ => None
  }
}
