/**
 * The built-in device type and device function catalog of pg-strom,
 * written as constant tables. Each row keeps the shape of the row-forming
 * macro it comes from in next/xpu_opcodes.h: `TypeOpcode`, `FuncOpcode`,
 * and the two shorthands `Plain` and `Locale`.
 */
module XpuOpcodes {
  import opened Wrappers

  /** The capability bits a catalog row can carry. */
  datatype Flag = NvidiaGpu | NvidiaDpu | LocaleAware | SessionTimezone | KvarsSlotbuf

  /** DEVKIND__ANY: executable on every kind of device. */
  const AnyKind: set<Flag> := {NvidiaGpu, NvidiaDpu}

  /** One TYPE_OPCODE(NAME, OID, EXTENSION, FLAGS) row; the OID column is not read by the catalog users. */
  datatype TypeRow = TypeOpcode(name: string, extension: Option<string>, flags: set<Flag>)

  /** One FUNC_OPCODE(SQL_NAME, FUNC_ARGS, FUNC_FLAGS, DEV_NAME, FUNC_COST, EXTENSION) row. */
  datatype FuncRow = FuncOpcode(sqlName: string, args: string, flags: set<Flag>, devName: string,
                                cost: nat, extension: Option<string>)

  /** __FUNC_OPCODE: a function executable everywhere whose device name is its SQL name. */
  function Plain(name: string, args: string, cost: nat, ext: Option<string>): FuncRow
  {
    FuncOpcode(name, args, AnyKind, name, cost, ext)
  }

  /** __FUNC_LOCALE_OPCODE: as `Plain`, but the result depends on the collation. */
  function Locale(name: string, args: string, cost: nat, ext: Option<string>): FuncRow
  {
    FuncOpcode(name, args, {LocaleAware} + AnyKind, name, cost, ext)
  }

  /** TYPE_OPCODE rows (next/xpu_opcodes.h:19-41). */
  const TypeRows: seq<TypeRow> := [
    TypeOpcode("bool", None, {}),
    TypeOpcode("int1", Some("pg_strom"), {}),
    TypeOpcode("int2", None, {}),
    TypeOpcode("int4", None, {}),
    TypeOpcode("int8", None, {}),
    TypeOpcode("float2", Some("pg_strom"), {}),
    TypeOpcode("float4", None, {}),
    TypeOpcode("float8", None, {}),
    TypeOpcode("numeric", None, {KvarsSlotbuf}),
    TypeOpcode("bytea", None, {}),
    TypeOpcode("text", None, {}),
    TypeOpcode("bpchar", None, {}),
    TypeOpcode("date", None, {}),
    TypeOpcode("time", None, {}),
    TypeOpcode("timetz", None, {}),
    TypeOpcode("timestamp", None, {}),
    TypeOpcode("timestamptz", None, {}),
    TypeOpcode("interval", None, {KvarsSlotbuf}),
    TypeOpcode("money", None, {}),
    TypeOpcode("uuid", None, {}),
    TypeOpcode("macaddr", None, {}),
    TypeOpcode("inet", None, {})
  ]

  /** Rows for type casts (next/xpu_opcodes.h:56-106). */
  const CastRows: seq<FuncRow> := [
    FuncOpcode("bool", "int4", AnyKind, "int4_to_bool", 1, None),
    FuncOpcode("int1", "int2", AnyKind, "int2_to_int1", 1, Some("pg_strom")),
    FuncOpcode("int1", "int4", AnyKind, "int4_to_int1", 1, Some("pg_strom")),
    FuncOpcode("int1", "int8", AnyKind, "int8_to_int1", 1, Some("pg_strom")),
    FuncOpcode("int1", "float2", AnyKind, "float2_to_int1", 1, Some("pg_strom")),
    FuncOpcode("int1", "float4", AnyKind, "float4_to_int1", 1, Some("pg_strom")),
    FuncOpcode("int1", "float8", AnyKind, "float8_to_int1", 1, Some("pg_strom")),
    FuncOpcode("int2", "int1", AnyKind, "int1_to_int2", 1, Some("pg_strom")),
    FuncOpcode("int2", "int4", AnyKind, "int4_to_int2", 1, None),
    FuncOpcode("int2", "int8", AnyKind, "int8_to_int2", 1, None),
    FuncOpcode("int2", "float2", AnyKind, "float2_to_int2", 1, Some("pg_strom")),
    FuncOpcode("int2", "float4", AnyKind, "float4_to_int2", 1, None),
    FuncOpcode("int2", "float8", AnyKind, "float8_to_int2", 1, None),
    FuncOpcode("int4", "int1", AnyKind, "int1_to_int4", 1, Some("pg_strom")),
    FuncOpcode("int4", "int2", AnyKind, "int2_to_int4", 1, None),
    FuncOpcode("int4", "int8", AnyKind, "int8_to_int4", 1, None),
    FuncOpcode("int4", "float2", AnyKind, "float2_to_int4", 1, Some("pg_strom")),
    FuncOpcode("int4", "float4", AnyKind, "float4_to_int4", 1, None),
    FuncOpcode("int4", "float8", AnyKind, "float8_to_int4", 1, None),
    FuncOpcode("int8", "int1", AnyKind, "int1_to_int8", 1, Some("pg_strom")),
    FuncOpcode("int8", "int2", AnyKind, "int2_to_int8", 1, None),
    FuncOpcode("int8", "int4", AnyKind, "int4_to_int8", 1, None),
    FuncOpcode("int8", "float2", AnyKind, "float2_to_int8", 1, Some("pg_strom")),
    FuncOpcode("int8", "float4", AnyKind, "float4_to_int8", 1, None),
    FuncOpcode("int8", "float8", AnyKind, "float8_to_int8", 1, None),
    FuncOpcode("float2", "int1", AnyKind, "int1_to_float2", 1, Some("pg_strom")),
    FuncOpcode("float2", "int2", AnyKind, "int2_to_float2", 1, Some("pg_strom")),
    FuncOpcode("float2", "int4", AnyKind, "int4_to_float2", 1, Some("pg_strom")),
    FuncOpcode("float2", "int8", AnyKind, "int8_to_float2", 1, Some("pg_strom")),
    FuncOpcode("float2", "float4", AnyKind, "float4_to_float2", 1, Some("pg_strom")),
    FuncOpcode("float2", "float8", AnyKind, "float8_to_float2", 1, Some("pg_strom")),
    FuncOpcode("float4", "int1", AnyKind, "int1_to_float4", 1, Some("pg_strom")),
    FuncOpcode("float4", "int2", AnyKind, "int2_to_float4", 1, None),
    FuncOpcode("float4", "int4", AnyKind, "int4_to_float4", 1, None),
    FuncOpcode("float4", "int8", AnyKind, "int8_to_float4", 1, None),
    FuncOpcode("float4", "float2", AnyKind, "float2_to_float4", 1, Some("pg_strom")),
    FuncOpcode("float4", "float8", AnyKind, "float8_to_float4", 1, None),
    FuncOpcode("float8", "int1", AnyKind, "int1_to_float8", 1, Some("pg_strom")),
    FuncOpcode("float8", "int2", AnyKind, "int2_to_float8", 1, None),
    FuncOpcode("float8", "int4", AnyKind, "int4_to_float8", 1, None),
    FuncOpcode("float8", "int8", AnyKind, "int8_to_float8", 1, None),
    FuncOpcode("float8", "float2", AnyKind, "float2_to_float8", 1, Some("pg_strom")),
    FuncOpcode("float8", "float4", AnyKind, "float4_to_float8", 1, None)
  ]

  /** Rows for '+' (next/xpu_opcodes.h:107-133). */
  const AddRows: seq<FuncRow> := [
    Plain("int1pl", "int1/int1", 1, Some("pg_strom")),
    Plain("int12pl", "int1/int2", 1, Some("pg_strom")),
    Plain("int14pl", "int1/int4", 1, Some("pg_strom")),
    Plain("int18pl", "int1/int8", 1, Some("pg_strom")),
    Plain("int21pl", "int2/int1", 1, Some("pg_strom")),
    Plain("int2pl", "int2/int2", 1, None),
    Plain("int24pl", "int2/int4", 1, None),
    Plain("int28pl", "int2/int8", 1, None),
    Plain("int41pl", "int4/int1", 1, Some("pg_strom")),
    Plain("int42pl", "int4/int2", 1, None),
    Plain("int4pl", "int4/int4", 1, None),
    Plain("int48pl", "int4/int8", 1, None),
    Plain("int81pl", "int8/int1", 1, Some("pg_strom")),
    Plain("int82pl", "int8/int2", 1, None),
    Plain("int84pl", "int8/int4", 1, None),
    Plain("int8pl", "int8/int8", 1, None),
    Plain("float2pl", "float2/float2", 1, Some("pg_strom")),
    Plain("float24pl", "float2/float4", 1, Some("pg_strom")),
    Plain("float28pl", "float2/float8", 1, Some("pg_strom")),
    Plain("float42pl", "float4/float2", 1, Some("pg_strom")),
    Plain("float4pl", "float4/float4", 1, None),
    Plain("float48pl", "float4/float8", 1, None),
    Plain("float82pl", "float8/float2", 1, Some("pg_strom")),
    Plain("float84pl", "float8/float4", 1, None),
    Plain("float8pl", "float8/float8", 1, None)
  ]

  /** Rows for '-' (next/xpu_opcodes.h:134-160). */
  const SubRows: seq<FuncRow> := [
    Plain("int1mi", "int1/int1", 1, Some("pg_strom")),
    Plain("int12mi", "int1/int2", 1, Some("pg_strom")),
    Plain("int14mi", "int1/int4", 1, Some("pg_strom")),
    Plain("int18mi", "int1/int8", 1, Some("pg_strom")),
    Plain("int21mi", "int2/int1", 1, Some("pg_strom")),
    Plain("int2mi", "int2/int2", 1, None),
    Plain("int24mi", "int2/int4", 1, None),
    Plain("int28mi", "int2/int8", 1, None),
    Plain("int41mi", "int4/int1", 1, Some("pg_strom")),
    Plain("int42mi", "int4/int2", 1, None),
    Plain("int4mi", "int4/int4", 1, None),
    Plain("int48mi", "int4/int8", 1, None),
    Plain("int81mi", "int8/int1", 1, Some("pg_strom")),
    Plain("int82mi", "int8/int2", 1, None),
    Plain("int84mi", "int8/int4", 1, None),
    Plain("int8mi", "int8/int8", 1, None),
    Plain("float2mi", "float2/float2", 1, Some("pg_strom")),
    Plain("float24mi", "float2/float4", 1, Some("pg_strom")),
    Plain("float28mi", "float2/float8", 1, Some("pg_strom")),
    Plain("float42mi", "float4/float2", 1, Some("pg_strom")),
    Plain("float4mi", "float4/float4", 1, None),
    Plain("float48mi", "float4/float8", 1, None),
    Plain("float82mi", "float8/float2", 1, Some("pg_strom")),
    Plain("float84mi", "float8/float4", 1, None),
    Plain("float8mi", "float8/float8", 1, None)
  ]

  /** Rows for '*' (next/xpu_opcodes.h:161-187). */
  const MulRows: seq<FuncRow> := [
    Plain("int1mul", "int1/int1", 2, Some("pg_strom")),
    Plain("int12mul", "int1/int2", 2, Some("pg_strom")),
    Plain("int14mul", "int1/int4", 2, Some("pg_strom")),
    Plain("int18mul", "int1/int8", 2, Some("pg_strom")),
    Plain("int21mul", "int2/int1", 2, Some("pg_strom")),
    Plain("int2mul", "int2/int2", 2, None),
    Plain("int24mul", "int2/int4", 2, None),
    Plain("int28mul", "int2/int8", 2, None),
    Plain("int41mul", "int4/int1", 2, Some("pg_strom")),
    Plain("int42mul", "int4/int2", 2, None),
    Plain("int4mul", "int4/int4", 2, None),
    Plain("int48mul", "int4/int8", 2, None),
    Plain("int81mul", "int8/int1", 2, Some("pg_strom")),
    Plain("int82mul", "int8/int2", 2, None),
    Plain("int84mul", "int8/int4", 2, None),
    Plain("int8mul", "int8/int8", 2, None),
    Plain("float2mul", "float2/float2", 2, Some("pg_strom")),
    Plain("float24mul", "float2/float4", 2, Some("pg_strom")),
    Plain("float28mul", "float2/float8", 2, Some("pg_strom")),
    Plain("float42mul", "float4/float2", 2, Some("pg_strom")),
    Plain("float4mul", "float4/float4", 2, None),
    Plain("float48mul", "float4/float8", 2, None),
    Plain("float82mul", "float8/float2", 2, Some("pg_strom")),
    Plain("float84mul", "float8/float4", 2, None),
    Plain("float8mul", "float8/float8", 2, None)
  ]

  /** Rows for '/' (next/xpu_opcodes.h:188-214). */
  const DivRows: seq<FuncRow> := [
    Plain("int1div", "int1/int1", 4, Some("pg_strom")),
    Plain("int12div", "int1/int2", 4, Some("pg_strom")),
    Plain("int14div", "int1/int4", 4, Some("pg_strom")),
    Plain("int18div", "int1/int8", 4, Some("pg_strom")),
    Plain("int21div", "int2/int1", 4, Some("pg_strom")),
    Plain("int2div", "int2/int2", 4, None),
    Plain("int24div", "int2/int4", 4, None),
    Plain("int28div", "int2/int8", 4, None),
    Plain("int41div", "int4/int1", 4, Some("pg_strom")),
    Plain("int42div", "int4/int2", 4, None),
    Plain("int4div", "int4/int4", 4, None),
    Plain("int48div", "int4/int8", 4, None),
    Plain("int81div", "int8/int1", 4, Some("pg_strom")),
    Plain("int82div", "int8/int2", 4, None),
    Plain("int84div", "int8/int4", 4, None),
    Plain("int8div", "int8/int8", 4, None),
    Plain("float2div", "float2/float2", 4, Some("pg_strom")),
    Plain("float24div", "float2/float4", 4, Some("pg_strom")),
    Plain("float28div", "float2/float8", 4, Some("pg_strom")),
    Plain("float42div", "float4/float2", 4, Some("pg_strom")),
    Plain("float4div", "float4/float4", 4, None),
    Plain("float48div", "float4/float8", 4, None),
    Plain("float82div", "float8/float2", 4, Some("pg_strom")),
    Plain("float84div", "float8/float4", 4, None),
    Plain("float8div", "float8/float8", 4, None)
  ]

  /** Rows for '%' (next/xpu_opcodes.h:215-220). */
  const ModRows: seq<FuncRow> := [
    Plain("int1mod", "int1/int1", 4, Some("pg_strom")),
    Plain("int2mod", "int2/int2", 4, None),
    Plain("int4mod", "int4/int4", 4, None),
    Plain("int8mod", "int8/int8", 4, None)
  ]

  /** Rows for unary '+' (next/xpu_opcodes.h:221-229). */
  const UnaryPlusRows: seq<FuncRow> := [
    Plain("int1up", "int1", 1, Some("pg_strom")),
    Plain("int2up", "int2", 1, None),
    Plain("int4up", "int2", 1, None),
    Plain("int8up", "int2", 1, None),
    Plain("float2up", "float2", 1, Some("pg_strom")),
    Plain("float4up", "float4", 1, None),
    Plain("float8up", "float8", 1, None)
  ]

  /** Rows for unary '-' (next/xpu_opcodes.h:230-238). */
  const UnaryMinusRows: seq<FuncRow> := [
    Plain("int1um", "int1", 1, Some("pg_strom")),
    Plain("int2um", "int2", 1, None),
    Plain("int4um", "int2", 1, None),
    Plain("int8um", "int2", 1, None),
    Plain("float2um", "float2", 1, Some("pg_strom")),
    Plain("float4um", "float4", 1, None),
    Plain("float8um", "float8", 1, None)
  ]

  /** Rows for '@' (next/xpu_opcodes.h:239-247). */
  const AbsRows: seq<FuncRow> := [
    Plain("int1abs", "int1", 1, Some("pg_strom")),
    Plain("int2abs", "int2", 1, None),
    Plain("int4abs", "int2", 1, None),
    Plain("int8abs", "int2", 1, None),
    Plain("float2abs", "float2", 1, Some("pg_strom")),
    Plain("float4abs", "float4", 1, None),
    Plain("float8abs", "float8", 1, None)
  ]

  /** Rows for '=' (next/xpu_opcodes.h:248-275). */
  const EqRows: seq<FuncRow> := [
    Plain("booleq", "bool/bool", 1, None),
    Plain("int1eq", "int1/int1", 1, Some("pg_strom")),
    Plain("int12eq", "int1/int2", 1, Some("pg_strom")),
    Plain("int14eq", "int1/int4", 1, Some("pg_strom")),
    Plain("int18eq", "int1/int8", 1, Some("pg_strom")),
    Plain("int21eq", "int2/int1", 1, Some("pg_strom")),
    Plain("int2eq", "int2/int2", 1, None),
    Plain("int24eq", "int2/int4", 1, None),
    Plain("int28eq", "int2/int8", 1, None),
    Plain("int41eq", "int4/int1", 1, Some("pg_strom")),
    Plain("int42eq", "int4/int2", 1, None),
    Plain("int4eq", "int4/int4", 1, None),
    Plain("int48eq", "int4/int8", 1, None),
    Plain("int81eq", "int8/int1", 1, Some("pg_strom")),
    Plain("int82eq", "int8/int2", 1, None),
    Plain("int84eq", "int8/int4", 1, None),
    Plain("int8eq", "int8/int8", 1, None),
    Plain("float2eq", "float2/float2", 1, Some("pg_strom")),
    Plain("float24eq", "float2/float4", 1, Some("pg_strom")),
    Plain("float28eq", "float2/float8", 1, Some("pg_strom")),
    Plain("float42eq", "float4/float2", 1, Some("pg_strom")),
    Plain("float4eq", "float4/float4", 1, None),
    Plain("float48eq", "float4/float8", 1, None),
    Plain("float82eq", "float8/float2", 1, Some("pg_strom")),
    Plain("float84eq", "float8/float4", 1, None),
    Plain("float8eq", "float8/float8", 1, None)
  ]

  /** Rows for '<>' (next/xpu_opcodes.h:276-302). */
  const NeRows: seq<FuncRow> := [
    Plain("int1ne", "int1/int1", 1, Some("pg_strom")),
    Plain("int12ne", "int1/int2", 1, Some("pg_strom")),
    Plain("int14ne", "int1/int4", 1, Some("pg_strom")),
    Plain("int18ne", "int1/int8", 1, Some("pg_strom")),
    Plain("int21ne", "int2/int1", 1, Some("pg_strom")),
    Plain("int2ne", "int2/int2", 1, None),
    Plain("int24ne", "int2/int4", 1, None),
    Plain("int28ne", "int2/int8", 1, None),
    Plain("int41ne", "int4/int1", 1, Some("pg_strom")),
    Plain("int42ne", "int4/int2", 1, None),
    Plain("int4ne", "int4/int4", 1, None),
    Plain("int48ne", "int4/int8", 1, None),
    Plain("int81ne", "int8/int1", 1, Some("pg_strom")),
    Plain("int82ne", "int8/int2", 1, None),
    Plain("int84ne", "int8/int4", 1, None),
    Plain("int8ne", "int8/int8", 1, None),
    Plain("float2ne", "float2/float2", 1, Some("pg_strom")),
    Plain("float24ne", "float2/float4", 1, Some("pg_strom")),
    Plain("float28ne", "float2/float8", 1, Some("pg_strom")),
    Plain("float42ne", "float4/float2", 1, Some("pg_strom")),
    Plain("float4ne", "float4/float4", 1, None),
    Plain("float48ne", "float4/float8", 1, None),
    Plain("float82ne", "float8/float2", 1, Some("pg_strom")),
    Plain("float84ne", "float8/float4", 1, None),
    Plain("float8ne", "float8/float8", 1, None)
  ]

  /** Rows for '>' (next/xpu_opcodes.h:303-329). */
  const GtRows: seq<FuncRow> := [
    Plain("int1gt", "int1/int1", 1, Some("pg_strom")),
    Plain("int12gt", "int1/int2", 1, Some("pg_strom")),
    Plain("int14gt", "int1/int4", 1, Some("pg_strom")),
    Plain("int18gt", "int1/int8", 1, Some("pg_strom")),
    Plain("int21gt", "int2/int1", 1, Some("pg_strom")),
    Plain("int2gt", "int2/int2", 1, None),
    Plain("int24gt", "int2/int4", 1, None),
    Plain("int28gt", "int2/int8", 1, None),
    Plain("int41gt", "int4/int1", 1, Some("pg_strom")),
    Plain("int42gt", "int4/int2", 1, None),
    Plain("int4gt", "int4/int4", 1, None),
    Plain("int48gt", "int4/int8", 1, None),
    Plain("int81gt", "int8/int1", 1, Some("pg_strom")),
    Plain("int82gt", "int8/int2", 1, None),
    Plain("int84gt", "int8/int4", 1, None),
    Plain("int8gt", "int8/int8", 1, None),
    Plain("float2gt", "float2/float2", 1, Some("pg_strom")),
    Plain("float24gt", "float2/float4", 1, Some("pg_strom")),
    Plain("float28gt", "float2/float8", 1, Some("pg_strom")),
    Plain("float42gt", "float4/float2", 1, Some("pg_strom")),
    Plain("float4gt", "float4/float4", 1, None),
    Plain("float48gt", "float4/float8", 1, None),
    Plain("float82gt", "float8/float2", 1, Some("pg_strom")),
    Plain("float84gt", "float8/float4", 1, None),
    Plain("float8gt", "float8/float8", 1, None)
  ]

  /** Rows for '<' (next/xpu_opcodes.h:330-356). */
  const LtRows: seq<FuncRow> := [
    Plain("int1lt", "int1/int1", 1, Some("pg_strom")),
    Plain("int12lt", "int1/int2", 1, Some("pg_strom")),
    Plain("int14lt", "int1/int4", 1, Some("pg_strom")),
    Plain("int18lt", "int1/int8", 1, Some("pg_strom")),
    Plain("int21lt", "int2/int1", 1, Some("pg_strom")),
    Plain("int2lt", "int2/int2", 1, None),
    Plain("int24lt", "int2/int4", 1, None),
    Plain("int28lt", "int2/int8", 1, None),
    Plain("int41lt", "int4/int1", 1, Some("pg_strom")),
    Plain("int42lt", "int4/int2", 1, None),
    Plain("int4lt", "int4/int4", 1, None),
    Plain("int48lt", "int4/int8", 1, None),
    Plain("int81lt", "int8/int1", 1, Some("pg_strom")),
    Plain("int82lt", "int8/int2", 1, None),
    Plain("int84lt", "int8/int4", 1, None),
    Plain("int8lt", "int8/int8", 1, None),
    Plain("float2lt", "float2/float2", 1, Some("pg_strom")),
    Plain("float24lt", "float2/float4", 1, Some("pg_strom")),
    Plain("float28lt", "float2/float8", 1, Some("pg_strom")),
    Plain("float42lt", "float4/float2", 1, Some("pg_strom")),
    Plain("float4lt", "float4/float4", 1, None),
    Plain("float48lt", "float4/float8", 1, None),
    Plain("float82lt", "float8/float2", 1, Some("pg_strom")),
    Plain("float84lt", "float8/float4", 1, None),
    Plain("float8lt", "float8/float8", 1, None)
  ]

  /** Rows for '>=' (next/xpu_opcodes.h:357-383). */
  const GeRows: seq<FuncRow> := [
    Plain("int1ge", "int1/int1", 1, Some("pg_strom")),
    Plain("int12ge", "int1/int2", 1, Some("pg_strom")),
    Plain("int14ge", "int1/int4", 1, Some("pg_strom")),
    Plain("int18ge", "int1/int8", 1, Some("pg_strom")),
    Plain("int21ge", "int2/int1", 1, Some("pg_strom")),
    Plain("int2ge", "int2/int2", 1, None),
    Plain("int24ge", "int2/int4", 1, None),
    Plain("int28ge", "int2/int8", 1, None),
    Plain("int41ge", "int4/int1", 1, Some("pg_strom")),
    Plain("int42ge", "int4/int2", 1, None),
    Plain("int4ge", "int4/int4", 1, None),
    Plain("int48ge", "int4/int8", 1, None),
    Plain("int81ge", "int8/int1", 1, Some("pg_strom")),
    Plain("int82ge", "int8/int2", 1, None),
    Plain("int84ge", "int8/int4", 1, None),
    Plain("int8ge", "int8/int8", 1, None),
    Plain("float2ge", "float2/float2", 1, Some("pg_strom")),
    Plain("float24ge", "float2/float4", 1, Some("pg_strom")),
    Plain("float28ge", "float2/float8", 1, Some("pg_strom")),
    Plain("float42ge", "float4/float2", 1, Some("pg_strom")),
    Plain("float4ge", "float4/float4", 1, None),
    Plain("float48ge", "float4/float8", 1, None),
    Plain("float82ge", "float8/float2", 1, Some("pg_strom")),
    Plain("float84ge", "float8/float4", 1, None),
    Plain("float8ge", "float8/float8", 1, None)
  ]

  /** Rows for '<=' (next/xpu_opcodes.h:384-410). */
  const LeRows: seq<FuncRow> := [
    Plain("int1le", "int1/int1", 1, Some("pg_strom")),
    Plain("int12le", "int1/int2", 1, Some("pg_strom")),
    Plain("int14le", "int1/int4", 1, Some("pg_strom")),
    Plain("int18le", "int1/int8", 1, Some("pg_strom")),
    Plain("int21le", "int2/int1", 1, Some("pg_strom")),
    Plain("int2le", "int2/int2", 1, None),
    Plain("int24le", "int2/int4", 1, None),
    Plain("int28le", "int2/int8", 1, None),
    Plain("int41le", "int4/int1", 1, Some("pg_strom")),
    Plain("int42le", "int4/int2", 1, None),
    Plain("int4le", "int4/int4", 1, None),
    Plain("int48le", "int4/int8", 1, None),
    Plain("int81le", "int8/int1", 1, Some("pg_strom")),
    Plain("int82le", "int8/int2", 1, None),
    Plain("int84le", "int8/int4", 1, None),
    Plain("int8le", "int8/int8", 1, None),
    Plain("float2le", "float2/float2", 1, Some("pg_strom")),
    Plain("float24le", "float2/float4", 1, Some("pg_strom")),
    Plain("float28le", "float2/float8", 1, Some("pg_strom")),
    Plain("float42le", "float4/float2", 1, Some("pg_strom")),
    Plain("float4le", "float4/float4", 1, None),
    Plain("float48le", "float4/float8", 1, None),
    Plain("float82le", "float8/float2", 1, Some("pg_strom")),
    Plain("float84le", "float8/float4", 1, None),
    Plain("float8le", "float8/float8", 1, None)
  ]

  /** Rows for bitwise and shift operators (next/xpu_opcodes.h:411-446). */
  const BitwiseRows: seq<FuncRow> := [
    Plain("int1and", "int1/int1", 1, Some("pg_strom")),
    Plain("int2and", "int2/int2", 1, None),
    Plain("int4and", "int4/int4", 1, None),
    Plain("int8and", "int8/int8", 1, None),
    Plain("int1or", "int1/int1", 1, Some("pg_strom")),
    Plain("int2or", "int2/int2", 1, None),
    Plain("int4or", "int4/int4", 1, None),
    Plain("int8or", "int8/int8", 1, None),
    Plain("int1xor", "int1/int1", 1, Some("pg_strom")),
    Plain("int2xor", "int2/int2", 1, None),
    Plain("int4xor", "int4/int4", 1, None),
    Plain("int8xor", "int8/int8", 1, None),
    Plain("int1not", "int1", 1, Some("pg_strom")),
    Plain("int2not", "int2", 1, None),
    Plain("int4not", "int4", 1, None),
    Plain("int8not", "int8", 1, None),
    Plain("int1shr", "int1/int4", 1, Some("pg_strom")),
    Plain("int2shr", "int2/int4", 1, None),
    Plain("int4shr", "int4/int4", 1, None),
    Plain("int8shr", "int8/int4", 1, None),
    Plain("int1shl", "int1/int4", 1, Some("pg_strom")),
    Plain("int2shl", "int2/int4", 1, None),
    Plain("int4shl", "int4/int4", 1, None),
    Plain("int8shl", "int8/int4", 1, None)
  ]

  /** Rows for numeric functions (next/xpu_opcodes.h:447-478). */
  const NumericRows: seq<FuncRow> := [
    FuncOpcode("int1", "numeric", AnyKind, "numeric_to_int1", 50, Some("pg_strom")),
    FuncOpcode("int2", "numeric", AnyKind, "numeric_to_int2", 50, None),
    FuncOpcode("int4", "numeric", AnyKind, "numeric_to_int4", 50, None),
    FuncOpcode("int8", "numeric", AnyKind, "numeric_to_int8", 50, None),
    FuncOpcode("float2", "numeric", AnyKind, "numeric_to_float2", 50, Some("pg_strom")),
    FuncOpcode("float4", "numeric", AnyKind, "numeric_to_float4", 50, None),
    FuncOpcode("float8", "numeric", AnyKind, "numeric_to_float8", 50, None),
    FuncOpcode("money", "numeric", AnyKind, "numeric_to_money", 50, None),
    FuncOpcode("numeric", "int1", AnyKind, "int1_to_numeric", 50, Some("pg_strom")),
    FuncOpcode("numeric", "int2", AnyKind, "int2_to_numeric", 50, None),
    FuncOpcode("numeric", "int4", AnyKind, "int4_to_numeric", 50, None),
    FuncOpcode("numeric", "int8", AnyKind, "int8_to_numeric", 50, None),
    FuncOpcode("numeric", "float2", AnyKind, "float2_to_numeric", 50, Some("pg_strom")),
    FuncOpcode("numeric", "float4", AnyKind, "float4_to_numeric", 50, None),
    FuncOpcode("numeric", "float8", AnyKind, "float8_to_numeric", 50, None),
    FuncOpcode("numeric", "money", AnyKind, "money_to_numeric", 50, None),
    Plain("numeric_add", "numeric/numeric", 30, None),
    Plain("numeric_sub", "numeric/numeric", 30, None),
    Plain("numeric_mul", "numeric/numeric", 30, None),
    Plain("numeric_div", "numeric/numeric", 30, None),
    Plain("numeric_mod", "numeric/numeric", 30, None),
    Plain("numeric_uplus", "numeric", 30, None),
    Plain("numeric_uminus", "numeric", 30, None),
    Plain("numeric_abs", "numeric", 30, None),
    Plain("numeric_eq", "numeric/numeric", 30, None),
    Plain("numeric_ne", "numeric/numeric", 30, None),
    Plain("numeric_lt", "numeric/numeric", 30, None),
    Plain("numeric_le", "numeric/numeric", 30, None),
    Plain("numeric_gt", "numeric/numeric", 30, None),
    Plain("numeric_ge", "numeric/numeric", 30, None)
  ]

  /** Rows for date casts (next/xpu_opcodes.h:479-483). */
  const DateCastRows: seq<FuncRow> := [
    FuncOpcode("timestamp", "date", AnyKind, "date_to_timestamp", 5, None),
    FuncOpcode("timestamp", "timestamptz", AnyKind, "timestamptz_to_timestamp", 5, None),
    FuncOpcode("timestamptz", "date", AnyKind + {SessionTimezone}, "date_to_timestamptz", 5, None),
    FuncOpcode("timestamptz", "timestamp", AnyKind, "timestamp_to_timestamptz", 5, None)
  ]

  /** Rows for comparisons within one date/time type (next/xpu_opcodes.h:484-518). */
  const DateTimeCompareRows: seq<FuncRow> := [
    Plain("date_eq", "date/date", 1, None),
    Plain("date_ne", "date/date", 1, None),
    Plain("date_lt", "date/date", 1, None),
    Plain("date_le", "date/date", 1, None),
    Plain("date_gt", "date/date", 1, None),
    Plain("date_ge", "date/date", 1, None),
    Plain("time_eq", "time/time", 1, None),
    Plain("time_ne", "time/time", 1, None),
    Plain("time_lt", "time/time", 1, None),
    Plain("time_le", "time/time", 1, None),
    Plain("time_gt", "time/time", 1, None),
    Plain("time_ge", "time/time", 1, None),
    Plain("timetz_eq", "timetz/timetz", 1, None),
    Plain("timetz_ne", "timetz/timetz", 1, None),
    Plain("timetz_lt", "timetz/timetz", 1, None),
    Plain("timetz_le", "timetz/timetz", 1, None),
    Plain("timetz_gt", "timetz/timetz", 1, None),
    Plain("timetz_ge", "timetz/timetz", 1, None),
    Plain("timestamp_eq", "timestamp/timestamp", 1, None),
    Plain("timestamp_ne", "timestamp/timestamp", 1, None),
    Plain("timestamp_lt", "timestamp/timestamp", 1, None),
    Plain("timestamp_le", "timestamp/timestamp", 1, None),
    Plain("timestamp_gt", "timestamp/timestamp", 1, None),
    Plain("timestamp_ge", "timestamp/timestamp", 1, None),
    Plain("timestamptz_eq", "timestamptz/timestamptz", 1, None),
    Plain("timestamptz_ne", "timestamptz/timestamptz", 1, None),
    Plain("timestamptz_lt", "timestamptz/timestamptz", 1, None),
    Plain("timestamptz_le", "timestamptz/timestamptz", 1, None),
    Plain("timestamptz_gt", "timestamptz/timestamptz", 1, None),
    Plain("timestamptz_ge", "timestamptz/timestamptz", 1, None)
  ]

  /** Rows for date/timestamp cross comparisons and intervals (next/xpu_opcodes.h:519-568). */
  const CrossCompareRows: seq<FuncRow> := [
    Plain("date_eq_timestamp", "date/timestamp", 1, None),
    Plain("date_ne_timestamp", "date/timestamp", 1, None),
    Plain("date_lt_timestamp", "date/timestamp", 1, None),
    Plain("date_le_timestamp", "date/timestamp", 1, None),
    Plain("date_gt_timestamp", "date/timestamp", 1, None),
    Plain("date_ge_timestamp", "date/timestamp", 1, None),
    Plain("timestamp_eq_date", "timestamp/date", 1, None),
    Plain("timestamp_ne_date", "timestamp/date", 1, None),
    Plain("timestamp_lt_date", "timestamp/date", 1, None),
    Plain("timestamp_le_date", "timestamp/date", 1, None),
    Plain("timestamp_gt_date", "timestamp/date", 1, None),
    Plain("timestamp_ge_date", "timestamp/date", 1, None),
    Plain("date_eq_timestamptz", "date/timestamptz", 5, None),
    Plain("date_ne_timestamptz", "date/timestamptz", 5, None),
    Plain("date_lt_timestamptz", "date/timestamptz", 5, None),
    Plain("date_le_timestamptz", "date/timestamptz", 5, None),
    Plain("date_gt_timestamptz", "date/timestamptz", 5, None),
    Plain("date_ge_timestamptz", "date/timestamptz", 5, None),
    Plain("timestamptz_eq_date", "timestamptz/date", 5, None),
    Plain("timestamptz_ne_date", "timestamptz/date", 5, None),
    Plain("timestamptz_lt_date", "timestamptz/date", 5, None),
    Plain("timestamptz_le_date", "timestamptz/date", 5, None),
    Plain("timestamptz_gt_date", "timestamptz/date", 5, None),
    Plain("timestamptz_ge_date", "timestamptz/date", 5, None),
    Plain("timestamp_eq_timestamptz", "timestamp/timestamptz", 5, None),
    Plain("timestamp_ne_timestamptz", "timestamp/timestamptz", 5, None),
    Plain("timestamp_lt_timestamptz", "timestamp/timestamptz", 5, None),
    Plain("timestamp_le_timestamptz", "timestamp/timestamptz", 5, None),
    Plain("timestamp_gt_timestamptz", "timestamp/timestamptz", 5, None),
    Plain("timestamp_ge_timestamptz", "timestamp/timestamptz", 5, None),
    Plain("timestamptz_eq_timestamp", "timestamptz/timestamp", 5, None),
    Plain("timestamptz_ne_timestamp", "timestamptz/timestamp", 5, None),
    Plain("timestamptz_lt_timestamp", "timestamptz/timestamp", 5, None),
    Plain("timestamptz_le_timestamp", "timestamptz/timestamp", 5, None),
    Plain("timestamptz_gt_timestamp", "timestamptz/timestamp", 5, None),
    Plain("timestamptz_ge_timestamp", "timestamptz/timestamp", 5, None),
    Plain("interval_eq", "interval/interval", 5, None),
    Plain("interval_ne", "interval/interval", 5, None),
    Plain("interval_lt", "interval/interval", 5, None),
    Plain("interval_le", "interval/interval", 5, None),
    Plain("interval_gt", "interval/interval", 5, None),
    Plain("interval_ge", "interval/interval", 5, None)
  ]

  /** Rows for text functions and operators (next/xpu_opcodes.h:569-587). */
  const TextRows: seq<FuncRow> := [
    Plain("bpchareq", "bpchar/bpchar", 99, None),
    Plain("bpcharne", "bpchar/bpchar", 99, None),
    Locale("bpcharlt", "bpchar/bpchar", 99, None),
    Locale("bpcharle", "bpchar/bpchar", 99, None),
    Locale("bpchargt", "bpchar/bpchar", 99, None),
    Locale("bpcharge", "bpchar/bpchar", 99, None),
    FuncOpcode("length", "bpchar", {LocaleAware} + AnyKind, "bpcharlen", 2, None),
    Plain("texteq", "text/text", 99, None),
    Plain("textne", "text/text", 99, None),
    Locale("text_lt", "text/text", 99, None),
    Locale("text_le", "text/text", 99, None),
    Locale("text_gt", "text/text", 99, None),
    Locale("text_ge", "text/text", 99, None),
    FuncOpcode("length", "text", AnyKind, "textlen", 99, None)
  ]

  /** Rows for LIKE operators (next/xpu_opcodes.h:588-606). */
  const LikeRows: seq<FuncRow> := [
    Plain("like", "text/text", 800, None),
    Plain("textlike", "text/text", 800, None),
    Plain("bpcharlike", "bpchar/text", 800, None),
    Plain("notlike", "text/text", 800, None),
    Plain("textnlike", "text/text", 800, None),
    Plain("bpcharnlike", "bpchar/text", 800, None),
    Plain("texticlike", "text/text", 800, None),
    Plain("bpchariclike", "bpchar/text", 800, None),
    Plain("texticnlike", "text/text", 800, None),
    Plain("bpcharicnlike", "bpchar/text", 800, None)
  ]

  /** The function-row groups, in the order of the header. */
  const FuncGroups: seq<seq<FuncRow>> := [
    CastRows, AddRows, SubRows, MulRows, DivRows,
    ModRows, UnaryPlusRows, UnaryMinusRows, AbsRows, EqRows,
    NeRows, GtRows, LtRows, GeRows, LeRows,
    BitwiseRows, NumericRows, DateCastRows, DateTimeCompareRows, CrossCompareRows,
    TextRows, LikeRows
  ]

  /** The flat devfunc_catalog: every group's rows, in order. */
  function Flatten(groups: seq<seq<FuncRow>>): (rows: seq<FuncRow>)
    ensures forall g, r | g in groups && r in g :: r in rows
    ensures forall r | r in rows :: exists g | g in groups :: r in g
  {
    if groups == [] then [] else groups[0] + Flatten(groups[1..])
  }

  const FuncCatalog: seq<FuncRow> := Flatten(FuncGroups)

  /** `Locale` differs from `Plain` in the locale flag alone, and both name the device function after the SQL one. */
  lemma LocaleIsPlainWithFlag(name: string, args: string, cost: nat, ext: Option<string>)
    ensures var p, l := Plain(name, args, cost, ext), Locale(name, args, cost, ext);
      && p.flags == AnyKind && p.devName == p.sqlName == name
      && LocaleAware !in p.flags
      && l == p.(flags := p.flags + {LocaleAware})
  {
  }

  /** Only the numeric and interval types keep their values in the kvars slot buffer. */
  lemma SlotbufTypes()
    ensures forall i | 0 <= i < |TypeRows| ::
      KvarsSlotbuf in TypeRows[i].flags <==> TypeRows[i].name in {"numeric", "interval"}
  {
  }

  /** int1 and float2 are provided by the pg_strom extension; every other type is built in. */
  lemma TypeExtensions()
    ensures forall i | 0 <= i < |TypeRows| ::
      TypeRows[i].extension == (if TypeRows[i].name in {"int1", "float2"} then Some("pg_strom") else None)
  {
  }

  predicate NoTimezone(rows: seq<FuncRow>)
  {
    forall i | 0 <= i < |rows| :: SessionTimezone !in rows[i].flags
  }

  lemma CastRowsNoTimezone() ensures NoTimezone(CastRows) {}
  lemma AddRowsNoTimezone() ensures NoTimezone(AddRows) {}
  lemma SubRowsNoTimezone() ensures NoTimezone(SubRows) {}
  lemma MulRowsNoTimezone() ensures NoTimezone(MulRows) {}
  lemma DivRowsNoTimezone() ensures NoTimezone(DivRows) {}
  lemma ModRowsNoTimezone() ensures NoTimezone(ModRows) {}
  lemma UnaryPlusRowsNoTimezone() ensures NoTimezone(UnaryPlusRows) {}
  lemma UnaryMinusRowsNoTimezone() ensures NoTimezone(UnaryMinusRows) {}
  lemma AbsRowsNoTimezone() ensures NoTimezone(AbsRows) {}
  lemma EqRowsNoTimezone() ensures NoTimezone(EqRows) {}
  lemma NeRowsNoTimezone() ensures NoTimezone(NeRows) {}
  lemma GtRowsNoTimezone() ensures NoTimezone(GtRows) {}
  lemma LtRowsNoTimezone() ensures NoTimezone(LtRows) {}
  lemma GeRowsNoTimezone() ensures NoTimezone(GeRows) {}
  lemma LeRowsNoTimezone() ensures NoTimezone(LeRows) {}
  lemma BitwiseRowsNoTimezone() ensures NoTimezone(BitwiseRows) {}
  lemma NumericRowsNoTimezone() ensures NoTimezone(NumericRows) {}
  lemma DateTimeCompareRowsNoTimezone() ensures NoTimezone(DateTimeCompareRows) {}
  lemma CrossCompareRowsNoTimezone() ensures NoTimezone(CrossCompareRows) {}
  lemma TextRowsNoTimezone() ensures NoTimezone(TextRows) {}
  lemma LikeRowsNoTimezone() ensures NoTimezone(LikeRows) {}

  /** Within the date casts, the timezone flag sits on date_to_timestamptz alone. */
  lemma DateCastTimezone()
    ensures forall i | 0 <= i < |DateCastRows| && SessionTimezone in DateCastRows[i].flags ::
      DateCastRows[i] == DateToTimestamptz
    ensures DateCastRows[2] == DateToTimestamptz
  {
  }

  /** A flag that only one group carries, and there only on `row`, is carried by `row` alone in the flat catalog. */
  lemma {:induction false} OnlyRowWithTimezone(groups: seq<seq<FuncRow>>, k: nat, row: FuncRow)
    requires k < |groups|
    requires forall j | 0 <= j < |groups| && j != k :: NoTimezone(groups[j])
    requires forall i | 0 <= i < |groups[k]| && SessionTimezone in groups[k][i].flags :: groups[k][i] == row
    ensures forall r | r in Flatten(groups) && SessionTimezone in r.flags :: r == row
    decreases |groups|
  {
    if k > 0 {
      OnlyRowWithTimezone(groups[1..], k - 1, row);
      assert NoTimezone(groups[0]);
    } else {
      forall j | 0 <= j < |groups[1..]|
        ensures NoTimezone(groups[1..][j])
      {
        assert groups[1..][j] == groups[j + 1];
      }
    }
  }

  /** The date to timestamptz cast is the one row that depends on the session time zone. */
  const DateToTimestamptz: FuncRow :=
    FuncOpcode("timestamptz", "date", AnyKind + {SessionTimezone}, "date_to_timestamptz", 5, None)

  lemma OtherGroupsNoTimezone()
    ensures forall j | 0 <= j < |FuncGroups| && j != 17 :: NoTimezone(FuncGroups[j])
  {
    CastRowsNoTimezone();
    AddRowsNoTimezone();
    SubRowsNoTimezone();
    MulRowsNoTimezone();
    DivRowsNoTimezone();
    ModRowsNoTimezone();
    UnaryPlusRowsNoTimezone();
    UnaryMinusRowsNoTimezone();
    AbsRowsNoTimezone();
    EqRowsNoTimezone();
    NeRowsNoTimezone();
    GtRowsNoTimezone();
    LtRowsNoTimezone();
    GeRowsNoTimezone();
    LeRowsNoTimezone();
    BitwiseRowsNoTimezone();
    NumericRowsNoTimezone();
    DateTimeCompareRowsNoTimezone();
    CrossCompareRowsNoTimezone();
    TextRowsNoTimezone();
    LikeRowsNoTimezone();
  }

  lemma OnlyDateToTimestamptzUsesTimezone()
    ensures DateToTimestamptz in FuncCatalog
    ensures forall r | r in FuncCatalog && SessionTimezone in r.flags :: r == DateToTimestamptz
  {
    OtherGroupsNoTimezone();
    DateCastTimezone();
    assert FuncGroups[17] == DateCastRows;
    OnlyRowWithTimezone(FuncGroups, 17, DateToTimestamptz);
    assert DateToTimestamptz in FuncGroups[17];
  }

  /**
   * For text and bpchar, equality and inequality compare bytes while the
   * orderings follow the collation; length(bpchar) is collation-dependent
   * and length(text) is not.
   */
  lemma TextCollationRows()
    ensures forall i | 0 <= i < |TextRows| ::
      LocaleAware in TextRows[i].flags <==>
        TextRows[i].devName in {"bpcharlt", "bpcharle", "bpchargt", "bpcharge",
                                "text_lt", "text_le", "text_gt", "text_ge", "bpcharlen"}
    ensures TextRows[6].sqlName == TextRows[13].sqlName == "length"
    ensures TextRows[6].args == "bpchar" && LocaleAware in TextRows[6].flags
    ensures TextRows[13].args == "text" && LocaleAware !in TextRows[13].flags
  {
  }

  /** A one-argument operator row whose argument type is the prefix of its own name (int2up takes int2). */
  predicate ArgumentNamesOperand(r: FuncRow)
  {
    r.args <= r.sqlName
  }

  /**
   * The int4 and int8 rows of unary plus, unary minus and absolute value
   * declare an int2 argument, unlike every other row of those groups.
   */
  lemma UnaryRowsAsWritten()
    ensures forall i | 0 <= i < 7 && i !in {2, 3} ::
      ArgumentNamesOperand(UnaryPlusRows[i]) && ArgumentNamesOperand(UnaryMinusRows[i])
      && ArgumentNamesOperand(AbsRows[i])
    ensures UnaryPlusRows[2] == Plain("int4up", "int2", 1, None)
    ensures UnaryMinusRows[3] == Plain("int8um", "int2", 1, None)
    ensures AbsRows[2] == Plain("int4abs", "int2", 1, None)
    ensures forall i | 2 <= i < 4 ::
      !ArgumentNamesOperand(UnaryPlusRows[i]) && !ArgumentNamesOperand(UnaryMinusRows[i])
      && !ArgumentNamesOperand(AbsRows[i])
  {
    forall i | 2 <= i < 4
      ensures !ArgumentNamesOperand(UnaryPlusRows[i]) && !ArgumentNamesOperand(UnaryMinusRows[i])
      ensures !ArgumentNamesOperand(AbsRows[i])
    {
      assert UnaryPlusRows[i].args[3] != UnaryPlusRows[i].sqlName[3];
      assert UnaryMinusRows[i].args[3] != UnaryMinusRows[i].sqlName[3];
      assert AbsRows[i].args[3] != AbsRows[i].sqlName[3];
    }
  }

  /** The unary groups with each row taking the type its name says. */
  const UnaryPlusRowsIntended: seq<FuncRow> := UnaryPlusRows[2 := Plain("int4up", "int4", 1, None)][3 := Plain("int8up", "int8", 1, None)]
  const UnaryMinusRowsIntended: seq<FuncRow> := UnaryMinusRows[2 := Plain("int4um", "int4", 1, None)][3 := Plain("int8um", "int8", 1, None)]
  const AbsRowsIntended: seq<FuncRow> := AbsRows[2 := Plain("int4abs", "int4", 1, None)][3 := Plain("int8abs", "int8", 1, None)]

  lemma UnaryRowsIntended()
    ensures |UnaryPlusRowsIntended| == |UnaryMinusRowsIntended| == |AbsRowsIntended| == 7
    ensures forall i | 0 <= i < 7 ::
      ArgumentNamesOperand(UnaryPlusRowsIntended[i]) && ArgumentNamesOperand(UnaryMinusRowsIntended[i])
      && ArgumentNamesOperand(AbsRowsIntended[i])
  {
    UnaryRowsAsWritten();
  }
}
