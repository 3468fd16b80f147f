/**
 * The part of an Apache Arrow schema that the record-batch and statistics
 * code reads: the type of each field, its children and its custom
 * metadata, plus the flatbuffer records of a record batch (field nodes and
 * buffers). Enumerations are closed here, so the `default:` arms of the
 * source's switches on units are unreachable in the model.
 */
module ArrowTypes {
  import opened Wrappers

  datatype DateUnit = DateDay | DateMilliSecond
  datatype TimeUnit = Second | MilliSecond | MicroSecond | NanoSecond
  datatype Precision = Half | Single | Double
  datatype IntervalUnit = YearMonth | DayTime | MonthDayNano

  datatype ArrowType =
    | Int(bitWidth: int, isSigned: bool)
    | FloatingPoint(precision: Precision)
    | Bool
    | Decimal(decPrecision: int, scale: int, decBitWidth: int)
    | Date(dateUnit: DateUnit)
    | Time(timeUnit: TimeUnit)
    | Timestamp(tsUnit: TimeUnit, hasTimezone: bool)
    | Interval(intervalUnit: IntervalUnit)
    | FixedSizeBinary(byteWidth: int)
    | Utf8
    | LargeUtf8
    | Binary
    | LargeBinary
    | List
    | LargeList
    | Struct
    /** Null, Union, Map, Duration and the other tags the code rejects. */
    | OtherType(tag: nat)

  datatype KeyValue = KeyValue(key: string, value: string)

  datatype Field = Field(name: string, atype: ArrowType, children: seq<Field>, metadata: seq<KeyValue>)

  /** ArrowFieldNode: the item count and null count of one column, in schema pre-order. */
  datatype FieldNode = FieldNode(length: nat, nullCount: nat)

  /** ArrowBuffer: where one buffer lies inside the record batch body. */
  datatype Buffer = Buffer(offset: nat, length: nat)

  /**
   * The byte width of one value slot of a fixed-width type, as the Apache
   * Arrow Columnar Format lays it out ("Fixed-size Primitive Layout" and the
   * Schema.fbs definitions): Date MILLISECOND is a 64-bit count, Time
   * SECOND/MILLISECOND are 32-bit and MICROSECOND/NANOSECOND 64-bit, the
   * DAY_TIME interval is two 32-bit words. None for the types that are not
   * fixed-width primitives.
   */
  function ArrowWidth(t: ArrowType): (w: Option<nat>)
    ensures w.Some? ==> w.value > 0
  {
    match t
    case Int(bw, _) => if bw in {8, 16, 32, 64} then Some(bw / 8) else None
    case FloatingPoint(p) => Some(match p case Half => 2 case Single => 4 case Double => 8)
    case Decimal(_, _, bw) => if bw in {128, 256} then Some(bw / 8) else None
    case Date(u) => Some(if u == DateDay then 4 else 8)
    case Time(u) => Some(if u in {Second, MilliSecond} then 4 else 8)
    case Timestamp(_, _) => Some(8)
    case Interval(u) => Some(match u case YearMonth => 4 case DayTime => 8 case MonthDayNano => 16)
    case FixedSizeBinary(w) => if w > 0 then Some(w) else None
    case _ => None
  }
}
