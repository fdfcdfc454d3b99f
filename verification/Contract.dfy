/** The payload and filter types of contract.rs, without floating point. */
module Contract {

  type i64 = x: int | -0x8000_0000_0000_0000 <= x <= 0x7FFF_FFFF_FFFF_FFFF

  datatype Value =
    | Null
    | Bool(b: bool)
    | Int(i: i64)
    | Decimal(digits: string)
    | Text(s: string)
    | Datetime(at: string)
    | Duration(span: string)
    | RecordId(id: string)
    | List(items: seq<Value>)
    | Object(entries: seq<(string, Value)>)

  datatype Direction = Out | In

  datatype PathSegment = Field(name: string) | LinkHop(name: string) | Edge(direction: Direction, edgeType: string)

  datatype CmpOp = Eq | Ne | Gt | Gte | Lt | Lte | Inside | Contains

  datatype Filter =
    | And(parts: seq<Filter>)
    | Or(parts: seq<Filter>)
    | Not(inner: Filter)
    | Cmp(path: seq<PathSegment>, op: CmpOp, value: Value)
}
