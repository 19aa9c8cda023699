/** The response structures the datasource fills in: typed fields, one frame
    of fields, and the per-query data response. */
module DataFrames {
  import opened Wrappers

  /** A point in time as the driver binds it into a `time.Time`; the model never looks inside. */
  type Timestamp(==)

  /** Go's `int64`: the type every non-leading column is bound to. */
  newtype Int64 = x: int | -0x8000_0000_0000_0000 <= x < 0x8000_0000_0000_0000

  /** One named column of a frame: either a `[]time.Time` or an `[]int64` vector. */
  datatype Field =
    | TimeField(name: string, times: seq<Timestamp>)
    | Int64Field(name: string, ints: seq<Int64>)
  {
    /** Number of values in the field. */
    function Len(): nat {
      match this
      case TimeField(_, ts) => |ts|
      case Int64Field(_, xs) => |xs|
    }
  }

  datatype Frame = Frame(name: string, fields: seq<Field>)

  /** `backend.DataResponse`: the frames of one query and the error attached to it, if any. */
  datatype DataResponse = DataResponse(frames: seq<Frame>, error: Option<string>)

  /** The zero `backend.DataResponse{}`: no frames, no error. */
  const EMPTY_RESPONSE: DataResponse := DataResponse([], None)
}
