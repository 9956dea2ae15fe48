/** Runtime values: a type tag alongside a payload. */
module Values {
  /** A signed 32-bit integer. */
  newtype Int32 = x: int | -0x8000_0000 <= x < 0x8000_0000

  datatype ValueType = Int

  /** The payload; its one field is the integer. */
  datatype ValueUnion = ValueUnion(integer: Int32)

  datatype Value = Value(valueType: ValueType, value: ValueUnion)

  /** Wraps an integer, tagged as an integer. */
  function FromInt(n: Int32): Value
  {
    Value(Int, ValueUnion(n))
  }

  /** Reads the integer payload. */
  function AsInt(v: Value): Int32
  {
    v.value.integer
  }

  lemma AsIntFromInt(n: Int32)
    ensures AsInt(FromInt(n)) == n
  {
  }

  /** There is only one type tag, so every value is an integer and is the
      wrapping of its own payload. */
  lemma EveryValueIsInt(v: Value)
    ensures v.valueType == Int
    ensures FromInt(AsInt(v)) == v
  {
  }

  lemma FromIntInjective(a: Int32, b: Int32)
    requires FromInt(a) == FromInt(b)
    ensures a == b
  {
    AsIntFromInt(a);
    AsIntFromInt(b);
  }
}
