/** The JSON response envelope every order endpoint returns. */
module ApiResult {
  import opened Domain

  const INT_MAX: int := 0x7fff_ffff

  /** A Java `int`. */
  newtype int32 = x: int | -0x8000_0000 <= x <= 0x7fff_ffff

  /** What the generic `data` argument is at run time: `null`, a `java.util.List`,
      or any other object. Only the first two matter to `instanceof List`. */
  datatype JavaValue<E> = Null | JList(elements: seq<E>) | Other(value: E)

  /** `java.util.List.size()`: the number of elements, or `Integer.MAX_VALUE` for a longer list. */
  function ListSize<E>(elements: seq<E>): (n: int32)
    ensures |elements| <= INT_MAX ==> n as int == |elements|
    ensures |elements| > INT_MAX ==> n as int == INT_MAX
  {
    if |elements| <= INT_MAX then |elements| as int32 else INT_MAX as int32
  }

  /** The count the constructor records for `data`: the size of a list, and 1 for
      anything else, `null` included (`null instanceof List` is false). */
  function CountOf<E>(data: JavaValue<E>): (c: int32)
    ensures data.JList? && |data.elements| <= INT_MAX ==> c as int == |data.elements|
    ensures data.JList? && |data.elements| > INT_MAX ==> c as int == INT_MAX
    ensures data == JList([]) ==> c == 0
    ensures !data.JList? ==> c == 1
  {
    match data
    case JList(xs) => ListSize(xs)
    case _ => 1
  }

  /** The envelope. Lombok `@Data` gives every field a setter; `count` is computed
      only by the constructor, so a later `SetData` leaves it as it was. */
  class Result<E> {
    var count: int32
    var date: LocalDateTime
    var data: JavaValue<E>

    /** `now` stands for `LocalDateTime.now()`. */
    constructor (data: JavaValue<E>, now: LocalDateTime)
      ensures this.data == data
      ensures count == CountOf(data)
      ensures date == now
    {
      this.data := data;
      count := CountOf(data);
      this.date := now;
    }

    method SetData(data: JavaValue<E>)
      modifies this`data
      ensures this.data == data
      ensures count == old(count) && date == old(date)
    {
      this.data := data;
    }

    method SetCount(count: int32)
      modifies this`count
      ensures this.count == count
      ensures data == old(data) && date == old(date)
    {
      this.count := count;
    }

    method SetDate(date: LocalDateTime)
      modifies this`date
      ensures this.date == date
      ensures data == old(data) && count == old(count)
    {
      this.date := date;
    }
  }
}
