/** Value types of the shop domain that the order query DTOs carry.
    Their classes are not part of this model; only equality of their values matters. */
module Domain {

  /** A `java.time.LocalDateTime`, field by field. */
  datatype LocalDateTime = LocalDateTime(
    year: int, month: int, day: int, hour: int, minute: int, second: int, nano: int)

  /** The status of an order. */
  datatype OrderStatus = ORDER | CANCEL

  /** The embedded delivery address. */
  datatype Address = Address(city: string, street: string, zipcode: string)
}
