/** The fields of the booking form, which the browser validates and posts to the edge
    function under these names. */
module BookingForm {

  /** The keys of the booking form's error map. */
  datatype BookingField = Name | Number | Email | Type | Date | Venue | Details

  /** The property name each key has in the request body and in the `errors` object. */
  function BookingKey(f: BookingField): string {
    match f
    case Name => "name"
    case Number => "number"
    case Email => "email"
    case Type => "type"
    case Date => "date"
    case Venue => "venue"
    case Details => "details"
  }
}
