/** The exceptions the ship engine can raise, as values. */
module Exceptions {

  datatype Exception =
    | BadRequest        // com.space.exceptions.BadRequestException (HTTP 400)
    | NotFound          // com.space.exceptions.NotFoundException (HTTP 404)
    | NullPointer       // java.lang.NullPointerException
    | IllegalArgument   // java.lang.IllegalArgumentException (negative stream skip/limit)
}
