/** The error values that cross the layers of the service. Go compares these by identity
    (`err == service.ErrValidation`, `errors.Is(err, sql.ErrNoRows)`); here each sentinel
    is its own constructor, and every other error carries its text. */
module Errors {

  datatype Error =
    | ErrNoRows                    // database/sql: sql.ErrNoRows
    | DbError(detail: string)      // any other driver or query failure
    | ErrValidation                // service.ErrValidation
    | ErrorNotFound                // service.ErrorNotFound
    | ErrorInvalidPassword         // service.ErrorInvalidPassword
    | HashError(detail: string)    // a failure of bcrypt.GenerateFromPassword
}
