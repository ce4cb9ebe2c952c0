/** The classified user errors of click-to-dial, in place of the source's
    `raise_user_error(error=..., error_description=...)` calls, and the
    result type that carries them. */
module Errors {

  datatype Option<+T> = None | Some(value: T)

  datatype Failure =
      /** description 'invalid_format': an empty number, or a '+' number
          whose remainder is not all digits */
    | InvalidFormat
      /** description 'invalid_national_format' */
    | InvalidNationalFormat
      /** description 'invalid_international_format' */
    | InvalidInternationalFormat
      /** not a user error: a number made only of formatting characters
          leaves nothing to index, and `tmp_number[0]` raises IndexError */
    | EmptyAfterCleaning
      /** description 'no_phone_number' */
    | NoPhoneNumber
      /** description 'no_asterisk_configuration' */
    | NoAsteriskConfiguration
      /** description 'no_channel_type' */
    | NoChannelType
      /** description 'no_internal_phone' */
    | NoInternalPhone

  datatype Result<+T> = Ok(value: T) | Err(error: Failure)
}
