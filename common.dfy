/** Failure-carrying wrappers and the error taxonomy shared by every script. */
module Common {

  datatype Option<+T> = None | Some(value: T)

  datatype Result<+T> = Ok(value: T) | Err(error: Error)

  /** The ways a run of one of the scripts can stop early. */
  datatype Error =
    | SourceNotFound                      // the input file is missing or unreadable
    | EmptyResult                         // the parser accepted no entry at all
    | EmptySequence                       // rotation over an empty list (a division by zero)
    | HeadingNotFound                     // the PHP snippet heading does not occur
    | UnsupportedEncryption               // the PHP mailer only speaks implicit TLS ("ssl")
    | ConnectFailed                       // the PHP mailer could not open its socket
    | NoResponse                          // the SMTP server sent nothing
    | UnexpectedReply(response: string)   // the SMTP reply code was not an expected one
    | TemplateNotFound                    // generate_pyq: no template for the date
    | BadTemplate                         // generate_pyq: entries are not 10 non-blank strings
    | MissingField(field: string)         // generate_pyq: an e-mail config key is absent
    | NoRecipients                        // generate_pyq: the recipient list is empty
    | NotAString                          // a JSON value read as text is not a string
}
