/** Outcomes shared by every module: an optional value (a C# reference that may be
    null) and a result that is either a value or the exception the source throws. */
module Results {

  /** A reference that may be null. */
  datatype Option<+T> = None | Some(value: T)

  /** The exceptions the modelled code raises, by .NET exception type. */
  datatype Error =
    | ArgumentNull                 // ArgumentNullException
    | Argument(message: string)    // ArgumentException with its message
    | Format                       // FormatException from Convert.FromBase64String
    | Cryptographic                // CryptographicException from the Aes setters or the decryptor

  /** Either a returned value or a thrown exception. */
  datatype Result<+T> = Success(value: T) | Failure(error: Error)
}
