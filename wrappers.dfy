/** Option and the exception-or-value outcome shared by the model. */
module Wrappers {

  /** A value that may be absent; `None` plays the part of Ruby's `nil`. */
  datatype Option<+T> = None | Some(value: T)

  /** The exception classes the event-resolution code distinguishes.
      `Other` stands for any further exception class: the code never rescues it. */
  datatype ErrorKind =
    | RequestError            // ::Portus::RequestError
    | NotFoundError           // ::Portus::Errors::NotFoundError
    | UnsupportedMediaType    // ::Portus::RegistryClient::UnsupportedMediaType
    | ManifestError           // ::Portus::RegistryClient::ManifestError
    | Other(className: string)

  /** A raised exception: its class and its message. */
  datatype Error = Error(kind: ErrorKind, message: string)

  /** The result of evaluating a Ruby method: a returned value or a raised exception. */
  datatype Outcome<+T> = Done(value: T) | Raised(error: Error)
}
