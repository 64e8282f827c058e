/** Absence, success and the Java exceptions the property accessors can raise. */
module Outcomes {

  /** A Java reference that may be `null`. */
  datatype Option<+T> = None | Some(value: T)

  /** The exceptions raised by the accessors and the collaborators they call. */
  datatype Error =
    | NullPointer          // Validate.notNull or a dereference of null
    | IllegalArgument      // URI.toURL() on a relative URI, File(URI) on a non-file URI
    | IndexOutOfBounds     // String.charAt(0) on the empty string
    | NumberFormat         // Double.parseDouble
    | UnsupportedCharset   // Charset.forName
    | MalformedUrl         // new URL(..) or URI.toURL()
    | UriSyntax            // new URI(..)
    | Parse                // Format.parseObject or StringToType.stringToType
    | Io                   // a resource that cannot be opened or read

  /** The outcome of a Java call that either returns a value or throws. */
  datatype Result<+T> = Ok(value: T) | Err(error: Error)
}
