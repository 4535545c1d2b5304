/** Shared vocabulary of the VEXO backend model: optional values, results,
    the Python exceptions the backend raises or catches, and the opaque
    payloads (bytes, decoded images, feature vectors) that flow between
    the foreign libraries. */
module Common {

  datatype Option<+T> = None | Some(value: T)

  datatype Result<+T, +E> = Ok(value: T) | Err(error: E)

  /** FastAPI's `HTTPException`: a status code and a detail message. */
  datatype HttpError = HttpError(status: nat, detail: string)

  /** The exceptions the backend raises itself, plus one constructor for
      whatever a foreign library (PIL, Keras, the Drive client) raises.
      `message` is what Python's `str(e)` gives. */
  datatype Exception =
    | RuntimeError(message: string)
    | ValueError(message: string)
    | FileNotFoundError(message: string)
    | LibraryError(message: string)

  type Bytes = seq<bv8>

  /** A decoded picture as PIL (or numpy) holds it. The model never looks
      at the pixels: decoding, colour conversion and resizing belong to
      foreign libraries. */
  datatype Image = Image(width: nat, height: nat, pixels: Bytes)

  /** The embedding vector the feature extractor produces. */
  type Features = seq<real>
}
