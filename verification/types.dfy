/**
 Shared vocabulary of the image loader: URLs, request handles, raw payloads,
 decoded images and the network layer's error value.
 */
module Types {

  /** The conventional Some/None wrapper, used for Swift optionals. */
  datatype Option<+T> = None | Some(value: T)

  /** A resource location; the cache key (NSURL in the source). */
  type Url = string

  /** A request handle. `UUID()` is modelled as a supply of never-repeating
      values: the loader hands out consecutive naturals. */
  type Uuid = nat

  type Byte = bv8

  /** The payload bytes a transfer delivers (Foundation's `Data`). */
  type Data = seq<Byte>

  /** A decoded image (UIImage); opaque to the loader. */
  type Image(==)

  /** The error a transfer reports, reduced to the one thing the loader
      inspects: its `NSError` code. */
  datatype NetError = NetError(code: int)

  /** Foundation's `NSURLErrorCancelled`: the code a data task reports after
      `cancel()` was sent to it. */
  const NSURLErrorCancelled: int := -999

  /** Image decoding (`UIImage(data:)`) is a foreign library call; the model
      takes it as a parameter. */
  type Decoder = Data -> Option<Image>
}
