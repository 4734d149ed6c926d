/**
 The outcome of one finished transfer: the error cases of
 `CachedImageLoaderError` and the rule that turns the transfer's terminal
 (data, error) pair into exactly one result.
 */
module Outcome {
  import opened Types

  /** `CachedImageLoaderError` (the source spells the middle case
      `errorDecording`). */
  datatype LoaderError =
    | ErrorLoading(cause: NetError)
    | ErrorDecoding
    | Cancelled

  /** `Result<UIImage, Error>` as delivered to a completion handler. */
  datatype ImageResult = Success(image: Image) | Failure(error: LoaderError)

  /** The terminal event of a data task: optional payload and optional error
      (the response object is never inspected and is left out). */
  datatype TransferEnd = TransferEnd(data: Option<Data>, error: Option<NetError>)

  /** The transfer delivered a payload and the decoder accepted it. */
  predicate Decodes(t: TransferEnd, decode: Decoder)
  {
    t.data.Some? && decode(t.data.value).Some?
  }

  /** True iff the transfer reported the cancellation error code. */
  predicate ReportsCancellation(t: TransferEnd)
  {
    t.error.Some? && t.error.value.code == NSURLErrorCancelled
  }

  /**
   A reference description of which results are acceptable for a transfer,
   written outcome by outcome: each result names the conditions the transfer
   must meet for that result to be delivered.
   */
  ghost predicate Admissible(t: TransferEnd, decode: Decoder, r: ImageResult)
  {
    match r
    case Success(img) =>
      Decodes(t, decode) && img == decode(t.data.value).value
    case Failure(ErrorDecoding) =>
      !Decodes(t, decode) && t.error.None?
    case Failure(Cancelled) =>
      !Decodes(t, decode) && ReportsCancellation(t)
    case Failure(ErrorLoading(e)) =>
      !Decodes(t, decode) && t.error == Some(e) && e.code != NSURLErrorCancelled
  }

  /**
   The completion handler's branch structure: a decodable payload wins, even
   over a reported error; otherwise no error means a decoding failure; otherwise
   the error code picks between cancellation and a loading error.
   */
  function Classify(t: TransferEnd, decode: Decoder): (r: ImageResult)
    ensures Admissible(t, decode, r)
  {
    if t.data.Some? && decode(t.data.value).Some? then
      Success(decode(t.data.value).value)
    else if t.error.None? then
      Failure(ErrorDecoding)
    else if t.error.value.code == NSURLErrorCancelled then
      Failure(Cancelled)
    else
      Failure(ErrorLoading(t.error.value))
  }

  /** Exactly one outcome per transfer: the reference description admits one
      result and no other, and that result is the one `Classify` computes. */
  lemma AdmissibleIsUnique(t: TransferEnd, decode: Decoder, r: ImageResult)
    ensures Admissible(t, decode, r) <==> r == Classify(t, decode)
  {
  }

  /** A decodable payload is a success whatever error is reported alongside it. */
  lemma DecodedPayloadWins(t: TransferEnd, decode: Decoder)
    requires t.data.Some? && decode(t.data.value).Some?
    ensures Classify(t, decode) == Success(decode(t.data.value).value)
  {
  }

  /** No usable payload and no error: a missing payload and an undecodable one
      are both reported as a decoding failure. */
  lemma EmptyResultIsDecodingError(t: TransferEnd, decode: Decoder)
    requires t.error.None?
    ensures Classify(t, decode) == Failure(ErrorDecoding) <==> !Decodes(t, decode)
  {
  }

  /** With no usable payload and an error present, the result is a cancellation
      exactly when the code is `NSURLErrorCancelled`, and otherwise a loading
      error carrying the reported error. */
  lemma ErrorSplit(t: TransferEnd, decode: Decoder)
    requires !Decodes(t, decode) && t.error.Some?
    ensures Classify(t, decode) == Failure(Cancelled) <==> ReportsCancellation(t)
    ensures !ReportsCancellation(t) <==> Classify(t, decode) == Failure(ErrorLoading(t.error.value))
  {
  }
}
