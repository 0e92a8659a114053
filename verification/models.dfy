/** The plain value records the core passes around: the rate-limit
    configuration (`ConfigResponse`), the admission decision
    (`RateLimitResponse`) and the algorithm identifier (`AlgorithmType`). */
module Models {
  import opened Wrappers

  /** The string value of `AlgorithmType.SLIDING_WINDOW`. */
  const SlidingWindowId: string := "SLIDING_WINDOW"

  /** `AlgorithmType` is a `str` enum with a single member. */
  datatype AlgorithmType = SlidingWindow {
    function Value(): string {
      match this
      case SlidingWindow => SlidingWindowId
    }
  }

  /** `ConfigResponse`. The window and the quota are not validated (any
      integer is accepted); the algorithm is held as its identifier string,
      which is what the factory compares. */
  datatype Config = Config(windowSeconds: int, requestsPerWindow: int, algorithm: string)

  /** `RateLimitResponse` as the core builds it; `processing_time_us` is only
      ever filled in by the HTTP layer. */
  datatype RateLimitResponse = RateLimitResponse(allowed: bool, remaining: int, retryAfter: Option<int>)
}
