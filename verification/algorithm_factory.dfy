/** `AlgorithmFactory.create_algorithm`: the identifier `SLIDING_WINDOW`
    gives a new sliding-window engine; every other identifier is an error
    and no fallback engine is ever substituted. */
module AlgorithmFactory {
  import opened Wrappers
  import opened Models
  import opened SlidingWindow

  /** The identifiers the factory can build an engine for. */
  predicate IsSupported(algorithmType: string)
  {
    algorithmType == SlidingWindowId
  }

  /** The `ValueError` message for an identifier without an engine. */
  function UnsupportedMessage(algorithmType: string): (msg: string)
    ensures |msg| == 23 + |algorithmType|
    ensures msg[..23] == "Unsupported algorithm: " && msg[23..] == algorithmType
  {
    "Unsupported algorithm: " + algorithmType
  }

  /** `create_algorithm(algorithm_type)`: a fresh engine with an empty
      per-key table, or the `ValueError` message. */
  method CreateAlgorithm(algorithmType: string) returns (r: Result<SlidingWindowAlgorithm, string>)
    ensures r.Success? <==> IsSupported(algorithmType)
    ensures r.Success? ==> fresh(r.value) && r.value.clientData == map[]
    ensures r.Failure? ==> r.error == UnsupportedMessage(algorithmType)
  {
    if algorithmType == SlidingWindowId {
      var engine := new SlidingWindowAlgorithm();
      return Success(engine);
    }
    return Failure(UnsupportedMessage(algorithmType));
  }

  /** `SLIDING_WINDOW` is the only member of `AlgorithmType`, so building an
      engine from any `AlgorithmType` value never fails. */
  lemma EveryAlgorithmTypeIsSupported(t: AlgorithmType)
    ensures IsSupported(t.Value())
  {
  }
}
