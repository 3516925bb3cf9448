/** Encoded samples (core/neutral.py) and bounded lists of recent ones. */
module Samples {
  import Json

  datatype Quality = Good | GoodNoData | Bad

  /** `value` Null is None. */
  datatype ValueSample = ValueSample(elementId: string, value: Json.Json, quality: Quality, timestamp: string)

  /** What a deque of maxlen `n` keeps of `s`. */
  function LastN<T>(s: seq<T>, n: nat): seq<T> {
    if |s| <= n then s else s[|s| - n..]
  }
}
