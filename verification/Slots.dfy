/** How many bodies are streaming now, each with a venue connection held (gateway/src/core/body.cpp). */
module Slots {

  class Slots {
    const max: nat               // 0: no cap
    var bodiesStreaming: nat

    constructor (max: nat)
      ensures bodiesStreaming == 0 && this.max == max
    {
      this.max, bodiesStreaming := max, 0;
    }

    /** Whether another body may stream. */
    predicate Admits()
      reads this
    {
      max == 0 || bodiesStreaming < max
    }
  }
}
