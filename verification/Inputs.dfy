// A fuzzer input: a text that never changes and the mutation state that counts its uses.
module Inputs {
  import opened Words
  import opened Bytes

  // uint64_t increment.
  function Next(state: word): word {
    (state + 1) % WORD_RANGE
  }

  class Input {
    const text: cstring
    var state: word

    // make_input: strdup and strlen stop at the first NUL of the buffer.
    constructor (buffer: seq<byte>)
      requires NUL in buffer
      ensures text == UpToNul(buffer) && state == 0
    {
      text := UpToNul(buffer);
      state := 0;
    }

    // input_state_step: returns the state before the increment, which wraps at 2^64.
    method StateStep() returns (before: word)
      modifies this
      ensures before == old(state) && state == Next(before)
    {
      before := state;
      state := Next(state);
    }
  }
}
