/** The inference engine, reduced to the answers the chat client receives
    from it. Nothing here is behaviour of the engine: each field is an
    oracle standing for a foreign call. */
module Engine {
  import opened Text

  /** `llama_token`: an identifier in the model's vocabulary. */
  type Token = int

  /** Per-process vocabulary services. `tokenize` is the tokenizer applied
      to the whole history text (None when it reports failure); `isEog` is
      `llama_vocab_is_eog`; `piece` is `llama_token_to_piece`. */
  datatype Vocab = Vocab(
    tokenize: string -> Option<seq<Token>>,
    isEog: Token -> bool,
    piece: Token -> string)

  /** Per-turn inference context, created afresh every turn. `created` is
      whether `llama_init_from_model` succeeded; `ingestOk(c)` is whether
      decoding the c-th history chunk succeeded; `sample(i)` is the token
      the greedy sampler picks at generation step i; `stepOk(i)` is whether
      decoding the token generated at step i succeeded. */
  datatype Context = Context(
    created: bool,
    ingestOk: nat -> bool,
    sample: nat -> Token,
    stepOk: nat -> bool)
}
