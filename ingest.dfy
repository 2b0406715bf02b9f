/** Chunked ingestion of the tokenized history: the token sequence is cut
    into batches of at most `NBatch` tokens, each token tagged with its
    absolute position, and only the very last token asks for logits. */
module Ingestion {
  import opened Engine

  /** `ctx_params.n_batch`. */
  const NBatch: nat := 2048

  /** The contents of one submitted batch, slot by slot: `token[j]`,
      `pos[j]`, `n_seq_id[j]`, `seq_id[j][0]` and `logits[j]`. */
  datatype BatchView = BatchView(
    tokens: seq<Token>,
    pos: seq<int>,
    nSeqId: seq<int>,
    seqId: seq<int>,
    logits: seq<bool>)
  {
    predicate WellFormed()
    {
      |pos| == |tokens| && |nSeqId| == |tokens| && |seqId| == |tokens| && |logits| == |tokens|
    }
  }

  /** `n_eval`: the size of the chunk that starts at offset `i`. */
  function ChunkLen(h: seq<Token>, i: nat): (n: nat)
    requires i < |h|
    ensures 1 <= n <= NBatch && i + n <= |h|
    ensures n < NBatch ==> i + n == |h|
  {
    if |h| - i < NBatch then |h| - i else NBatch
  }

  /** The batch built for the chunk that starts at offset `i`. */
  function ChunkAt(h: seq<Token>, i: nat): (b: BatchView)
    requires i < |h|
  {
    var n := ChunkLen(h, i);
    BatchView(h[i..i + n],
              seq(n, j => i + j),
              seq(n, j => 1),
              seq(n, j => 0),
              seq(n, j => i + n == |h| && j == n - 1))
  }

  /** The batches submitted, in order, for the tokens from offset `from` on. */
  function Chunks(h: seq<Token>, from: nat): (cs: seq<BatchView>)
    decreases |h| - from
    ensures forall c | 0 <= c < |cs| :: cs[c].WellFormed() && 1 <= |cs[c].tokens| <= NBatch
  {
    if from >= |h| then [] else [ChunkAt(h, from)] + Chunks(h, from + NBatch)
  }

  /** Ingestion issues ceil(L / NBatch) batches for L remaining tokens. */
  lemma {:induction false} ChunkCount(h: seq<Token>, from: nat)
    requires from <= |h|
    decreases |h| - from
    ensures |Chunks(h, from)| == (|h| - from + NBatch - 1) / NBatch
  {
    if from < |h| {
      if from + NBatch <= |h| {
        ChunkCount(h, from + NBatch);
      }
    }
  }

  /** Field-wise concatenation of batches: what the engine would have seen
      had the whole sequence been submitted as one batch. */
  function Merge(cs: seq<BatchView>): BatchView
  {
    if cs == [] then BatchView([], [], [], [], [])
    else
      var rest := Merge(cs[1..]);
      BatchView(cs[0].tokens + rest.tokens, cs[0].pos + rest.pos,
                cs[0].nSeqId + rest.nSeqId, cs[0].seqId + rest.seqId,
                cs[0].logits + rest.logits)
  }

  /** The tokens from offset `from` on as one batch: positions are absolute
      and contiguous, every token belongs to sequence 0, and only the last
      token of the whole history requests logits. */
  function Whole(h: seq<Token>, from: nat): BatchView
    requires from <= |h|
  {
    var n := |h| - from;
    BatchView(h[from..],
              seq(n, k => from + k),
              seq(n, k => 1),
              seq(n, k => 0),
              seq(n, k => from + k == |h| - 1))
  }

  /** The chunking law: the batches concatenate back to the single batch
      over the whole history, so tokens are in order, positions run
      from..|h|-1 without gaps, and logits are requested exactly once, for
      the last token of the last chunk. */
  lemma {:induction false} ChunkingLaw(h: seq<Token>, from: nat)
    requires from <= |h|
    decreases |h| - from
    ensures Merge(Chunks(h, from)) == Whole(h, from)
  {
    if from < |h| {
      var n := ChunkLen(h, from);
      var c := ChunkAt(h, from);
      var rest := Chunks(h, from + NBatch);
      assert Chunks(h, from) == [c] + rest;
      assert ([c] + rest)[1..] == rest;
      var w := Whole(h, from);
      if from + n < |h| {
        assert n == NBatch;
        ChunkingLaw(h, from + NBatch);
        var w2 := Whole(h, from + n);
        assert w.tokens == c.tokens + w2.tokens;
        assert w.pos == c.pos + w2.pos;
        assert w.nSeqId == c.nSeqId + w2.nSeqId;
        assert w.seqId == c.seqId + w2.seqId;
        assert w.logits == c.logits + w2.logits;
      } else {
        assert rest == [];
        assert w.tokens == c.tokens + [];
        assert w.pos == c.pos + [];
        assert w.nSeqId == c.nSeqId + [];
        assert w.seqId == c.seqId + [];
        assert w.logits == c.logits + [];
      }
    }
  }

  /** The flattened batches of a whole history: the k-th submitted slot
      holds history token k at position k, and asks for logits iff it is
      the last token. */
  lemma HistoryIngested(h: seq<Token>, k: nat)
    requires k < |h|
    ensures var m := Merge(Chunks(h, 0));
            |m.tokens| == |m.pos| == |m.logits| == |h| &&
            m.tokens[k] == h[k] && m.pos[k] == k && (m.logits[k] <==> k == |h| - 1)
  {
    ChunkingLaw(h, 0);
  }

  /** `llama_batch`: five parallel arrays of one capacity and a token count. */
  class Batch {
    var token: array<Token>
    var pos: array<int>
    var nSeqId: array<int>
    var seqId: array<int>
    var logits: array<bool>
    var nTokens: nat

    ghost predicate Valid()
      reads this
    {
      pos.Length == token.Length && nSeqId.Length == token.Length &&
      seqId.Length == token.Length && logits.Length == token.Length &&
      nTokens <= token.Length &&
      token != pos && token != nSeqId && token != seqId &&
      pos != nSeqId && pos != seqId && nSeqId != seqId
    }

    /** The slots filled so far. */
    ghost function View(): (b: BatchView)
      reads this, token, pos, nSeqId, seqId, logits
      requires Valid()
      ensures b.WellFormed() && |b.tokens| == nTokens
    {
      BatchView(token[..nTokens], pos[..nTokens], nSeqId[..nTokens],
                seqId[..nTokens], logits[..nTokens])
    }

    /** `llama_batch_init(n, 0, 1)`: room for `n` tokens, one sequence each. */
    constructor Init(n: nat)
      ensures Valid() && token.Length == n && nTokens == 0
      ensures fresh(token) && fresh(pos) && fresh(nSeqId) && fresh(seqId) && fresh(logits)
    {
      token := new Token[n];
      pos := new int[n];
      nSeqId := new int[n];
      seqId := new int[n];
      logits := new bool[n];
      nTokens := 0;
    }

    /** Fills the batch with the chunk of `h` that starts at offset `i`,
        then turns on logits for the final slot if the chunk ends the history. */
    method Fill(h: seq<Token>, i: nat)
      requires Valid() && i < |h| && token.Length == ChunkLen(h, i)
      modifies this`nTokens, token, pos, nSeqId, seqId, logits
      ensures Valid() && View() == ChunkAt(h, i)
    {
      var nEval := token.Length;
      var j := 0;
      while j < nEval
        invariant 0 <= j <= nEval
        invariant forall k | 0 <= k < j :: token[k] == h[i + k] && pos[k] == i + k
        invariant forall k | 0 <= k < j :: nSeqId[k] == 1 && seqId[k] == 0 && !logits[k]
      {
        token[j] := h[i + j];
        pos[j] := i + j;
        nSeqId[j] := 1;
        seqId[j] := 0;
        logits[j] := false;
        j := j + 1;
      }
      nTokens := nEval;
      if i + nEval == |h| {
        logits[nEval - 1] := true;
      }
      assert token[..nTokens] == h[i..i + nEval];
    }
  }

  /** Decodes the history chunk by chunk, stopping at the first failure.
      `submitted` is the sequence of batches handed to the engine. */
  method Ingest(h: seq<Token>, ctx: Context) returns (ok: bool, ghost submitted: seq<BatchView>)
    ensures ok <==> forall c | 0 <= c < |Chunks(h, 0)| :: ctx.ingestOk(c)
    ensures ok ==> submitted == Chunks(h, 0)
    ensures !ok ==> 0 < |submitted| <= |Chunks(h, 0)| && submitted == Chunks(h, 0)[..|submitted|]
    ensures !ok ==> !ctx.ingestOk(|submitted| - 1) &&
                    forall c | 0 <= c < |submitted| - 1 :: ctx.ingestOk(c)
  {
    submitted := [];
    var i, c := 0, 0;
    while i < |h|
      invariant c == |submitted| && i == NBatch * c
      invariant Chunks(h, 0) == submitted + Chunks(h, i)
      invariant forall k | 0 <= k < c :: ctx.ingestOk(k)
      decreases |h| - i
    {
      var nEval := if |h| - i < NBatch then |h| - i else NBatch;
      var batch := new Batch.Init(nEval);
      batch.Fill(h, i);
      ghost var rest := Chunks(h, i + NBatch);
      assert Chunks(h, i) == [ChunkAt(h, i)] + rest;
      submitted := submitted + [batch.View()];
      assert Chunks(h, 0) == submitted + rest;
      if !ctx.ingestOk(c) {
        ok := false;
        assert Chunks(h, 0)[..|submitted|] == submitted;
        return;
      }
      i, c := i + NBatch, c + 1;
    }
    ok := true;
  }
}
