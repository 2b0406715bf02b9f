/** The bounded generation loop: sample, stop on end-of-generation, stream
    the piece, cut the reply at a stop marker, feed the token back. */
module Generation {
  import opened Text
  import opened Engine
  import opened StopSequence

  /** `n_predict`: the most generation steps one turn may take. */
  const NPredict: nat := 512

  datatype Outcome = EndOfGeneration | StopMatched | BudgetExhausted | DecodeFailure

  /** What a generation loop leaves behind: the stored reply, the pieces
      streamed to standard output (in order) and why the loop ended. */
  datatype GenResult = GenResult(response: string, pieces: seq<string>, outcome: Outcome)

  /** The loop from step `i` on, with `response` accumulated from the
      `pieces` streamed so far, none of which tripped the stop test. */
  function GenFrom(v: Vocab, ctx: Context, i: nat, response: string, pieces: seq<string>): (g: GenResult)
    decreases NPredict - i
  {
    if i >= NPredict then GenResult(response, pieces, BudgetExhausted)
    else
      var t := ctx.sample(i);
      if v.isEog(t) then GenResult(response, pieces, EndOfGeneration)
      else
        var p := v.piece(t);
        var r := response + p;
        if StopCheck(r) then GenResult(r[..StopOffset(r)], pieces + [p], StopMatched)
        else if !ctx.stepOk(i) then GenResult(r, pieces + [p], DecodeFailure)
        else GenFrom(v, ctx, i + 1, r, pieces + [p])
  }

  /** The budget: the loop only appends to what was streamed before, and
      never streams more than NPredict pieces; each streamed piece renders
      the token sampled at its step, which was not end-of-generation. */
  lemma {:induction false} StreamedPieces(v: Vocab, ctx: Context, i: nat, response: string, pieces: seq<string>)
    requires |pieces| == i <= NPredict
    decreases NPredict - i
    ensures var g := GenFrom(v, ctx, i, response, pieces);
            |pieces| <= |g.pieces| <= NPredict && g.pieces[..|pieces|] == pieces &&
            forall j | i <= j < |g.pieces| ::
              !v.isEog(ctx.sample(j)) && g.pieces[j] == v.piece(ctx.sample(j))
  {
    if i < NPredict {
      var t := ctx.sample(i);
      if !v.isEog(t) {
        var p := v.piece(t);
        var r := response + p;
        if !StopCheck(r) && ctx.stepOk(i) {
          StreamedPieces(v, ctx, i + 1, r, pieces + [p]);
          var g := GenFrom(v, ctx, i + 1, r, pieces + [p]);
          assert g.pieces[..|pieces|] == (g.pieces[..|pieces| + 1])[..|pieces|];
        }
      }
    }
  }

  /** Why the loop ended, and what the stored reply then is: the whole
      streamed text, except after a stop match, where it is the streamed
      text cut at the stop offset. In every case the stored reply is a
      prefix of what was printed and holds no stop marker. */
  lemma {:induction false} StoredReply(v: Vocab, ctx: Context, i: nat, response: string, pieces: seq<string>)
    requires |pieces| == i <= NPredict
    requires response == Concat(pieces) && !StopCheck(response)
    decreases NPredict - i
    ensures var g := GenFrom(v, ctx, i, response, pieces);
            IsPrefix(g.response, Concat(g.pieces)) && !StopCheck(g.response) &&
            (g.outcome != StopMatched ==> g.response == Concat(g.pieces)) &&
            (g.outcome == StopMatched ==>
               StopCheck(Concat(g.pieces)) &&
               g.response == Concat(g.pieces)[..StopOffset(Concat(g.pieces))])
  {
    var g := GenFrom(v, ctx, i, response, pieces);
    if i < NPredict {
      var t := ctx.sample(i);
      if !v.isEog(t) {
        var p := v.piece(t);
        ConcatAppend(pieces, p);
        var r := response + p;
        assert Concat(pieces + [p]) == r;
        if StopCheck(r) {
          var k := StopOffset(r);
          assert g == GenResult(r[..k], pieces + [p], StopMatched);
        } else if !ctx.stepOk(i) {
          assert g == GenResult(r, pieces + [p], DecodeFailure);
        } else {
          assert g == GenFrom(v, ctx, i + 1, r, pieces + [p]);
          StoredReply(v, ctx, i + 1, r, pieces + [p]);
        }
      } else {
        assert g == GenResult(response, pieces, EndOfGeneration);
      }
    } else {
      assert g == GenResult(response, pieces, BudgetExhausted);
    }
  }

  /** The four ways the loop ends: an end-of-generation token (nothing
      appended for it), the budget of NPredict steps, a failed decode of the
      last generated token, or a stop match right after a piece. */
  lemma {:induction false} EndReason(v: Vocab, ctx: Context, i: nat, response: string, pieces: seq<string>)
    requires |pieces| == i <= NPredict
    decreases NPredict - i
    ensures var g := GenFrom(v, ctx, i, response, pieces);
            i <= |g.pieces| &&
            (g.outcome == EndOfGeneration ==> |g.pieces| < NPredict && v.isEog(ctx.sample(|g.pieces|))) &&
            (g.outcome == BudgetExhausted ==> |g.pieces| == NPredict && (i < NPredict ==> ctx.stepOk(NPredict - 1))) &&
            (g.outcome == DecodeFailure ==> i < |g.pieces| && !ctx.stepOk(|g.pieces| - 1)) &&
            (g.outcome == StopMatched ==> i < |g.pieces|)
  {
    if i < NPredict {
      var t := ctx.sample(i);
      if !v.isEog(t) {
        var p := v.piece(t);
        var r := response + p;
        if !StopCheck(r) && ctx.stepOk(i) {
          EndReason(v, ctx, i + 1, r, pieces + [p]);
        }
      }
    }
  }

  /** A failed decode ends the loop: every generated token except the last
      one streamed was fed back to the engine successfully. */
  lemma {:induction false} DecodedBeforeEnd(v: Vocab, ctx: Context, i: nat, response: string, pieces: seq<string>)
    requires |pieces| == i <= NPredict
    decreases NPredict - i
    ensures var g := GenFrom(v, ctx, i, response, pieces);
            forall j | i <= j < |g.pieces| - 1 :: ctx.stepOk(j)
  {
    if i < NPredict {
      var t := ctx.sample(i);
      if !v.isEog(t) {
        var p := v.piece(t);
        var r := response + p;
        if !StopCheck(r) && ctx.stepOk(i) {
          DecodedBeforeEnd(v, ctx, i + 1, r, pieces + [p]);
        }
      }
    }
  }

  /** The generation loop of one turn, from an empty reply. */
  method Generate(v: Vocab, ctx: Context) returns (g: GenResult)
    ensures g == GenFrom(v, ctx, 0, "", [])
    ensures |g.pieces| <= NPredict
    ensures IsPrefix(g.response, Concat(g.pieces)) && !StopCheck(g.response)
  {
    StreamedPieces(v, ctx, 0, "", []);
    StoredReply(v, ctx, 0, "", []);
    var response := "";
    var pieces: seq<string> := [];
    var i := 0;
    while i < NPredict
      invariant 0 <= i <= NPredict && |pieces| == i
      invariant response == Concat(pieces) && !StopCheck(response)
      invariant GenFrom(v, ctx, i, response, pieces) == GenFrom(v, ctx, 0, "", [])
    {
      var t := ctx.sample(i);
      if v.isEog(t) {
        return GenResult(response, pieces, EndOfGeneration);
      }
      var piece := v.piece(t);
      ConcatAppend(pieces, piece);
      pieces := pieces + [piece];  // streamed to standard output
      response := response + piece;
      if StopTest(response) {
        response := response[..StopOffset(response)];
        return GenResult(response, pieces, StopMatched);
      }
      if !ctx.stepOk(i) {
        return GenResult(response, pieces, DecodeFailure);
      }
      i := i + 1;
    }
    g := GenResult(response, pieces, BudgetExhausted);
  }
}
