/** The interactive chat loop in stateless mode: every turn appends the
    user's line to a growing history text, recreates the inference
    context, re-tokenizes and re-ingests the whole history, generates a
    reply and appends that reply to the history. */
module Chat {
  import opened Text
  import opened Engine
  import opened StopSequence
  import opened Ingestion
  import opened Generation

  /** Lines that end the loop: "exit", "quit" and the empty line. */
  predicate IsExitCommand(input: string)
  {
    input == "exit" || input == "quit" || input == ""
  }

  /** The history text added before the context is even created. */
  function TurnPrefix(input: string): string
  {
    "User: " + input + "\nAssistant: "
  }

  /** How one pass of the loop ends. */
  datatype TurnResult =
    | Exited            // exit command: the loop ends
    | NoContext         // context creation failed: the loop ends
    | TokenizeFailed    // turn skipped
    | IngestFailed      // a history chunk failed to decode: turn skipped
    | Completed(gen: GenResult)

  /** One pass of the loop on `input`, given the history before it. */
  function TurnSpec(v: Vocab, history: string, input: string, ctx: Context): (r: TurnResult)
    ensures r.Exited? <==> IsExitCommand(input)
    ensures r.NoContext? <==> !IsExitCommand(input) && !ctx.created
  {
    if IsExitCommand(input) then Exited
    else if !ctx.created then NoContext
    else match v.tokenize(history + TurnPrefix(input))
      case None => TokenizeFailed
      case Some(tokens) =>
        if forall c | 0 <= c < |Chunks(tokens, 0)| :: ctx.ingestOk(c)
        then Completed(GenFrom(v, ctx, 0, "", []))
        else IngestFailed
  }

  /** The history after a pass of the loop: unchanged on an exit command,
      the turn prefix alone when the turn failed before generation, and the
      prefix followed by the stored reply and a newline otherwise. */
  function HistoryAfter(history: string, input: string, r: TurnResult): (h: string)
    ensures IsPrefix(history, h)
    ensures h == history <==> r.Exited?
  {
    match r
    case Exited => history
    case Completed(g) => history + TurnPrefix(input) + g.response + "\n"
    case _ => history + TurnPrefix(input)
  }

  /** One recorded turn of the history: the user's line and, when the turn
      got as far as generating, the stored reply. */
  datatype Entry = Entry(input: string, reply: Option<string>)

  function EntryText(e: Entry): string
  {
    TurnPrefix(e.input) + match e.reply { case Some(r) => r + "\n" case None => "" }
  }

  function Render(es: seq<Entry>): string
  {
    if es == [] then "" else Render(es[..|es| - 1]) + EntryText(es[|es| - 1])
  }

  /** No recorded input is an exit command, and no recorded reply contains
      a stop marker: the assistant never speaks a fabricated user turn. */
  predicate WellFormed(es: seq<Entry>)
  {
    forall k | 0 <= k < |es| ::
      !IsExitCommand(es[k].input) && (es[k].reply.Some? ==> !StopCheck(es[k].reply.value))
  }

  /** The entry a pass of the loop records, if any. */
  function NewEntries(input: string, r: TurnResult): seq<Entry>
  {
    match r
    case Exited => []
    case Completed(g) => [Entry(input, Some(g.response))]
    case _ => [Entry(input, None)]
  }

  /** What a pass of the loop guarantees about its result: it stops exactly
      on exit commands, and a completed turn's stored reply holds no stop
      marker and is a prefix of the text streamed to the console. */
  lemma TurnResultFacts(v: Vocab, history: string, input: string, ctx: Context)
    ensures TurnSpec(v, history, input, ctx).Exited? <==> IsExitCommand(input)
    ensures TurnSpec(v, history, input, ctx).Completed? ==>
              var g := TurnSpec(v, history, input, ctx).gen;
              !StopCheck(g.response) && IsPrefix(g.response, Concat(g.pieces)) &&
              |g.pieces| <= NPredict
  {
    StoredReply(v, ctx, 0, "", []);
    StreamedPieces(v, ctx, 0, "", []);
  }

  /** The history growth law: the history text after a pass of the loop is
      the rendering of the transcript extended by the entry that pass
      records. */
  lemma HistoryMatchesTranscript(es: seq<Entry>, input: string, r: TurnResult)
    ensures HistoryAfter(Render(es), input, r) == Render(es + NewEntries(input, r))
  {
    if r.Exited? {
      assert es + [] == es;
    } else {
      var h := Render(es);
      var e := NewEntries(input, r)[0];
      assert NewEntries(input, r) == [e];
      RenderAppend(es, e);
      if r.Completed? {
        var p, g := TurnPrefix(input), r.gen.response;
        assert EntryText(e) == p + (g + "\n");
        assert HistoryAfter(h, input, r) == h + p + g + "\n";
        assert h + p + g + "\n" == h + (p + (g + "\n"));
      } else {
        assert EntryText(e) == TurnPrefix(input) + "";
      }
    }
  }

  /** A pass of the loop keeps the transcript well formed, and records one
      entry unless the input was an exit command. */
  lemma TurnKeepsWellFormed(es: seq<Entry>, input: string, r: TurnResult)
    requires WellFormed(es)
    requires r.Exited? <==> IsExitCommand(input)
    requires r.Completed? ==> !StopCheck(r.gen.response)
    ensures WellFormed(es + NewEntries(input, r))
    ensures |NewEntries(input, r)| == if r.Exited? then 0 else 1
  {
    if r.Exited? {
      assert es + [] == es;
    } else {
      var e := NewEntries(input, r)[0];
      assert NewEntries(input, r) == [e];
    }
  }

  lemma RenderAppend(es: seq<Entry>, e: Entry)
    ensures Render(es + [e]) == Render(es) + EntryText(e)
  {
  }

  /** The user's lines of a transcript, in order. */
  function InputsOf(es: seq<Entry>): seq<string>
  {
    seq(|es|, k requires 0 <= k < |es| => es[k].input)
  }

  /** The outcome of the loop as a whole. */
  datatype LoopEnd = UserExit | ContextFailure

  /** The lines the loop reads, in order: the first prompt when it is
      non-empty and not yet used, then the lines of standard input, then
      the empty line that reading past the end of input yields. */
  function Feed(firstRun: bool, initialPrompt: string, lines: seq<string>): (f: seq<string>)
    ensures 0 < |f| && IsExitCommand(f[|f| - 1])
    ensures |f| == |lines| + (if firstRun && initialPrompt != "" then 2 else 1)
  {
    (if firstRun && initialPrompt != "" then [initialPrompt] else []) + lines + [""]
  }

  /** The line read once `n` lines of standard input have been consumed. */
  lemma FeedAt(firstRun: bool, initialPrompt: string, lines: seq<string>, n: nat)
    requires n <= |lines|
    ensures var f := Feed(firstRun, initialPrompt, lines);
            var skip := if firstRun && initialPrompt != "" then 1 else 0;
            (skip == 1 ==> f[0] == initialPrompt) &&
            f[skip + n] == if n < |lines| then lines[n] else ""
  {
  }

  /** Where the loop stops and what it leaves behind. */
  datatype RunResult = RunResult(end: LoopEnd, turns: nat, history: string, entries: seq<Entry>)

  /** The loop from its k-th pass on: pass k reads `feed[k]` and works with
      the k-th freshly created context. */
  function RunFrom(v: Vocab, history: string, es: seq<Entry>, feed: seq<string>, k: nat,
                   contexts: nat -> Context): RunResult
    requires k < |feed| && IsExitCommand(feed[|feed| - 1])
    decreases |feed| - k
  {
    var r := TurnSpec(v, history, feed[k], contexts(k));
    if r.Exited? then RunResult(UserExit, k, history, es)
    else
      var h, es' := HistoryAfter(history, feed[k], r), es + NewEntries(feed[k], r);
      if r.NoContext? then RunResult(ContextFailure, k + 1, h, es')
      else RunFrom(v, h, es', feed, k + 1, contexts)
  }

  /** One pass of the loop, unfolded. */
  lemma RunStep(v: Vocab, history: string, es: seq<Entry>, feed: seq<string>, k: nat,
                contexts: nat -> Context, r: TurnResult)
    requires k < |feed| && IsExitCommand(feed[|feed| - 1])
    requires r == TurnSpec(v, history, feed[k], contexts(k))
    ensures r.Exited? ==> RunFrom(v, history, es, feed, k, contexts) == RunResult(UserExit, k, history, es)
    ensures r.NoContext? ==>
              RunFrom(v, history, es, feed, k, contexts) ==
              RunResult(ContextFailure, k + 1, HistoryAfter(history, feed[k], r), es + NewEntries(feed[k], r))
    ensures !r.Exited? && !r.NoContext? ==>
              k + 1 < |feed| &&
              RunFrom(v, history, es, feed, k, contexts) ==
              RunFrom(v, HistoryAfter(history, feed[k], r), es + NewEntries(feed[k], r), feed, k + 1, contexts)
  {
  }

  /** A pass of the loop that goes on to the next one: from history `h`
      and transcript `es` it reads `input`, neither exits nor fails to
      create its context, and leaves `h'` and `es'` behind. */
  ghost predicate GoesOn(v: Vocab, h: string, es: seq<Entry>, input: string, ctx: Context,
                         h': string, es': seq<Entry>)
  {
    var r := TurnSpec(v, h, input, ctx);
    !r.Exited? && !r.NoContext? && h' == HistoryAfter(h, input, r) && es' == es + NewEntries(input, r)
  }

  /** The first `|hs| - 1` passes of the loop, each going on to the next:
      pass `j` starts from `hs[j]` and `ess[j]` and reads `feed[j]`. */
  ghost predicate Continues(v: Vocab, feed: seq<string>, contexts: nat -> Context,
                            hs: seq<string>, ess: seq<seq<Entry>>)
  {
    0 < |hs| == |ess| <= |feed| &&
    forall j | 0 <= j < |hs| - 1 :: GoesOn(v, hs[j], ess[j], feed[j], contexts(j), hs[j + 1], ess[j + 1])
  }

  /** A pass that goes on extends the trace by one state. */
  lemma ContinuesExtend(v: Vocab, feed: seq<string>, contexts: nat -> Context,
                        hs: seq<string>, ess: seq<seq<Entry>>, r: TurnResult)
    requires Continues(v, feed, contexts, hs, ess) && |hs| < |feed|
    requires r == TurnSpec(v, hs[|hs| - 1], feed[|hs| - 1], contexts(|hs| - 1))
    requires !r.Exited? && !r.NoContext?
    ensures Continues(v, feed, contexts,
                      hs + [HistoryAfter(hs[|hs| - 1], feed[|hs| - 1], r)],
                      ess + [ess[|hs| - 1] + NewEntries(feed[|hs| - 1], r)])
  {
    var n := |hs| - 1;
    var hs', ess' := hs + [HistoryAfter(hs[n], feed[n], r)], ess + [ess[n] + NewEntries(feed[n], r)];
    forall j | 0 <= j < |hs'| - 1
      ensures GoesOn(v, hs'[j], ess'[j], feed[j], contexts(j), hs'[j + 1], ess'[j + 1])
    {
      if j < n {
        assert GoesOn(v, hs[j], ess[j], feed[j], contexts(j), hs[j + 1], ess[j + 1]);
      }
    }
  }

  /** Passes that go on leave the loop's outcome unchanged: the loop from
      the start ends where the loop from the last traced state ends. */
  lemma {:induction false} ContinuesReaches(v: Vocab, feed: seq<string>, contexts: nat -> Context,
                                             hs: seq<string>, ess: seq<seq<Entry>>)
    requires Continues(v, feed, contexts, hs, ess) && IsExitCommand(feed[|feed| - 1])
    decreases |hs|
    ensures var n := |hs| - 1;
            RunFrom(v, hs[0], ess[0], feed, 0, contexts) == RunFrom(v, hs[n], ess[n], feed, n, contexts)
  {
    var n := |hs| - 1;
    if 0 < n {
      assert Continues(v, feed, contexts, hs[..n], ess[..n]) by {
        forall j | 0 <= j < n - 1
          ensures GoesOn(v, hs[..n][j], ess[..n][j], feed[j], contexts(j), hs[..n][j + 1], ess[..n][j + 1])
        {
          assert GoesOn(v, hs[j], ess[j], feed[j], contexts(j), hs[j + 1], ess[j + 1]);
        }
      }
      ContinuesReaches(v, feed, contexts, hs[..n], ess[..n]);
      assert GoesOn(v, hs[n - 1], ess[n - 1], feed[n - 1], contexts(n - 1), hs[n], ess[n]);
      RunStep(v, hs[n - 1], ess[n - 1], feed, n - 1, contexts, TurnSpec(v, hs[n - 1], feed[n - 1], contexts(n - 1)));
    }
  }

  /** A pass that exits or fails to create its context ends the loop
      that went on up to it. */
  lemma ContinuesEnds(v: Vocab, feed: seq<string>, contexts: nat -> Context,
                      hs: seq<string>, ess: seq<seq<Entry>>, r: TurnResult)
    requires Continues(v, feed, contexts, hs, ess) && IsExitCommand(feed[|feed| - 1])
    requires r == TurnSpec(v, hs[|hs| - 1], feed[|hs| - 1], contexts(|hs| - 1))
    requires r.Exited? || r.NoContext?
    ensures var n := |hs| - 1;
            RunFrom(v, hs[0], ess[0], feed, 0, contexts) ==
            if r.Exited? then RunResult(UserExit, n, hs[n], ess[n])
            else RunResult(ContextFailure, n + 1, HistoryAfter(hs[n], feed[n], r), ess[n] + NewEntries(feed[n], r))
  {
    var n := |hs| - 1;
    RunStep(v, hs[n], ess[n], feed, n, contexts, r);
    ContinuesReaches(v, feed, contexts, hs, ess);
  }

  /** Where a loop that started at pass `k` stopped, as `o` reports it:
      at the first exit command read from pass `k` on, unless a context
      could not be created before; every pass until then had its context. */
  ghost predicate StopsWhere(o: RunResult, feed: seq<string>, k: nat, contexts: nat -> Context)
  {
    k <= o.turns < |feed| &&
    (forall j | k <= j < o.turns :: !IsExitCommand(feed[j])) &&
    (forall j | k <= j < o.turns - 1 :: contexts(j).created) &&
    (o.end == UserExit ==> IsExitCommand(feed[o.turns])) &&
    (o.end == ContextFailure <==> k < o.turns && !contexts(o.turns - 1).created)
  }

  /** A pass that reads no exit command and has its context extends where
      the rest of the loop stops back to that pass. */
  lemma StopsWhereBack(o: RunResult, feed: seq<string>, k: nat, contexts: nat -> Context)
    requires StopsWhere(o, feed, k + 1, contexts)
    requires !IsExitCommand(feed[k]) && contexts(k).created
    ensures StopsWhere(o, feed, k, contexts)
  {
  }

  /** Where the loop stops: at the first exit command, unless a context
      could not be created before; every pass until then had its context. */
  lemma {:induction false} RunStops(v: Vocab, history: string, es: seq<Entry>, feed: seq<string>, k: nat,
                                    contexts: nat -> Context)
    requires k < |feed| && IsExitCommand(feed[|feed| - 1])
    decreases |feed| - k
    ensures StopsWhere(RunFrom(v, history, es, feed, k, contexts), feed, k, contexts)
  {
    var r := TurnSpec(v, history, feed[k], contexts(k));
    RunStep(v, history, es, feed, k, contexts, r);
    if !r.Exited? && !r.NoContext? {
      var h, es' := HistoryAfter(history, feed[k], r), es + NewEntries(feed[k], r);
      RunStops(v, h, es', feed, k + 1, contexts);
      StopsWhereBack(RunFrom(v, h, es', feed, k + 1, contexts), feed, k, contexts);
    }
  }

  /** Every pass of the loop records the line it read, in the order read. */
  lemma {:induction false} RunRecordsInputs(v: Vocab, history: string, es: seq<Entry>, feed: seq<string>, k: nat,
                                            contexts: nat -> Context)
    requires k < |feed| && IsExitCommand(feed[|feed| - 1])
    decreases |feed| - k
    ensures var o := RunFrom(v, history, es, feed, k, contexts);
            k <= o.turns <= |feed| && InputsOf(o.entries) == InputsOf(es) + feed[k..o.turns]
  {
    var r := TurnSpec(v, history, feed[k], contexts(k));
    RunStep(v, history, es, feed, k, contexts, r);
    if r.Exited? {
      assert feed[k..k] == [];
    } else {
      var es' := es + NewEntries(feed[k], r);
      InputsOfAppend(es, feed[k], r);
      if r.NoContext? {
        assert feed[k..k + 1] == [feed[k]];
      } else {
        var h := HistoryAfter(history, feed[k], r);
        RunRecordsInputs(v, h, es', feed, k + 1, contexts);
        var o := RunFrom(v, h, es', feed, k + 1, contexts);
        InputsChain(InputsOf(es), InputsOf(es'), InputsOf(o.entries), feed, k, o.turns);
      }
    }
  }

  /** Inputs recorded before reading `feed[k]`, then that line, then the
      lines up to `m` are the inputs recorded before it followed by
      `feed[k..m]`. */
  lemma InputsChain(before: seq<string>, after: seq<string>, final: seq<string>, feed: seq<string>, k: nat, m: nat)
    requires k < m <= |feed|
    requires after == before + [feed[k]] && final == after + feed[k + 1..m]
    ensures final == before + feed[k..m]
  {
    assert feed[k..m] == [feed[k]] + feed[k + 1..m];
  }

  /** A non-exit pass adds its input to the recorded inputs. */
  lemma InputsOfAppend(es: seq<Entry>, input: string, r: TurnResult)
    requires !r.Exited?
    ensures InputsOf(es + NewEntries(input, r)) == InputsOf(es) + [input]
  {
    var e := NewEntries(input, r)[0];
    assert NewEntries(input, r) == [e];
  }

  /** The loop keeps the history text equal to the rendering of a well
      formed transcript, and only ever appends to both. */
  lemma {:induction false} RunKeepsTranscript(v: Vocab, history: string, es: seq<Entry>, feed: seq<string>,
                                              k: nat, contexts: nat -> Context)
    requires k < |feed| && IsExitCommand(feed[|feed| - 1])
    requires history == Render(es) && WellFormed(es)
    decreases |feed| - k
    ensures var o := RunFrom(v, history, es, feed, k, contexts);
            o.history == Render(o.entries) && WellFormed(o.entries) &&
            IsPrefix(history, o.history) && es <= o.entries
  {
    var r := TurnSpec(v, history, feed[k], contexts(k));
    if !r.Exited? {
      TurnResultFacts(v, history, feed[k], contexts(k));
      HistoryMatchesTranscript(es, feed[k], r);
      TurnKeepsWellFormed(es, feed[k], r);
      if !r.NoContext? {
        var h, es' := HistoryAfter(history, feed[k], r), es + NewEntries(feed[k], r);
        RunKeepsTranscript(v, h, es', feed, k + 1, contexts);
        PrefixTransitive(history, h, RunFrom(v, h, es', feed, k + 1, contexts).history);
      }
    }
  }

  /** The loop as a whole: it stops as `StopsWhere` says, records every
      line it read up to where it stopped, and only appends to the history
      and to the transcript. */
  lemma RunOutcome(v: Vocab, history: string, es: seq<Entry>, feed: seq<string>, contexts: nat -> Context)
    requires 0 < |feed| && IsExitCommand(feed[|feed| - 1])
    requires history == Render(es) && WellFormed(es)
    ensures var o := RunFrom(v, history, es, feed, 0, contexts);
            StopsWhere(o, feed, 0, contexts) &&
            InputsOf(o.entries) == InputsOf(es) + feed[..o.turns] &&
            IsPrefix(history, o.history) && es <= o.entries
  {
    RunStops(v, history, es, feed, 0, contexts);
    RunRecordsInputs(v, history, es, feed, 0, contexts);
    RunKeepsTranscript(v, history, es, feed, 0, contexts);
  }

  /** When every pass before the first exit command had its context, the
      loop ends by the user's exit after exactly the passes before it: for
      the lines "hello", "world", "exit" that is two turns. */
  lemma StopsAtFirstExit(v: Vocab, history: string, es: seq<Entry>, feed: seq<string>, contexts: nat -> Context,
                         n: nat)
    requires n < |feed| && IsExitCommand(feed[n]) && IsExitCommand(feed[|feed| - 1])
    requires forall j | 0 <= j < n :: !IsExitCommand(feed[j]) && contexts(j).created
    ensures var o := RunFrom(v, history, es, feed, 0, contexts);
            o.end == UserExit && o.turns == n
  {
    RunStops(v, history, es, feed, 0, contexts);
  }

  class Session {
    const vocab: Vocab
    const initialPrompt: string
    var firstRun: bool
    var history: string
    ghost var entries: seq<Entry>

    ghost predicate Valid()
      reads this`history, this`entries
    {
      history == Render(entries) && WellFormed(entries)
    }

    constructor (vocab: Vocab, initialPrompt: string)
      ensures Valid()
      ensures this.vocab == vocab && this.initialPrompt == initialPrompt
      ensures firstRun && history == "" && entries == []
    {
      this.vocab := vocab;
      this.initialPrompt := initialPrompt;
      firstRun := true;
      history := "";
      entries := [];
    }

    /** One pass of the loop after the input line has been chosen. */
    method Turn(input: string, ctx: Context) returns (r: TurnResult)
      requires Valid()
      modifies this`history, this`entries
      ensures Valid()
      ensures r == TurnSpec(vocab, old(history), input, ctx)
      ensures history == HistoryAfter(old(history), input, r)
      ensures entries == old(entries) + NewEntries(input, r)
      ensures r.Exited? <==> IsExitCommand(input)
      ensures r.Exited? ==> history == old(history) && entries == old(entries)
      ensures !r.Exited? ==> |entries| == |old(entries)| + 1 && entries[|old(entries)|].input == input
      ensures IsPrefix(old(history), history) && old(entries) <= entries
    {
      TurnResultFacts(vocab, history, input, ctx);
      HistoryMatchesTranscript(entries, input, TurnSpec(vocab, history, input, ctx));
      TurnKeepsWellFormed(entries, input, TurnSpec(vocab, history, input, ctx));
      if IsExitCommand(input) {
        return Exited;
      }
      history := history + TurnPrefix(input);
      if !ctx.created {
        r := NoContext;
      } else {
        var tokens := vocab.tokenize(history);
        if tokens.None? {
          r := TokenizeFailed;
        } else {
          var ok, _ := Ingest(tokens.value, ctx);
          if !ok {
            r := IngestFailed;
          } else {
            var g := Generate(vocab, ctx);
            history := history + g.response + "\n";
            r := Completed(g);
          }
        }
      }
      entries := entries + NewEntries(input, r);
    }

    /** The reading position: `next` lines of standard input consumed, and
        `k` lines read in all, the first prompt included when `usePrompt`. */
    ghost predicate ReadAt(lines: seq<string>, usePrompt: bool, next: nat, k: nat)
      reads this`firstRun
    {
      (usePrompt ==> initialPrompt != "") &&
      next <= |lines| && k == (if usePrompt && !firstRun then 1 else 0) + next &&
      (usePrompt && firstRun ==> k == 0) &&
      (!usePrompt ==> !(firstRun && initialPrompt != ""))
    }

    /** Chooses the line of the next pass: the first prompt if it is
        non-empty and not yet used, else the next line of standard input,
        else the empty line that reading past the end yields. */
    method ReadInput(lines: seq<string>, next: nat, ghost usePrompt: bool, ghost k: nat)
      returns (input: string, next': nat)
      requires ReadAt(lines, usePrompt, next, k)
      modifies this`firstRun
      ensures input == Feed(usePrompt, initialPrompt, lines)[k]
      ensures k + 1 < |Feed(usePrompt, initialPrompt, lines)| ==> ReadAt(lines, usePrompt, next', k + 1)
      ensures usePrompt ==> !firstRun
      ensures !usePrompt ==> firstRun == old(firstRun)
    {
      FeedAt(usePrompt, initialPrompt, lines, next);
      next' := next;
      if firstRun && initialPrompt != "" {
        input := initialPrompt;
        firstRun := false;
      } else if next < |lines| {
        input := lines[next];
        next' := next + 1;
      } else {
        input := "";
      }
    }

    /** One pass of the chat loop: reads the next line and runs the turn
        on it, after the passes traced by `hs` and `ess` went on. */
    method Step(lines: seq<string>, next: nat, ctx: Context, ghost usePrompt: bool, ghost feed: seq<string>,
                ghost contexts: nat -> Context, ghost hs: seq<string>, ghost ess: seq<seq<Entry>>)
      returns (r: TurnResult, next': nat, ghost hs': seq<string>, ghost ess': seq<seq<Entry>>)
      requires Valid() && feed == Feed(usePrompt, initialPrompt, lines)
      requires Continues(vocab, feed, contexts, hs, ess)
      requires ReadAt(lines, usePrompt, next, |hs| - 1) && ctx == contexts(|hs| - 1)
      requires history == hs[|hs| - 1] && entries == ess[|hs| - 1]
      modifies this
      ensures Valid()
      ensures usePrompt ==> !firstRun
      ensures !usePrompt ==> firstRun == old(firstRun)
      ensures r.Exited? ==> RunFrom(vocab, hs[0], ess[0], feed, 0, contexts) == RunResult(UserExit, |hs| - 1, history, entries)
      ensures r.NoContext? ==> RunFrom(vocab, hs[0], ess[0], feed, 0, contexts) == RunResult(ContextFailure, |hs|, history, entries)
      ensures !r.Exited? && !r.NoContext? ==>
                hs' == hs + [history] && ess' == ess + [entries] &&
                Continues(vocab, feed, contexts, hs', ess') && ReadAt(lines, usePrompt, next', |hs|)
    {
      ghost var n := |hs| - 1;
      var input;
      input, next' := ReadInput(lines, next, usePrompt, n);
      assert input == feed[n] && history == hs[n] && entries == ess[n];
      r := Turn(input, ctx);
      assert r == TurnSpec(vocab, hs[n], feed[n], contexts(n));
      hs', ess' := hs + [history], ess + [entries];
      if r.Exited? || r.NoContext? {
        ContinuesEnds(vocab, feed, contexts, hs, ess, r);
      } else {
        ContinuesExtend(vocab, feed, contexts, hs, ess, r);
      }
    }

    /** The chat loop. `lines` are the lines standard input will deliver
        (reading past the last one yields an empty line) and `contexts(n)`
        is the inference context created for the n-th pass. */
    method Run(lines: seq<string>, contexts: nat -> Context) returns (end: LoopEnd, turns: nat)
      requires Valid()
      modifies this
      ensures Valid()
      ensures RunResult(end, turns, history, entries) ==
              RunFrom(vocab, old(history), old(entries), Feed(old(firstRun), initialPrompt, lines), 0, contexts)
      ensures firstRun == (old(firstRun) && initialPrompt == "")
      ensures StopsWhere(RunResult(end, turns, history, entries), Feed(old(firstRun), initialPrompt, lines), 0, contexts)
      ensures InputsOf(entries) == InputsOf(old(entries)) + Feed(old(firstRun), initialPrompt, lines)[..turns]
      ensures IsPrefix(old(history), history) && old(entries) <= entries
    {
      ghost var usePrompt := firstRun && initialPrompt != "";
      ghost var feed := Feed(usePrompt, initialPrompt, lines);
      assert feed == Feed(firstRun, initialPrompt, lines);
      RunOutcome(vocab, history, entries, feed, contexts);
      ghost var hs, ess := [history], [entries];
      var next := 0;
      turns := 0;
      while true
        invariant Valid() && ReadAt(lines, usePrompt, next, turns) && turns < |feed|
        invariant !usePrompt ==> firstRun == old(firstRun)
        invariant Continues(vocab, feed, contexts, hs, ess) && |hs| == turns + 1
        invariant hs[0] == old(history) && ess[0] == old(entries) && history == hs[turns] && entries == ess[turns]
        decreases |feed| - turns
      {
        var r;
        r, next, hs, ess := Step(lines, next, contexts(turns), usePrompt, feed, contexts, hs, ess);
        if r.Exited? {
          end := UserExit;
          break;
        }
        turns := turns + 1;
        if r.NoContext? {
          end := ContextFailure;
          break;
        }
      }
    }
  }
}
