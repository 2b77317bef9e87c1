/** Chat completions: the streamed chunks and their grammar, the non-streaming
    handler, and the route's wrapper around the stream
    (`src/chat/stream_handler.py`, `src/chat/sync_handler.py`,
    `src/gateway/routes/chat_completions.py`). */
module ChatStreaming {
  import opened PyText
  import opened CodexEvents
  import opened ToolCalling

  datatype Finish = FinishStop | FinishLength | FinishError

  /** One frame on the wire. `role` says that the delta declares the assistant. */
  datatype Chunk =
    | ContentChunk(role: bool, content: string)
    | ReasoningChunk(role: bool, thought: string)
    | FinishChunk(reason: Finish)
    | UsageChunk(promptTokens: nat, completionTokens: nat)
    | DoneLine
    | KeepAlive

  // ---------------------------------------------------------------- grammar

  datatype Phase = Opening | Streaming | Finished | Counted | Closed | Malformed

  /** One frame read by a client. Comment lines are skipped wherever they stand. */
  function Read(p: Phase, c: Chunk): Phase {
    match c
    case KeepAlive => p
    case ContentChunk(role, _) =>
      if (p.Opening? && role) || (p.Streaming? && !role) then Streaming else Malformed
    case ReasoningChunk(role, _) =>
      if (p.Opening? && role) || (p.Streaming? && !role) then Streaming else Malformed
    case FinishChunk(_) => if p.Streaming? then Finished else Malformed
    case UsageChunk(_, _) => if p.Finished? then Counted else Malformed
    case DoneLine => if p.Finished? || p.Counted? then Closed else Malformed
  }

  function Watch(chunks: seq<Chunk>): Phase {
    if chunks == [] then Opening else Read(Watch(chunks[..|chunks| - 1]), chunks[|chunks| - 1])
  }

  function ContentOf(chunks: seq<Chunk>): string {
    if chunks == [] then ""
    else ContentOf(chunks[..|chunks| - 1]) +
         (var c := chunks[|chunks| - 1]; if c.ContentChunk? then c.content else "")
  }

  function ThoughtsOf(chunks: seq<Chunk>): seq<string> {
    if chunks == [] then []
    else ThoughtsOf(chunks[..|chunks| - 1]) +
         (var c := chunks[|chunks| - 1]; if c.ReasoningChunk? then [c.thought] else [])
  }

  function FinishesOf(chunks: seq<Chunk>): seq<Finish> {
    if chunks == [] then []
    else FinishesOf(chunks[..|chunks| - 1]) +
         (var c := chunks[|chunks| - 1]; if c.FinishChunk? then [c.reason] else [])
  }

  function UsagesOf(chunks: seq<Chunk>): seq<(nat, nat)> {
    if chunks == [] then []
    else UsagesOf(chunks[..|chunks| - 1]) +
         (var c := chunks[|chunks| - 1]; if c.UsageChunk? then [(c.promptTokens, c.completionTokens)] else [])
  }

  function Count(chunks: seq<Chunk>, p: Chunk -> bool): nat {
    if chunks == [] then 0
    else Count(chunks[..|chunks| - 1], p) + (if p(chunks[|chunks| - 1]) then 1 else 0)
  }

  predicate DeclaresRole(c: Chunk) {
    (c.ContentChunk? || c.ReasoningChunk?) && c.role
  }

  lemma NothingRead()
    ensures Watch([]) == Opening && ContentOf([]) == "" && ThoughtsOf([]) == []
    ensures FinishesOf([]) == [] && UsagesOf([]) == []
    ensures Count([], DeclaresRole) == 0
  {}

  lemma OneMoreChunk(out: seq<Chunk>, c: Chunk)
    ensures var now := out + [c];
            && Watch(now) == Read(Watch(out), c)
            && ContentOf(now) == ContentOf(out) + (if c.ContentChunk? then c.content else "")
            && ThoughtsOf(now) == ThoughtsOf(out) + (if c.ReasoningChunk? then [c.thought] else [])
            && FinishesOf(now) == FinishesOf(out) + (if c.FinishChunk? then [c.reason] else [])
            && UsagesOf(now) == UsagesOf(out) + (if c.UsageChunk? then [(c.promptTokens, c.completionTokens)] else [])
  {
    assert (out + [c])[..|out|] == out;
  }

  lemma OneMoreCounted(out: seq<Chunk>, c: Chunk, p: Chunk -> bool)
    ensures Count(out + [c], p) == Count(out, p) + (if p(c) then 1 else 0)
  {
    assert (out + [c])[..|out|] == out;
  }

  lemma ReadMalformed(c: Chunk)
    ensures Read(Malformed, c) == Malformed
  {}

  /** How much of each kind a well-formed prefix holds, by the phase it is in. */
  lemma {:induction false} AcceptedCounts(chunks: seq<Chunk>)
    requires Watch(chunks) != Malformed
    ensures Count(chunks, DeclaresRole) == (if Watch(chunks).Opening? then 0 else 1)
    ensures |FinishesOf(chunks)| == (if Watch(chunks) in {Finished, Counted, Closed} then 1 else 0)
    ensures |UsagesOf(chunks)| <= 1
    ensures |UsagesOf(chunks)| == 1 ==> Watch(chunks) in {Counted, Closed}
    ensures DoneLine in chunks <==> Watch(chunks).Closed?
    ensures Watch(chunks).Opening? <==> forall c :: c in chunks ==> c.KeepAlive?
    ensures forall i :: 0 <= i < |chunks| && chunks[i].DoneLine? ==>
                          forall k :: i < k < |chunks| ==> chunks[k].KeepAlive?
  {
    hide Watch, FinishesOf, UsagesOf, ContentOf, ThoughtsOf, Count;
    NothingRead();
    if chunks != [] {
      var before := chunks[..|chunks| - 1];
      var last := chunks[|chunks| - 1];
      assert chunks == before + [last];
      assert last in chunks && forall c :: c in before ==> c in chunks;
      OneMoreChunk(before, last);
      OneMoreCounted(before, last, DeclaresRole);
      ReadMalformed(last);
      AcceptedCounts(before);
    }
  }

  // ------------------------------------------------------ which events are read

  /** Tokens of the answer, counted piece by piece. */
  function TokenSum(events: seq<Event>, count: string -> nat): nat {
    if events == [] then 0
    else TokenSum(events[..|events| - 1], count) +
         (var e := events[|events| - 1]; if e.IsAgentMessage() then count(e.item.text) else 0)
  }

  /** The loop is left after event `i`; a cap of 0 stands for no cap. */
  predicate StopsAt(events: seq<Event>, i: nat, cap: nat, count: string -> nat)
    requires i < |events|
  {
    events[i].IsTerminal() ||
    (cap != 0 && events[i].IsAgentMessage() && TokenSum(events[..i + 1], count) >= cap)
  }

  /** How many events are read, from position `i` on. */
  function Taken(events: seq<Event>, i: nat, cap: nat, count: string -> nat): (n: nat)
    requires i <= |events|
    ensures i <= n <= |events|
    ensures forall k :: i <= k < n - 1 ==> !StopsAt(events, k, cap, count)
    ensures n < |events| ==> n > i && StopsAt(events, n - 1, cap, count)
    decreases |events| - i
  {
    if i == |events| then i
    else if StopsAt(events, i, cap, count) then i + 1
    else Taken(events, i + 1, cap, count)
  }

  /** Whether reading `n` events ended in leaving the loop. */
  predicate Stopped(events: seq<Event>, n: nat, cap: nat, count: string -> nat)
    requires n <= |events|
  {
    n > 0 && StopsAt(events, n - 1, cap, count)
  }

  function FinishAfter(events: seq<Event>, n: nat, cap: nat, count: string -> nat, ending: Ending): Finish
    requires n <= |events|
  {
    if Stopped(events, n, cap, count) then
      if events[n - 1].IsFailure() then FinishError
      else if events[n - 1].TurnCompleted? then FinishStop
      else FinishLength
    else if ending.Raised? then FinishError
    else FinishStop
  }

  /** The progress line an event gives rise to, if any. */
  function Thought(e: Event): seq<string> {
    match e
    case ItemStarted(CommandExecution(command)) => ["$ " + command + "\n"]
    case ItemStarted(WebSearch(Some(query))) => if query != "" then ["\U{1F50D} " + query + "\n"] else []
    case ItemCompleted(Reasoning(Some(text))) => if text != "" then [text + "\n"] else []
    case _ => []
  }

  function Thoughts(events: seq<Event>): seq<string> {
    if events == [] then [] else Thoughts(events[..|events| - 1]) + Thought(events[|events| - 1])
  }

  lemma {:induction false} TokenSumsAddUp(a: seq<Event>, b: seq<Event>, count: string -> nat)
    ensures TokenSum(a + b, count) == TokenSum(a, count) + TokenSum(b, count)
    ensures forall id, text, legacy :: TokenSum([ItemCompleted(AgentMessage(id, text, legacy))], count) == count(text)
    ensures forall e: Event :: !e.IsAgentMessage() ==> TokenSum([e], count) == 0
  {
    forall e: Event ensures [e][..0] == [] && [e][0] == e {}
    if b == [] {
      assert a + b == a;
    } else {
      assert (a + b)[..|a + b| - 1] == a + b[..|b| - 1];
      TokenSumsAddUp(a, b[..|b| - 1], count);
    }
  }

  lemma ThoughtsStep(events: seq<Event>, e: Event)
    ensures Thoughts(events + [e]) == Thoughts(events) + Thought(e) && Thoughts([]) == []
  {
    hide Thought;
    assert (events + [e])[..|events|] == events;
  }

  lemma {:induction false} ThoughtsAddUp(a: seq<Event>, b: seq<Event>)
    ensures Thoughts(a + b) == Thoughts(a) + Thoughts(b)
  {
    hide Thoughts, Thought;
    if b == [] {
      assert a + b == a;
      ThoughtsStep([], ThreadStarted);
    } else {
      var n := |b| - 1;
      assert a + b == a + b[..n] + [b[n]] && b == b[..n] + [b[n]];
      ThoughtsAddUp(a, b[..n]);
      ThoughtsStep(a + b[..n], b[n]);
      ThoughtsStep(b[..n], b[n]);
    }
  }

  /** The progress that is shown: commands and searches as they start, and reasoning when
      it is complete, each with a line break, unless it is empty; messages are none. */
  lemma ThoughtsSay(text: string, id: string, legacy: bool)
    ensures Thoughts([ItemStarted(CommandExecution(text))]) == ["$ " + text + "\n"]
    ensures text != "" ==> Thoughts([ItemStarted(WebSearch(Some(text)))]) == ["\U{1F50D} " + text + "\n"]
    ensures text != "" ==> Thoughts([ItemCompleted(Reasoning(Some(text)))]) == [text + "\n"]
    ensures Thoughts([ItemStarted(WebSearch(Some("")))]) == Thoughts([ItemStarted(WebSearch(None))]) == []
    ensures Thoughts([ItemCompleted(Reasoning(Some("")))]) == Thoughts([ItemCompleted(Reasoning(None))]) == []
    ensures Thoughts([ItemCompleted(CommandExecution(text))]) == Thoughts([ItemStarted(Reasoning(Some(text)))]) == []
    ensures Thoughts([ItemCompleted(AgentMessage(id, text, legacy))]) == []
  {
    forall e: Event ensures Thoughts([e]) == Thought(e) {
      assert [e][..0] == [] && [e][0] == e;
    }
  }

  // ------------------------------------------------------- the finish reason

  predicate FirstTerminal(events: seq<Event>, i: nat) {
    i < |events| && events[i].IsTerminal() && forall k :: 0 <= k < i ==> !events[k].IsTerminal()
  }

  /** A message, with no terminal event before it, with which the tokens reach the cap. */
  predicate CapMet(events: seq<Event>, i: nat, cap: nat, count: string -> nat) {
    && i < |events| && events[i].IsAgentMessage() && 0 < cap <= TokenSum(events[..i + 1], count)
    && forall k :: 0 <= k < i ==> !events[k].IsTerminal()
  }

  predicate CapOpen(events: seq<Event>, cap: nat, count: string -> nat) {
    cap == 0 || TokenSum(events, count) < cap
  }

  /** Why a stream finishes, on its own terms: `error` if the turn was read to its end and
      failed, or neither its end nor the cap was met and the source raised; `length` if a
      message reached the cap before the turn ended; `stop` otherwise. */
  ghost predicate FinishFits(f: Finish, events: seq<Event>, cap: nat, count: string -> nat, ending: Ending) {
    && (f.FinishError? <==>
          || (exists i: nat :: FirstTerminal(events, i) && events[i].IsFailure() && CapOpen(events[..i], cap, count))
          || (ending.Raised? && CapOpen(events, cap, count)
              && forall k :: 0 <= k < |events| ==> !events[k].IsTerminal()))
    && (f.FinishLength? <==> exists i: nat :: CapMet(events, i, cap, count))
  }

  lemma StoppedAtEnd(events: seq<Event>, n: nat, cap: nat, count: string -> nat, ending: Ending)
    requires 0 < n <= |events| && events[n - 1].IsTerminal()
    requires forall k :: 0 <= k < n - 1 ==> !StopsAt(events, k, cap, count)
    ensures FinishFits(FinishAfter(events, n, cap, count, ending), events, cap, count, ending)
  {
    hide TokenSum;
    assert StopsAt(events, n - 1, cap, count);
    forall k | 0 <= k < n - 1 ensures !events[k].IsTerminal() {
      assert !StopsAt(events, k, cap, count);
    }
    assert FirstTerminal(events, n - 1);
    assert CapOpen(events[..n - 1], cap, count) by {
      if cap != 0 {
        BelowCapBefore(events, n - 1, cap, count);
      }
    }
    forall i: nat | i < |events| ensures !CapMet(events, i, cap, count) {
      assert i < n - 1 ==> !StopsAt(events, i, cap, count);
    }
  }

  lemma StoppedAtCap(events: seq<Event>, n: nat, cap: nat, count: string -> nat, ending: Ending)
    requires 0 < n <= |events| && StopsAt(events, n - 1, cap, count) && !events[n - 1].IsTerminal()
    requires forall k :: 0 <= k < n - 1 ==> !StopsAt(events, k, cap, count)
    ensures FinishFits(FinishAfter(events, n, cap, count, ending), events, cap, count, ending)
  {
    hide TokenSum;
    forall k | 0 <= k < n ensures !events[k].IsTerminal() {
      assert k < n - 1 ==> !StopsAt(events, k, cap, count);
    }
    assert CapMet(events, n - 1, cap, count);
    TokensGrow(events, n, count);
    forall i: nat | FirstTerminal(events, i) ensures !CapOpen(events[..i], cap, count) {
      assert i >= n && events[..i][..n] == events[..n];
      TokensGrow(events[..i], n, count);
    }
  }

  lemma NeverStopped(events: seq<Event>, cap: nat, count: string -> nat, ending: Ending)
    requires forall k :: 0 <= k < |events| ==> !StopsAt(events, k, cap, count)
    ensures FinishFits(FinishAfter(events, |events|, cap, count, ending), events, cap, count, ending)
  {
    hide TokenSum;
    forall k | 0 <= k < |events| ensures !events[k].IsTerminal() {
      assert !StopsAt(events, k, cap, count);
    }
    assert CapOpen(events, cap, count) by {
      if cap != 0 {
        BelowCapBefore(events, |events|, cap, count);
        assert events[..|events|] == events;
      }
    }
    forall i: nat | i < |events| ensures !CapMet(events, i, cap, count) {
      assert !StopsAt(events, i, cap, count);
    }
  }

  lemma FinishFitsEvents(events: seq<Event>, cap: nat, count: string -> nat, ending: Ending)
    ensures var f := FinishAfter(events, Taken(events, 0, cap, count), cap, count, ending);
            FinishFits(f, events, cap, count, ending)
  {
    hide TokenSum, FinishFits, FinishAfter;
    var n := Taken(events, 0, cap, count);
    if n > 0 && StopsAt(events, n - 1, cap, count) {
      if events[n - 1].IsTerminal() {
        StoppedAtEnd(events, n, cap, count, ending);
      } else {
        StoppedAtCap(events, n, cap, count, ending);
      }
    } else {
      forall k | 0 <= k < |events| ensures !StopsAt(events, k, cap, count) {
        assert n == |events|;
      }
      NeverStopped(events, cap, count, ending);
    }
  }

  // ---------------------------------------------------------------- streaming

  lemma OneMoreEvent(events: seq<Event>, i: nat, count: string -> nat)
    requires i < |events|
    ensures var e := events[i];
            && AnswerText(events[..i + 1]) == AnswerText(events[..i]) + (if e.IsAgentMessage() then e.item.text else "")
            && (!e.IsAgentMessage() ==> AnswerText(events[..i + 1]) == AnswerText(events[..i]))
            && Thoughts(events[..i + 1]) == Thoughts(events[..i]) + Thought(e)
            && (Thought(e) == [] ==> Thoughts(events[..i + 1]) == Thoughts(events[..i]))
            && TokenSum(events[..i + 1], count) ==
               TokenSum(events[..i], count) + (if e.IsAgentMessage() then count(e.item.text) else 0)
  {
    assert events[..i + 1][..i] == events[..i];
  }

  /** The stream so far: still open, with this content and these thoughts. */
  predicate Sent(out: seq<Chunk>, role: bool, content: string, thoughts: seq<string>) {
    && Watch(out) == (if role then Streaming else Opening)
    && ContentOf(out) == content && ThoughtsOf(out) == thoughts
    && FinishesOf(out) == [] && UsagesOf(out) == [] && KeepAlive !in out
  }

  method SendContent(out: seq<Chunk>, role: bool, piece: string, ghost content: string, ghost thoughts: seq<string>)
    returns (now: seq<Chunk>)
    requires Sent(out, role, content, thoughts)
    ensures Sent(now, true, content + piece, thoughts)
  {
    now := out + [ContentChunk(!role, piece)];
    OneMoreChunk(out, ContentChunk(!role, piece));
  }

  method SendThought(out: seq<Chunk>, role: bool, text: string, ghost content: string, ghost thoughts: seq<string>)
    returns (now: seq<Chunk>)
    requires Sent(out, role, content, thoughts)
    ensures Sent(now, true, content, thoughts + [text])
  {
    now := out + [ReasoningChunk(!role, text)];
    OneMoreChunk(out, ReasoningChunk(!role, text));
  }

  /** The frames after the event loop. */
  method CloseStream(out: seq<Chunk>, role: bool, finish: Finish, includeUsage: bool, promptTokens: nat,
                     completionTokens: nat, ghost content: string, ghost thoughts: seq<string>)
    returns (now: seq<Chunk>)
    requires Sent(out, role, content, thoughts)
    ensures Watch(now).Closed? && now != [] && now[|now| - 1].DoneLine? && KeepAlive !in now
    ensures ContentOf(now) == content && ThoughtsOf(now) == thoughts
    ensures FinishesOf(now) == [finish]
    ensures UsagesOf(now) == if includeUsage then [(promptTokens, completionTokens)] else []
  {
    hide Watch, ContentOf, ThoughtsOf, FinishesOf, UsagesOf;
    now := out;
    if !role {
      now := SendContent(now, role, "", content, thoughts);
      assert content + "" == content;
    }
    OneMoreChunk(now, FinishChunk(finish));
    now := now + [FinishChunk(finish)];
    if includeUsage {
      OneMoreChunk(now, UsageChunk(promptTokens, completionTokens));
      now := now + [UsageChunk(promptTokens, completionTokens)];
    }
    OneMoreChunk(now, DoneLine);
    now := now + [DoneLine];
  }

  /** `stream_chunks`, with its settings as parameters. Unless the task is
      cancelled while it waits, the stream is well formed and complete, carries
      the answer and the progress of exactly the events read, and ends with the
      right reason and the right token count. */
  method StreamChunks(cap: nat, includeUsage: bool, progress: bool, promptTokens: nat, count: string -> nat,
                      events: seq<Event>, ending: Ending)
    returns (out: seq<Chunk>, cancelled: bool)
    ensures var n := Taken(events, 0, cap, count);
            && (cancelled <==> ending.TaskCancelled? && !Stopped(events, n, cap, count))
            && ContentOf(out) == AnswerText(events[..n])
            && ThoughtsOf(out) == (if progress then Thoughts(events[..n]) else [])
            && (cancelled ==> Watch(out) in {Opening, Streaming})
            && (!cancelled ==>
                  && Watch(out).Closed? && out != [] && out[|out| - 1].DoneLine?
                  && FinishesOf(out) == [FinishAfter(events, n, cap, count, ending)]
                  && FinishFits(FinishesOf(out)[0], events, cap, count, ending)
                  && UsagesOf(out) == if includeUsage then [(promptTokens, TokenSum(events[..n], count))] else [])
    ensures KeepAlive !in out
  {
    hide Watch, ContentOf, ThoughtsOf, FinishesOf, UsagesOf, AnswerText, Thoughts, TokenSum, Taken, FinishFits, Stopped,
         FinishAfter;
    out, cancelled := SendChunks(cap, includeUsage, progress, promptTokens, count, events, ending);
    FinishFitsEvents(events, cap, count, ending);
  }

  /** The generator itself. */
  method SendChunks(cap: nat, includeUsage: bool, progress: bool, promptTokens: nat, count: string -> nat,
                    events: seq<Event>, ending: Ending)
    returns (out: seq<Chunk>, cancelled: bool)
    ensures var n := Taken(events, 0, cap, count);
            && (cancelled <==> ending.TaskCancelled? && !Stopped(events, n, cap, count))
            && ContentOf(out) == AnswerText(events[..n])
            && ThoughtsOf(out) == (if progress then Thoughts(events[..n]) else [])
            && (cancelled ==> Watch(out) in {Opening, Streaming})
            && (!cancelled ==>
                  && Watch(out).Closed? && out != [] && out[|out| - 1].DoneLine?
                  && FinishesOf(out) == [FinishAfter(events, n, cap, count, ending)]
                  && UsagesOf(out) == if includeUsage then [(promptTokens, TokenSum(events[..n], count))] else [])
    ensures KeepAlive !in out
  {
    hide Watch, ContentOf, ThoughtsOf, FinishesOf, UsagesOf, AnswerText, Thoughts, TokenSum, Taken;
    out := [];
    NothingRead();
    NothingSummed(count);
    var sentRole := false;
    var completionTokens := 0;
    var finish := FinishStop;
    var stopped := false;
    var i := 0;
    assert events[..0] == [];
    while i < |events| && !stopped
      invariant 0 <= i <= |events|
      invariant Sent(out, sentRole, AnswerText(events[..i]), if progress then Thoughts(events[..i]) else [])
      invariant completionTokens == TokenSum(events[..i], count)
      invariant forall k :: 0 <= k < i - 1 ==> !StopsAt(events, k, cap, count)
      invariant stopped <==> i > 0 && StopsAt(events, i - 1, cap, count)
      invariant stopped ==> finish == FinishAfter(events, i, cap, count, ending)
      invariant !stopped ==> finish == FinishStop
      decreases |events| - i
    {
      var evt := events[i];
      ghost var content, thoughts := AnswerText(events[..i]), if progress then Thoughts(events[..i]) else [];
      OneMoreEvent(events, i, count);
      i := i + 1;
      if progress && evt.ItemStarted? {
        if evt.item.CommandExecution? {
          out := SendThought(out, sentRole, "$ " + evt.item.command + "\n", content, thoughts);
          sentRole := true;
        } else if evt.item.WebSearch? && evt.item.query.Some? && evt.item.query.value != "" {
          out := SendThought(out, sentRole, "\U{1F50D} " + evt.item.query.value + "\n", content, thoughts);
          sentRole := true;
        }
        continue;
      }
      if evt.ItemCompleted? && evt.item.AgentMessage? {
        var piece := evt.item.text;
        out := SendContent(out, sentRole, piece, content, thoughts);
        sentRole := true;
        completionTokens := completionTokens + count(piece);
        if cap != 0 && completionTokens >= cap {
          finish := FinishLength;
          stopped := true;
        }
      } else if progress && evt.ItemCompleted? && evt.item.Reasoning?
                && evt.item.thought.Some? && evt.item.thought.value != "" {
        out := SendThought(out, sentRole, evt.item.thought.value + "\n", content, thoughts);
        sentRole := true;
      } else if evt.ErrorEvent? {
        finish := FinishError;
        stopped := true;
      } else if evt.TurnCompleted? {
        stopped := true;
      } else if evt.TurnFailed? {
        finish := FinishError;
        stopped := true;
      }
    }
    TakenIs(events, i, cap, count);
    cancelled := false;
    if !stopped {
      if ending.TaskCancelled? {
        return out, true;
      } else if ending.Raised? {
        finish := FinishError;
      }
    }
    out := CloseStream(out, sentRole, finish, includeUsage, promptTokens, completionTokens,
                       AnswerText(events[..i]), if progress then Thoughts(events[..i]) else []);
  }

  lemma NothingSummed(count: string -> nat)
    ensures AnswerText([]) == "" && Thoughts([]) == [] && TokenSum([], count) == 0
  {}

  lemma TakenIs(events: seq<Event>, n: nat, cap: nat, count: string -> nat)
    requires n <= |events| && forall k :: 0 <= k < n - 1 ==> !StopsAt(events, k, cap, count)
    requires n < |events| ==> n > 0 && StopsAt(events, n - 1, cap, count)
    ensures Taken(events, 0, cap, count) == n
  {
    var t := Taken(events, 0, cap, count);
    assert t < |events| ==> StopsAt(events, t - 1, cap, count);
  }

  /** The cap is overshot by no more than the piece that reaches it. */
  lemma {:induction false} BelowCapBefore(events: seq<Event>, n: nat, cap: nat, count: string -> nat)
    requires cap > 0 && n <= |events| && forall k :: 0 <= k < n ==> !StopsAt(events, k, cap, count)
    ensures TokenSum(events[..n], count) < cap
  {
    if n > 0 {
      BelowCapBefore(events, n - 1, cap, count);
      assert events[..n][..n - 1] == events[..n - 1];
      assert !StopsAt(events, n - 1, cap, count);
    }
  }

  lemma {:induction false} TokensGrow(events: seq<Event>, n: nat, count: string -> nat)
    requires n <= |events|
    ensures TokenSum(events[..n], count) <= TokenSum(events, count)
  {
    if n < |events| {
      var before := events[..|events| - 1];
      TokensGrow(before, n, count);
      assert before[..n] == events[..n];
    } else {
      assert events[..n] == events;
    }
  }

  lemma CapOvershootsByOnePiece(events: seq<Event>, cap: nat, count: string -> nat)
    requires cap > 0 && Taken(events, 0, cap, count) > 0
    ensures TokenSum(events[..Taken(events, 0, cap, count) - 1], count) < cap
    ensures FinishAfter(events, Taken(events, 0, cap, count), cap, count, Exhausted) == FinishLength
            ==> TokenSum(events[..Taken(events, 0, cap, count)], count) >= cap
  {
    BelowCapBefore(events, Taken(events, 0, cap, count) - 1, cap, count);
  }

  // ---------------------------------------------------------------- synchronous

  datatype SyncResult =
    | Exception
    | Text(text: string, finish: Finish)
    | ToolCalls(calls: seq<Call>)

  /** The text of a synchronous answer before tools are looked for. */
  function SyncText(events: seq<Event>, cap: nat, truncate: (string, nat) -> string): string {
    var text := AnswerText(ThroughTerminal(events));
    if cap != 0 && text != "" && |truncate(text, cap)| < |text| then truncate(text, cap) else text
  }

  function SyncFinish(events: seq<Event>, cap: nat, truncate: (string, nat) -> string): Finish {
    var seen := ThroughTerminal(events);
    if seen != [] && seen[|seen| - 1].IsFailure() then FinishError
    else if SyncText(events, cap, truncate) != AnswerText(seen) then FinishLength
    else FinishStop
  }

  /** A synchronous answer, on its own terms: all of the answer, or what the truncation
      makes of it if that is shorter and there is a cap; and why it finishes. */
  predicate SyncFits(text: string, f: Finish, events: seq<Event>, cap: nat, truncate: (string, nat) -> string) {
    var seen := ThroughTerminal(events);
    var whole := AnswerText(seen);
    var failed := seen != [] && seen[|seen| - 1].IsFailure();
    var cut := cap != 0 && |truncate(whole, cap)| < |whole|;
    && (cut ==> text == truncate(whole, cap)) && (!cut ==> text == whole)
    && (f.FinishError? <==> failed) && (f.FinishLength? <==> cut && !failed) && (f.FinishStop? <==> !cut && !failed)
  }

  lemma SyncFitsEvents(events: seq<Event>, cap: nat, truncate: (string, nat) -> string)
    ensures SyncFits(SyncText(events, cap, truncate), SyncFinish(events, cap, truncate), events, cap, truncate)
  {
    hide AnswerText, ThroughTerminal;
  }

  /** `handle_sync`. Tool calls are returned exactly when tools were offered, the
      answer is a whole one, and it decodes to a call list of offered tools. */
  method HandleSync(cap: nat, tools: Option<set<string>>, truncate: (string, nat) -> string,
                    events: seq<Event>, ending: Ending)
    returns (r: SyncResult)
    ensures r.Exception? <==> ending != Exhausted && ThroughTerminal(events) == events
                              && (events == [] || !events[|events| - 1].IsTerminal())
    ensures r.Text? ==> r.text == SyncText(events, cap, truncate) && r.finish == SyncFinish(events, cap, truncate)
    ensures r.Text? ==> SyncFits(r.text, r.finish, events, cap, truncate)
    ensures r.ToolCalls? ==>
              && tools.Some? && r.calls != [] && (forall c :: c in r.calls ==> c.name in tools.value)
              && SyncFits(AnswerText(ThroughTerminal(events)), FinishStop, events, cap, truncate)
    ensures !r.Exception? ==>
              var text := SyncText(events, cap, truncate);
              var eligible := tools.Some? && SyncFinish(events, cap, truncate).FinishStop? && text != "";
              && (r.ToolCalls? ==> eligible)
              && (eligible ==> forall calls :: Says(text, tools.value, calls) <==> r == ToolCalls(calls))
  {
    hide AnswerText, Says, ThroughTerminal;
    var text := "";
    var finish := FinishStop;
    var stopped := false;
    var i := 0;
    NoAnswerYet();
    assert events[..0] == [];
    while i < |events| && !stopped
      invariant 0 <= i <= |events| && text == AnswerText(events[..i])
      invariant forall k :: 0 <= k < i - 1 ==> !events[k].IsTerminal()
      invariant stopped <==> i > 0 && events[i - 1].IsTerminal()
      invariant finish == if i > 0 && events[i - 1].IsFailure() then FinishError else FinishStop
      decreases |events| - i
    {
      var evt := events[i];
      AnswerGrows(events, i);
      i := i + 1;
      if evt.ItemCompleted? && evt.item.AgentMessage? {
        text := text + evt.item.text;
      } else if evt.ErrorEvent? {
        finish := FinishError;
        stopped := true;
      } else if evt.TurnCompleted? {
        stopped := true;
      } else if evt.TurnFailed? {
        finish := FinishError;
        stopped := true;
      }
    }
    ThroughTerminalIs(events, i);
    if !stopped && ending != Exhausted {
      return Exception;
    }
    if cap != 0 && text != "" {
      var truncated := truncate(text, cap);
      if |truncated| < |text| {
        text := truncated;
        if finish == FinishStop {
          finish := FinishLength;
        }
      }
    }
    SyncFitsEvents(events, cap, truncate);
    if tools.Some? && finish == FinishStop && text != "" {
      var parsed := ParseToolResponse(text, tools.value);
      if parsed.Some? {
        return ToolCalls(parsed.value);
      }
    }
    r := Text(text, finish);
  }

  /** Without a cap both handlers read the same events, so that a stream carries
      the synchronous text and finishes for the synchronous reason. */
  lemma StreamAgreesWithSync(events: seq<Event>, count: string -> nat, truncate: (string, nat) -> string)
    ensures var n := Taken(events, 0, 0, count);
            && events[..n] == ThroughTerminal(events)
            && AnswerText(events[..n]) == SyncText(events, 0, truncate)
            && FinishAfter(events, n, 0, count, Exhausted) == SyncFinish(events, 0, truncate)
  {
    var n := Taken(events, 0, 0, count);
    forall k: nat | k + 1 < n
      ensures !events[k].IsTerminal()
    {
      assert !StopsAt(events, k, 0, count);
    }
    ThroughTerminalIs(events, n);
  }

  // ---------------------------------------------------------------- the route

  /** Payload bytes that count towards usage. */
  function PayloadBytes(chunks: seq<Chunk>, size: Chunk -> nat): nat {
    if chunks == [] then 0
    else PayloadBytes(chunks[..|chunks| - 1], size) +
         (var c := chunks[|chunks| - 1]; if c.KeepAlive? || c.DoneLine? then 0 else size(c))
  }

  lemma OneMorePayload(out: seq<Chunk>, c: Chunk, size: Chunk -> nat)
    ensures PayloadBytes([], size) == 0
    ensures PayloadBytes(out + [c], size) ==
            PayloadBytes(out, size) + (if c.KeepAlive? || c.DoneLine? then 0 else size(c))
  {
    assert (out + [c])[..|out|] == out;
  }

  lemma {:induction false} PayloadsAddUp(a: seq<Chunk>, b: seq<Chunk>, size: Chunk -> nat)
    ensures PayloadBytes(a + b, size) == PayloadBytes(a, size) + PayloadBytes(b, size)
    ensures PayloadBytes([KeepAlive], size) == PayloadBytes([DoneLine], size) == 0
    ensures forall c :: c != KeepAlive && c != DoneLine ==> PayloadBytes([c], size) == size(c)
  {
    forall c: Chunk ensures [c][..0] == [] && [c][0] == c {}
    if b == [] {
      assert a + b == a;
    } else {
      assert (a + b)[..|a + b| - 1] == a + b[..|b| - 1];
      PayloadsAddUp(a, b[..|b| - 1], size);
    }
  }

  /** `_stream_with_usage_capture`: passes `kept` on and, if that fails before
      `[DONE]`, closes the stream itself. */
  method StreamWithUsageCapture(kept: seq<Chunk>, fails: bool, size: Chunk -> nat)
    returns (out: seq<Chunk>, completionTokens: nat)
    ensures out == kept + (if fails && DoneLine !in kept then [FinishChunk(FinishError), DoneLine] else [])
    ensures completionTokens == (if PayloadBytes(kept, size) < 4 then 1 else PayloadBytes(kept, size) / 4)
  {
    hide PayloadBytes;
    var completionBytes, sentDone := 0, false;
    out := [];
    OneMorePayload([], DoneLine, size);
    for i := 0 to |kept|
      invariant out == kept[..i] && (sentDone <==> DoneLine in kept[..i])
      invariant completionBytes == PayloadBytes(kept[..i], size)
    {
      var chunk := kept[i];
      assert kept[..i + 1] == kept[..i] + [chunk];
      OneMorePayload(kept[..i], chunk, size);
      if !chunk.KeepAlive? && !chunk.DoneLine? {
        completionBytes := completionBytes + size(chunk);
      }
      if chunk.DoneLine? {
        sentDone := true;
      }
      out := out + [chunk];
    }
    assert kept[..|kept|] == kept;
    if fails && !sentDone {
      out := out + [FinishChunk(FinishError), DoneLine];
    }
    completionTokens := if completionBytes / 4 < 1 then 1 else completionBytes / 4;
  }

  /** Wherever a well-formed stream breaks off, the wrapper leaves the client
      with one `[DONE]`, the last data frame. The whole is well formed exactly
      when the break came after the first data frame and before the finish
      frame: earlier no role has been declared, later a second finish frame
      follows the first. */
  lemma BrokenStreamIsClosed(kept: seq<Chunk>)
    requires Watch(kept) != Malformed && DoneLine !in kept
    ensures var out := kept + [FinishChunk(FinishError), DoneLine];
            && (Watch(out) == Closed <==> Watch(kept) == Streaming)
            && |FinishesOf(out)| == (if Watch(kept) in {Opening, Streaming} then 1 else 2)
            && Count(out, DeclaresRole) == (if Watch(kept) == Opening then 0 else 1)
            && Count(out, (c: Chunk) => c.DoneLine?) == 1
  {
    AcceptedCounts(kept);
    OneMoreChunk(kept, FinishChunk(FinishError));
    var mid := kept + [FinishChunk(FinishError)];
    OneMoreChunk(mid, DoneLine);
    var out := kept + [FinishChunk(FinishError), DoneLine];
    assert out == mid + [DoneLine];
    assert out[..|out| - 1] == mid && mid[..|mid| - 1] == kept;
    NoneCounted(kept, (c: Chunk) => c.DoneLine?);
  }

  lemma {:induction false} NoneCounted(chunks: seq<Chunk>, p: Chunk -> bool)
    requires forall c :: c in chunks ==> !p(c)
    ensures Count(chunks, p) == 0
  {
    if chunks != [] {
      NoneCounted(chunks[..|chunks| - 1], p);
    }
  }

  /** A stream keeps its meaning under the keepalive lines put into it. */
  lemma {:induction false} KeepAlivesChangeNothing(chunks: seq<Chunk>)
    ensures Watch(Data(chunks)) == Watch(chunks)
    ensures ContentOf(Data(chunks)) == ContentOf(chunks) && FinishesOf(Data(chunks)) == FinishesOf(chunks)
  {
    hide Read, Watch, ContentOf, FinishesOf, ThoughtsOf, UsagesOf;
    NothingRead();
    if chunks != [] {
      var before, last := chunks[..|chunks| - 1], chunks[|chunks| - 1];
      KeepAlivesChangeNothing(before);
      assert chunks == before + [last];
      OneMoreChunk(before, last);
      if last.KeepAlive? {
        assert Data(chunks) == Data(before);
        ReadKeepAlive(Watch(before));
      } else {
        OneMoreChunk(Data(before), last);
      }
    }
  }

  lemma ReadKeepAlive(p: Phase)
    ensures Read(p, KeepAlive) == p
  {}

  function Data(chunks: seq<Chunk>): seq<Chunk> {
    if chunks == [] then []
    else Data(chunks[..|chunks| - 1]) +
         (if chunks[|chunks| - 1].KeepAlive? then [] else [chunks[|chunks| - 1]])
  }
}
