/** The events a Codex run yields (`src/codex/events.py`). */
module CodexEvents {
  import opened PyText

  /** `legacy` marks a message of type `assistant_message` instead of `agent_message`. */
  datatype Item =
    | AgentMessage(id: string, text: string, legacy: bool)
    | Reasoning(thought: Option<string>)
    | CommandExecution(command: string)
    | WebSearch(query: Option<string>)
    | OtherItem

  datatype TokenUsage = TokenUsage(inputTokens: int, outputTokens: int, reasoningTokens: int)

  /** The failure of a failed turn is None when Codex gave none or an empty one,
      and otherwise the text Python prints for it. Of an error event's details
      only the bytes of a stderr tail and an exit code are kept. */
  datatype Event =
    | ThreadStarted
    | TurnStarted
    | ItemStarted(item: Item)
    | ItemUpdated(item: Item)
    | ItemCompleted(item: Item)
    | TurnCompleted(usage: Option<TokenUsage>)
    | TurnFailed(failure: Option<string>, usage: Option<TokenUsage>)
    | ErrorEvent(code: string, message: string, stderrTail: Option<seq<int>>, exitCode: Option<int>)
  {
    predicate IsAgentMessage() {
      ItemCompleted? && item.AgentMessage?
    }

    /** Ends a turn badly. */
    predicate IsFailure() {
      TurnFailed? || ErrorEvent?
    }

    /** `TurnCompleted | TurnFailed | ErrorEvent` */
    predicate IsTerminal() {
      TurnCompleted? || IsFailure()
    }
  }

  /** How an event iterator ends: exhausted, by raising an exception, or because
      the consuming task is cancelled while it waits for the next event. */
  datatype Ending = Exhausted | Raised | TaskCancelled

  /** The texts of completed agent messages, joined. */
  function AnswerText(events: seq<Event>): string {
    if events == [] then ""
    else AnswerText(events[..|events| - 1]) +
         (var e := events[|events| - 1]; if e.IsAgentMessage() then e.item.text else "")
  }

  /** The events up to and including the first one that ends a turn. */
  function ThroughTerminal(events: seq<Event>): (r: seq<Event>)
    ensures |r| <= |events| && r == events[..|r|]
    ensures forall i :: 0 <= i < |r| - 1 ==> !events[i].IsTerminal()
    ensures |r| < |events| ==> r != [] && r[|r| - 1].IsTerminal()
  {
    if events == [] then []
    else if events[0].IsTerminal() then [events[0]]
    else [events[0]] + ThroughTerminal(events[1..])
  }

  lemma NoAnswerYet()
    ensures AnswerText([]) == ""
  {}

  /** The answer is put together event by event, in their order, and only completed agent
      messages add to it: their whole text. */
  lemma {:induction false} AnswerAddsUp(a: seq<Event>, b: seq<Event>)
    ensures AnswerText(a + b) == AnswerText(a) + AnswerText(b)
    ensures forall id, text, legacy ::
              && AnswerText([ItemCompleted(AgentMessage(id, text, legacy))]) == text
              && AnswerText([ItemStarted(AgentMessage(id, text, legacy))]) == ""
              && AnswerText([ItemUpdated(AgentMessage(id, text, legacy))]) == ""
  {
    forall e: Event ensures [e][..0] == [] && [e][0] == e {}
    if b == [] {
      assert a + b == a;
    } else {
      assert (a + b)[..|a + b| - 1] == a + b[..|b| - 1];
      AnswerAddsUp(a, b[..|b| - 1]);
    }
  }

  lemma AnswerGrows(events: seq<Event>, i: nat)
    requires i < |events|
    ensures AnswerText(events[..i + 1])
            == AnswerText(events[..i]) + (if events[i].IsAgentMessage() then events[i].item.text else "")
    ensures !events[i].IsAgentMessage() ==> AnswerText(events[..i + 1]) == AnswerText(events[..i])
  {
    assert events[..i + 1][..i] == events[..i];
  }

  lemma ThroughTerminalIs(events: seq<Event>, n: nat)
    requires n <= |events| && (forall k :: 0 <= k < n - 1 ==> !events[k].IsTerminal())
    requires n < |events| ==> n > 0 && events[n - 1].IsTerminal()
    ensures ThroughTerminal(events) == events[..n]
  {
    var t := ThroughTerminal(events);
    assert |t| < |events| ==> events[|t| - 1].IsTerminal();
    assert |t| > 1 ==> forall k :: 0 <= k < |t| - 1 ==> !events[k].IsTerminal();
  }
}
