/** Translating Codex events into the Responses API stream
    (`src/responses/events_emitter.py`, `responses_helpers.py`,
    `stream_handler.py`). */
module ResponseEmitting {
  import opened PyText
  import opened CodexEvents
  import opened ResponsesWire

  // ---------------------------------------------------------------- helpers

  function Join(pieces: seq<string>): string {
    if pieces == [] then "" else Join(pieces[..|pieces| - 1]) + pieces[|pieces| - 1]
  }

  /** Windows of `size` characters from position `i` on. */
  function Windows(text: string, size: int, i: nat): (r: seq<string>)
    requires size > 0 && i <= |text|
    ensures forall k :: 0 <= k < |r| ==> r[k] != ""
    decreases |text| - i
  {
    if i == |text| then []
    else if i + size < |text| then [text[i..i + size]] + Windows(text, size, i + size)
    else [text[i..]]
  }

  function ChunkText(text: string, size: int): (r: seq<string>)
    ensures forall k :: 0 <= k < |r| ==> r[k] != ""
  {
    if size <= 0 || text == "" then
      if text != "" then [text] else []
    else Windows(text, size, 0)
  }

  lemma {:induction false} JoinCons(a: string, rest: seq<string>)
    ensures Join([a] + rest) == a + Join(rest)
  {
    var all := [a] + rest;
    if rest == [] {
      assert all[..0] == [];
    } else {
      assert all[..|all| - 1] == [a] + rest[..|rest| - 1];
      JoinCons(a, rest[..|rest| - 1]);
    }
  }

  /** Every window is of full size but the last. */
  predicate Sized(windows: seq<string>, size: int) {
    forall k :: 0 <= k < |windows| ==> |windows[k]| <= size && (k < |windows| - 1 ==> |windows[k]| == size)
  }

  lemma {:induction false} WindowsJoin(text: string, size: int, i: nat)
    requires size > 0 && i <= |text|
    ensures Join(Windows(text, size, i)) == text[i..]
    decreases |text| - i
  {
    hide Join;
    if i == |text| {
      JoinNone();
    } else if i + size < |text| {
      WindowsJoin(text, size, i + size);
      JoinCons(text[i..i + size], Windows(text, size, i + size));
      assert text[i..] == text[i..i + size] + text[i + size..];
    } else {
      JoinNone();
      JoinCons(text[i..], []);
      assert [text[i..]] + [] == [text[i..]] && text[i..] + "" == text[i..];
    }
  }

  lemma JoinNone()
    ensures Join([]) == ""
  {}

  lemma {:induction false} WindowsSized(text: string, size: int, i: nat)
    requires size > 0 && i <= |text|
    ensures Sized(Windows(text, size, i), size) && (i < |text| ==> Windows(text, size, i) != [])
    decreases |text| - i
  {
    if i < |text| && i + size < |text| {
      WindowsSized(text, size, i + size);
    }
  }

  /** Chunking loses nothing, for every size, zero and negative ones included;
      with a positive size every chunk but the last is exactly that long. */
  lemma ChunksJoin(text: string, size: int)
    ensures var c := ChunkText(text, size);
            && Join(c) == text
            && (size > 0 ==> Sized(c, size))
  {
    if size <= 0 || text == "" {
      JoinCons(text, []);
      assert [text] + [] == [text];
    } else {
      WindowsJoin(text, size, 0);
      WindowsSized(text, size, 0);
    }
  }

  /** A generated `item_...` id; never empty. */
  type FreshId = s: string | s != "" witness "item_"

  /** Python's `a or b or fresh` on ids that may be empty or missing. */
  function IdOr(id: string, current: Option<string>, generated: FreshId): string {
    if id != "" then id
    else if current.Some? && current.value != "" then current.value
    else generated
  }

  function ErrorOf(e: Event): Error
    requires e.IsFailure()
  {
    match e
    case TurnFailed(failure, _) =>
      Error("server_error", if failure.Some? then failure.value else "turn failed")
    case ErrorEvent(code, message, _, _) =>
      Error(if code == "TIMEOUT" then "timeout" else "server_error", message)
  }

  function UsageOf(u: TokenUsage): Usage {
    Usage(u.inputTokens, u.outputTokens, u.inputTokens + u.outputTokens, u.reasoningTokens)
  }

  function ContentText(items: seq<OutputItem>): string {
    if items == [] then ""
    else ContentText(items[..|items| - 1]) + Join(items[|items| - 1].content)
  }

  function Deltas(out: seq<Frame>): seq<string> {
    if out == [] then []
    else Deltas(out[..|out| - 1]) +
         (var b := out[|out| - 1].body; if b.TextDelta? then [b.delta] else [])
  }

  // ------------------------------------------------- what a run is to report

  predicate AnyFailure(events: seq<Event>) {
    exists i :: 0 <= i < |events| && events[i].IsFailure()
  }

  /** The error of the last failing event. */
  function LastFailure(events: seq<Event>): Option<Error> {
    if events == [] then None
    else if events[|events| - 1].IsFailure() then Some(ErrorOf(events[|events| - 1]))
    else LastFailure(events[..|events| - 1])
  }

  /** The usage of the last completed turn that reported one. */
  function LastUsage(events: seq<Event>): Option<Usage> {
    if events == [] then None
    else
      var e := events[|events| - 1];
      if e.TurnCompleted? && e.usage.Some? then Some(UsageOf(e.usage.value))
      else LastUsage(events[..|events| - 1])
  }

  predicate CarriesUsage(e: Event) {
    e.TurnCompleted? && e.usage.Some?
  }

  predicate LastCarrier(events: seq<Event>, i: nat) {
    i < |events| && CarriesUsage(events[i]) && forall k :: i < k < |events| ==> !CarriesUsage(events[k])
  }

  /** A reported usage, field by field. */
  predicate SaysUsage(reported: Usage, u: TokenUsage) {
    && reported.inputTokens == u.inputTokens && reported.outputTokens == u.outputTokens
    && reported.totalTokens == u.inputTokens + u.outputTokens && reported.reasoningTokens == u.reasoningTokens
  }

  /** What is reported is the usage of the last completed turn that carries one, or none. */
  ghost predicate UsageFits(reported: Option<Usage>, events: seq<Event>) {
    match reported
    case None => forall i :: 0 <= i < |events| ==> !CarriesUsage(events[i])
    case Some(r) => exists i: nat :: LastCarrier(events, i) && SaysUsage(r, events[i].usage.value)
  }

  lemma {:induction false} LastUsageFits(events: seq<Event>)
    ensures UsageFits(LastUsage(events), events)
  {
    hide CarriesUsage, SaysUsage;
    if events != [] {
      var n := |events| - 1;
      var before := events[..n];
      LastUsageFits(before);
      LastUsageStep(events);
      if CarriesUsage(events[n]) {
        assert LastCarrier(events, n);
      } else if LastUsage(before).Some? {
        var i: nat :| LastCarrier(before, i) && SaysUsage(LastUsage(before).value, before[i].usage.value);
        assert LastCarrier(events, i) by {
          forall k | i < k < |events| ensures !CarriesUsage(events[k]) {
            assert k < n ==> events[k] == before[k];
          }
        }
      } else {
        forall i | 0 <= i < |events| ensures !CarriesUsage(events[i]) {
          assert i < n ==> events[i] == before[i];
        }
      }
    }
  }

  lemma LastUsageStep(events: seq<Event>)
    requires events != []
    ensures var e := events[|events| - 1];
            && (!CarriesUsage(e) ==> LastUsage(events) == LastUsage(events[..|events| - 1]))
            && (CarriesUsage(e) ==>
                  && e.TurnCompleted? && e.usage.Some? && LastUsage(events).Some?
                  && SaysUsage(LastUsage(events).value, e.usage.value))
    ensures forall e: Event :: CarriesUsage(e) ==> e.TurnCompleted? && e.usage.Some?
  {}

  predicate LastFailing(events: seq<Event>, i: nat) {
    i < |events| && events[i].IsFailure() && forall k :: i < k < |events| ==> !events[k].IsFailure()
  }

  /** A reported error, by the kind of event it comes from. */
  predicate SaysError(reported: Error, e: Event) {
    match e
    case TurnFailed(None, _) => reported == Error("server_error", "turn failed")
    case TurnFailed(Some(failure), _) => reported == Error("server_error", failure)
    case ErrorEvent(code, message, _, _) =>
      reported.message == message && reported.code == if code == "TIMEOUT" then "timeout" else "server_error"
    case _ => false
  }

  /** What is reported is the error of the last event that fails the run, or none. */
  ghost predicate ErrorFits(reported: Option<Error>, events: seq<Event>) {
    match reported
    case None => forall i :: 0 <= i < |events| ==> !events[i].IsFailure()
    case Some(r) => exists i: nat :: LastFailing(events, i) && SaysError(r, events[i])
  }

  lemma {:induction false} LastFailureFits(events: seq<Event>)
    ensures ErrorFits(LastFailure(events), events)
  {
    hide SaysError;
    if events != [] {
      var n := |events| - 1;
      var before := events[..n];
      LastFailureFits(before);
      LastFailureStep(events);
      if events[n].IsFailure() {
        assert LastFailing(events, n);
      } else if LastFailure(before).Some? {
        var i: nat :| LastFailing(before, i) && SaysError(LastFailure(before).value, before[i]);
        assert LastFailing(events, i) by {
          forall k | i < k < |events| ensures !events[k].IsFailure() {
            assert k < n ==> events[k] == before[k];
          }
        }
      } else {
        forall i | 0 <= i < |events| ensures !events[i].IsFailure() {
          assert i < n ==> events[i] == before[i];
        }
      }
    }
  }

  lemma LastFailureStep(events: seq<Event>)
    requires events != []
    ensures var e := events[|events| - 1];
            && (!e.IsFailure() ==> LastFailure(events) == LastFailure(events[..|events| - 1]))
            && (e.IsFailure() ==> LastFailure(events).Some? && SaysError(LastFailure(events).value, e))
  {}

  predicate StartsMessage(e: Event) {
    e.ItemStarted? && e.item.AgentMessage?
  }

  /** The item bookkeeping that follows from the events alone: the id in use,
      whether a message is open, and whether each message closed so far kept the
      id it was announced with. */
  datatype Ids = Ids(current: Option<string>, open: bool, kept: bool)

  function IdsAfter(events: seq<Event>): Ids {
    if events == [] then Ids(None, false, true) else
    NextIds(IdsAfter(events[..|events| - 1]), events[|events| - 1])
  }

  predicate Named(id: Option<string>) {
    id.Some? && id.value != ""
  }

  function NextIds(s: Ids, e: Event): Ids {
    if StartsMessage(e) then
      Ids(Some(e.item.id), true, s.kept && (s.open ==> Named(s.current)))
    else if e.IsAgentMessage() then
      var id := e.item.id;
      if s.open then
        Ids(s.current, false, s.kept && Named(s.current) && (id == "" || s.current == Some(id)))
      else
        var current := if id != "" then Some(id) else s.current;
        Ids(current, false, s.kept && Named(current))
    else s
  }

  /** Where messages have ids, and one that completes what was announced has the id of
      the announcement, every item keeps its id. */
  lemma {:induction false} IdsKeptWhen(events: seq<Event>)
    requires forall i :: 0 <= i < |events| && (StartsMessage(events[i]) || events[i].IsAgentMessage()) ==>
                           events[i].item.id != ""
    requires forall i :: 0 <= i < |events| && events[i].IsAgentMessage() && IdsAfter(events[..i]).open ==>
                           IdsAfter(events[..i]).current == Some(events[i].item.id)
    ensures IdsAfter(events).kept && (IdsAfter(events).open ==> Named(IdsAfter(events).current))
  {
    if events != [] {
      var n := |events| - 1;
      var before := events[..n];
      forall i | 0 <= i < n ensures before[..i] == events[..i] {}
      IdsKeptWhen(before);
    }
  }

  /** Which id an item gets: its event's, else the one in use, else a generated one; an
      empty one counts for none. */
  lemma IdOrSays(id: string, current: Option<string>, generated: FreshId)
    ensures id != "" ==> IdOr(id, current, generated) == id
    ensures id == "" && Named(current) ==> current == Some(IdOr(id, current, generated))
    ensures id == "" && !Named(current) ==> IdOr(id, current, generated) == generated
    ensures IdOr(id, current, generated) != ""
  {}

  /** The frames end with those that announce a message under its id. */
  predicate Announces(out: seq<Frame>, id: string) {
    && |out| >= 2
    && out[|out| - 2].body.ItemAdded? && out[|out| - 2].body.addedId == Some(id)
    && out[|out| - 1].body.PartAdded? && out[|out| - 1].body.addedId == Some(id)
  }

  // ---------------------------------------------------------------- emitter

  class ResponseEmitter {
    var seqNo: nat
    var inProgressSent: bool
    var currentItemId: Option<string>
    var currentOutputIndex: nat
    var nextOutputIndex: nat
    var itemOpen: bool
    var outputItems: seq<OutputItem>
    var usage: Option<Usage>
    var cancelled: bool
    var failed: bool
    var error: Option<Error>
    /** Every frame emitted so far. */
    ghost var trace: seq<Frame>

    ghost function Seen(): Monitor
      reads this
    {
      Watch(START, trace)
    }

    /** The fields agree with what a reader of the stream has seen. */
    ghost predicate Agrees()
      reads this
    {
      && Numbered(trace) && seqNo == |trace|
      && Seen().done == outputItems && |outputItems| == nextOutputIndex
      && Seen().inProgress == inProgressSent
      && Seen().lastError == error && error.Some? == failed
    }

    /** The invariant between two events of a run that is still going. */
    ghost predicate Running()
      reads this
    {
      && Agrees() && !cancelled
      && Seen().phase == (if itemOpen then Open(currentItemId) else Between)
      && (itemOpen ==> currentItemId.Some? && currentOutputIndex == nextOutputIndex)
    }

    constructor ()
      ensures trace == [] && Agrees() && !cancelled && !itemOpen && currentItemId == None
      ensures outputItems == [] && usage == None && error == None && !inProgressSent
    {
      seqNo := 0;
      inProgressSent := false;
      currentItemId := None;
      currentOutputIndex := 0;
      nextOutputIndex := 0;
      itemOpen := false;
      outputItems := [];
      usage := None;
      cancelled := false;
      failed := false;
      error := None;
      trace := [];
    }

    method Emit(body: Body) returns (f: Frame)
      requires Numbered(trace) && seqNo == |trace|
      modifies this`seqNo, this`trace
      ensures f == Frame(old(seqNo), body)
      ensures trace == old(trace) + [f] && seqNo == old(seqNo) + 1
      ensures Numbered(trace) && Seen() == Read(old(Seen()), body)
    {
      f := Frame(seqNo, body);
      seqNo := seqNo + 1;
      trace := trace + [f];
      assert trace[..|trace| - 1] == old(trace);
    }

    method Start() returns (out: seq<Frame>)
      requires trace == [] && Agrees() && !cancelled && !itemOpen
      modifies this`seqNo, this`trace
      ensures Running() && trace == out && out == [Frame(0, Created)]
      ensures Seen().idsKept
    {
      var f := Emit(Created);
      out := [f];
    }

    /** The opening frames of a bracket. */
    method OpenItem() returns (out: seq<Frame>)
      requires Agrees() && Seen().phase.Between?
      modifies this`currentOutputIndex, this`itemOpen, this`seqNo, this`trace
      ensures Agrees() && Seen().phase == Open(currentItemId)
      ensures itemOpen && currentOutputIndex == nextOutputIndex
      ensures trace == old(trace) + out && Deltas(out) == [] && |out| == 2
      ensures out[0].body == ItemAdded(nextOutputIndex, currentItemId)
      ensures out[1].body == PartAdded(nextOutputIndex, currentItemId)
      ensures Seen().idsKept == old(Seen().idsKept)
    {
      hide Read, Watch, Deltas, Numbered;
      currentOutputIndex := nextOutputIndex;
      itemOpen := true;
      ReadOpening(Seen(), currentOutputIndex, currentItemId);
      var f := Emit(ItemAdded(currentOutputIndex, currentItemId));
      var g := Emit(PartAdded(currentOutputIndex, currentItemId));
      out := [f, g];
      NoDeltas(out);
      assert trace == old(trace) + out;
    }

    /** `_close_open_item`: the closing frames of a bracket that got no text. */
    method CloseOpenItem(freshId: FreshId) returns (out: seq<Frame>)
      requires Agrees() && itemOpen && Seen().phase == Open(currentItemId) && currentOutputIndex == nextOutputIndex
      modifies this`outputItems, this`itemOpen, this`nextOutputIndex, this`seqNo, this`trace
      ensures Agrees() && Seen().phase.Between? && !itemOpen
      ensures outputItems == old(outputItems) + [OutputItem(IdOr("", currentItemId, freshId), ItemIncomplete, [])]
      ensures trace == old(trace) + out && Deltas(out) == []
      ensures Seen().idsKept == (old(Seen().idsKept) && Named(currentItemId))
    {
      hide Read, Watch, Deltas, Numbered;
      var itemId := IdOr("", currentItemId, freshId);
      ReadClosing(Seen(), currentOutputIndex, itemId, "", OutputItem(itemId, ItemIncomplete, []));
      var f := Emit(TextDone(currentOutputIndex, itemId, ""));
      var g := Emit(PartDone(currentOutputIndex, itemId, ""));
      var completed := OutputItem(itemId, ItemIncomplete, []);
      outputItems := outputItems + [completed];
      var h := Emit(ItemDone(currentOutputIndex, completed));
      itemOpen := false;
      nextOutputIndex := nextOutputIndex + 1;
      out := [f, g, h];
      NoDeltas(out);
      assert trace == old(trace) + out;
    }

    /** One delta of a message of which `soFar` has been sent. */
    method EmitDelta(itemId: string, d: string, ghost soFar: string) returns (f: Frame)
      requires Agrees() && d != "" && currentOutputIndex == nextOutputIndex
      requires (Seen().phase.Open? && soFar == "") || Seen().phase == Streaming(itemId, soFar)
      modifies this`seqNo, this`trace
      ensures Agrees() && trace == old(trace) + [f] && f.body.TextDelta? && f.body.delta == d
      ensures Seen() == old(Seen()).(phase := Streaming(itemId, soFar + d), idsKept := KeepId(old(Seen()), itemId))
    {
      hide Read, Watch, Numbered;
      ReadDelta(Seen(), currentOutputIndex, itemId, d, soFar);
      f := Emit(TextDelta(currentOutputIndex, itemId, d));
    }

    /** The deltas of one message. */
    method EmitDeltas(itemId: string, chunks: seq<string>) returns (out: seq<Frame>)
      requires Agrees() && Seen().phase == Open(currentItemId) && currentOutputIndex == nextOutputIndex
      requires forall k :: 0 <= k < |chunks| ==> chunks[k] != ""
      modifies this`seqNo, this`trace
      ensures Agrees() && trace == old(trace) + out && Deltas(out) == chunks
      ensures chunks == [] ==> Seen() == old(Seen())
      ensures chunks != [] ==>
                Seen() == old(Seen()).(phase := Streaming(itemId, Join(chunks)), idsKept := KeepId(old(Seen()), itemId))
    {
      hide Read, Watch, Numbered, Deltas, Join;
      out := [];
      NoDeltas(out);
      JoinNone();
      assert chunks[..0] == [];
      for i := 0 to |chunks|
        invariant Agrees() && trace == old(trace) + out && Deltas(out) == chunks[..i]
        invariant i == 0 ==> Seen() == old(Seen())
        invariant i > 0 ==>
                    Seen() == old(Seen()).(phase := Streaming(itemId, Join(chunks[..i])),
                                           idsKept := KeepId(old(Seen()), itemId))
      {
        JoinMore(chunks, i);
        var f := EmitDelta(itemId, chunks[i], Join(chunks[..i]));
        DeltasMore(out, f);
        assert chunks[..i + 1] == chunks[..i] + [chunks[i]];
        out := out + [f];
      }
      assert chunks[..|chunks|] == chunks;
    }

    /** `emit_agent_message_events`: deltas and closing frames of one message. */
    method EmitAgentMessage(id: string, text: string, chunkSize: int, freshId: FreshId) returns (out: seq<Frame>)
      requires Agrees() && Seen().phase == Open(currentItemId) && currentOutputIndex == nextOutputIndex
      modifies this`outputItems, this`seqNo, this`trace
      ensures Numbered(trace) && seqNo == |trace|
      ensures outputItems == old(outputItems) + [OutputItem(IdOr(id, currentItemId, freshId), ItemComplete, [text])]
      ensures Seen() == old(Seen()).(phase := Between, done := outputItems,
                                     idsKept := old(Seen().idsKept)
                                                && currentItemId == Some(IdOr(id, currentItemId, freshId)))
      ensures trace == old(trace) + out && Deltas(out) == ChunkText(text, chunkSize) && out != []
    {
      hide ChunkText, Deltas, Join, Read, Watch, Numbered;
      var itemId := IdOr(id, currentItemId, freshId);
      ChunksJoin(text, chunkSize);
      EmptyText(text, chunkSize);
      var deltas := EmitDeltas(itemId, ChunkText(text, chunkSize));
      ReadClosing(Seen(), currentOutputIndex, itemId, text, OutputItem(itemId, ItemComplete, [text]));
      var f := Emit(TextDone(currentOutputIndex, itemId, text));
      var g := Emit(PartDone(currentOutputIndex, itemId, text));
      var completed := OutputItem(itemId, ItemComplete, [text]);
      outputItems := outputItems + [completed];
      var h := Emit(ItemDone(currentOutputIndex, completed));
      NoDeltas([f, g, h]);
      DeltasAppend(deltas, [f, g, h]);
      out := deltas + [f, g, h];
      assert trace == old(trace) + out;
    }

    /** `on_codex_event` for a message that starts. */
    method OnMessageStarted(id: string, freshId: FreshId) returns (out: seq<Frame>)
      requires Running()
      modifies this`currentItemId, this`currentOutputIndex, this`itemOpen, this`outputItems,
               this`nextOutputIndex, this`seqNo, this`trace
      ensures Running() && itemOpen && currentItemId == Some(id)
      ensures outputItems == old(outputItems) +
              (if old(itemOpen) then [OutputItem(IdOr("", old(currentItemId), freshId), ItemIncomplete, [])] else [])
      ensures trace == old(trace) + out && Deltas(out) == [] && Announces(out, id)
      ensures Seen().idsKept == (old(Seen().idsKept) && (old(itemOpen) ==> Named(old(currentItemId))))
      ensures usage == old(usage)
    {
      hide Read, Watch, Deltas, IdOr, Numbered;
      out := [];
      NoDeltas(out);
      if itemOpen && currentItemId.Some? {
        out := CloseOpenItem(freshId);
      }
      currentItemId := Some(id);
      var opening := OpenItem();
      DeltasAppend(out, opening);
      out := out + opening;
      assert trace == old(trace) + out;
    }

    /** The announcement made late for a message that was not announced. */
    method AnnounceLate(id: string) returns (out: seq<Frame>)
      requires Running()
      modifies this`currentItemId, this`currentOutputIndex, this`itemOpen, this`seqNo, this`trace
      ensures Agrees() && Seen().phase == Open(currentItemId) && currentOutputIndex == nextOutputIndex && !cancelled
      ensures itemOpen && Seen().idsKept == old(Seen().idsKept)
      ensures currentItemId == if old(itemOpen) || id == "" then old(currentItemId) else Some(id)
      ensures trace == old(trace) + out && Deltas(out) == []
      ensures if old(itemOpen) then out == []
              else |out| == 2 && out[0].body.ItemAdded? && (id != "" ==> out[0].body.addedId == Some(id))
    {
      hide Read, Watch, Deltas, Numbered;
      out := [];
      NoDeltas(out);
      if !itemOpen {
        currentItemId := if id != "" then Some(id) else currentItemId;
        out := OpenItem();
      }
    }

    /** `on_codex_event` for a message that completes, announced or not. */
    method OnMessageCompleted(id: string, text: string, chunkSize: int, freshId: FreshId) returns (out: seq<Frame>)
      requires Running()
      modifies this`currentItemId, this`currentOutputIndex, this`itemOpen, this`outputItems,
               this`nextOutputIndex, this`seqNo, this`trace
      ensures Running() && !itemOpen
      ensures currentItemId == if old(itemOpen) || id == "" then old(currentItemId) else Some(id)
      ensures outputItems == old(outputItems) + [OutputItem(IdOr(id, currentItemId, freshId), ItemComplete, [text])]
      ensures trace == old(trace) + out && Deltas(out) == ChunkText(text, chunkSize) && out != []
      ensures !old(itemOpen) && id != "" ==> out[0].body.ItemAdded? && out[0].body.addedId == Some(id)
      ensures Seen().idsKept == (old(Seen().idsKept) && currentItemId == Some(IdOr(id, currentItemId, freshId)))
    {
      hide Read, Watch, Deltas, ChunkText, IdOr, Numbered;
      out := AnnounceLate(id);
      var rest := EmitAgentMessage(id, text, chunkSize, freshId);
      DeltasAppend(out, rest);
      assert trace == old(trace) + (out + rest);
      out := out + rest;
      itemOpen := false;
      nextOutputIndex := nextOutputIndex + 1;
    }

    /** `on_codex_event` for an event that fails the run. */
    method OnFailure(e: Error) returns (out: seq<Frame>)
      requires Running()
      modifies this`failed, this`error, this`seqNo, this`trace
      ensures Running() && error == Some(e) && trace == old(trace) + out
      ensures out == [Frame(old(seqNo), ErrorFrame(e))] && Seen().idsKept == old(Seen().idsKept)
    {
      failed := true;
      error := Some(e);
      var f := Emit(ErrorFrame(e));
      out := [f];
    }

    method OnThreadStarted() returns (out: seq<Frame>)
      requires Running()
      modifies this`inProgressSent, this`seqNo, this`trace
      ensures Running() && inProgressSent && trace == old(trace) + out
      ensures out == (if old(inProgressSent) then [] else [Frame(old(seqNo), InProgress)])
      ensures Seen().idsKept == old(Seen().idsKept)
    {
      if inProgressSent {
        return [];
      }
      inProgressSent := true;
      var f := Emit(InProgress);
      out := [f];
    }

    /** One Codex event. */
    method OnCodexEvent(evt: Event, chunkSize: int, freshId: FreshId) returns (out: seq<Frame>)
      requires Running()
      modifies this
      ensures Running() && trace == old(trace) + out
      ensures inProgressSent == (old(inProgressSent) || evt.ThreadStarted?)
      ensures error == if evt.IsFailure() then Some(ErrorOf(evt)) else old(error)
      ensures usage == if evt.TurnCompleted? && evt.usage.Some? then Some(UsageOf(evt.usage.value)) else old(usage)
      ensures Ids(currentItemId, itemOpen, Seen().idsKept)
              == NextIds(Ids(old(currentItemId), old(itemOpen), old(Seen().idsKept)), evt)
      ensures evt.IsAgentMessage() ==>
                && outputItems == old(outputItems) +
                   [OutputItem(IdOr(evt.item.id, currentItemId, freshId), ItemComplete, [evt.item.text])]
                && Deltas(out) == ChunkText(evt.item.text, chunkSize) && out != []
                && (!old(itemOpen) && evt.item.id != "" ==>
                      && out[0].body.ItemAdded? && out[0].body.addedId == Some(evt.item.id))
      ensures StartsMessage(evt) ==>
                && Deltas(out) == [] && Announces(out, evt.item.id)
                && outputItems == old(outputItems) +
                   (if old(itemOpen) then [OutputItem(IdOr("", old(currentItemId), freshId), ItemIncomplete, [])]
                    else [])
      ensures !evt.IsAgentMessage() && !StartsMessage(evt) ==>
                && outputItems == old(outputItems)
                && out == if evt.ThreadStarted? && !old(inProgressSent) then [Frame(old(seqNo), InProgress)]
                          else if evt.IsFailure() then [Frame(old(seqNo), ErrorFrame(ErrorOf(evt)))]
                          else []
    {
      hide Read, Watch, Deltas, ChunkText, Numbered;
      out := [];
      if evt.ThreadStarted? {
        out := OnThreadStarted();
      } else if evt.ItemStarted? && evt.item.AgentMessage? {
        out := OnMessageStarted(evt.item.id, freshId);
      } else if evt.ItemCompleted? && evt.item.AgentMessage? {
        out := OnMessageCompleted(evt.item.id, evt.item.text, chunkSize, freshId);
      } else if evt.TurnCompleted? && evt.usage.Some? {
        usage := Some(UsageOf(evt.usage.value));
      } else if evt.TurnFailed? {
        var message := if evt.failure.Some? then evt.failure.value else "turn failed";
        out := OnFailure(Error("server_error", message));
      } else if evt.ErrorEvent? {
        var code := if evt.code == "TIMEOUT" then "timeout" else "server_error";
        out := OnFailure(Error(code, evt.message));
      }
    }

    /** The terminal frame of a run that was not cancelled. */
    method Finalize() returns (out: seq<Frame>)
      requires cancelled || Running()
      modifies this`seqNo, this`trace
      ensures old(cancelled) ==> out == [] && trace == old(trace) && seqNo == old(seqNo)
      ensures !old(cancelled) ==>
                && Numbered(trace) && trace == old(trace) + out && Seen() == old(Seen()).(phase := Ended)
                && out == [Frame(old(seqNo), if error.Some? then Failed(outputItems, error)
                                             else Completed(outputItems, usage))]
    {
      if cancelled {
        return [];
      }
      if failed {
        var f := Emit(Failed(outputItems, error));
        return [f];
      }
      var f := Emit(Completed(outputItems, usage));
      return [f];
    }

    /** The terminal frame of a cancelled run, after closing what is open. */
    method Cancel(freshId: FreshId) returns (out: seq<Frame>)
      requires cancelled || Running()
      modifies this
      ensures cancelled
      ensures old(cancelled) ==> out == [] && trace == old(trace) && outputItems == old(outputItems)
      ensures !old(cancelled) ==>
                && Numbered(trace) && trace == old(trace) + out && out != []
                && Seen().phase == Ended && Seen().done == outputItems
                && Seen().inProgress == old(inProgressSent) && Seen().lastError == old(error)
                && out[|out| - 1].body == Cancelled(outputItems)
                && outputItems == old(outputItems) +
                   (if old(itemOpen) then [OutputItem(IdOr("", old(currentItemId), freshId), ItemIncomplete, [])]
                    else [])
                && Seen().idsKept == (old(Seen().idsKept) && (old(itemOpen) ==> Named(old(currentItemId))))
    {
      hide Read, Watch, Numbered, Deltas;
      if cancelled {
        return [];
      }
      cancelled := true;
      out := [];
      if itemOpen && currentItemId.Some? {
        out := CloseOpenItem(freshId);
      }
      ReadCancelled(Seen());
      var f := Emit(Cancelled(outputItems));
      out := out + [f];
      assert trace == old(trace) + out;
    }
  }

  lemma {:induction false} DeltasAppend(a: seq<Frame>, b: seq<Frame>)
    ensures Deltas(a + b) == Deltas(a) + Deltas(b)
  {
    if b == [] {
      assert a + b == a;
    } else {
      assert (a + b)[..|a + b| - 1] == a + b[..|b| - 1];
      DeltasAppend(a, b[..|b| - 1]);
    }
  }

  lemma DeltasMore(out: seq<Frame>, f: Frame)
    requires f.body.TextDelta?
    ensures Deltas(out + [f]) == Deltas(out) + [f.body.delta]
  {
    assert (out + [f])[..|out|] == out;
  }

  lemma JoinMore(chunks: seq<string>, i: nat)
    requires i < |chunks|
    ensures Join(chunks[..i + 1]) == Join(chunks[..i]) + chunks[i]
  {
    assert chunks[..i + 1][..i] == chunks[..i];
  }

  lemma {:induction false} NoDeltas(out: seq<Frame>)
    requires forall k :: 0 <= k < |out| ==> !out[k].body.TextDelta?
    ensures Deltas(out) == []
  {
    if out != [] {
      NoDeltas(out[..|out| - 1]);
    }
  }

  lemma ContentGrows(items: seq<OutputItem>, x: OutputItem)
    ensures ContentText(items + [x]) == ContentText(items) + Join(x.content)
    ensures x.content == [] ==> ContentText(items + [x]) == ContentText(items)
    ensures |x.content| == 1 ==> Join(x.content) == x.content[0]
  {
    assert (items + [x])[..|items|] == items;
    if |x.content| == 1 {
      assert x.content[..0] == [] && "" + x.content[0] == x.content[0];
    }
  }

  lemma EmptyText(text: string, size: int)
    ensures ChunkText(text, size) == [] <==> text == ""
  {}
}

/** Driving the emitter over a whole run, and the non-streaming collector. */
module ResponsesHandling {
  import opened PyText
  import opened CodexEvents
  import opened ResponsesWire
  import opened ResponseEmitting

  /** What the stream handler meets at one turn of its loop: an event, whether the
      client was gone by then, and an id the emitter may need to generate. */
  datatype Tick = Tick(event: Event, disconnected: bool, freshId: FreshId)

  /** The events handled before the client is found gone. */
  function Handled(ticks: seq<Tick>): (r: seq<Event>)
    ensures |r| <= |ticks| && forall i :: 0 <= i < |r| ==> r[i] == ticks[i].event && !ticks[i].disconnected
    ensures |r| < |ticks| ==> ticks[|r|].disconnected
  {
    if ticks == [] || ticks[0].disconnected then [] else [ticks[0].event] + Handled(ticks[1..])
  }

  predicate ClientLeft(ticks: seq<Tick>) {
    |Handled(ticks)| < |ticks|
  }

  /** What the terminal frame says, on its own terms. */
  ghost predicate TellsTruth(last: Body, events: seq<Event>) {
    match last
    case Completed(_, usage) => UsageFits(usage, events) && !AnyFailure(events)
    case Failed(_, failure) => ErrorFits(failure, events) && AnyFailure(events)
    case Cancelled(_) => true
    case _ => false
  }

  /** What a completed run reports. */
  datatype Outcome = Success(text: string, usage: Option<Usage>) | Failure(error: Error)

  /** The streaming path goes on after a failure and reports the last one. */
  function StreamOutcome(events: seq<Event>): Outcome {
    match LastFailure(events)
    case Some(e) => Failure(e)
    case None => Success(AnswerText(events), LastUsage(events))
  }

  /** The collector stops at the first event that ends a turn. */
  function SyncOutcome(events: seq<Event>): Outcome {
    var seen := ThroughTerminal(events);
    if seen != [] && seen[|seen| - 1].IsFailure() then Failure(ErrorOf(seen[|seen| - 1]))
    else Success(AnswerText(seen), LastUsage(seen))
  }

  /** What the terminal frame of a stream tells the client. */
  function Reported(b: Body): Option<Outcome> {
    match b
    case Completed(output, usage) => Some(Success(ContentText(output), usage))
    case Failed(_, Some(e)) => Some(Failure(e))
    case _ => None
  }

  predicate SawThread(events: seq<Event>) {
    exists i :: 0 <= i < |events| && events[i].ThreadStarted?
  }

  lemma OneMoreEvent(events: seq<Event>, e: Event)
    ensures var now := events + [e];
            && AnswerText(now) == AnswerText(events) + (if e.IsAgentMessage() then e.item.text else "")
            && (!e.IsAgentMessage() ==> AnswerText(now) == AnswerText(events))
            && LastFailure(now) == (if e.IsFailure() then Some(ErrorOf(e)) else LastFailure(events))
            && LastUsage(now) == (if e.TurnCompleted? && e.usage.Some? then Some(UsageOf(e.usage.value))
                                  else LastUsage(events))
            && IdsAfter(now) == NextIds(IdsAfter(events), e)
            && (SawThread(now) <==> SawThread(events) || e.ThreadStarted?)
  {
    var now := events + [e];
    assert now[..|now| - 1] == events && now[|now| - 1] == e;
    if SawThread(events) {
      var i :| 0 <= i < |events| && events[i].ThreadStarted?;
      assert now[i].ThreadStarted?;
    }
  }

  /** The emitter stands where handling `events` must lead it. */
  ghost predicate Tracks(emitter: ResponseEmitter, events: seq<Event>)
    reads emitter
  {
    && emitter.Running()
    && Ids(emitter.currentItemId, emitter.itemOpen, emitter.Seen().idsKept) == IdsAfter(events)
    && ContentText(emitter.outputItems) == AnswerText(events)
    && emitter.error == LastFailure(events)
    && emitter.usage == LastUsage(events)
    && (emitter.inProgressSent <==> SawThread(events))
  }

  /** A stream as it must look once its run is over. */
  ghost predicate GoodStream(out: seq<Frame>, events: seq<Event>, cancelled: bool) {
    var m := Watch(START, out);
    var ids := IdsAfter(events);
    && Numbered(out) && out != [] && m.phase == Ended
    && (if cancelled then out[|out| - 1].body == Cancelled(m.done)
        else Reported(out[|out| - 1].body) == Some(StreamOutcome(events)))
    && ContentText(m.done) == AnswerText(events)
    && (m.inProgress <==> SawThread(events))
    && (Watch(START, out[..|out| - 1]).phase.Open? <==> !cancelled && ids.open)
    && (m.idsKept <==> ids.kept && (cancelled && ids.open ==> Named(ids.current)))
  }

  method BeginRun(emitter: ResponseEmitter) returns (out: seq<Frame>)
    requires emitter.trace == [] && emitter.Agrees() && !emitter.cancelled && !emitter.itemOpen
    requires emitter.currentItemId == None && emitter.outputItems == [] && emitter.usage == None
    requires emitter.error == None && !emitter.inProgressSent
    modifies emitter
    ensures Tracks(emitter, []) && out == emitter.trace
  {
    hide Read, Watch;
    out := emitter.Start();
  }

  /** The events that put out frames, but for a thread announced again. */
  predicate ShowsFrame(e: Event) {
    e.ThreadStarted? || StartsMessage(e) || e.IsAgentMessage() || e.IsFailure()
  }

  /** One turn of the loop. */
  method HandleEvent(emitter: ResponseEmitter, tick: Tick, chunkSize: int, ghost events: seq<Event>)
    returns (frames: seq<Frame>)
    requires Tracks(emitter, events)
    modifies emitter
    ensures Tracks(emitter, events + [tick.event]) && emitter.trace == old(emitter.trace) + frames
    ensures frames != [] <==> ShowsFrame(tick.event) && !(tick.event.ThreadStarted? && SawThread(events))
  {
    hide Read, Watch, NextIds, Deltas, ChunkText, Join, IdOr, AnswerText, LastFailure, LastUsage, IdsAfter,
         SawThread, ContentText;
    ghost var before := emitter.outputItems;
    frames := emitter.OnCodexEvent(tick.event, chunkSize, tick.freshId);
    OneMoreEvent(events, tick.event);
    if emitter.outputItems != before {
      ContentGrows(before, emitter.outputItems[|before|]);
    }
  }

  method CancelRun(emitter: ResponseEmitter, lastId: FreshId, ghost events: seq<Event>) returns (last: seq<Frame>)
    requires Tracks(emitter, events)
    modifies emitter
    ensures emitter.trace == old(emitter.trace) + last && GoodStream(emitter.trace, events, true)
  {
    hide IdsAfter, Deltas, Join;
    ghost var before := emitter.outputItems;
    last := emitter.Cancel(lastId);
    if emitter.outputItems != before {
      ContentGrows(before, emitter.outputItems[|before|]);
    }
    ghost var out := emitter.trace;
    assert Watch(START, out) == Read(Watch(START, out[..|out| - 1]), out[|out| - 1].body);
  }

  method FinalizeRun(emitter: ResponseEmitter, ghost events: seq<Event>) returns (last: seq<Frame>)
    requires Tracks(emitter, events)
    modifies emitter
    ensures emitter.trace == old(emitter.trace) + last && GoodStream(emitter.trace, events, false)
  {
    hide Read, Watch, IdsAfter, AnswerText, LastFailure, LastUsage, ContentText;
    last := emitter.Finalize();
    ghost var out := emitter.trace;
    assert out[..|out| - 1] == old(emitter.trace);
  }

  /** `stream_responses`. For every event list, however the iterator ends and
      whenever the client leaves, the stream is numbered without gaps, obeys the
      grammar of the monitor and ends in exactly one terminal frame. */
  method StreamResponses(ticks: seq<Tick>, ending: Ending, chunkSize: int, lastId: FreshId, emitter: ResponseEmitter)
    returns (out: seq<Frame>, reraised: bool)
    requires emitter.trace == [] && emitter.Agrees() && !emitter.cancelled && !emitter.itemOpen
    requires emitter.currentItemId == None && emitter.outputItems == [] && emitter.usage == None
    requires emitter.error == None && !emitter.inProgressSent
    modifies emitter
    ensures GoodStream(out, Handled(ticks), ClientLeft(ticks) || ending.TaskCancelled?)
    ensures out != [] && TellsTruth(out[|out| - 1].body, Handled(ticks))
    ensures reraised <==> ending.TaskCancelled? && !ClientLeft(ticks)
  {
    hide GoodStream, Tracks, Handled, TellsTruth;
    reraised := false;
    ghost var handled := Handled(ticks);
    out := BeginRun(emitter);
    assert handled[..0] == [];
    var i := 0;
    while i < |ticks|
      invariant 0 <= i <= |handled| && Tracks(emitter, handled[..i]) && out == emitter.trace
    {
      if ticks[i].disconnected {
        assert handled == handled[..i];
        var last := CancelRun(emitter, lastId, handled);
        out := out + last;
        LastTellsTruth(out, handled, true);
        return;
      }
      var frames := HandleEvent(emitter, ticks[i], chunkSize, handled[..i]);
      assert handled[..i + 1] == handled[..i] + [ticks[i].event];
      out := out + frames;
      i := i + 1;
    }
    assert handled == handled[..i];
    if ending.TaskCancelled? {
      var last := CancelRun(emitter, lastId, handled);
      out := out + last;
      reraised := true;
    } else {
      var last := FinalizeRun(emitter, handled);
      out := out + last;
    }
    LastTellsTruth(out, handled, ending.TaskCancelled?);
  }

  lemma LastTellsTruth(out: seq<Frame>, events: seq<Event>, cancelled: bool)
    requires GoodStream(out, events, cancelled)
    ensures out != [] && TellsTruth(out[|out| - 1].body, events)
  {
    hide Read, Watch, LastUsage, LastFailure, UsageFits, ErrorFits, AnyFailure, Numbered, IdsAfter, AnswerText,
         ContentText;
    FailureReportedIff(events);
    LastUsageFits(events);
    LastFailureFits(events);
  }

  /** The result of the non-streaming path, or the exception it lets through. */
  datatype Collected =
    | Response(outcome: Outcome, output: seq<OutputItem>, estimated: bool)
    | Exception

  /** The events up to `i` have been read, and reading stops after a terminal one. */
  predicate ReadUpTo(events: seq<Event>, i: nat, stopped: bool) {
    && i <= |events| && (forall k :: 0 <= k < i - 1 ==> !events[k].IsTerminal())
    && (stopped <==> i > 0 && events[i - 1].IsTerminal())
  }

  lemma ReadThrough(events: seq<Event>, i: nat, stopped: bool)
    requires ReadUpTo(events, i, stopped) && (stopped || i == |events|)
    ensures ThroughTerminal(events) == events[..i]
  {
    ThroughTerminalIs(events, i);
  }

  function FailureOf(e: Event): Option<Error> {
    if e.IsFailure() then Some(ErrorOf(e)) else None
  }

  /** The collector's loop. */
  method Gather(events: seq<Event>) returns (text: string, usage: Option<Usage>, failure: Option<Error>, stopped: bool)
    ensures var seen := ThroughTerminal(events);
            && text == AnswerText(seen) && usage == LastUsage(seen)
            && (stopped <==> seen != [] && seen[|seen| - 1].IsTerminal())
            && failure == if seen != [] then FailureOf(seen[|seen| - 1]) else None
  {
    hide Join, ContentText, AnswerText, LastUsage, LastFailure, IdsAfter, NextIds, SawThread, ThroughTerminal;
    text, usage, failure, stopped := "", None, None, false;
    NothingYet();
    var i := 0;
    assert events[..0] == [];
    while i < |events| && !stopped
      invariant ReadUpTo(events, i, stopped)
      invariant text == AnswerText(events[..i]) && usage == LastUsage(events[..i])
      invariant failure == if i > 0 then FailureOf(events[i - 1]) else None
      decreases |events| - i
    {
      var evt := events[i];
      assert events[..i + 1] == events[..i] + [evt];
      OneMoreEvent(events[..i], evt);
      i := i + 1;
      if evt.ItemCompleted? && evt.item.AgentMessage? {
        text := text + evt.item.text;
      } else if evt.TurnCompleted? {
        if evt.usage.Some? {
          usage := Some(UsageOf(evt.usage.value));
        }
        stopped := true;
      } else if evt.TurnFailed? {
        failure := Some(Error("server_error", if evt.failure.Some? then evt.failure.value else "turn failed"));
        stopped := true;
      } else if evt.ErrorEvent? {
        failure := Some(Error(if evt.code == "TIMEOUT" then "timeout" else "server_error", evt.message));
        stopped := true;
      }
    }
    ReadThrough(events, i, stopped);
  }

  /** `collect_response`. The estimate stands in when Codex reported no usage. */
  method CollectResponse(events: seq<Event>, ending: Ending, itemId: string, estimate: Usage) returns (r: Collected)
    ensures r.Exception? <==> ThroughTerminal(events) == events && ending != Exhausted
                              && (events == [] || !events[|events| - 1].IsTerminal())
    ensures r.Response? && SyncOutcome(events).Failure? ==> r.outcome == SyncOutcome(events) && r.output == []
    ensures r.Response? && SyncOutcome(events).Success? ==>
              var Success(text, usage) := SyncOutcome(events);
              && r.outcome == Success(text, if usage.Some? then usage else Some(estimate))
              && (r.estimated <==> usage.None?)
              && r.output == if text == "" then [] else [OutputItem(itemId, ItemComplete, [text])]
    ensures r.Response? ==>
              var seen := ThroughTerminal(events);
              match r.outcome
              case Failure(e) => ErrorFits(Some(e), seen) && AnyFailure(seen)
              case Success(text, usage) =>
                && text == AnswerText(seen) && !AnyFailure(seen)
                && if r.estimated then usage == Some(estimate) && UsageFits(None, seen) else UsageFits(usage, seen)
  {
    hide AnswerText, LastUsage, ErrorOf, UsageFits, ErrorFits, AnyFailure;
    ghost var seen := ThroughTerminal(events);
    LastUsageFits(seen);
    LastFailureFits(seen);
    FailureAtEnd(events);
    var text, usage, failure, stopped := Gather(events);
    if !stopped && ending != Exhausted {
      return Exception;
    }
    if failure.Some? {
      return Response(Failure(failure.value), [], false);
    }
    var output := [];
    if text != "" {
      output := [OutputItem(itemId, ItemComplete, [text])];
    }
    r := Response(Success(text, if usage.Some? then usage else Some(estimate)), output, usage.None?);
  }

  /** Reading stops at the first terminal event, so only the last one read can fail. */
  lemma FailureAtEnd(events: seq<Event>)
    ensures var seen := ThroughTerminal(events);
            && (AnyFailure(seen) <==> seen != [] && seen[|seen| - 1].IsFailure())
            && LastFailure(seen) == if seen != [] then FailureOf(seen[|seen| - 1]) else None
  {
    var seen := ThroughTerminal(events);
    if seen != [] {
      var before := seen[..|seen| - 1];
      NoFailureYet(before);
    }
  }

  lemma NothingYet()
    ensures AnswerText([]) == "" && LastUsage([]) == None
  {}

  /** Streaming refines collecting. Over events whose only terminal event, if
      any, is last, both report the same outcome: the same text and the same
      Codex usage, or the same error. The collector never looks further than
      that, so it is enough to cut the list there. */
  lemma StreamRefinesSync(events: seq<Event>)
    ensures StreamOutcome(ThroughTerminal(events)) == SyncOutcome(events)
    ensures SyncOutcome(ThroughTerminal(events)) == SyncOutcome(events)
  {
    var seen := ThroughTerminal(events);
    ThroughTerminalIs(seen, |seen|);
    assert seen[..|seen|] == seen;
    if seen != [] {
      var before := seen[..|seen| - 1];
      NoFailureYet(before);
      assert seen == before + [seen[|seen| - 1]];
    }
  }

  lemma {:induction false} NoFailureYet(events: seq<Event>)
    requires forall k :: 0 <= k < |events| ==> !events[k].IsFailure()
    ensures LastFailure(events) == None
  {
    if events != [] {
      NoFailureYet(events[..|events| - 1]);
    }
  }

  /** A stream is reported failed exactly when some handled event failed the
      run; an exception in the event source is not such an event. */
  lemma {:induction false} FailureReportedIff(events: seq<Event>)
    ensures StreamOutcome(events).Failure? <==> AnyFailure(events)
    ensures LastFailure(events).Some? <==> AnyFailure(events)
  {
    if events != [] {
      var before := events[..|events| - 1];
      FailureReportedIff(before);
      assert events[|events| - 1].IsFailure() ==> AnyFailure(events);
      if AnyFailure(before) {
        var i :| 0 <= i < |before| && before[i].IsFailure();
        assert events[i].IsFailure();
      }
      if AnyFailure(events) && !events[|events| - 1].IsFailure() {
        var i :| 0 <= i < |events| && events[i].IsFailure();
        assert before[i].IsFailure();
      }
    }
  }

  /** A run that is not cancelled ends in `response.completed` exactly when no
      handled event failed. So an event source that raises before it has yielded
      a failure is reported as completed, although its handler means to emit a
      failed frame. */
  lemma CompletedIff(out: seq<Frame>, events: seq<Event>)
    requires GoodStream(out, events, false)
    ensures out[|out| - 1].body.Completed? <==> !AnyFailure(events)
    ensures out[|out| - 1].body.Failed? <==> AnyFailure(events)
  {
    hide Read, Watch;
    FailureReportedIff(events);
  }
}
