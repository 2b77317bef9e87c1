/** The event stream of the Responses API and the grammar it must obey, stated as
    a monitor that reads a stream from left to right. */
module ResponsesWire {
  import opened PyText

  datatype ItemStatus = ItemComplete | ItemIncomplete

  /** A message item; its content parts are all of type `output_text`. */
  datatype OutputItem = OutputItem(id: string, status: ItemStatus, content: seq<string>)

  datatype Usage = Usage(inputTokens: int, outputTokens: int, totalTokens: int, reasoningTokens: int)

  datatype Error = Error(code: string, message: string)

  datatype Body =
    | Created
    | InProgress
    | ItemAdded(index: nat, addedId: Option<string>)
    | PartAdded(index: nat, addedId: Option<string>)
    | TextDelta(index: nat, itemId: string, delta: string)
    | TextDone(index: nat, itemId: string, text: string)
    | PartDone(index: nat, itemId: string, text: string)
    | ItemDone(index: nat, item: OutputItem)
    | ErrorFrame(error: Error)
    | Completed(output: seq<OutputItem>, usage: Option<Usage>)
    | Failed(output: seq<OutputItem>, failure: Option<Error>)
    | Cancelled(output: seq<OutputItem>)
  {
    predicate IsTerminal() {
      Completed? || Failed? || Cancelled?
    }
  }

  datatype Frame = Frame(sequenceNumber: nat, body: Body)

  /** Where a reader stands in the stream. `Bracket` phases lie between an
      `output_item.added` and its `output_item.done`. */
  datatype Phase =
    | Silent
    | Between
    | Announced(addedId: Option<string>)
    | Open(addedId: Option<string>)
    | Streaming(itemId: string, soFar: string)
    | TextClosed(itemId: string, text: string)
    | PartClosed(itemId: string, text: string)
    | Ended
    | Broken

  /** What a reader has seen: the phase, the items of all `output_item.done`
      frames in order, whether `response.in_progress` came, the last error, and
      whether every bracket so far kept the item id it was announced with. */
  datatype Monitor = Monitor(phase: Phase, done: seq<OutputItem>, inProgress: bool,
                             lastError: Option<Error>, idsKept: bool)

  const START := Monitor(Silent, [], false, None, true)

  function KeepId(m: Monitor, id: string): bool {
    m.idsKept && (m.phase.Open? ==> m.phase.addedId == Some(id))
  }

  /** One frame. Brackets never nest, the k-th bracket is numbered k in all its
      frames, its frames come in one order, its deltas add up to the text that
      closes it, that text is the item's content unless the item is incomplete
      and empty, and a terminal frame lists exactly the items done so far. */
  function Read(m: Monitor, b: Body): Monitor {
    var broken := m.(phase := Broken);
    var k := |m.done|;
    match b
    case Created =>
      if m.phase.Silent? then m.(phase := Between) else broken
    case InProgress =>
      if (m.phase.Between? || m.phase.Open?) && !m.inProgress then m.(inProgress := true) else broken
    case ErrorFrame(e) =>
      if m.phase.Between? || m.phase.Open? then m.(lastError := Some(e)) else broken
    case ItemAdded(i, id) =>
      if m.phase.Between? && i == k then m.(phase := Announced(id)) else broken
    case PartAdded(i, id) =>
      if m.phase == Announced(id) && i == k then m.(phase := Open(id)) else broken
    case TextDelta(i, id, d) =>
      if i != k || d == "" then broken
      else if m.phase.Open? then m.(phase := Streaming(id, d), idsKept := KeepId(m, id))
      else if m.phase.Streaming? && m.phase.itemId == id then m.(phase := Streaming(id, m.phase.soFar + d))
      else broken
    case TextDone(i, id, t) =>
      if i == k && ((m.phase.Open? && t == "") || m.phase == Streaming(id, t)) then
        m.(phase := TextClosed(id, t), idsKept := KeepId(m, id))
      else broken
    case PartDone(i, id, t) =>
      if i == k && m.phase == TextClosed(id, t) then m.(phase := PartClosed(id, t)) else broken
    case ItemDone(i, item) =>
      if i == k && m.phase.PartClosed? && item.id == m.phase.itemId
         && (item == OutputItem(item.id, ItemComplete, [m.phase.text])
             || (m.phase.text == "" && item == OutputItem(item.id, ItemIncomplete, [])))
      then m.(phase := Between, done := m.done + [item])
      else broken
    case Completed(output, _) =>
      if (m.phase.Between? || m.phase.Open?) && output == m.done then m.(phase := Ended) else broken
    case Failed(output, failure) =>
      if (m.phase.Between? || m.phase.Open?) && output == m.done && failure == m.lastError && failure.Some?
      then m.(phase := Ended) else broken
    case Cancelled(output) =>
      if m.phase.Between? && output == m.done then m.(phase := Ended) else broken
  }

  lemma ReadOpening(m: Monitor, k: nat, id: Option<string>)
    requires m.phase.Between? && k == |m.done|
    ensures Read(Read(m, ItemAdded(k, id)), PartAdded(k, id)) == m.(phase := Open(id))
  {}

  lemma ReadDelta(m: Monitor, k: nat, id: string, d: string, soFar: string)
    requires d != "" && k == |m.done| && ((m.phase.Open? && soFar == "") || m.phase == Streaming(id, soFar))
    ensures Read(m, TextDelta(k, id, d)) == m.(phase := Streaming(id, soFar + d), idsKept := KeepId(m, id))
  {
    assert "" + d == d;
  }

  lemma ReadClosing(m: Monitor, k: nat, id: string, text: string, item: OutputItem)
    requires k == |m.done| && ((m.phase.Open? && text == "") || m.phase == Streaming(id, text))
    requires item == OutputItem(id, ItemComplete, [text]) || (text == "" && item == OutputItem(id, ItemIncomplete, []))
    ensures Read(Read(Read(m, TextDone(k, id, text)), PartDone(k, id, text)), ItemDone(k, item))
            == m.(phase := Between, done := m.done + [item], idsKept := KeepId(m, id))
  {}

  lemma ReadCancelled(m: Monitor)
    requires m.phase.Between?
    ensures Read(m, Cancelled(m.done)) == m.(phase := Ended)
  {}

  function Watch(m: Monitor, trace: seq<Frame>): Monitor {
    if trace == [] then m else Read(Watch(m, trace[..|trace| - 1]), trace[|trace| - 1].body)
  }

  /** Sequence numbers run 0, 1, 2, ... without gap. */
  predicate Numbered(trace: seq<Frame>) {
    forall i :: 0 <= i < |trace| ==> trace[i].sequenceNumber == i
  }

  lemma {:induction false} WatchAppend(m: Monitor, a: seq<Frame>, b: seq<Frame>)
    ensures Watch(m, a + b) == Watch(Watch(m, a), b)
  {
    if b == [] {
      assert a + b == a;
    } else {
      assert (a + b)[..|a + b| - 1] == a + b[..|b| - 1];
      WatchAppend(m, a, b[..|b| - 1]);
    }
  }

  /** The items of all `output_item.done` frames, in order. */
  function DoneItems(trace: seq<Frame>): seq<OutputItem> {
    if trace == [] then []
    else DoneItems(trace[..|trace| - 1]) +
         (var b := trace[|trace| - 1].body; if b.ItemDone? then [b.item] else [])
  }

  function IndexOf(b: Body): Option<nat> {
    if b.ItemAdded? || b.PartAdded? || b.TextDelta? || b.TextDone? || b.PartDone? || b.ItemDone?
    then Some(b.index) else None
  }

  lemma ReadOk(m: Monitor, b: Body)
    requires Read(m, b).phase != Broken
    ensures m.phase != Broken && m.phase != Ended && Read(m, b).phase != Silent
    ensures IndexOf(b).Some? ==> IndexOf(b).value == |m.done|
    ensures Read(m, b).phase == Ended <==> b.IsTerminal()
    ensures Read(m, b).done == m.done + (if b.ItemDone? then [b.item] else [])
  {}

  /** What acceptance by the monitor means frame by frame: every indexed frame
      carries the number of items done before it, so brackets are numbered 0, 1,
      2, ...; a terminal frame can only be the last, and lists the items done. */
  lemma {:induction false} AcceptedMeans(trace: seq<Frame>)
    requires Watch(START, trace).phase != Broken
    ensures Watch(START, trace).done == DoneItems(trace)
    ensures forall i :: 0 <= i < |trace| && IndexOf(trace[i].body).Some? ==>
                          IndexOf(trace[i].body).value == |DoneItems(trace[..i])|
    ensures forall i :: 0 <= i < |trace| - 1 ==> !trace[i].body.IsTerminal()
    ensures Watch(START, trace).phase == Ended <==> trace != [] && trace[|trace| - 1].body.IsTerminal()
    ensures Watch(START, trace).phase == Silent <==> trace == []
  {
    hide Read;
    if trace != [] {
      var before := trace[..|trace| - 1];
      ReadOk(Watch(START, before), trace[|trace| - 1].body);
      AcceptedMeans(before);
      forall i | 0 <= i < |before|
        ensures before[i] == trace[i] && before[..i] == trace[..i]
      {}
    }
  }

  // ------------------------------------------------------ the shape of a bracket

  /** The deltas from `d` up to `e`, joined. */
  function TextFrom(trace: seq<Frame>, d: nat, e: nat): string
    requires d <= e <= |trace|
    decreases e - d
  {
    if d == e then "" else
    TextFrom(trace, d, e - 1) + (if trace[e - 1].body.TextDelta? then trace[e - 1].body.delta else "")
  }

  lemma {:induction false} TextStays(trace: seq<Frame>, f: Frame, d: nat, e: nat)
    requires d <= e <= |trace|
    ensures TextFrom(trace + [f], d, e) == TextFrom(trace, d, e)
    decreases e - d
  {
    if d < e {
      TextStays(trace, f, d, e - 1);
    }
  }

  /** An item and its part are announced at `a`, and nothing but progress and errors
      follows up to `d`. */
  predicate Opens(trace: seq<Frame>, a: nat, d: nat, k: nat) {
    && a + 2 <= d <= |trace|
    && trace[a].body.ItemAdded? && trace[a].body.index == k
    && trace[a + 1].body == PartAdded(k, trace[a].body.addedId)
    && forall j :: a + 2 <= j < d ==> trace[j].body.InProgress? || trace[j].body.ErrorFrame?
  }

  /** Deltas of one item, none empty, from `d` up to `e`. */
  predicate AreDeltas(trace: seq<Frame>, d: nat, e: nat, k: nat, itemId: string) {
    && d <= e <= |trace|
    && forall j :: d <= j < e ==>
         && trace[j].body.TextDelta? && trace[j].body.index == k && trace[j].body.itemId == itemId
         && trace[j].body.delta != ""
  }

  /** What a reader's place in the stream says about the frames behind it. */
  predicate Shape(m: Monitor, trace: seq<Frame>, a: nat, d: nat) {
    var n, k := |trace|, |m.done|;
    match m.phase
    case Announced(id) => n > 0 && a == n - 1 && trace[a].body == ItemAdded(k, id)
    case Open(id) => d == n && Opens(trace, a, d, k) && trace[a].body.addedId == id
    case Streaming(itemId, soFar) =>
      && Opens(trace, a, d, k) && d < n && (m.idsKept ==> trace[a].body.addedId == Some(itemId))
      && AreDeltas(trace, d, n, k, itemId) && TextFrom(trace, d, n) == soFar
    case TextClosed(itemId, text) =>
      && Opens(trace, a, d, k) && d < n && (m.idsKept ==> trace[a].body.addedId == Some(itemId))
      && AreDeltas(trace, d, n - 1, k, itemId) && TextFrom(trace, d, n - 1) == text
      && trace[n - 1].body == TextDone(k, itemId, text)
    case PartClosed(itemId, text) =>
      && Opens(trace, a, d, k) && d + 1 < n && (m.idsKept ==> trace[a].body.addedId == Some(itemId))
      && AreDeltas(trace, d, n - 2, k, itemId) && TextFrom(trace, d, n - 2) == text
      && trace[n - 2].body == TextDone(k, itemId, text) && trace[n - 1].body == PartDone(k, itemId, text)
    case _ => true
  }

  lemma OpensStays(trace: seq<Frame>, f: Frame, a: nat, d: nat, k: nat)
    ensures Opens(trace, a, d, k) ==> Opens(trace + [f], a, d, k)
    ensures forall e, itemId :: AreDeltas(trace, d, e, k, itemId) ==> AreDeltas(trace + [f], d, e, k, itemId)
  {}

  lemma OpeningStep(m: Monitor, trace: seq<Frame>, f: Frame, a: nat, d: nat) returns (a': nat, d': nat)
    requires Shape(m, trace, a, d) && !m.phase.Streaming? && !m.phase.TextClosed? && !m.phase.PartClosed?
    ensures Shape(Read(m, f.body), trace + [f], a', d')
  {
    var all, n := trace + [f], |trace|;
    assert all[n] == f;
    OpensStays(trace, f, a, d, |m.done|);
    a', d' := a, d;
    if m.phase.Between? {
      a' := n;
    } else if m.phase.Announced? {
      assert all[a] == trace[a];
      d' := n + 1;
    } else if m.phase.Open? {
      if f.body.TextDelta? {
        assert TextFrom(all, n, n) == "";
        assert "" + f.body.delta == f.body.delta;
      } else if !f.body.TextDone? {
        d' := n + 1;
      }
    }
  }

  lemma StreamingStep(m: Monitor, trace: seq<Frame>, f: Frame, a: nat, d: nat)
    requires Shape(m, trace, a, d) && m.phase.Streaming?
    ensures Shape(Read(m, f.body), trace + [f], a, d)
  {
    var all, n := trace + [f], |trace|;
    assert all[n] == f;
    OpensStays(trace, f, a, d, |m.done|);
    TextStays(trace, f, d, n);
    hide Opens;
    if f.body.TextDelta? && f.body.delta != "" && f.body.index == |m.done| && f.body.itemId == m.phase.itemId {
      assert AreDeltas(all, d, n + 1, |m.done|, m.phase.itemId);
    }
    hide AreDeltas;
  }

  lemma ClosingStep(m: Monitor, trace: seq<Frame>, f: Frame, a: nat, d: nat)
    requires Shape(m, trace, a, d) && (m.phase.TextClosed? || m.phase.PartClosed?)
    ensures Shape(Read(m, f.body), trace + [f], a, d)
  {
    var all, n := trace + [f], |trace|;
    assert all[n] == f && all[n - 1] == trace[n - 1];
    OpensStays(trace, f, a, d, |m.done|);
    if m.phase.TextClosed? {
      TextStays(trace, f, d, n - 1);
    }
    hide Opens, AreDeltas;
  }

  lemma {:induction false} ShapeOf(trace: seq<Frame>) returns (a: nat, d: nat)
    ensures Shape(Watch(START, trace), trace, a, d)
  {
    hide Shape;
    if trace == [] {
      a, d := 0, 0;
      NoShape();
    } else {
      var n := |trace| - 1;
      a, d := ShapeOf(trace[..n]);
      var m := Watch(START, trace[..n]);
      if m.phase.Streaming? {
        StreamingStep(m, trace[..n], trace[n], a, d);
      } else if m.phase.TextClosed? || m.phase.PartClosed? {
        ClosingStep(m, trace[..n], trace[n], a, d);
      } else {
        a, d := OpeningStep(m, trace[..n], trace[n], a, d);
      }
      assert trace[..n] + [trace[n]] == trace;
    }
  }

  lemma NoShape()
    ensures Shape(START, [], 0, 0)
  {}

  /** The frames of the bracket that ends at `i`, one by one. */
  predicate IsBracket(trace: seq<Frame>, a: nat, d: nat, i: nat) {
    && a + 2 <= d && d + 2 <= i < |trace| && trace[i].body.ItemDone?
    && var k, item, text := trace[i].body.index, trace[i].body.item, TextFrom(trace, d, i - 2);
       && Opens(trace, a, d, k) && AreDeltas(trace, d, i - 2, k, item.id)
       && trace[i - 2].body == TextDone(k, item.id, text) && trace[i - 1].body == PartDone(k, item.id, text)
       && (item == OutputItem(item.id, ItemComplete, [text]) ||
           (text == "" && item == OutputItem(item.id, ItemIncomplete, [])))
  }

  lemma IdsLost(m: Monitor, b: Body)
    ensures Read(m, b).idsKept ==> m.idsKept
  {}

  lemma {:induction false} NotBrokenBefore(trace: seq<Frame>, i: nat)
    requires i <= |trace| && Watch(START, trace).phase != Broken
    ensures Watch(START, trace[..i]).phase != Broken
    ensures Watch(START, trace).idsKept ==> Watch(START, trace[..i]).idsKept
  {
    hide Read;
    if i < |trace| {
      var n := |trace| - 1;
      ReadOk(Watch(START, trace[..n]), trace[n].body);
      IdsLost(Watch(START, trace[..n]), trace[n].body);
      NotBrokenBefore(trace[..n], i);
      assert trace[..n][..i] == trace[..i];
    } else {
      assert trace[..i] == trace;
    }
  }

  lemma BracketAdds(trace: seq<Frame>, a: nat, d: nat, i: nat)
    requires IsBracket(trace, a, d, i)
    ensures trace[a].body.ItemAdded?
  {}

  lemma ReadItemDone(m: Monitor, b: Body)
    requires b.ItemDone? && Read(m, b).phase != Broken
    ensures m.phase.PartClosed? && b.index == |m.done| && b.item.id == m.phase.itemId
    ensures b.item == OutputItem(b.item.id, ItemComplete, [m.phase.text])
            || (m.phase.text == "" && b.item == OutputItem(b.item.id, ItemIncomplete, []))
  {}

  lemma BracketEnds(m: Monitor, before: seq<Frame>, trace: seq<Frame>, a: nat, d: nat)
    requires |before| < |trace| && before == trace[..|before|] && Shape(m, before, a, d) && m.phase.PartClosed?
    requires var b := trace[|before|].body;
             && b.ItemDone? && b.index == |m.done| && b.item.id == m.phase.itemId
             && (b.item == OutputItem(b.item.id, ItemComplete, [m.phase.text])
                 || (m.phase.text == "" && b.item == OutputItem(b.item.id, ItemIncomplete, [])))
    ensures IsBracket(trace, a, d, |before|)
    ensures m.idsKept ==> trace[a].body.addedId == Some(trace[|before|].body.item.id)
  {
    var i := |before|;
    forall j | 0 <= j < i ensures before[j] == trace[j] {}
    SameText(before, trace, d, i - 2);
  }

  /** Every finished item of an accepted stream ends a bracket of just this shape, under
      the id it was announced with if the monitor has seen them kept. */
  lemma BracketsAre(trace: seq<Frame>, i: nat) returns (a: nat, d: nat)
    requires Watch(START, trace).phase != Broken && i < |trace| && trace[i].body.ItemDone?
    ensures IsBracket(trace, a, d, i)
    ensures Watch(START, trace).idsKept ==>
              trace[a].body.ItemAdded? && trace[a].body.addedId == Some(trace[i].body.item.id)
  {
    hide Shape, IsBracket, Read;
    var before := trace[..i];
    NotBrokenBefore(trace, i + 1);
    assert trace[..i + 1][..i] == before;
    a, d := ShapeOf(before);
    assert Watch(START, trace[..i + 1]) == Read(Watch(START, before), trace[i].body);
    ReadItemDone(Watch(START, before), trace[i].body);
    NotBrokenBefore(trace, i);
    BracketEnds(Watch(START, before), before, trace, a, d);
    assert IsBracket(trace, a, d, i) && trace[a].body.ItemAdded? by {
      BracketAdds(trace, a, d, i);
    }
  }

  lemma {:induction false} SameText(before: seq<Frame>, trace: seq<Frame>, d: nat, e: int)
    requires before <= trace && d <= e <= |before|
    ensures TextFrom(before, d, e) == TextFrom(trace, d, e)
    decreases e
  {
    if d < e {
      SameText(before, trace, d, e - 1);
    }
  }
}
