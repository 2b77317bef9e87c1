/** The event log of a job and its subscribers: publishing, and the replay that
    turns into a live subscription (`src/workers/event_publisher.py`,
    `_replay_then_subscribe` in `src/gateway/routes/jobs.py`). Publishing is one
    step: no subscription begins between the append and the announcement. */
module JobEvents {
  import opened PyText

  /** A raw entry: what `json.loads` rejects, or an object with its `type` and its
      whole text. */
  datatype Entry = Garbled | Entry(kind: Option<string>, data: string) {
    predicate IsTerminal() {
      Entry? && kind.Some? && kind.value in TERMINAL_EVENT_TYPES
    }
  }

  const TERMINAL_EVENT_TYPES := {"job.completed", "job.failed", "job.cancelled"}

  predicate Over(shown: seq<Entry>) {
    shown != [] && shown[|shown| - 1].IsTerminal()
  }

  /** What a subscriber fed with these entries is shown: the decodable ones, through
      the first terminal event. */
  function Shown(entries: seq<Entry>): seq<Entry> {
    if entries == [] then [] else
    var before, last := Shown(entries[..|entries| - 1]), entries[|entries| - 1];
    if Over(before) || last.Garbled? then before else before + [last]
  }

  lemma ShownStep(entries: seq<Entry>, e: Entry)
    ensures Shown(entries + [e]) == if Over(Shown(entries)) || e.Garbled? then Shown(entries) else Shown(entries) + [e]
    ensures !Over(Shown(entries)) && !e.Garbled? ==> (Over(Shown(entries + [e])) <==> e.IsTerminal())
  {
    assert (entries + [e])[..|entries|] == entries;
  }

  class EventStore {
    var log: seq<Entry>
    var subscribed: bool
    var inbox: seq<Entry>

    method Publish(e: Entry)
      modifies this
      ensures log == old(log) + [e] && subscribed == old(subscribed)
      ensures inbox == if subscribed then old(inbox) + [e] else old(inbox)
    {
      log := log + [e];
      if subscribed {
        inbox := inbox + [e];
      }
    }

    /** Others publish while the subscriber is suspended. */
    method PublishAll(events: seq<Entry>)
      modifies this
      ensures log == old(log) + events && subscribed == old(subscribed)
      ensures inbox == if subscribed then old(inbox) + events else old(inbox)
    {
      for i := 0 to |events|
        invariant log == old(log) + events[..i] && subscribed == old(subscribed)
        invariant inbox == if subscribed then old(inbox) + events[..i] else old(inbox)
      {
        assert events[..i + 1] == events[..i] + [events[i]];
        Publish(events[i]);
      }
      assert events[..|events|] == events;
    }

    method Subscribe()
      requires !subscribed
      modifies this
      ensures subscribed && inbox == [] && log == old(log)
    {
      subscribed, inbox := true, [];
    }

    /** The next message, if there is one by the end of the poll. */
    method GetMessage() returns (msg: Option<Entry>)
      modifies this
      ensures log == old(log) && subscribed == old(subscribed)
      ensures if old(inbox) == [] then msg == None && inbox == []
              else msg == Some(old(inbox)[0]) && inbox == old(inbox)[1..]
    {
      if inbox == [] {
        return None;
      }
      msg, inbox := Some(inbox[0]), inbox[1..];
    }
  }

  /** One suspension of the subscriber: what others publish meanwhile, whether the
      client turns out to be gone, and whether the poll brings a frame that is not a
      message. */
  datatype Wait = Wait(published: seq<Entry>, gone: bool, noise: bool)

  datatype Ending = Closed | ClientGone | StillListening

  /** The part of the log that a replay of `n` entries and a subscription from `m`
      to `k` deliver. */
  function Heard(log: seq<Entry>, n: nat, m: nat, k: nat): seq<Entry>
    requires n <= m <= k <= |log|
  {
    log[..n] + log[m..k]
  }

  /** How much is published during the first `i` polls. */
  function Published(polling: nat -> Wait, i: nat): nat {
    if i == 0 then 0 else Published(polling, i - 1) + |polling(i - 1).published|
  }

  /** How many messages the first `i` polls take: one each, where there is one. */
  function Taken(polling: nat -> Wait, i: nat): (r: nat)
    ensures r <= Published(polling, i)
  {
    if i == 0 then 0 else
    var before := Taken(polling, i - 1);
    if polling(i - 1).noise || before == Published(polling, i) then before else before + 1
  }

  /** Once publishing stops, a subscriber catches up. */
  lemma {:induction false} CatchesUp(polling: nat -> Wait, from: nat, polls: nat)
    requires from <= polls && forall i :: from <= i < polls ==> polling(i).published == [] && !polling(i).noise
    ensures Published(polling, polls) == Published(polling, from)
    ensures Taken(polling, polls) >= Taken(polling, from)
    ensures Taken(polling, polls) == Published(polling, polls) || Taken(polling, polls) >= polls - from
  {
    if from < polls {
      CatchesUp(polling, from, polls - 1);
    }
  }

  /** `_replay_then_subscribe`, watched for a number of polls, against any
      interleaving of publishers. What is yielded comes from the log as of the
      replay and from the contiguous run of it that the subscription has delivered;
      only what is published between the two is lost. */
  method ReplayThenSubscribe(store: EventStore, before: seq<Entry>, replaying: nat -> Wait, between: seq<Entry>,
                             polling: nat -> Wait, polls: nat)
    returns (shown: seq<Entry>, ending: Ending, n: nat, m: nat, k: nat)
    requires !store.subscribed
    modifies store
    ensures old(store.log) + before <= store.log
    ensures n <= |old(store.log) + before| <= m <= k <= |store.log|
    ensures shown == Shown(Heard(store.log, n, m, k))
    ensures ending.Closed? <==> Over(shown)
    ensures n < |old(store.log) + before| ==> !ending.StillListening? && m == k
    ensures ending.StillListening? ==> store.subscribed && store.inbox == store.log[k..]
    ensures ending.StillListening? ==> k == m + Taken(polling, polls) && |store.log| == m + Published(polling, polls)
    ensures ending.StillListening? ==>
              forall i :: (0 <= i < n ==> !replaying(i).gone) && (0 <= i < polls ==> !polling(i).gone)
    ensures ending.ClientGone? ==>
              if n < |old(store.log) + before| then replaying(n).gone
              else exists i :: 0 <= i < polls && polling(i).gone
    ensures !ending.StillListening? ==> !store.subscribed
  {
    hide Shown, Over, Taken, Published;
    NothingShown();
    shown := [];
    store.PublishAll(before);
    var backlog := store.log;
    n, m, k := 0, |backlog|, |backlog|;
    while n < |backlog|
      invariant n <= |backlog| && backlog <= store.log && !store.subscribed
      invariant shown == Shown(backlog[..n]) && !Over(shown)
      invariant forall i :: 0 <= i < n ==> !replaying(i).gone
    {
      store.PublishAll(replaying(n).published);
      assert Heard(store.log, n, m, m) == backlog[..n];
      if replaying(n).gone {
        return shown, ClientGone, n, m, k;
      }
      ShownStep(backlog[..n], backlog[n]);
      assert backlog[..n + 1] == backlog[..n] + [backlog[n]];
      n := n + 1;
      assert Heard(store.log, n, m, m) == backlog[..n];
      if !backlog[n - 1].Garbled? {
        shown := shown + [backlog[n - 1]];
        if backlog[n - 1].IsTerminal() {
          return shown, Closed, n, m, k;
        }
      }
    }
    store.PublishAll(between);
    store.Subscribe();
    m := |store.log|;
    assert store.log[..n] == backlog[..n];
    shown, ending, k := Listen(store, n, shown, polling, polls);
  }

  /** The live half. */
  method Listen(store: EventStore, n: nat, replayed: seq<Entry>, polling: nat -> Wait, polls: nat)
    returns (shown: seq<Entry>, ending: Ending, k: nat)
    requires store.subscribed && store.inbox == [] && n <= |store.log|
    requires replayed == Shown(store.log[..n]) && !Over(replayed)
    modifies store
    ensures old(store.log) <= store.log && |old(store.log)| <= k <= |store.log|
    ensures shown == Shown(Heard(store.log, n, |old(store.log)|, k))
    ensures ending.Closed? <==> Over(shown)
    ensures ending.StillListening? ==> store.subscribed && store.inbox == store.log[k..]
    ensures ending.StillListening? ==>
              && k == |old(store.log)| + Taken(polling, polls)
              && |store.log| == |old(store.log)| + Published(polling, polls)
    ensures ending.StillListening? ==> forall i :: 0 <= i < polls ==> !polling(i).gone
    ensures ending.ClientGone? ==> exists i :: 0 <= i < polls && polling(i).gone
    ensures !ending.StillListening? ==> !store.subscribed
  {
    hide Shown, Over, Taken, Published, Heard;
    var m := |store.log|;
    shown, ending, k := replayed, StillListening, m;
    HearNothing(store.log, n, m);
    NoPolls(polling);
    for i := 0 to polls
      invariant ending.StillListening? && old(store.log) <= store.log && m <= k <= |store.log|
      invariant store.subscribed && store.inbox == store.log[k..]
      invariant k == m + Taken(polling, i) && |store.log| == m + Published(polling, i)
      invariant shown == Shown(Heard(store.log, n, m, k)) && !Over(shown)
      invariant forall j :: 0 <= j < i ==> !polling(j).gone
    {
      Unmoved(store.log, store.log + polling(i).published, n, m, k);
      OnePoll(polling, i);
      store.PublishAll(polling(i).published);
      if polling(i).gone {
        store.subscribed := false;
        return shown, ClientGone, k;
      }
      if polling(i).noise {
        continue;
      }
      var taken, over;
      shown, taken, over := TakeMessage(store, n, m, k, shown);
      k := k + taken;
      if over {
        store.subscribed := false;
        return shown, Closed, k;
      }
    }
  }

  /** One poll: the next message, if there is one, is shown unless it is garbled. */
  method TakeMessage(store: EventStore, n: nat, m: nat, k: nat, shown: seq<Entry>)
    returns (now: seq<Entry>, taken: nat, over: bool)
    requires n <= m <= k <= |store.log| && store.inbox == store.log[k..]
    requires shown == Shown(Heard(store.log, n, m, k)) && !Over(shown)
    modifies store
    ensures store.log == old(store.log) && store.subscribed == old(store.subscribed)
    ensures taken == if k < |store.log| then 1 else 0
    ensures store.inbox == store.log[k + taken..]
    ensures now == Shown(Heard(store.log, n, m, k + taken)) && (over <==> Over(now))
  {
    hide Shown, Over, Heard;
    now, taken, over := shown, 0, false;
    var msg := store.GetMessage();
    if msg.Some? {
      HearMore(store.log, n, m, k);
      taken := 1;
      if !msg.value.Garbled? {
        now := now + [msg.value];
        over := msg.value.IsTerminal();
      }
    }
  }

  lemma NoPolls(polling: nat -> Wait)
    ensures Taken(polling, 0) == 0 && Published(polling, 0) == 0
  {}

  lemma OnePoll(polling: nat -> Wait, i: nat)
    ensures Published(polling, i + 1) == Published(polling, i) + |polling(i).published|
    ensures Taken(polling, i + 1) ==
            Taken(polling, i) + if polling(i).noise || Taken(polling, i) == Published(polling, i + 1) then 0 else 1
  {}

  /** What is heard does not depend on what the log gains later. */
  lemma Unmoved(log: seq<Entry>, longer: seq<Entry>, n: nat, m: nat, k: nat)
    requires log <= longer && n <= m <= k <= |log|
    ensures Heard(log, n, m, k) == Heard(longer, n, m, k)
  {}

  lemma HearNothing(log: seq<Entry>, n: nat, m: nat)
    requires n <= m <= |log|
    ensures Heard(log, n, m, m) == log[..n]
  {}

  lemma HearMore(log: seq<Entry>, n: nat, m: nat, k: nat)
    requires n <= m <= k < |log|
    ensures var heard, e := Shown(Heard(log, n, m, k)), log[k];
            && Shown(Heard(log, n, m, k + 1)) == (if Over(heard) || e.Garbled? then heard else heard + [e])
            && (!Over(heard) && !e.Garbled? ==> (Over(Shown(Heard(log, n, m, k + 1))) <==> e.IsTerminal()))
  {
    assert Heard(log, n, m, k + 1) == Heard(log, n, m, k) + [log[k]];
    ShownStep(Heard(log, n, m, k), log[k]);
  }

  lemma NothingShown()
    ensures Shown([]) == [] && !Over(Shown([]))
  {}

  /** A terminal event settles what is shown, whatever follows. */
  lemma {:induction false} ShownStays(entries: seq<Entry>, more: seq<Entry>)
    requires Over(Shown(entries))
    ensures Shown(entries + more) == Shown(entries)
  {
    if more == [] {
      assert entries + more == entries;
    } else {
      var n := |more| - 1;
      ShownStays(entries, more[..n]);
      assert entries + more == entries + more[..n] + [more[n]];
      ShownStep(entries + more[..n], more[n]);
    }
  }

  // ------------------------------------------------------- what gets through

  predicate HasTerminal(entries: seq<Entry>) {
    exists i :: 0 <= i < |entries| && entries[i].IsTerminal()
  }

  predicate AllGarbled(entries: seq<Entry>) {
    forall i :: 0 <= i < |entries| ==> entries[i].Garbled?
  }

  lemma TerminalIn(a: seq<Entry>, b: seq<Entry>)
    ensures HasTerminal(a + b) <==> HasTerminal(a) || HasTerminal(b)
  {
    var ab := a + b;
    forall i | 0 <= i < |ab| && ab[i].IsTerminal() ensures HasTerminal(a) || HasTerminal(b) {
      if i < |a| {
        assert a[i].IsTerminal();
      } else {
        assert b[i - |a|].IsTerminal();
      }
    }
    forall i | 0 <= i < |a| && a[i].IsTerminal() ensures HasTerminal(ab) {
      assert ab[i].IsTerminal();
    }
    forall i | 0 <= i < |b| && b[i].IsTerminal() ensures HasTerminal(ab) {
      assert ab[|a| + i].IsTerminal();
    }
  }

  lemma {:induction false} OverIffTerminal(entries: seq<Entry>)
    ensures Over(Shown(entries)) <==> HasTerminal(entries)
  {
    hide Shown, Over;
    NothingShown();
    if entries != [] {
      var n := |entries| - 1;
      var before, last := entries[..n], entries[n..];
      OverIffTerminal(before);
      assert entries == before + last && last == [entries[n]];
      assert HasTerminal(last) <==> last[0].IsTerminal();
      TerminalIn(before, last);
      ShownStep(before, entries[n]);
    }
  }

  /** With its terminal event already in the backlog, a subscriber gets exactly the
      log through that event, whatever else happens. */
  lemma ReplayOfFinishedJob(log: seq<Entry>, n: nat, m: nat, k: nat)
    requires n <= m <= k <= |log| && HasTerminal(log[..n])
    ensures Shown(Heard(log, n, m, k)) == Shown(log) && Over(Shown(log))
  {
    OverIffTerminal(log[..n]);
    ShownStays(log[..n], log[m..k]);
    ShownStays(log[..n], log[n..]);
    assert log[..n] + log[n..] == log;
  }

  lemma {:induction false} ShownOfOpen(a: seq<Entry>, b: seq<Entry>)
    requires !HasTerminal(a)
    ensures Shown(a + b) == Shown(a) + Shown(b)
  {
    hide Shown, Over;
    NothingShown();
    OverIffTerminal(a);
    if b == [] {
      assert a + b == a;
    } else {
      var n := |b| - 1;
      ShownOfOpen(a, b[..n]);
      assert a + b == a + b[..n] + [b[n]] && b == b[..n] + [b[n]];
      ShownStep(a + b[..n], b[n]);
      ShownStep(b[..n], b[n]);
      OverOfSum(Shown(a), Shown(b[..n]));
    }
  }

  lemma OverOfSum(a: seq<Entry>, b: seq<Entry>)
    requires !Over(a)
    ensures Over(a + b) <==> Over(b)
  {}

  lemma {:induction false} NothingShownIff(entries: seq<Entry>)
    ensures Shown(entries) == [] <==> AllGarbled(entries)
  {
    if entries != [] {
      var n := |entries| - 1;
      NothingShownIff(entries[..n]);
      assert entries == entries[..n] + [entries[n]];
    }
  }

  /** A log in which no two entries are terminal, as the job protocol keeps it. */
  predicate OneTerminal(log: seq<Entry>) {
    forall i, j :: 0 <= i < j < |log| ==> !(log[i].IsTerminal() && log[j].IsTerminal())
  }

  lemma OnlyOnce(a: seq<Entry>, b: seq<Entry>)
    requires OneTerminal(a + b)
    ensures !(HasTerminal(a) && HasTerminal(b))
  {
    if HasTerminal(a) {
      var i :| 0 <= i < |a| && a[i].IsTerminal();
      assert (a + b)[i] == a[i];
      forall j | 0 <= j < |b| ensures !b[j].IsTerminal() {
        assert (a + b)[|a| + j] == b[j];
      }
    }
  }

  /** What a subscriber that lost `b` is shown against the whole log. */
  lemma LossIs(a: seq<Entry>, b: seq<Entry>, c: seq<Entry>)
    requires OneTerminal(a + (b + c)) && OneTerminal((a + b) + c) && !HasTerminal(a)
    ensures Shown(a + c) == Shown(a) + Shown(c)
    ensures Shown(a + (b + c)) == Shown(a) + if HasTerminal(b) then Shown(b) else Shown(b) + Shown(c)
    ensures HasTerminal(b) ==> !HasTerminal(c) && !AllGarbled(b)
  {
    hide Shown;
    ShownOfOpen(a, c);
    ShownOfOpen(a, b + c);
    if HasTerminal(b) {
      TerminalIn(a, b);
      OnlyOnce(a + b, c);
      OverIffTerminal(b);
      ShownStays(b, c);
    } else {
      ShownOfOpen(b, c);
    }
  }

  /** A subscriber that has kept up misses nothing exactly when the job was over in
      the replay already or nothing was published between the replay and the
      subscription. */
  lemma NothingMissedIff(log: seq<Entry>, n: nat, m: nat)
    requires n <= m <= |log| && OneTerminal(log)
    ensures Shown(Heard(log, n, m, |log|)) == Shown(log) <==> HasTerminal(log[..n]) || AllGarbled(log[n..m])
  {
    hide Shown, OneTerminal, HasTerminal, AllGarbled, Over;
    var a, b, c := log[..n], log[n..m], log[m..];
    assert log == (a + b) + c && a + (b + c) == log;
    assert Heard(log, n, m, |log|) == a + c;
    if HasTerminal(a) {
      ReplayOfFinishedJob(log, n, m, |log|);
    } else {
      LossIs(a, b, c);
      NothingShownIff(b);
      OverIffTerminal(a);
      if HasTerminal(b) {
        OverIffTerminal(b);
        OverIffTerminal(c);
        OverOfSum(Shown(a), Shown(b));
        OverOfSum(Shown(a), Shown(c));
      } else {
        Shift(Shown(a), Shown(b), Shown(c));
      }
    }
  }

  lemma Shift(a: seq<Entry>, b: seq<Entry>, c: seq<Entry>)
    ensures a + c == a + (b + c) <==> b == []
  {
    assert |a + c| == |a + (b + c)| ==> b == [];
    assert b == [] ==> b + c == c;
  }

  /** A subscriber that is still connected is told of the end of a finished job
      exactly when the terminal event did not fall between the replay and the
      subscription. Otherwise it goes on waiting: there is no later one to end it. */
  lemma EndSeenIff(log: seq<Entry>, n: nat, m: nat)
    requires n <= m <= |log| && OneTerminal(log) && HasTerminal(log)
    ensures Over(Shown(Heard(log, n, m, |log|))) <==> !HasTerminal(log[n..m])
  {
    var a, b, c := log[..n], log[n..m], log[m..];
    assert log == (a + b) + c && a + (b + c) == log;
    assert Heard(log, n, m, |log|) == a + c;
    OverIffTerminal(a + c);
    TerminalIn(a, c);
    TerminalIn(a, b + c);
    TerminalIn(b, c);
    TerminalIn(a, b);
    OnlyOnce(a, b + c);
    OnlyOnce(a + b, c);
  }

  // ----------------------------------------------------------- on the wire

  function Frame(name: string, data: string): string {
    "event: " + name + "\ndata: " + data + "\n\n"
  }

  /** What goes out: frames, and the comments that keep the connection alive. */
  datatype Piece = Shows(name: string, data: string) | Keepalive

  const KEEPALIVE := ": keepalive\n\n"

  predicate OneLine(s: string) {
    '\n' !in s && '\r' !in s
  }

  /** Names and JSON texts hold no raw line breaks: `json.dumps` escapes them. */
  predicate Sendable(p: Piece) {
    p.Shows? ==> p.name != "" && OneLine(p.name) && OneLine(p.data)
  }

  function Wire(pieces: seq<Piece>): string {
    if pieces == [] then ""
    else (if pieces[0].Shows? then Frame(pieces[0].name, pieces[0].data) else KEEPALIVE) + Wire(pieces[1..])
  }

  function EventsIn(pieces: seq<Piece>): seq<(string, string)> {
    if pieces == [] then []
    else (if pieces[0].Shows? then [(pieces[0].name, pieces[0].data)] else []) + EventsIn(pieces[1..])
  }

  /** The event stream format of the HTML standard, section 9.2.6, as a client reads
      it: a blank line dispatches the fields gathered so far, a leading colon makes a
      comment, and one space after a field's colon is dropped. Carriage returns, which
      end lines too, do not occur. */
  datatype Pending = Pending(name: string, data: Option<string>)

  const FRESH := Pending("", None)

  function FieldValue(s: string): string {
    if s != "" && s[0] == ' ' then s[1..] else s
  }

  function TakeLine(p: Pending, line: string): Pending {
    if "event:" <= line then p.(name := FieldValue(line[6..]))
    else if "data:" <= line then
      var v := FieldValue(line[5..]);
      p.(data := Some(if p.data.Some? then p.data.value + "\n" + v else v))
    else p
  }

  /** The event a blank line dispatches, if any. */
  function Dispatched(p: Pending): seq<(string, string)> {
    if p.data.Some? then [(if p.name == "" then "message" else p.name, p.data.value)] else []
  }

  /** Name and data of each event dispatched. */
  function Received(wire: string, line: string, p: Pending): seq<(string, string)>
    decreases |wire|
  {
    if wire == "" then []
    else if wire[0] != '\n' then Received(wire[1..], line + [wire[0]], p)
    else if line != "" then Received(wire[1..], "", TakeLine(p, line))
    else Dispatched(p) + Received(wire[1..], "", FRESH)
  }

  lemma {:induction false} LineReceived(text: string, rest: string, line: string, p: Pending)
    requires OneLine(text)
    ensures Received(text + "\n" + rest, line, p) == Received("\n" + rest, line + text, p)
    decreases |text|
  {
    if text == "" {
      assert text + "\n" + rest == "\n" + rest && line + text == line;
    } else {
      assert (text + "\n" + rest)[1..] == text[1..] + "\n" + rest;
      LineReceived(text[1..], rest, line + [text[0]], p);
      assert line + [text[0]] + text[1..] == line + text;
    }
  }

  /** A whole line is taken in one go. */
  lemma FieldReceived(text: string, rest: string, p: Pending)
    requires OneLine(text) && text != ""
    ensures Received(text + "\n" + rest, "", p) == Received(rest, "", TakeLine(p, text))
  {
    LineReceived(text, rest, "", p);
    assert "" + text == text && ("\n" + rest)[1..] == rest;
  }

  lemma BlankReceived(rest: string, p: Pending)
    ensures Received("\n" + rest, "", p) ==
            Dispatched(p) + Received(rest, "", FRESH)
  {
    assert ("\n" + rest)[1..] == rest;
  }

  lemma FieldsTaken(p: Pending, value: string)
    ensures TakeLine(p, "event: " + value) == p.(name := value)
    ensures p.data.None? ==> TakeLine(p, "data: " + value) == p.(data := Some(value))
    ensures TakeLine(p, ": keepalive") == p
  {
    var named, text := "event: " + value, "data: " + value;
    assert named[6..] == " " + value && named[..6] == "event:";
    assert text[5..] == " " + value && text[..5] == "data:" && text[0] != 'e';
    assert (" " + value)[1..] == value;
    assert ": keepalive"[0] == ':';
  }

  lemma FrameReceived(name: string, data: string, rest: string)
    requires name != "" && OneLine(name) && OneLine(data)
    ensures Received(Frame(name, data) + rest, "", FRESH) == [(name, data)] + Received(rest, "", FRESH)
  {
    hide Received, TakeLine;
    var first, second := "event: " + name, "data: " + data;
    assert Frame(name, data) + rest == first + "\n" + (second + "\n" + ("\n" + rest));
    FieldReceived(first, second + "\n" + ("\n" + rest), FRESH);
    FieldsTaken(FRESH, name);
    FieldReceived(second, "\n" + rest, Pending(name, None));
    FieldsTaken(Pending(name, None), data);
    BlankReceived(rest, Pending(name, Some(data)));
  }

  lemma KeepaliveReceived(rest: string)
    ensures Received(KEEPALIVE + rest, "", FRESH) == Received(rest, "", FRESH)
  {
    hide Received, TakeLine;
    assert KEEPALIVE + rest == ": keepalive" + "\n" + ("\n" + rest);
    FieldReceived(": keepalive", "\n" + rest, FRESH);
    FieldsTaken(FRESH, "");
    BlankReceived(rest, FRESH);
  }

  /** An event source reading the bytes recovers every event in order, whatever
      keepalives are mixed in. */
  lemma {:induction false} ClientRecovers(pieces: seq<Piece>)
    requires forall i :: 0 <= i < |pieces| ==> Sendable(pieces[i])
    ensures Received(Wire(pieces), "", FRESH) == EventsIn(pieces)
  {
    hide Received, Frame;
    if pieces == [] {
      EmptyReceived();
    } else {
      ClientRecovers(pieces[1..]);
      if pieces[0].Shows? {
        FrameReceived(pieces[0].name, pieces[0].data, Wire(pieces[1..]));
      } else {
        KeepaliveReceived(Wire(pieces[1..]));
      }
    }
  }

  function Name(e: Entry): string {
    if e.Entry? && e.kind.Some? then e.kind.value else "message"
  }

  /** The pieces carry these entries, each in its frame, between keepalives. */
  predicate Carries(pieces: seq<Piece>, shown: seq<Entry>) {
    if pieces == [] then shown == []
    else if pieces[0].Keepalive? then Carries(pieces[1..], shown)
    else
      && shown != [] && shown[0].Entry? && pieces[0] == Shows(Name(shown[0]), shown[0].data)
      && Carries(pieces[1..], shown[1..])
  }

  predicate Writable(e: Entry) {
    e.Entry? ==> Name(e) != "" && OneLine(Name(e)) && OneLine(e.data)
  }

  lemma {:induction false} CarriedEvents(pieces: seq<Piece>, shown: seq<Entry>)
    requires Carries(pieces, shown) && forall e :: e in shown ==> Writable(e)
    ensures forall i :: 0 <= i < |pieces| ==> Sendable(pieces[i])
    ensures |EventsIn(pieces)| == |shown|
    ensures forall i :: 0 <= i < |shown| ==> shown[i].Entry? && EventsIn(pieces)[i] == (Name(shown[i]), shown[i].data)
  {
    if pieces != [] {
      var rest := if pieces[0].Keepalive? then shown else shown[1..];
      CarriedEvents(pieces[1..], rest);
      forall i | 0 <= i < |pieces| ensures Sendable(pieces[i]) {
        assert i > 0 ==> pieces[i] == pieces[1..][i - 1];
        assert pieces[0].Shows? ==> Writable(shown[0]);
      }
      forall i | 0 <= i < |shown| ensures shown[i].Entry? && EventsIn(pieces)[i] == (Name(shown[i]), shown[i].data) {
        assert pieces[0].Shows? && i > 0 ==> shown[i] == rest[i - 1];
      }
    }
  }

  /** So the client receives what the subscription shows: name and text of each entry,
      one event each, in order. */
  lemma ClientReceivesShown(pieces: seq<Piece>, shown: seq<Entry>)
    requires Carries(pieces, shown) && forall e :: e in shown ==> Writable(e)
    ensures var events := Received(Wire(pieces), "", FRESH);
            |events| == |shown| && forall i :: 0 <= i < |shown| ==>
              && shown[i].Entry? && events[i].1 == shown[i].data
              && events[i].0 == if shown[i].kind.Some? then shown[i].kind.value else "message"
  {
    hide Received, Wire;
    CarriedEvents(pieces, shown);
    ClientRecovers(pieces);
  }

  lemma EmptyReceived()
    ensures Received("", "", FRESH) == []
  {}
}

/** Subscribers of a job that follows the job protocol. */
module JobSubscribers {
  import opened PyText
  import opened JobEvents
  import Jobs = JobsTable
  import Protocol = JobProtocol

  function KindOf(e: Protocol.LogEvent): (r: string)
    ensures r in TERMINAL_EVENT_TYPES <==> e.IsTerminal()
  {
    match e
    case JobQueued => "job.queued"
    case JobStarted => "job.started"
    case CodexEvent => "job.codex_event"
    case DiffReady => "job.diff_ready"
    case JobCompleted => "job.completed"
    case JobFailed => "job.failed"
    case JobCancelled => "job.cancelled"
  }

  /** The entries that hold these events, with any texts. */
  predicate Records(entries: seq<Entry>, log: seq<Protocol.LogEvent>) {
    |entries| == |log| && forall i :: 0 <= i < |log| ==> entries[i].Entry? && entries[i].kind == Some(KindOf(log[i]))
  }

  lemma {:induction false} TerminalsFound(entries: seq<Entry>, log: seq<Protocol.LogEvent>)
    requires Records(entries, log)
    ensures Protocol.Terminals(log) == [] <==> !HasTerminal(entries)
    ensures |Protocol.Terminals(log)| <= 1 ==> OneTerminal(entries)
  {
    if log != [] {
      var n := |log| - 1;
      var before := entries[..n];
      TerminalsFound(before, log[..n]);
      TerminalIn(before, entries[n..]);
      assert before + entries[n..] == entries && entries[n..] == [entries[n]];
      assert HasTerminal(entries[n..]) <==> entries[n..][0].IsTerminal();
      forall i, j | 0 <= i < j < |entries| && |Protocol.Terminals(log)| <= 1
        ensures !(entries[i].IsTerminal() && entries[j].IsTerminal())
      {
        assert entries[i] == before[i];
        assert j < n ==> before[j] == entries[j];
      }
    }
  }

  /** The entry announces the end that the row shows. */
  ghost predicate EndOfRow(e: Entry, row: Option<Jobs.Status>) {
    exists p: Protocol.LogEvent ::
      p.IsTerminal() && e.Entry? && e.kind == Some(KindOf(p)) && row == Some(Protocol.StatusOf(p))
  }

  /** Once the worker of a job has finished, in whatever run, a subscriber that
      replayed `n` events, subscribed at `m` and kept up has been told of the end,
      and of the end that the row shows unless that is overridden, exactly when the
      terminal event was not published between the two; and it has been told everything through the end
      exactly when nothing was, or the replay already held the end. */
  lemma FinishedJobAsSeen(states: seq<Protocol.State>, actions: seq<Protocol.Action>, i: nat,
                          entries: seq<Entry>, n: nat, m: nat)
    requires Protocol.IsRun(states, actions) && i < |states| && states[i].worker.Finished?
    requires Records(entries, states[i].log) && n <= m <= |entries|
    ensures var shown := Shown(Heard(entries, n, m, |entries|));
            && (Over(shown) <==> !HasTerminal(entries[n..m]))
            && (Over(shown) ==> EndOfRow(shown[|shown| - 1], states[i].row) || Protocol.Overridden(states[i]))
            && (shown == Shown(entries) <==> HasTerminal(entries[..n]) || n == m)
  {
    hide Protocol.Terminals, Protocol.WorkerEvents, Shown, Protocol.IsRun, Protocol.Inv;
    var log := states[i].log;
    FinishedLog(states, actions, i);
    TerminalsFound(entries, log);
    EndSeenIff(entries, n, m);
    NothingMissedIff(entries, n, m);
    assert n < m ==> entries[n..m][0] == entries[n];
    assert AllGarbled(entries[n..m]) <==> n == m;
    if Over(Shown(Heard(entries, n, m, |entries|))) {
      EndMatchesRow(states, actions, i, entries, n, m);
    }
  }

  /** Such a loss happens: the job is enqueued, a subscriber replays its log, the job
      runs to its end, and only then does the subscription begin. */
  lemma EndCanBeLost()
    ensures exists t: Protocol.Trace, entries: seq<Entry> ::
              && Protocol.Good(t) && t.states != [] && Protocol.End(t).worker == Protocol.Finished(Jobs.Succeeded)
              && Records(entries, Protocol.End(t).log) && |entries| == 3 && HasTerminal(entries[1..3])
              && !Over(Shown(Heard(entries, 1, 3, |entries|)))
  {
    hide Protocol.Good, Protocol.IsRun;
    var t := Protocol.QueuedAndSeen();
    t := Protocol.Extend(t, Protocol.WorkerStep(Protocol.Proceed));
    t := Protocol.Extend(t, Protocol.WorkerStep(Protocol.Proceed));
    t := Protocol.RunToSuccess(t);
    assert Protocol.End(t).log == [Protocol.JobQueued, Protocol.JobStarted, Protocol.JobCompleted];
    var queued, started := Entry(Some("job.queued"), "{}"), Entry(Some("job.started"), "{}");
    var entries := [queued, started, Entry(Some("job.completed"), "{}")];
    assert Records(entries, Protocol.End(t).log);
    assert entries[1..3][1].IsTerminal();
    var heard := Heard(entries, 1, 3, |entries|);
    assert heard == [entries[0]];
    OverIffTerminal(heard);
  }

  lemma FinishedLog(states: seq<Protocol.State>, actions: seq<Protocol.Action>, i: nat)
    requires Protocol.IsRun(states, actions) && i < |states| && states[i].worker.Finished?
    ensures |Protocol.Terminals(states[i].log)| == 1
  {
    Protocol.RunKeepsInv(states, actions);
    assert Protocol.Inv(states[i]);
  }

  /** What a subscriber is shown last is one of the entries. */
  lemma {:induction false} ShownAreEntries(entries: seq<Entry>)
    ensures forall k :: 0 <= k < |Shown(entries)| ==> Shown(entries)[k] in entries
  {
    if entries != [] {
      ShownAreEntries(entries[..|entries| - 1]);
    }
  }

  lemma {:induction false} TerminalsHold(log: seq<Protocol.LogEvent>, k: nat)
    requires k < |log| && log[k].IsTerminal()
    ensures log[k] in Protocol.Terminals(log)
  {
    if k < |log| - 1 {
      TerminalsHold(log[..|log| - 1], k);
    }
  }

  lemma EndMatchesRow(states: seq<Protocol.State>, actions: seq<Protocol.Action>, i: nat,
                      entries: seq<Entry>, n: nat, m: nat)
    requires Protocol.IsRun(states, actions) && i < |states| && states[i].worker.Finished?
    requires Records(entries, states[i].log) && n <= m <= |entries|
    requires Over(Shown(Heard(entries, n, m, |entries|)))
    ensures var shown := Shown(Heard(entries, n, m, |entries|));
            EndOfRow(shown[|shown| - 1], states[i].row) || Protocol.Overridden(states[i])
  {
    hide Protocol.Terminals, Protocol.WorkerEvents, Shown, Heard, Protocol.IsRun, Protocol.Inv, Records;
    var k := ShownLast(entries, n, m);
    RecordedEnd(entries, states[i].log, k);
    Protocol.TerminalEventIsFinal(states, actions, i, i);
  }

  lemma ShownLast(entries: seq<Entry>, n: nat, m: nat) returns (k: nat)
    requires n <= m <= |entries| && Over(Shown(Heard(entries, n, m, |entries|)))
    ensures var shown := Shown(Heard(entries, n, m, |entries|)); k < |entries| && shown[|shown| - 1] == entries[k]
  {
    hide Shown;
    var heard := Heard(entries, n, m, |entries|);
    ShownAreEntries(heard);
    var last := Shown(heard)[|Shown(heard)| - 1];
    k :| k < |heard| && heard[k] == last;
    k := if k < n then k else k - n + m;
  }

  lemma RecordedEnd(entries: seq<Entry>, log: seq<Protocol.LogEvent>, k: nat)
    requires Records(entries, log) && k < |entries| && entries[k].IsTerminal()
    ensures entries[k].kind == Some(KindOf(log[k])) && log[k].IsTerminal() && log[k] in Protocol.Terminals(log)
  {
    TerminalsHold(log, k);
  }
}
