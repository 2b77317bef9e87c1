/** Recovering tool calls from model output (`src/chat/tool_calling.py`). */
module ToolCalling {
  import opened PyText
  import opened JsonText

  // -------------------------------------------------------------- the scanner

  /** Where the scan that stands at `i` with this state finds its closing brace:
      the position just after it, or None at the end of the text. */
  function MatchEnd(s: string, i: nat, depth: int, inString: bool, escapeNext: bool): (r: Option<nat>)
    requires i <= |s|
    ensures r.Some? ==> i < r.value <= |s|
    decreases |s| - i
  {
    if i == |s| then None
    else if escapeNext then MatchEnd(s, i + 1, depth, inString, false)
    else if s[i] == '\\' && inString then MatchEnd(s, i + 1, depth, inString, true)
    else if s[i] == '"' then MatchEnd(s, i + 1, depth, !inString, false)
    else if inString then MatchEnd(s, i + 1, depth, inString, false)
    else if s[i] == '{' then MatchEnd(s, i + 1, depth + 1, false, false)
    else if s[i] == '}' then
      if depth == 1 then Some(i + 1) else MatchEnd(s, i + 1, depth - 1, false, false)
    else MatchEnd(s, i + 1, depth, false, false)
  }

  /** `str.find` for one character. */
  function Find(s: string, c: char, i: nat): (r: Option<nat>)
    requires i <= |s|
    ensures r.Some? ==> i <= r.value < |s| && s[r.value] == c && forall k :: i <= k < r.value ==> s[k] != c
    ensures r.None? ==> forall k :: i <= k < |s| ==> s[k] != c
    decreases |s| - i
  {
    if i == |s| then None else if s[i] == c then Some(i) else Find(s, c, i + 1)
  }

  function Extract(text: string): Option<string> {
    match Find(text, '{', 0)
    case None => None
    case Some(start) =>
      match MatchEnd(text, start, 0, false, false)
      case None => None
      case Some(end) => Some(text[start..end])
  }

  /** The scanning loop as it runs. */
  method ExtractJsonObject(text: string) returns (r: Option<string>)
    ensures r == Extract(text)
  {
    var found := Find(text, '{', 0);
    if found.None? {
      return None;
    }
    var start := found.value;
    var depth, inString, escapeNext := 0, false, false;
    var i := start;
    while i < |text|
      invariant start <= i <= |text|
      invariant MatchEnd(text, start, 0, false, false) == MatchEnd(text, i, depth, inString, escapeNext)
    {
      var ch := text[i];
      if escapeNext {
        escapeNext := false;
      } else if ch == '\\' && inString {
        escapeNext := true;
      } else if ch == '"' {
        inString := !inString;
      } else if inString {
      } else if ch == '{' {
        depth := depth + 1;
      } else if ch == '}' {
        depth := depth - 1;
        if depth == 0 {
          return Some(text[start..i + 1]);
        }
      }
      i := i + 1;
    }
    return None;
  }

  // ---------------------------------- what the scanner finds, read off prefixes

  /** Where the end of a text lies with respect to JSON strings. */
  datatype Context = Outside | Inside | AfterBackslash

  function ContextAfter(s: string): Context {
    if s == "" then Outside else
    var c := s[|s| - 1];
    match ContextAfter(s[..|s| - 1])
    case Outside => if c == '"' then Inside else Outside
    case Inside => if c == '"' then Outside else if c == '\\' then AfterBackslash else Inside
    case AfterBackslash => Inside
  }

  /** Opening braces minus closing braces, strings not counted. */
  function Depth(s: string): int {
    if s == "" then 0 else
    var before := s[..|s| - 1];
    Depth(before) +
    (if ContextAfter(before) != Outside then 0
     else if s[|s| - 1] == '{' then 1
     else if s[|s| - 1] == '}' then -1
     else 0)
  }

  /** `s[..n]` is the shortest non-empty prefix whose braces balance. */
  predicate ShortestBalanced(s: string, n: nat) {
    && 0 < n <= |s|
    && Depth(s[..n]) == 0
    && forall k :: 0 < k < n ==> Depth(s[..k]) > 0
  }

  lemma {:induction false} ScanFollowsDepth(s: string, i: nat)
    requires 0 < i <= |s| && forall k :: 0 < k <= i ==> Depth(s[..k]) > 0
    ensures var c := ContextAfter(s[..i]);
            var r := MatchEnd(s, i, Depth(s[..i]), c != Outside, c == AfterBackslash);
            match r
            case Some(n) => ShortestBalanced(s, n)
            case None => forall k :: 0 < k <= |s| ==> Depth(s[..k]) > 0
    decreases |s| - i
  {
    if i < |s| {
      assert s[..i + 1][..i] == s[..i];
      if Depth(s[..i + 1]) > 0 {
        ScanFollowsDepth(s, i + 1);
      } else {
        assert ShortestBalanced(s, i + 1);
      }
    }
  }

  /** The extractor's answer, without reference to its loop: nothing before the
      first brace, and from there the shortest text whose braces balance. */
  lemma ExtractIsShortestBalanced(text: string)
    ensures match Find(text, '{', 0)
            case None => Extract(text) == None
            case Some(start) =>
              var tail := text[start..];
              match Extract(text)
              case Some(t) => ShortestBalanced(tail, |t|) && t == tail[..|t|]
              case None => forall k :: 0 < k <= |tail| ==> Depth(tail[..k]) > 0
  {
    var f := Find(text, '{', 0);
    if f.Some? {
      var tail := text[f.value..];
      assert tail[..1] == "{" && tail[..1][..0] == "";
      assert Depth("{") == 1 && ContextAfter("{") == Outside;
      ScanFollowsDepth(tail, 1);
      MatchEndOfTail(text, f.value, f.value, 0, false, false);
    }
  }

  lemma {:induction false} MatchEndOfTail(s: string, b: nat, i: nat, d: int, q: bool, e: bool)
    requires b <= i <= |s|
    ensures match MatchEnd(s, i, d, q, e)
            case Some(n) => n >= b && MatchEnd(s[b..], i - b, d, q, e) == Some(n - b)
            case None => MatchEnd(s[b..], i - b, d, q, e) == None
    decreases |s| - i
  {
    if i < |s| {
      var d' := if s[i] == '{' then d + 1 else if s[i] == '}' then d - 1 else d;
      var plain := !q && !e && s[i] != '"';
      if !(plain && s[i] == '}' && d == 1) {
        MatchEndOfTail(s, b, i + 1,
                       if plain then d' else d,
                       if !e && s[i] == '"' then !q else q,
                       !e && q && s[i] == '\\');
      }
    }
  }

  /** Text that arrives later never changes an answer already given. */
  lemma {:induction false} MatchEndStable(s: string, t: string, i: nat, d: int, q: bool, e: bool)
    requires i <= |s| && MatchEnd(s, i, d, q, e).Some?
    ensures MatchEnd(s + t, i, d, q, e) == MatchEnd(s, i, d, q, e)
    decreases |s| - i
  {
    var d' := if s[i] == '{' then d + 1 else if s[i] == '}' then d - 1 else d;
    var plain := !q && !e && s[i] != '"';
    if !(plain && s[i] == '}' && d == 1) {
      MatchEndStable(s, t, i + 1,
                     if plain then d' else d,
                     if !e && s[i] == '"' then !q else q,
                     !e && q && s[i] == '\\');
    }
  }

  lemma {:induction false} FindStable(s: string, t: string, c: char, i: nat)
    requires i <= |s| && Find(s, c, i).Some?
    ensures Find(s + t, c, i) == Find(s, c, i)
    decreases |s| - i
  {
    if s[i] != c {
      FindStable(s, t, c, i + 1);
    }
  }

  lemma ExtractStable(text: string, suffix: string)
    requires Extract(text).Some?
    ensures Extract(text + suffix) == Extract(text)
  {
    FindStable(text, suffix, '{', 0);
    var start := Find(text, '{', 0).value;
    MatchEndStable(text, suffix, start, 0, false, false);
    var end := MatchEnd(text, start, 0, false, false).value;
    assert (text + suffix)[start..end] == text[start..end];
  }

  // ------------------------------------------- the scanner against the grammar

  lemma {:induction false} ScanWs(s: string, i: nat, d: int)
    requires i <= |s|
    ensures MatchEnd(s, i, d, false, false) == MatchEnd(s, SkipWs(s, i), d, false, false)
    decreases |s| - i
  {
    if i < |s| && IsWs(s[i]) {
      ScanWs(s, i + 1, d);
    }
  }

  lemma {:induction false} ScanAtom(s: string, i: nat, d: int)
    requires i <= |s|
    ensures MatchEnd(s, i, d, false, false) == MatchEnd(s, AtomEnd(s, i), d, false, false)
    decreases |s| - i
  {
    if i < |s| && IsAtomChar(s[i]) {
      ScanAtom(s, i + 1, d);
    }
  }

  lemma ScanUnit(s: string, i: nat, d: int)
    requires Unit(s, i).Some?
    ensures MatchEnd(s, i, d, true, true) == MatchEnd(s, i + 5, d, true, false)
  {
    assert MatchEnd(s, i, d, true, true) == MatchEnd(s, i + 1, d, true, false);
    assert MatchEnd(s, i + 1, d, true, false) == MatchEnd(s, i + 2, d, true, false);
    assert MatchEnd(s, i + 2, d, true, false) == MatchEnd(s, i + 3, d, true, false);
    assert MatchEnd(s, i + 3, d, true, false) == MatchEnd(s, i + 4, d, true, false);
    assert MatchEnd(s, i + 4, d, true, false) == MatchEnd(s, i + 5, d, true, false);
  }

  lemma ScanEscape(s: string, i: nat, d: int)
    requires i <= |s| && ParseEscape(s, i).Ok?
    ensures MatchEnd(s, i, d, true, true) == MatchEnd(s, ParseEscape(s, i).end, d, true, false)
  {
    hide Unit;
    if ShortEscape(s[i]).None? {
      ScanUnit(s, i, d);
      if ParseEscape(s, i).end != i + 5 {
        assert MatchEnd(s, i + 5, d, true, false) == MatchEnd(s, i + 6, d, true, true);
        ScanUnit(s, i + 6, d);
      }
    }
  }

  lemma {:induction false} ScanChars(s: string, i: nat, d: int)
    requires i <= |s| && ParseChars(s, i).Ok?
    ensures MatchEnd(s, i, d, true, false) == MatchEnd(s, ParseChars(s, i).end, d, false, false)
    decreases |s| - i
  {
    hide ParseEscape;
    if s[i] == '"' {
    } else if s[i] == '\\' {
      ScanEscape(s, i + 1, d);
      ScanChars(s, ParseEscape(s, i + 1).end, d);
    } else {
      ScanChars(s, i + 1, d);
    }
  }

  /** Inside an object, a value of any shape is scanned over without the depth
      reaching zero. */
  lemma {:induction false} ScanValue(s: string, i: nat, d: int)
    requires d >= 1 && i <= |s| && ParseValue(s, i).Ok?
    ensures MatchEnd(s, i, d, false, false) == MatchEnd(s, ParseValue(s, i).end, d, false, false)
    decreases |s| - i, 0
  {
    hide ParseItems, ParseMembers, ParseChars, IsAtom;
    if s[i] == '"' {
      ScanChars(s, i + 1, d);
    } else if s[i] == '[' {
      var a := SkipWs(s, i + 1);
      ScanWs(s, i + 1, d);
      if !At(s, a, ']') {
        ScanItems(s, a, d);
      }
    } else if s[i] == '{' {
      var a := SkipWs(s, i + 1);
      ScanWs(s, i + 1, d + 1);
      if !At(s, a, '}') {
        ScanMembers(s, a, d + 1);
      }
    } else {
      ScanAtom(s, i, d);
    }
  }

  lemma {:induction false} ScanItems(s: string, i: nat, d: int)
    requires d >= 1 && i <= |s| && ParseItems(s, i).Ok?
    ensures MatchEnd(s, i, d, false, false) == MatchEnd(s, ParseItems(s, i).end, d, false, false)
    decreases |s| - i, 1
  {
    hide ParseValue, ParseMembers;
    var e := ParseValue(s, i).end;
    ScanValue(s, i, d);
    ScanWs(s, e, d);
    var a := SkipWs(s, e);
    if At(s, a, ',') {
      ScanWs(s, a + 1, d);
      ScanItems(s, SkipWs(s, a + 1), d);
    }
  }

  lemma {:induction false} ScanMember(s: string, i: nat, d: int)
    requires d >= 1 && i <= |s| && ParseMember(s, i).Ok?
    ensures MatchEnd(s, i, d, false, false) == MatchEnd(s, ParseMember(s, i).end, d, false, false)
    decreases |s| - i, 1
  {
    hide ParseValue, ParseChars;
    ScanChars(s, i + 1, d);
    var e := ParseChars(s, i + 1).end;
    ScanWs(s, e, d);
    var a := SkipWs(s, e);
    ScanWs(s, a + 1, d);
    ScanValue(s, SkipWs(s, a + 1), d);
  }

  /** From inside an object, the scan meets exactly the brace that closes it. */
  lemma {:induction false} ScanMembers(s: string, i: nat, d: int)
    requires d >= 1 && i <= |s| && ParseMembers(s, i).Ok?
    ensures var e := ParseMembers(s, i).end;
            MatchEnd(s, i, d, false, false) ==
            if d == 1 then Some(e) else MatchEnd(s, e, d - 1, false, false)
    decreases |s| - i, 2
  {
    hide ParseValue, ParseMember;
    var e := ParseMember(s, i).end;
    ScanMember(s, i, d);
    ScanWs(s, e, d);
    var a := SkipWs(s, e);
    if At(s, a, ',') {
      ScanWs(s, a + 1, d);
      ScanMembers(s, SkipWs(s, a + 1), d);
    }
  }

  /** Completeness, for every JSON object in any layout and any surroundings:
      when the text at the first brace reads as an object, the extractor
      returns exactly that object's text. */
  lemma ExtractsEveryObject(text: string, start: nat)
    requires Find(text, '{', 0) == Some(start) && ParseValue(text, start).Ok?
    ensures Extract(text) == Some(text[start..ParseValue(text, start).end])
  {
    hide ParseMembers, ParseItems, ParseChars, IsAtom;
    var a := SkipWs(text, start + 1);
    ScanWs(text, start + 1, 1);
    if !At(text, a, '}') {
      ScanMembers(text, a, 1);
    }
  }

  // ---------------------------------------------------------------- the parser

  datatype Call = Call(name: string, arguments: seq<Member>)

  predicate Fenced(t: string) {
    |t| >= 6 && t[..3] == "```" && t[|t| - 3..] == "```"
  }

  function DropTag(body: string): string {
    if |body| >= 4 && body[..4] == "json" then body[4..] else body
  }

  /** What `_strip_markdown_fences` returns. On stripped text its pattern matches
      exactly when the text opens and closes with three backticks that do not
      overlap; the group, once stripped, is what stands between them less an
      optional `json`. */
  function StripFences(text: string): string {
    var t := Strip(text);
    if !Fenced(t) then text else Strip(DropTag(t[3..|t| - 3]))
  }

  function Cleaned(text: string): string {
    Strip(StripFences(text))
  }

  function NotNull(v: Option<Json>): Option<Json> {
    if v == Some(Atom("null")) then None else v
  }

  /** The two attempts at decoding; a decoded null counts as no result. */
  function Decoded(text: string): Option<Json> {
    if Strip(text) == "" then None else
    var direct := NotNull(Loads(Cleaned(text)));
    if direct.Some? then direct else
    match Extract(Cleaned(text))
    case None => None
    case Some(t) => NotNull(Loads(t))
  }

  /** `dict.get`: of repeated keys the last one stays. */
  function Lookup(members: seq<Member>, key: string): Option<Json> {
    if members == [] then None
    else if members[|members| - 1].key == key then Some(members[|members| - 1].value)
    else Lookup(members[..|members| - 1], key)
  }

  /** The last member with the key. */
  predicate LastWith(members: seq<Member>, key: string, i: nat) {
    i < |members| && members[i].key == key && forall k :: i < k < |members| ==> members[k].key != key
  }

  lemma {:induction false} LookupFinds(members: seq<Member>, key: string, i: nat)
    requires LastWith(members, key, i)
    ensures Lookup(members, key) == Some(members[i].value)
  {
    var n := |members| - 1;
    if i < n {
      assert LastWith(members[..n], key, i);
      LookupFinds(members[..n], key, i);
    }
  }

  lemma {:induction false} LookupFound(members: seq<Member>, key: string) returns (i: nat)
    requires Lookup(members, key).Some?
    ensures LastWith(members, key, i) && Lookup(members, key) == Some(members[i].value)
  {
    var n := |members| - 1;
    i := n;
    if members[n].key != key {
      i := LookupFound(members[..n], key);
      forall k | i < k < |members| ensures members[k].key != key {
        assert k < n ==> members[k] == members[..n][k];
      }
    }
  }

  /** Which of several members counts: the last one with the key. */
  lemma LookupIsLast(members: seq<Member>, key: string, v: Json)
    ensures Lookup(members, key) == Some(v) <==> exists i: nat :: LastWith(members, key, i) && members[i].value == v
  {
    hide Lookup;
    if Lookup(members, key) == Some(v) {
      var i := LookupFound(members, key);
      assert LastWith(members, key, i) && members[i].value == v;
    }
    forall i: nat | LastWith(members, key, i) && members[i].value == v ensures Lookup(members, key) == Some(v) {
      LookupFinds(members, key, i);
    }
  }

  /** `v` is a call of a listed tool, and `c` is that call. */
  predicate IsCall(v: Json, tools: set<string>, c: Call) {
    && v.Obj?
    && Lookup(v.members, "name") == Some(Str(c.name))
    && Lookup(v.members, "arguments") == Some(Obj(c.arguments))
    && c.name in tools
  }

  /** `v` holds a non-empty call list and `calls` is all of it, in order. */
  predicate IsCallList(v: Json, tools: set<string>, calls: seq<Call>) {
    && v.Obj?
    && match Lookup(v.members, "tool_calls")
       case Some(Arr(items)) =>
         0 < |items| == |calls| && forall i :: 0 <= i < |items| ==> IsCall(items[i], tools, calls[i])
       case _ => false
  }

  lemma {:induction false} CallListUnique(v: Json, tools: set<string>, a: seq<Call>, b: seq<Call>)
    requires IsCallList(v, tools, a) && IsCallList(v, tools, b)
    ensures a == b
  {
    var items := Lookup(v.members, "tool_calls").value.items;
    forall i | 0 <= i < |items|
      ensures a[i] == b[i]
    {
      assert IsCall(items[i], tools, a[i]) && IsCall(items[i], tools, b[i]);
    }
  }

  /** The text decodes to this call list of listed tools. */
  predicate Says(text: string, tools: set<string>, calls: seq<Call>) {
    Decoded(text).Some? && IsCallList(Decoded(text).value, tools, calls)
  }

  /** A result is the whole call list of the decoded text, the only one there can be,
      with every name whitelisted; None means that there is no such list. */
  method ParseToolResponse(text: string, tools: set<string>) returns (r: Option<seq<Call>>)
    ensures forall calls :: Says(text, tools, calls) <==> r == Some(calls)
    ensures r.Some? ==> r.value != [] && forall c :: c in r.value ==> c.name in tools
  {
    if text == "" || Strip(text) == "" {
      return None;
    }
    var cleaned := Strip(StripFences(text));
    var parsed := NotNull(Loads(cleaned));
    if parsed.None? {
      var extracted := ExtractJsonObject(cleaned);
      if extracted.Some? {
        parsed := NotNull(Loads(extracted.value));
      }
    }
    assert parsed == Decoded(text);
    if parsed.None? || !parsed.value.Obj? {
      return None;
    }
    var list := Lookup(parsed.value.members, "tool_calls");
    if list.None? || !list.value.Arr? || list.value.items == [] {
      return None;
    }
    var items := list.value.items;
    var result: seq<Call> := [];
    for i := 0 to |items|
      invariant |result| == i && forall c :: c in result ==> c.name in tools
      invariant forall k :: 0 <= k < i ==> IsCall(items[k], tools, result[k])
    {
      var call := items[i];
      if !call.Obj? {
        NoCall(parsed.value, tools, i);
        return None;
      }
      var name, arguments := Lookup(call.members, "name"), Lookup(call.members, "arguments");
      if name.None? || !name.value.Str? || arguments.None? || !arguments.value.Obj? || name.value.text !in tools {
        NoCall(parsed.value, tools, i);
        return None;
      }
      result := result + [Call(name.value.text, arguments.value.members)];
    }
    forall calls | IsCallList(parsed.value, tools, calls)
      ensures calls == result
    {
      CallListUnique(parsed.value, tools, calls, result);
    }
    return Some(result);
  }

  /** One bad entry spoils the whole list. */
  lemma NoCall(v: Json, tools: set<string>, i: nat)
    requires v.Obj? && Lookup(v.members, "tool_calls").Some? && Lookup(v.members, "tool_calls").value.Arr?
    requires i < |Lookup(v.members, "tool_calls").value.items|
    requires forall c :: !IsCall(Lookup(v.members, "tool_calls").value.items[i], tools, c)
    ensures forall calls :: !IsCallList(v, tools, calls)
  {
    forall calls
      ensures !IsCallList(v, tools, calls)
    {
      if i < |calls| {
        assert !IsCall(Lookup(v.members, "tool_calls").value.items[i], tools, calls[i]);
      }
    }
  }

  // ------------------------------------------------------------ the round trip

  /** The object a model is asked to reply with. */
  function CallJson(c: Call): Json {
    Obj([Member("name", Str(c.name)), Member("arguments", Obj(c.arguments))])
  }

  function ReplyJson(calls: seq<Call>): Json {
    Obj([Member("tool_calls", Arr(seq(|calls|, i requires 0 <= i < |calls| => CallJson(calls[i]))))])
  }

  predicate ValidCalls(calls: seq<Call>, tools: set<string>) {
    calls != [] && forall c :: c in calls ==> c.name in tools && WellFormed(Obj(c.arguments))
  }

  lemma LookupTwo(a: Member, b: Member)
    requires a.key != b.key
    ensures Lookup([a, b], a.key) == Some(a.value)
    ensures Lookup([a, b], b.key) == Some(b.value)
  {
    assert [a, b][..1] == [a];
  }

  lemma ReplyIsCallList(calls: seq<Call>, tools: set<string>)
    requires ValidCalls(calls, tools)
    ensures IsCallList(ReplyJson(calls), tools, calls)
    ensures WellFormed(ReplyJson(calls))
  {
    var v := ReplyJson(calls);
    var items := v.members[0].value.items;
    assert Lookup(v.members, "tool_calls") == Some(Arr(items));
    forall i | 0 <= i < |calls|
      ensures IsCall(items[i], tools, calls[i]) && WellFormed(items[i])
    {
      assert calls[i] in calls;
      LookupTwo(Member("name", Str(calls[i].name)), Member("arguments", Obj(calls[i].arguments)));
      CallWellFormed(calls[i]);
    }
    assert forall u :: u in items ==> WellFormed(u);
    assert v.members == [Member("tool_calls", Arr(items))];
    assert WellFormed(v.members[0].value);
  }

  lemma CallWellFormed(c: Call)
    requires WellFormed(Obj(c.arguments))
    ensures WellFormed(CallJson(c))
  {
    var ms := CallJson(c).members;
    forall m | m in ms
      ensures WellFormed(m.value)
    {
      assert m == ms[0] || m == ms[1];
    }
  }

  predicate NoBrace(p: string) {
    forall i :: 0 <= i < |p| ==> p[i] != '{'
  }

  /** `text` is `core` between two texts, the first without a brace. */
  ghost predicate Wraps(text: string, core: string) {
    exists p, s :: NoBrace(p) && text == p + core + s
  }

  lemma StripKeeps(p: string, core: string, s: string)
    requires Braced(core) && NoBrace(p)
    ensures Strip(p + core + s) == LStrip(p) + core + RStrip(s)
    ensures NoBrace(LStrip(p))
  {
    StripAround(p, core, s);
    LStripIsSuffix(p);
  }

  /** Removing fences and white space never cuts into the object. */
  lemma CleanedWraps(p: string, core: string, s: string)
    requires Braced(core) && NoBrace(p)
    ensures Wraps(Cleaned(p + core + s), core)
    ensures Strip(p + core + s) != ""
  {
    hide Strip, LStrip, RStrip, Fenced, DropTag, NoBrace;
    var text := p + core + s;
    StripKeeps(p, core, s);
    var p1, s1 := LStrip(p), RStrip(s);
    var t := Strip(text);
    assert t == p1 + core + s1 && t != "";
    if Fenced(t) {
      UnfencedWraps(p1, core, s1);
    } else {
      WrapsAre(Cleaned(text), p1, core, s1);
    }
  }

  lemma WrapsAre(text: string, p: string, core: string, s: string)
    requires NoBrace(p) && text == p + core + s
    ensures Wraps(text, core)
  {}

  lemma UnfencedWraps(p: string, core: string, s: string)
    requires Braced(core) && NoBrace(p) && Fenced(p + core + s)
    ensures |p + core + s| >= 6
    ensures var t := p + core + s; Wraps(Strip(Strip(DropTag(t[3..|t| - 3]))), core)
  {
    hide Strip, LStrip, RStrip;
    var t := p + core + s;
    FenceMissesCore(p, core, s);
    var body := t[3..|t| - 3];
    var p2, s2 := p[3..], s[..|s| - 3];
    assert body == p2 + core + s2;
    if |body| >= 4 && body[..4] == "json" {
      JsonTagMissesCore(p2, core, s2);
      assert body[4..] == p2[4..] + core + s2;
      p2 := p2[4..];
    }
    assert DropTag(body) == p2 + core + s2;
    StripKeeps(p2, core, s2);
    StripKeeps(LStrip(p2), core, RStrip(s2));
    WrapsAre(Strip(Strip(DropTag(body))), LStrip(LStrip(p2)), core, RStrip(RStrip(s2)));
  }

  lemma FenceMissesCore(p: string, core: string, s: string)
    requires Braced(core) && Fenced(p + core + s)
    ensures |p| >= 3 && |s| >= 3
  {
    var t := p + core + s;
    assert t[0] == t[..3][0] && t[1] == t[..3][1] && t[2] == t[..3][2];
    var u := t[|t| - 3..];
    assert t[|t| - 3] == u[0] && t[|t| - 2] == u[1] && t[|t| - 1] == u[2];
    assert t[|p|] == '{' && t[|p| + |core| - 1] == '}';
  }

  lemma JsonTagMissesCore(p: string, core: string, s: string)
    requires Braced(core) && |p + core + s| >= 4 && (p + core + s)[..4] == "json"
    ensures |p| >= 4
  {
    var t := p + core + s;
    assert t[0] == t[..4][0] && t[1] == t[..4][1] && t[2] == t[..4][2] && t[3] == t[..4][3];
    assert t[|p|] == '{';
  }

  /** In a wrapped object, decoding the whole text either gives that object or
      something that is no object at all. */
  lemma WholeOrNotAnObject(p: string, core: string, s: string, v: Json)
    requires Reads(core, v) && NoBrace(p)
    requires Loads(p + core + s).Some? && Loads(p + core + s).value.Obj?
    ensures Loads(p + core + s) == Some(v)
  {
    hide ParseMembers, ParseItems, ParseChars, IsAtom, Reads;
    var t := p + core + s;
    ReadsAnywhere(p, core, s, v);
    var q := SkipWs(t, 0);
    assert t[|p|] == '{' == core[0];
    assert q < |t| && t[q] == '{';
    FirstNonWs(t, 0, |p|);
    assert q <= |p|;
    assert forall k :: 0 <= k < |p| ==> t[k] == p[k] != '{';
  }

  lemma {:induction false} FirstNonWs(s: string, i: nat, n: nat)
    requires i <= n < |s| && !IsWs(s[n])
    ensures SkipWs(s, i) <= n
    decreases n - i
  {
    if i < n && IsWs(s[i]) {
      FirstNonWs(s, i + 1, n);
    }
  }

  lemma {:induction false} FindAfter(s: string, i: nat, n: nat)
    requires i <= n < |s| && s[n] == '{' && forall k :: i <= k < n ==> s[k] != '{'
    ensures Find(s, '{', i) == Some(n)
    decreases n - i
  {
    if i < n {
      FindAfter(s, i + 1, n);
    }
  }

  /** Put the text of an object, however it is written, after brace-free text and follow
      it with anything: the extractor gives it back. */
  lemma ExtractsCore(p: string, core: string, s: string, v: Json)
    requires Reads(core, v) && NoBrace(p)
    ensures Extract(p + core + s) == Some(core)
  {
    hide ParseValue, Reads;
    var t := p + core + s;
    ReadsAnywhere(p, core, s, v);
    assert t[|p|] == core[0];
    FindAfter(t, 0, |p|);
    ExtractsEveryObject(t, |p|);
    assert t[|p|..|p| + |core|] == core;
  }

  /** The round trip, for every text that says a list of calls of listed tools, and all
      text around it that has no earlier brace, fences included: the reply decodes to
      that list if and only if the cleaned text is not itself JSON of another kind, that
      is a list, a string, a number or a literal other than null. */
  lemma WrappedReplyParses(p: string, core: string, s: string, v: Json, tools: set<string>, calls: seq<Call>)
    requires Reads(core, v) && IsCallList(v, tools, calls) && NoBrace(p)
    ensures var text := p + core + s;
            var whole := NotNull(Loads(Cleaned(text)));
            && Decoded(text).Some?
            && (Says(text, tools, calls) <==> whole.None? || whole.value.Obj?)
            && (whole.None? || whole.value.Obj? ==> Decoded(text) == Some(v))
  {
    hide Loads, Extract, Cleaned, Reads;
    var text := p + core + s;
    ReadsAnywhere("", core, "", v);
    CleanedWraps(p, core, s);
    var p', s' :| NoBrace(p') && Cleaned(text) == p' + core + s';
    ExtractsCore(p', core, s', v);
    if Loads(Cleaned(text)).Some? && Loads(Cleaned(text)).value.Obj? {
      WholeOrNotAnObject(p', core, s', v);
    }
  }

  /** Bare and fenced texts of objects are decoded to the object: whatever white space
      stands around it, with or without fences and the `json` tag. */
  lemma PlainDecodes(a: string, b: string, fenced: bool, tag: bool, core: string, v: Json)
    requires Reads(core, v) && AllSpace(a) && AllSpace(b)
    ensures Decoded(Plain(a, b, fenced, tag, core)) == Some(v)
  {
    hide Loads, Extract, Reads, Strip, Cleaned, AllSpace;
    ReadsAnywhere("", core, "", v);
    if fenced {
      FencedReply(tag, a, core, b);
    } else {
      BareReply(a, core, b);
    }
  }

  lemma BareReply(a: string, core: string, b: string)
    requires Braced(core) && AllSpace(a) && AllSpace(b)
    ensures Cleaned(a + core + b) == core && Strip(a + core + b) != ""
  {
    hide LStrip, RStrip;
    AllSpaceStrips(a);
    AllSpaceStrips(b);
    StripAround(a, core, b);
    TrimmedStrips(core);
    assert "" + core + "" == core;
    assert |core| >= 3 ==> core[..3][0] == core[0] == '{';
  }

  function Plain(a: string, b: string, fenced: bool, tag: bool, core: string): string {
    if fenced then "```" + (Tag(tag) + (a + core + b)) + "```" else a + core + b
  }

  /** So bare and fenced replies parse without condition. */
  lemma PlainReplyParses(a: string, b: string, fenced: bool, tag: bool, core: string, v: Json,
                         tools: set<string>, calls: seq<Call>)
    requires Reads(core, v) && IsCallList(v, tools, calls) && AllSpace(a) && AllSpace(b)
    ensures Says(Plain(a, b, fenced, tag, core), tools, calls)
  {
    hide Reads, IsCallList, Plain;
    PlainDecodes(a, b, fenced, tag, core, v);
  }

  /** One name that is not listed is enough for a reply to be no tool call at all, the
      calls of listed tools in it included. */
  lemma UnlistedNameRefused(a: string, b: string, fenced: bool, tag: bool, core: string, calls: seq<Call>,
                            tools: set<string>, k: nat)
    requires Reads(core, ReplyJson(calls)) && AllSpace(a) && AllSpace(b)
    requires k < |calls| && calls[k].name !in tools
    ensures forall others :: !Says(Plain(a, b, fenced, tag, core), tools, others)
  {
    hide Reads, Plain;
    var v := ReplyJson(calls);
    PlainDecodes(a, b, fenced, tag, core, v);
    var items := v.members[0].value.items;
    assert Lookup(v.members, "tool_calls") == Some(Arr(items));
    var c := calls[k];
    LookupTwo(Member("name", Str(c.name)), Member("arguments", Obj(c.arguments)));
    assert items[k] == CallJson(c);
  }

  /** What makes an object no call list: no list under `tool_calls`, an empty one, or an
      entry that is no object, has no string for a name, or no object for arguments. */
  lemma MalformedRefused(a: string, b: string, fenced: bool, tag: bool, core: string, v: Json, tools: set<string>)
    requires Reads(core, v) && AllSpace(a) && AllSpace(b)
    requires match Lookup(v.members, "tool_calls")
             case Some(Arr(items)) =>
               items == [] || exists i :: 0 <= i < |items| && !HasCallShape(items[i])
             case _ => true
    ensures forall calls :: !Says(Plain(a, b, fenced, tag, core), tools, calls)
  {
    hide Reads, Plain;
    PlainDecodes(a, b, fenced, tag, core, v);
  }

  predicate HasCallShape(v: Json) {
    v.Obj?
    && (match Lookup(v.members, "name") case Some(Str(_)) => true case _ => false)
    && (match Lookup(v.members, "arguments") case Some(Obj(_)) => true case _ => false)
  }

  /** Every list of calls of listed tools has such texts: what the printer writes in any
      of its layouts. */
  lemma PrintedReplyReads(calls: seq<Call>, tools: set<string>, o: Layout)
    requires ValidCalls(calls, tools) && o.Valid()
    ensures Reads(Print(ReplyJson(calls), o), ReplyJson(calls)) && IsCallList(ReplyJson(calls), tools, calls)
  {
    hide Print, WellFormed;
    ReplyIsCallList(calls, tools);
    PrintReads(ReplyJson(calls), o);
  }

  /** A whole reply that is JSON of another kind is missed, whatever the calls: here,
      the reply put into a list. */
  lemma BracketedReplyMissed(core: string, v: Json, tools: set<string>)
    requires Reads(core, v)
    ensures var text := "[" + core + "]";
            && Decoded(text) == Some(Arr([v]))
            && forall calls :: !Says(text, tools, calls)
  {
    hide Loads, Extract, Reads;
    var text := "[" + core + "]";
    BracketedReads(core, v);
    assert text[0] == '[' && text[|text| - 1] == ']';
    TrimmedStrips(text);
    assert !Fenced(text) by {
      assert |text| >= 3 ==> text[..3][0] == '[';
    }
  }

  lemma BracketedReads(core: string, v: Json)
    requires Reads(core, v)
    ensures Loads("[" + core + "]") == Some(Arr([v]))
  {
    var text := "[" + core + "]";
    ReadsAnywhere("[", core, "]", v);
    hide Reads, ParseMembers, ParseChars;
    assert text[1] == core[0] && text[|text| - 1] == ']';
    assert ParseValue(text, 1) == Ok(v, 1 + |core|);
    assert ParseItems(text, 1) == Ok([v], |text|);
  }

  lemma FencedText(body: string)
    ensures var text := "```" + body + "```";
            Strip(text) == text && Fenced(text) && text[3..|text| - 3] == body
  {
    var text := "```" + body + "```";
    assert text[0] == text[|text| - 1] == '`';
    AllSpaceStrips("");
    StripAround("", text, "");
    assert "" + text + "" == text;
    assert text[..3] == "```" && text[|text| - 3..] == "```";
  }

  lemma TrimmedStrips(core: string)
    requires Trimmed(core)
    ensures Strip(core) == core
  {
    AllSpaceStrips("");
    StripAround("", core, "");
    assert "" + core + "" == core;
  }

  function Tag(tag: bool): string {
    if tag then "json" else ""
  }

  lemma DropTagOf(tag: bool, inner: string)
    requires inner != "" && inner[0] != 'j'
    ensures DropTag(Tag(tag) + inner) == inner
  {
    var body := Tag(tag) + inner;
    if tag {
      assert body[..4] == "json" && body[4..] == inner;
    } else {
      assert body == inner;
      assert |body| >= 4 ==> body[..4][0] == inner[0];
    }
  }

  lemma FencedReply(tag: bool, a: string, core: string, b: string)
    requires Braced(core) && AllSpace(a) && AllSpace(b)
    ensures var text := "```" + (Tag(tag) + (a + core + b)) + "```";
            Cleaned(text) == core && Strip(text) != ""
  {
    hide Strip, Fenced, DropTag, LStrip, RStrip;
    var inner := a + core + b;
    AllSpaceStrips(a);
    AllSpaceStrips(b);
    StripAround(a, core, b);
    assert "" + core + "" == core;
    TrimmedStrips(core);
    FencedText(Tag(tag) + inner);
    assert inner[0] == if a != "" then a[0] else core[0];
    DropTagOf(tag, inner);
  }
}
