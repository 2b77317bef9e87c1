/** UTF-8 as Python encodes it and, with `errors="ignore"`, decodes it
    (RFC 3629 section 3). */
module Utf8 {

  function EncodeChar(c: char): (b: seq<int>)
    ensures 1 <= |b| <= 4
  {
    var n := c as int;
    if n < 0x80 then [n]
    else if n < 0x800 then [0xC0 + n / 64, 0x80 + n % 64]
    else if n < 0x10000 then [0xE0 + n / 4096, 0x80 + n / 64 % 64, 0x80 + n % 64]
    else [0xF0 + n / 262144, 0x80 + n / 4096 % 64, 0x80 + n / 64 % 64, 0x80 + n % 64]
  }

  function Encode(s: string): seq<int> {
    if s == "" then [] else EncodeChar(s[0]) + Encode(s[1..])
  }

  lemma EncodeOne(c: char, rest: string)
    ensures Encode([c]) == EncodeChar(c) && Encode([c] + rest) == EncodeChar(c) + Encode(rest)
  {
    assert [c][1..] == "" && ([c] + rest)[1..] == rest;
  }

  /** The first and the last character of each length. */
  lemma EncodedLimits()
    ensures EncodeChar('\U{7F}') == [0x7F] && EncodeChar('\U{80}') == [0xC2, 0x80]
    ensures EncodeChar('\U{7FF}') == [0xDF, 0xBF] && EncodeChar('\U{800}') == [0xE0, 0xA0, 0x80]
    ensures EncodeChar('\U{FFFF}') == [0xEF, 0xBF, 0xBF] && EncodeChar('\U{10000}') == [0xF0, 0x90, 0x80, 0x80]
    ensures EncodeChar('\U{10FFFF}') == [0xF4, 0x8F, 0xBF, 0xBF]
  {}

  /** The examples of RFC 3629 section 7: "A", NOT IDENTICAL TO, ALPHA, FULL STOP, and
      U+233B4. */
  lemma Rfc3629Examples()
    ensures Encode("A" + ("\U{2262}" + ("\U{0391}" + "."))) == [0x41] + ([0xE2, 0x89, 0xA2] + ([0xCE, 0x91] + [0x2E]))
    ensures Encode("\U{233B4}") == [0xF0, 0xA3, 0x8E, 0xB4]
  {
    hide Encode;
    EncodeOne('A', "\U{2262}" + ("\U{0391}" + "."));
    EncodeOne('\U{2262}', "\U{0391}" + ".");
    EncodeOne('\U{0391}', ".");
    EncodeOne('.', "");
    EncodeOne('\U{233B4}', "");
  }

  datatype Decoded = Invalid | Char(c: char, length: nat)

  predicate Continues(b: seq<int>, i: nat) {
    i < |b| && 0x80 <= b[i] < 0xC0
  }

  /** The character at the front, if the bytes there are well formed: no
      overlong form, no surrogate, nothing above U+10FFFF. */
  function DecodeOne(b: seq<int>): (r: Decoded)
    ensures r.Char? ==> 1 <= r.length <= |b|
  {
    if b == [] || b[0] < 0 then Invalid
    else if b[0] < 0x80 then Char(b[0] as char, 1)
    else if 0xC2 <= b[0] < 0xE0 && Continues(b, 1) then
      Char(((b[0] - 0xC0) * 64 + (b[1] - 0x80)) as char, 2)
    else if 0xE0 <= b[0] < 0xF0 && Continues(b, 1) && Continues(b, 2) then
      var n := (b[0] - 0xE0) * 4096 + (b[1] - 0x80) * 64 + (b[2] - 0x80);
      if 0x800 <= n < 0xD800 || 0xE000 <= n then Char(n as char, 3) else Invalid
    else if 0xF0 <= b[0] < 0xF5 && Continues(b, 1) && Continues(b, 2) && Continues(b, 3) then
      var n := (b[0] - 0xF0) * 262144 + (b[1] - 0x80) * 4096 + (b[2] - 0x80) * 64 + (b[3] - 0x80);
      if 0x10000 <= n < 0x110000 then Char(n as char, 4) else Invalid
    else Invalid
  }

  /** `bytes.decode("utf-8", errors="ignore")`: what is not well formed is
      dropped byte by byte. */
  function DecodeIgnore(b: seq<int>): string
    decreases |b|
  {
    if b == [] then ""
    else
      match DecodeOne(b)
      case Char(c, n) => [c] + DecodeIgnore(b[n..])
      case Invalid => DecodeIgnore(b[1..])
  }

  lemma Sextets(n: nat)
    ensures n == n / 64 * 64 + n % 64
    ensures n / 64 == n / 4096 * 64 + n / 64 % 64
    ensures n / 4096 == n / 262144 * 64 + n / 4096 % 64
  {
    assert n / 64 / 64 == n / 4096;
    assert n / 4096 / 64 == n / 262144;
  }

  lemma DecodeFrom(b: seq<int>, c: char)
    requires EncodeChar(c) == b
    ensures DecodeOne(b) == Char(c, |b|)
  {
    Sextets(c as int);
  }

  lemma DecodeLocal(b: seq<int>, rest: seq<int>)
    requires DecodeOne(b).Char? && DecodeOne(b).length == |b|
    ensures DecodeOne(b + rest) == DecodeOne(b)
  {
    assert forall i :: 0 <= i < |b| ==> (b + rest)[i] == b[i];
  }

  lemma DecodeEncodedChar(c: char, rest: seq<int>)
    ensures DecodeOne(EncodeChar(c) + rest) == Char(c, |EncodeChar(c)|)
  {
    DecodeFrom(EncodeChar(c), c);
    DecodeLocal(EncodeChar(c), rest);
  }

  /** A character cut short leaves nothing behind. */
  lemma CutCharVanishes(c: char, n: nat)
    requires n < |EncodeChar(c)|
    ensures DecodeIgnore(EncodeChar(c)[..n]) == ""
  {
    var b := EncodeChar(c)[..n];
    if n > 0 {
      assert DecodeOne(b) == Invalid;
      TailVanishes(b[1..]);
    }
  }

  lemma {:induction false} TailVanishes(b: seq<int>)
    requires forall i :: 0 <= i < |b| ==> 0x80 <= b[i] < 0xC0
    ensures DecodeIgnore(b) == ""
    decreases |b|
  {
    if b != [] {
      TailVanishes(b[1..]);
    }
  }

  /** How many leading characters fit into `n` bytes. */
  function Fit(s: string, n: nat): (k: nat)
    ensures k <= |s|
  {
    if s == "" || |EncodeChar(s[0])| > n then 0 else 1 + Fit(s[1..], n - |EncodeChar(s[0])|)
  }

  /** Encoding, cutting anywhere and decoding keeps exactly the characters that
      fit whole. */
  lemma {:induction false} CutDecodes(s: string, n: nat)
    requires n <= |Encode(s)|
    ensures DecodeIgnore(Encode(s)[..n]) == s[..Fit(s, n)]
  {
    if s != "" {
      var head, rest := EncodeChar(s[0]), Encode(s[1..]);
      if n < |head| {
        assert Encode(s)[..n] == head[..n];
        CutCharVanishes(s[0], n);
      } else {
        var m := n - |head|;
        var b := head + rest[..m];
        assert Encode(s)[..n] == b;
        DecodeEncodedChar(s[0], rest[..m]);
        assert b[|head|..] == rest[..m];
        CutDecodes(s[1..], m);
        assert s[..1 + Fit(s[1..], m)] == [s[0]] + s[1..][..Fit(s[1..], m)];
      }
    }
  }

  /** `Fit` is the longest prefix that fits, and misses the limit by at most
      three bytes if anything is left out. */
  lemma {:induction false} FitIsLongest(s: string, n: nat)
    ensures |Encode(s[..Fit(s, n)])| <= n
    ensures forall k :: Fit(s, n) < k <= |s| ==> |Encode(s[..k])| > n
    ensures Fit(s, n) < |s| ==> n - |Encode(s[..Fit(s, n)])| <= 3
    ensures Fit(s, n) == |s| <==> |Encode(s)| <= n
  {
    assert s[..|s|] == s;
    if s != "" {
      var w := |EncodeChar(s[0])|;
      forall k | 1 <= k <= |s|
        ensures |Encode(s[..k])| == w + |Encode(s[1..][..k - 1])|
      {
        assert s[..k][1..] == s[1..][..k - 1];
      }
      if w <= n {
        FitIsLongest(s[1..], n - w);
        forall k | Fit(s, n) < k <= |s|
          ensures |Encode(s[..k])| > n
        {
          assert |Encode(s[1..][..k - 1])| > n - w;
        }
      }
    }
  }

  lemma {:induction false} FitTwice(s: string, m: nat, n: nat)
    requires n <= m
    ensures Fit(s[..Fit(s, m)], n) == Fit(s, n)
  {
    if s != "" && |EncodeChar(s[0])| <= n {
      var w := |EncodeChar(s[0])|;
      FitTwice(s[1..], m - w, n - w);
      var t := s[..Fit(s, m)];
      assert t[1..] == s[1..][..Fit(s[1..], m - w)];
    }
  }
}

/** Storing and showing a job's diff (`src/workers/git_diff.py`,
    `src/gateway/schemas/jobs.py`). */
module DiffTruncation {
  import opened PyText
  import opened Utf8

  const DIFF_DB_MAX_BYTES := 16 * 1048576
  const DIFF_RESPONSE_MAX_BYTES := 1048576

  /** Text cut to a byte limit the way both places do it. */
  function Cut(text: string, limit: nat): string {
    if |Encode(text)| > limit then DecodeIgnore(Encode(text)[..limit]) else text
  }

  /** A cut text is the longest whole-character prefix within the limit. */
  lemma CutIsFit(text: string, limit: nat)
    ensures Cut(text, limit) == text[..Fit(text, limit)]
    ensures |Encode(Cut(text, limit))| <= limit
    ensures forall k :: |Cut(text, limit)| < k <= |text| ==> |Encode(text[..k])| > limit
    ensures |Encode(text)| > limit ==> limit - 3 <= |Encode(Cut(text, limit))|
  {
    FitIsLongest(text, limit);
    if |Encode(text)| > limit {
      CutDecodes(text, limit);
    } else {
      assert text[..|text|] == text;
    }
  }

  /** Cutting twice is cutting once to the smaller limit. */
  lemma CutTwice(text: string, m: nat, n: nat)
    requires n <= m
    ensures Cut(Cut(text, m), n) == Cut(text, n)
  {
    CutIsFit(text, m);
    CutIsFit(text, n);
    CutIsFit(Cut(text, m), n);
    FitTwice(text, m, n);
  }

  datatype DiffResult = DiffResult(blob: Option<string>, sizeBytes: nat, truncated: bool)

  /** The part of `capture_diff` that follows the git call. */
  method CaptureDiff(gitOutput: string) returns (r: DiffResult)
    ensures r.sizeBytes == |Encode(gitOutput)|
    ensures r.truncated <==> |Encode(gitOutput)| > DIFF_DB_MAX_BYTES == 16_777_216
    ensures r.blob == if gitOutput == "" then None else Some(Cut(gitOutput, DIFF_DB_MAX_BYTES))
  {
    var diffText := gitOutput;
    var rawBytes := Encode(diffText);
    var sizeBytes := |rawBytes|;
    var truncated := false;
    if sizeBytes > DIFF_DB_MAX_BYTES {
      truncated := true;
      rawBytes := rawBytes[..DIFF_DB_MAX_BYTES];
      diffText := DecodeIgnore(rawBytes);
      CutIsFit(gitOutput, DIFF_DB_MAX_BYTES);
      assert diffText != "";
    }
    r := DiffResult(if diffText != "" then Some(diffText) else None, sizeBytes, truncated);
  }

  /** What `JobResponse.from_job` shows of a stored diff, and whether it says it
      was cut. */
  function FromJob(blob: Option<string>): (Option<string>, bool) {
    if blob.Some? && blob.value != "" && |Encode(blob.value)| > DIFF_RESPONSE_MAX_BYTES then
      (Some(DecodeIgnore(Encode(blob.value)[..DIFF_RESPONSE_MAX_BYTES])), true)
    else (blob, false)
  }

  /** End to end, for every diff: a client sees the longest prefix of the original
      that fits one mebibyte, as if it had never been stored cut, and the flag
      says whether anything is missing. */
  lemma ShownDiffIsCutOnce(gitOutput: string, stored: Option<string>)
    requires stored == if gitOutput == "" then None else Some(Cut(gitOutput, DIFF_DB_MAX_BYTES))
    ensures FromJob(stored).0 == if gitOutput == "" then None else Some(Cut(gitOutput, DIFF_RESPONSE_MAX_BYTES))
    ensures FromJob(stored).1 <==> |Encode(gitOutput)| > DIFF_RESPONSE_MAX_BYTES == 1_048_576
  {
    CutTwice(gitOutput, DIFF_DB_MAX_BYTES, DIFF_RESPONSE_MAX_BYTES);
    CutIsFit(gitOutput, DIFF_DB_MAX_BYTES);
  }
}
