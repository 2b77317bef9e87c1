/** The few Python string operations the handlers rely on. */
module PyText {

  datatype Option<+T> = None | Some(value: T)

  /** The characters for which `str.isspace` holds; `str.strip` removes them and
      `\s` matches them. */
  predicate IsSpace(c: char) {
    var n := c as int;
    || 0x09 <= n <= 0x0D
    || 0x1C <= n <= 0x20
    || n in {0x85, 0xA0, 0x1680, 0x2028, 0x2029, 0x202F, 0x205F, 0x3000}
    || 0x2000 <= n <= 0x200A
  }

  predicate AllSpace(s: string) {
    forall i :: 0 <= i < |s| ==> IsSpace(s[i])
  }

  function LStrip(s: string): string {
    if s != "" && IsSpace(s[0]) then LStrip(s[1..]) else s
  }

  function RStrip(s: string): string {
    if s != "" && IsSpace(s[|s| - 1]) then RStrip(s[..|s| - 1]) else s
  }

  /** `str.strip()` */
  function Strip(s: string): string {
    RStrip(LStrip(s))
  }

  /** A text that neither starts nor ends with white space, and is not empty. */
  predicate Trimmed(s: string) {
    s != "" && !IsSpace(s[0]) && !IsSpace(s[|s| - 1])
  }

  /** Stripping cannot cut into a core that is trimmed itself. */
  lemma {:induction false} StripAround(p: string, core: string, s: string)
    requires Trimmed(core)
    ensures Strip(p + core + s) == LStrip(p) + core + RStrip(s)
  {
    LStripStops(p, core + s);
    assert p + core + s == p + (core + s);
    assert LStrip(p) + (core + s) == LStrip(p) + core + s;
    RStripStops(LStrip(p) + core, s);
  }

  lemma {:induction false} LStripStops(p: string, x: string)
    requires x != "" && !IsSpace(x[0])
    ensures LStrip(p + x) == LStrip(p) + x
  {
    if p == "" {
      assert p + x == x;
    } else if IsSpace(p[0]) {
      assert (p + x)[1..] == p[1..] + x;
      LStripStops(p[1..], x);
    }
  }

  lemma {:induction false} RStripStops(x: string, s: string)
    requires x != "" && !IsSpace(x[|x| - 1])
    ensures RStrip(x + s) == x + RStrip(s)
  {
    if s == "" {
      assert x + s == x;
    } else if IsSpace(s[|s| - 1]) {
      assert (x + s)[..|x + s| - 1] == x + s[..|s| - 1];
      RStripStops(x, s[..|s| - 1]);
    }
  }

  lemma {:induction false} LStripIsSuffix(s: string)
    ensures |LStrip(s)| <= |s| && LStrip(s) == s[|s| - |LStrip(s)|..]
    ensures AllSpace(s[..|s| - |LStrip(s)|])
    ensures LStrip(s) != "" ==> !IsSpace(LStrip(s)[0])
  {
    if s != "" && IsSpace(s[0]) {
      LStripIsSuffix(s[1..]);
      var k := |s[1..]| - |LStrip(s)|;
      assert s[..k + 1] == [s[0]] + s[1..][..k];
    }
  }

  lemma {:induction false} AllSpaceStrips(s: string)
    requires AllSpace(s)
    ensures LStrip(s) == "" && RStrip(s) == ""
  {
    if s != "" {
      AllSpaceStrips(s[1..]);
      AllSpaceStrips(s[..|s| - 1]);
    }
  }
}
