/** Sanitising external ids: `to_xmlid` of lib/internal/tools.py. */
module XmlId {

  /** The characters the translation table replaces by an underscore. */
  predicate Replaced(c: char) {
    c == ',' || c == '\n' || c == '|' || c == ' '
  }

  /** The white space that `str.strip` removes. */
  predicate Blank(c: char) {
    var n := c as int;
    || 9 <= n <= 13 || 28 <= n <= 32
    || n == 0x85 || n == 0xA0 || n == 0x1680 || 0x2000 <= n <= 0x200A
    || n == 0x2028 || n == 0x2029 || n == 0x202F || n == 0x205F || n == 0x3000
  }

  function Translate(s: string): string {
    seq(|s|, i requires 0 <= i < |s| => if Replaced(s[i]) then '_' else s[i])
  }

  function StripLeft(s: string): string {
    if s != [] && Blank(s[0]) then StripLeft(s[1..]) else s
  }

  function StripRight(s: string): string {
    if s != [] && Blank(s[|s| - 1]) then StripRight(s[..|s| - 1]) else s
  }

  function Strip(s: string): string {
    StripRight(StripLeft(s))
  }

  function ToXmlid(name: string): string {
    Strip(Translate(name))
  }

  lemma {:induction false} StripLeftFacts(s: string)
    ensures var r := StripLeft(s); |r| <= |s| && r == s[|s| - |r|..] && (r == [] || !Blank(r[0]))
  {
    if s != [] && Blank(s[0]) {
      StripLeftFacts(s[1..]);
    }
  }

  lemma {:induction false} StripRightFacts(s: string)
    ensures var r := StripRight(s); r <= s && (r == [] || !Blank(r[|r| - 1]))
  {
    if s != [] && Blank(s[|s| - 1]) {
      StripRightFacts(s[..|s| - 1]);
    }
  }

  lemma StripIsStable(s: string)
    ensures Strip(Strip(s)) == Strip(s)
  {
    var l := StripLeft(s);
    var r := StripRight(l);
    StripLeftFacts(s);
    StripRightFacts(l);
    if r != [] {
      assert r[0] == l[0];
    }
  }

  /** Stripping takes characters away and adds none. */
  lemma StripOnlyRemoves(s: string, i: nat)
    requires i < |Strip(s)|
    ensures Strip(s)[i] in s
  {
    StripLeftFacts(s);
    StripRightFacts(StripLeft(s));
    assert Strip(s)[i] == StripLeft(s)[i];
  }

  predicate AllBlank(s: string) {
    forall i :: 0 <= i < |s| ==> Blank(s[i])
  }

  lemma {:induction false} StripLeftCuts(s: string)
    ensures |StripLeft(s)| <= |s| && AllBlank(s[..|s| - |StripLeft(s)|])
  {
    if s != [] && Blank(s[0]) {
      StripLeftCuts(s[1..]);
      StripLeftFacts(s[1..]);
      var n := |s| - |StripLeft(s)|;
      assert s[..n] == [s[0]] + s[1..][..n - 1];
    }
  }

  lemma {:induction false} StripRightCuts(s: string)
    ensures |StripRight(s)| <= |s| && AllBlank(s[|StripRight(s)|..])
  {
    if s != [] && Blank(s[|s| - 1]) {
      StripRightCuts(s[..|s| - 1]);
      var n := |StripRight(s)|;
      assert s[n..] == s[..|s| - 1][n..] + [s[|s| - 1]];
    }
  }

  /** What is stripped is what stands between the outermost characters that are not white space. */
  lemma StripMeans(s: string) returns (a: nat, b: nat)
    ensures a <= b <= |s| && Strip(s) == s[a..b] && AllBlank(s[..a]) && AllBlank(s[b..])
    ensures a < b ==> !Blank(s[a]) && !Blank(s[b - 1])
  {
    var l := StripLeft(s);
    StripLeftFacts(s);
    StripLeftCuts(s);
    StripRightFacts(l);
    StripRightCuts(l);
    a := |s| - |l|;
    b := a + |StripRight(l)|;
    assert s[b..] == l[|StripRight(l)|..];
    assert s[a..b] == StripRight(l);
  }

  /** Commas, line breaks, bars and spaces become underscores, then other white space goes from both ends. */
  lemma ToXmlidMeans(name: string) returns (a: nat, b: nat)
    ensures a <= b <= |name| && |ToXmlid(name)| == b - a
    ensures forall i :: 0 <= i < b - a ==>
              ToXmlid(name)[i] == if name[a + i] in [',', '\n', '|', ' '] then '_' else name[a + i]
    ensures forall k :: 0 <= k < |name| && !(a <= k < b) ==> Blank(name[k]) && name[k] !in ['\n', ' ']
    ensures ToXmlid(name) != "" ==> !Blank(ToXmlid(name)[0]) && !Blank(ToXmlid(name)[|ToXmlid(name)| - 1])
  {
    var t := Translate(name);
    a, b := StripMeans(t);
    forall k | 0 <= k < |name| && !(a <= k < b) ensures Blank(name[k]) && !Replaced(name[k]) {
      assert t[k] == if Replaced(name[k]) then '_' else name[k];
      if k < a {
        assert t[..a][k] == t[k];
      } else {
        assert t[b..][k - b] == t[k];
      }
    }
  }

  /** Sanitising twice is sanitising once, so ids taken from a sanitised line still match the map. */
  lemma ToXmlidIsStable(name: string)
    ensures ToXmlid(ToXmlid(name)) == ToXmlid(name)
  {
    var t, x := Translate(name), ToXmlid(name);
    forall i | 0 <= i < |x| ensures !Replaced(x[i]) {
      StripOnlyRemoves(t, i);
    }
    assert Translate(x) == x;
    StripIsStable(t);
  }
}
