/** The JavaScript string operations the components share. */
module JsText {
  /** White space and line terminators, as `trim` and `trimStart` strip them
      (ECMAScript sections 12.2 and 12.3). */
  predicate IsSpace(c: char) {
    || '\U{9}' <= c <= '\U{D}' || c == ' ' || c == '\U{A0}' || c == '\U{1680}'
    || '\U{2000}' <= c <= '\U{200A}' || c == '\U{2028}' || c == '\U{2029}'
    || c == '\U{202F}' || c == '\U{205F}' || c == '\U{3000}' || c == '\U{FEFF}'
  }

  function TrimStart(s: string): (r: string)
    ensures r == [] || !IsSpace(r[0])
    ensures s == [] || !IsSpace(s[0]) ==> r == s
  {
    if s != [] && IsSpace(s[0]) then TrimStart(s[1..]) else s
  }

  function TrimEnd(s: string): (r: string)
    ensures r == [] || (s != [] && r[0] == s[0] && !IsSpace(r[|r| - 1]))
    ensures s == [] || !IsSpace(s[|s| - 1]) ==> r == s
  {
    if s != [] && IsSpace(s[|s| - 1]) then TrimEnd(s[..|s| - 1]) else s
  }

  /** A trimmed string has no space at either end, and such strings are left alone. */
  function Trim(s: string): (r: string)
    ensures r == [] || (!IsSpace(r[0]) && !IsSpace(r[|r| - 1]))
    ensures s == [] || (!IsSpace(s[0]) && !IsSpace(s[|s| - 1])) ==> r == s
  {
    TrimEnd(TrimStart(s))
  }

  lemma {:induction false} TrimStartIs(s: string) returns (n: nat)
    ensures n <= |s| && TrimStart(s) == s[n..] && forall i | 0 <= i < n :: IsSpace(s[i])
  {
    n := 0;
    if s != [] && IsSpace(s[0]) {
      n := TrimStartIs(s[1..]);
      hide IsSpace;
      forall i | 0 <= i < n + 1 ensures IsSpace(s[i]) {
        assert i > 0 ==> s[i] == s[1..][i - 1];
      }
      n := n + 1;
    }
  }

  lemma {:induction false} TrimEndIs(s: string) returns (m: nat)
    ensures m <= |s| && TrimEnd(s) == s[..m] && forall i | m <= i < |s| :: IsSpace(s[i])
  {
    m := |s|;
    if s != [] && IsSpace(s[|s| - 1]) {
      m := TrimEndIs(s[..|s| - 1]);
    }
  }

  /** What trimming takes away is white space at the two ends, and all of it. */
  lemma TrimIs(s: string) returns (n: nat, m: nat)
    ensures n <= m <= |s| && Trim(s) == s[n..m]
    ensures forall i | 0 <= i < n || m <= i < |s| :: IsSpace(s[i])
    ensures Trim(s) != "" ==> !IsSpace(Trim(s)[0]) && !IsSpace(Trim(s)[|Trim(s)| - 1])
  {
    n := TrimStartIs(s);
    var k := TrimEndIs(s[n..]);
    m := n + k;
    hide IsSpace, TrimStart, TrimEnd;
    forall i | m <= i < |s| ensures IsSpace(s[i]) {
      assert s[n..][i - n] == s[i];
    }
  }

  /** The white space and line terminators of ECMAScript, one by one. */
  lemma SpacesAre(c: char)
    ensures IsSpace(c) <==> c in {
      '\U{9}', '\U{A}', '\U{B}', '\U{C}', '\U{D}', '\U{20}', '\U{A0}', '\U{1680}',
      '\U{2000}', '\U{2001}', '\U{2002}', '\U{2003}', '\U{2004}', '\U{2005}',
      '\U{2006}', '\U{2007}', '\U{2008}', '\U{2009}', '\U{200A}', '\U{2028}',
      '\U{2029}', '\U{202F}', '\U{205F}', '\U{3000}', '\U{FEFF}'}
  {
  }

  function Join(parts: seq<string>, separator: string): string {
    if parts == [] then ""
    else if |parts| == 1 then parts[0]
    else parts[0] + separator + Join(parts[1..], separator)
  }

  function Concat(parts: seq<string>): string {
    if parts == [] then "" else parts[0] + Concat(parts[1..])
  }
}
