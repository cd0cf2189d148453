/** The parts of Go's strings and unicode packages the other modules use, on character strings. */
module GoStrings {
  import opened Seqs

  predicate IsSpace(c: char) {
    || '\t' <= c <= '\r' || c == ' ' || c == '\U{85}' || c == '\U{A0}' || c == '\U{1680}'
    || '\U{2000}' <= c <= '\U{200A}' || c == '\U{2028}' || c == '\U{2029}' || c == '\U{202F}'
    || c == '\U{205F}' || c == '\U{3000}'
  }

  function TrimLeft(s: string): string {
    if s != "" && IsSpace(s[0]) then TrimLeft(s[1..]) else s
  }

  function TrimRight(s: string): string {
    if s != "" && IsSpace(Last(s)) then TrimRight(Init(s)) else s
  }

  function TrimSpace(s: string): string {
    TrimRight(TrimLeft(s))
  }

  predicate ContainsAny(s: string, chars: string) {
    exists c | c in s :: c in chars
  }

  // ---- what trimming does ------------------------------------------------------------------

  /** The code points of white space. */
  predicate Space(c: char) {
    || c as int in {9, 10, 11, 12, 13, 32, 0x85, 0xA0, 0x1680, 0x2028, 0x2029, 0x202F, 0x205F, 0x3000}
    || 0x2000 <= c as int <= 0x200A
  }

  lemma SpaceIs()
    ensures forall c :: IsSpace(c) <==> Space(c)
  {
  }

  ghost predicate AllSpace(s: string) {
    forall i | 0 <= i < |s| :: Space(s[i])
  }

  lemma {:induction false} TrimLeftIs(s: string) returns (k: nat)
    ensures k <= |s| && AllSpace(s[..k]) && TrimLeft(s) == s[k..]
    ensures k < |s| ==> !Space(s[k])
  {
    SpaceIs();
    hide IsSpace, Space;
    if s != "" && IsSpace(s[0]) {
      var r := TrimLeftIs(s[1..]);
      k := r + 1;
      forall i | 0 <= i < k ensures Space(s[i]) {
        assert i > 0 ==> s[i] == s[1..][..r][i - 1];
      }
    } else {
      k := 0;
    }
  }

  lemma {:induction false} TrimRightIs(s: string) returns (k: nat)
    ensures k <= |s| && AllSpace(s[k..]) && TrimRight(s) == s[..k]
    ensures k > 0 ==> !Space(s[k - 1])
  {
    SpaceIs();
    hide IsSpace, Space;
    if s != "" && IsSpace(Last(s)) {
      k := TrimRightIs(Init(s));
      forall i | k <= i < |s| ensures Space(s[i]) {
        assert i < |s| - 1 ==> s[i] == Init(s)[k..][i - k];
      }
    } else {
      k := |s|;
    }
  }

  /** TrimSpace cuts the spaces at both ends and nothing else. */
  lemma TrimSpaceIs(s: string) returns (a: nat, b: nat)
    ensures a <= b <= |s| && TrimSpace(s) == s[a..b] && AllSpace(s[..a]) && AllSpace(s[b..])
    ensures a < b ==> !Space(s[a]) && !Space(s[b - 1])
    ensures a == b ==> AllSpace(s)
  {
    SpaceIs();
    hide IsSpace, Space;
    a := TrimLeftIs(s);
    var k := TrimRightIs(s[a..]);
    b := a + k;
    assert s[b..] == s[a..][k..];
    assert s[a..b] == s[a..][..k];
    if a == b {
      assert s == s[..a] + s[a..];
    }
  }
}
