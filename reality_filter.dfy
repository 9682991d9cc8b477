/**
 * The configuration filter of a channel post: a candidate line is a VLESS
 * Reality configuration when it contains the scheme "vless://" and the
 * query parameter "security=reality" anywhere, in either order, compared
 * case-sensitively (Python's `in` on strings).
 */
module RealityFilter {

  const VlessScheme: string := "vless://"
  const RealitySecurity: string := "security=reality"

  predicate StartsWith(s: string, prefix: string) {
    |prefix| <= |s| && s[..|prefix|] == prefix
  }

  /** Python's `sub in s`, searched from the left. */
  predicate Contains(s: string, sub: string)
    decreases |s|
  {
    StartsWith(s, sub) || (s != [] && Contains(s[1..], sub))
  }

  /** `sub` stands in `s` starting at position `i`. */
  ghost predicate OccursAt(s: string, sub: string, i: int) {
    0 <= i && i + |sub| <= |s| && s[i..i + |sub|] == sub
  }

  /** The search agrees with the definition of a substring: `sub` occurs
      at some position of `s`. */
  lemma {:induction false} ContainsIff(s: string, sub: string)
    ensures Contains(s, sub) <==> exists i :: OccursAt(s, sub, i)
    decreases |s|
  {
    if StartsWith(s, sub) {
      assert OccursAt(s, sub, 0);
    } else if s != [] {
      ContainsIff(s[1..], sub);
      forall i | OccursAt(s, sub, i) ensures OccursAt(s[1..], sub, i - 1) {
        assert s[1..][i - 1..i - 1 + |sub|] == s[i..i + |sub|];
      }
      forall j | OccursAt(s[1..], sub, j) ensures OccursAt(s, sub, j + 1) {
        assert s[1..][j..j + |sub|] == s[j + 1..j + 1 + |sub|];
      }
    }
  }

  /** An occurrence needs room: a text shorter than `sub` cannot contain it. */
  lemma {:induction false} ContainsLength(s: string, sub: string)
    requires Contains(s, sub)
    ensures |sub| <= |s|
    decreases |s|
  {
    if !StartsWith(s, sub) {
      ContainsLength(s[1..], sub);
    }
  }

  /** A text in which the first character of `sub` never appears does not
      contain `sub`; in particular the test is case-sensitive. */
  lemma {:induction false} ContainsNeedsFirstChar(s: string, sub: string)
    requires sub != [] && forall k :: 0 <= k < |s| ==> s[k] != sub[0]
    ensures !Contains(s, sub)
    decreases |s|
  {
    if s != [] {
      if |sub| <= |s| {
        assert s[..|sub|][0] == s[0];
      }
      ContainsNeedsFirstChar(s[1..], sub);
    }
  }

  /** The test of the channel-post handler: both literals occur. */
  predicate IsRealityConfig(line: string) {
    Contains(line, VlessScheme) && Contains(line, RealitySecurity)
  }

  /** A line is kept exactly when "vless://" occurs at some position and
      "security=reality" occurs at some position, unrelated to each other. */
  lemma {:induction false} RealityConfigIff(line: string)
    ensures IsRealityConfig(line) <==>
      (exists i :: OccursAt(line, VlessScheme, i)) && (exists j :: OccursAt(line, RealitySecurity, j))
  {
    ContainsIff(line, VlessScheme);
    ContainsIff(line, RealitySecurity);
  }

  /** A kept line is at least as long as "security=reality", so it is never empty. */
  lemma {:induction false} RealityConfigNonEmpty(line: string)
    requires IsRealityConfig(line)
    ensures |line| >= |RealitySecurity| && |line| >= |VlessScheme| && line != []
  {
    ContainsLength(line, VlessScheme);
    ContainsLength(line, RealitySecurity);
  }

  /** A line without a lower-case "v" is never kept: "VLESS://" does not
      count as "vless://". */
  lemma {:induction false} NoLowerVNotReality(line: string)
    requires forall k :: 0 <= k < |line| ==> line[k] != 'v'
    ensures !IsRealityConfig(line)
  {
    ContainsNeedsFirstChar(line, VlessScheme);
  }

  /** A line in which both literals have been found passes the test. */
  lemma {:induction false} FoundBothPasses(line: string, i: int, j: int)
    requires OccursAt(line, VlessScheme, i) && OccursAt(line, RealitySecurity, j)
    ensures IsRealityConfig(line)
  {
    RealityConfigIff(line);
  }

  /** The lines the handler keeps, in their original order. */
  function Matches(lines: seq<string>): (kept: seq<string>)
    ensures |kept| <= |lines|
    ensures forall k :: 0 <= k < |kept| ==> IsRealityConfig(kept[k])
  {
    if lines == [] then []
    else
      var last := lines[|lines| - 1];
      Matches(lines[..|lines| - 1]) + (if IsRealityConfig(last) then [last] else [])
  }

  /** The positions of the kept lines. */
  function MatchPositions(lines: seq<string>): seq<nat> {
    if lines == [] then []
    else
      var n := |lines| - 1;
      MatchPositions(lines[..n]) + (if IsRealityConfig(lines[n]) then [n] else [])
  }

  /** Positions that pick a subsequence of `lines`, in increasing order. */
  ghost predicate PicksInOrder(kept: seq<string>, pos: seq<nat>, lines: seq<string>) {
    && |pos| == |kept|
    && (forall k :: 0 <= k < |pos| ==> pos[k] < |lines| && kept[k] == lines[pos[k]])
    && (forall k, l :: 0 <= k < l < |pos| ==> pos[k] < pos[l])
  }

  /** The kept lines are the subsequence of `lines` at the positions whose
      line passes the test: every passing line is kept, no failing line is,
      and the original order is preserved. */
  lemma {:induction false} MatchesSubsequence(lines: seq<string>)
    ensures PicksInOrder(Matches(lines), MatchPositions(lines), lines)
    ensures forall j :: 0 <= j < |lines| ==> (j in MatchPositions(lines) <==> IsRealityConfig(lines[j]))
  {
    if lines != [] {
      var n := |lines| - 1;
      var init := lines[..n];
      MatchesSubsequence(init);
      var pos0 := MatchPositions(init);
      assert forall k :: 0 <= k < |pos0| ==> pos0[k] < n;
      assert forall j :: 0 <= j < n ==> lines[j] == init[j];
    }
  }

  /** The indices of the lines that pass the test. */
  ghost function MatchingIndices(lines: seq<string>): set<int> {
    set j | 0 <= j < |lines| && IsRealityConfig(lines[j])
  }

  /** As many lines are kept as there are lines passing the test. */
  lemma {:induction false} MatchesCount(lines: seq<string>)
    ensures |Matches(lines)| == |MatchingIndices(lines)|
  {
    if lines != [] {
      var n := |lines| - 1;
      var init := lines[..n];
      MatchesCount(init);
      assert forall j :: 0 <= j < n ==> lines[j] == init[j];
      if IsRealityConfig(lines[n]) {
        assert MatchingIndices(lines) == MatchingIndices(init) + {n};
      } else {
        assert MatchingIndices(lines) == MatchingIndices(init);
      }
    }
  }

  /** Nothing is kept exactly when no line passes the test. */
  lemma {:induction false} MatchesEmptyIff(lines: seq<string>)
    ensures Matches(lines) == [] <==> forall j :: 0 <= j < |lines| ==> !IsRealityConfig(lines[j])
  {
    MatchesSubsequence(lines);
    var pos := MatchPositions(lines);
    if pos != [] {
      assert pos[0] in pos;
    }
  }

  /** Filtering distributes over concatenation. */
  lemma {:induction false} MatchesAppend(a: seq<string>, b: seq<string>)
    ensures Matches(a + b) == Matches(a) + Matches(b)
    decreases |b|
  {
    if b == [] {
      assert a + b == a;
    } else {
      var n := |b| - 1;
      assert (a + b)[..|a + b| - 1] == a + b[..n];
      MatchesAppend(a, b[..n]);
    }
  }

  /** Lines that all pass the test are all kept, unchanged; in particular
      filtering twice keeps what filtering once kept. */
  lemma {:induction false} MatchesOfPassing(lines: seq<string>)
    requires forall k :: 0 <= k < |lines| ==> IsRealityConfig(lines[k])
    ensures Matches(lines) == lines
  {
    if lines != [] {
      var n := |lines| - 1;
      MatchesOfPassing(lines[..n]);
    }
  }

  /** Of three lines where only the middle one passes, only it is kept. */
  lemma {:induction false} MatchesMiddleOnly(a: string, b: string, c: string)
    requires !IsRealityConfig(a) && IsRealityConfig(b) && !IsRealityConfig(c)
    ensures Matches([a, b, c]) == [b]
  {
    assert [a, b, c][..2] == [a, b];
    assert [a, b][..1] == [a];
    assert [a][..0] == [];
    assert Matches([a]) == [];
    assert Matches([a, b]) == [b];
  }

  /** Of three lines where the last two pass, those two are kept in order. */
  lemma {:induction false} MatchesLastTwo(a: string, b: string, c: string)
    requires !IsRealityConfig(a) && IsRealityConfig(b) && IsRealityConfig(c)
    ensures Matches([a, b, c]) == [b, c]
  {
    assert [a, b, c][..2] == [a, b];
    assert [a, b][..1] == [a];
    assert [a][..0] == [];
    assert Matches([a]) == [];
    assert Matches([a, b]) == [b];
  }

  /** The filter loop of the channel-post handler: go through the lines in
      order and append each one that passes the test. */
  method CollectRealityConfigs(configs: seq<string>) returns (realityConfigs: seq<string>)
    ensures realityConfigs == Matches(configs)
  {
    realityConfigs := [];
    for i := 0 to |configs|
      invariant realityConfigs == Matches(configs[..i])
    {
      var config := configs[i];
      assert configs[..i + 1][..i] == configs[..i];
      if Contains(config, VlessScheme) && Contains(config, RealitySecurity) {
        realityConfigs := realityConfigs + [config];
      }
    }
    assert configs[..|configs|] == configs;
  }
}
