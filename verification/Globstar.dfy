/** Workspace patterns with "**" (matchGlobstarParts, internal/project/project.go). */
module Globstar {

  const STARS := "**"

  /** segment(p, s): path.Match accepts segment s for pattern p. */
  type Segment = (string, string) -> bool

  function MatchParts(segment: Segment, pattern: seq<string>, value: seq<string>): bool
    decreases |pattern| + |value|
  {
    if pattern == [] then value == []
    else if pattern[0] == STARS then
      MatchParts(segment, pattern[1..], value) || (value != [] && MatchParts(segment, pattern, value[1..]))
    else
      value != [] && segment(pattern[0], value[0]) && MatchParts(segment, pattern[1..], value[1..])
  }

  function Flatten(chunks: seq<seq<string>>): seq<string> {
    if chunks == [] then [] else chunks[0] + Flatten(chunks[1..])
  }

  predicate Fits(segment: Segment, part: string, chunk: seq<string>) {
    part == STARS || (|chunk| == 1 && segment(part, chunk[0]))
  }

  /** The value is cut into one chunk for each part of the pattern: any chunk for
      "**", a single matching segment for every other part. */
  ghost predicate Cuts(segment: Segment, pattern: seq<string>, value: seq<string>, chunks: seq<seq<string>>) {
    && |chunks| == |pattern|
    && Flatten(chunks) == value
    && forall i :: 0 <= i < |pattern| ==> Fits(segment, pattern[i], chunks[i])
  }

  lemma {:induction false} MatchGivesCut(segment: Segment, pattern: seq<string>, value: seq<string>)
    returns (chunks: seq<seq<string>>)
    requires MatchParts(segment, pattern, value)
    ensures Cuts(segment, pattern, value, chunks)
    decreases |pattern| + |value|
  {
    if pattern == [] {
      return [];
    }
    if pattern[0] != STARS {
      var rest := MatchGivesCut(segment, pattern[1..], value[1..]);
      chunks := [[value[0]]] + rest;
      assert value == [value[0]] + value[1..];
    } else if MatchParts(segment, pattern[1..], value) {
      var rest := MatchGivesCut(segment, pattern[1..], value);
      chunks := [[]] + rest;
    } else {
      var more := MatchGivesCut(segment, pattern, value[1..]);
      chunks := [[value[0]] + more[0]] + more[1..];
      assert Flatten(more) == more[0] + Flatten(more[1..]);
      assert value == [value[0]] + value[1..];
    }
  }

  lemma {:induction false} CutGivesMatch(segment: Segment, pattern: seq<string>, value: seq<string>,
                                         chunks: seq<seq<string>>)
    requires Cuts(segment, pattern, value, chunks)
    ensures MatchParts(segment, pattern, value)
    decreases |pattern| + |value|
  {
    if pattern != [] {
      assert Fits(segment, pattern[0], chunks[0]);
      if chunks[0] == [] {
        assert value == Flatten(chunks[1..]);
        CutGivesMatch(segment, pattern[1..], value, chunks[1..]);
      } else if pattern[0] == STARS {
        var shorter := [chunks[0][1..]] + chunks[1..];
        assert value[1..] == chunks[0][1..] + Flatten(chunks[1..]);
        assert Flatten(shorter) == value[1..];
        CutGivesMatch(segment, pattern, value[1..], shorter);
      } else {
        assert value[1..] == Flatten(chunks[1..]);
        CutGivesMatch(segment, pattern[1..], value[1..], chunks[1..]);
      }
    }
  }

  /** A pattern matches exactly the values that can be cut along it. */
  lemma MatchMeansCut(segment: Segment, pattern: seq<string>, value: seq<string>)
    ensures MatchParts(segment, pattern, value) <==> exists chunks :: Cuts(segment, pattern, value, chunks)
  {
    if MatchParts(segment, pattern, value) {
      var chunks := MatchGivesCut(segment, pattern, value);
    }
    if chunks :| Cuts(segment, pattern, value, chunks) {
      CutGivesMatch(segment, pattern, value, chunks);
    }
  }

  lemma {:induction false} FlattenConcat(a: seq<seq<string>>, b: seq<seq<string>>)
    ensures Flatten(a + b) == Flatten(a) + Flatten(b)
  {
    if a == [] {
      assert a + b == b;
    } else {
      FlattenConcat(a[1..], b);
      assert (a + b)[1..] == a[1..] + b;
    }
  }

  lemma CutConcat(segment: Segment, p: seq<string>, q: seq<string>, v: seq<string>, w: seq<string>,
                  a: seq<seq<string>>, b: seq<seq<string>>)
    requires Cuts(segment, p, v, a) && Cuts(segment, q, w, b)
    ensures Cuts(segment, p + q, v + w, a + b)
  {
    FlattenConcat(a, b);
  }

  lemma CutSplit(segment: Segment, p: seq<string>, q: seq<string>, value: seq<string>, chunks: seq<seq<string>>)
    requires Cuts(segment, p + q, value, chunks)
    ensures Cuts(segment, p, Flatten(chunks[..|p|]), chunks[..|p|])
    ensures Cuts(segment, q, Flatten(chunks[|p|..]), chunks[|p|..])
    ensures value == Flatten(chunks[..|p|]) + Flatten(chunks[|p|..])
  {
    FlattenConcat(chunks[..|p|], chunks[|p|..]);
    assert chunks == chunks[..|p|] + chunks[|p|..];
    forall i | 0 <= i < |p| ensures Fits(segment, p[i], chunks[..|p|][i]) {
      assert Fits(segment, (p + q)[i], chunks[i]);
    }
    forall i | 0 <= i < |q| ensures Fits(segment, q[i], chunks[|p|..][i]) {
      assert Fits(segment, (p + q)[|p| + i], chunks[|p| + i]);
    }
  }

  ghost predicate MatchAt(segment: Segment, p: seq<string>, q: seq<string>, value: seq<string>, k: int) {
    0 <= k <= |value| && MatchParts(segment, p, value[..k]) && MatchParts(segment, q, value[k..])
  }

  /** Matching two patterns in a row is matching some split of the value. */
  lemma MatchConcat(segment: Segment, p: seq<string>, q: seq<string>, value: seq<string>)
    ensures MatchParts(segment, p + q, value) <==> exists k :: MatchAt(segment, p, q, value, k)
  {
    if MatchParts(segment, p + q, value) {
      var chunks := MatchGivesCut(segment, p + q, value);
      CutSplit(segment, p, q, value, chunks);
      var v, w := Flatten(chunks[..|p|]), Flatten(chunks[|p|..]);
      CutGivesMatch(segment, p, v, chunks[..|p|]);
      CutGivesMatch(segment, q, w, chunks[|p|..]);
      assert value[..|v|] == v && value[|v|..] == w;
      assert MatchAt(segment, p, q, value, |v|);
    }
    if k :| MatchAt(segment, p, q, value, k) {
      var a := MatchGivesCut(segment, p, value[..k]);
      var b := MatchGivesCut(segment, q, value[k..]);
      CutConcat(segment, p, q, value[..k], value[k..], a, b);
      assert value == value[..k] + value[k..];
      CutGivesMatch(segment, p + q, value, a + b);
    }
  }

  lemma StarsMatchAll(segment: Segment, value: seq<string>)
    ensures MatchParts(segment, [STARS], value)
  {
    assert Flatten([value]) == value by { assert [value][1..] == []; }
    CutGivesMatch(segment, [STARS], value, [value]);
  }

  /** Two adjacent "**" mean the same as one, wherever they stand. */
  lemma AdjacentStarsCollapse(segment: Segment, p: seq<string>, q: seq<string>, value: seq<string>)
    ensures MatchParts(segment, p + [STARS, STARS] + q, value) <==> MatchParts(segment, p + [STARS] + q, value)
  {
    forall v ensures MatchParts(segment, [STARS, STARS], v) && MatchParts(segment, [STARS], v) {
      StarsMatchAll(segment, v);
      assert [STARS, STARS][1..] == [STARS];
    }
    forall v ensures MatchParts(segment, [STARS, STARS] + q, v) <==> MatchParts(segment, [STARS] + q, v) {
      MatchConcat(segment, [STARS, STARS], q, v);
      MatchConcat(segment, [STARS], q, v);
      assert forall k :: MatchAt(segment, [STARS, STARS], q, v, k) <==> MatchAt(segment, [STARS], q, v, k);
    }
    assert p + [STARS, STARS] + q == p + ([STARS, STARS] + q) && p + [STARS] + q == p + ([STARS] + q);
    MatchConcat(segment, p, [STARS, STARS] + q, value);
    MatchConcat(segment, p, [STARS] + q, value);
    assert forall k :: MatchAt(segment, p, [STARS, STARS] + q, value, k) <==>
           MatchAt(segment, p, [STARS] + q, value, k);
  }
}
