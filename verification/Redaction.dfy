/** Streaming redaction of model output (core/spakky-agent/src/spakky/agent/safety.py).

    A session rewrites a token stream chunk by chunk, holding back at most
    `bufferSize` characters.  The pattern is one non-empty literal, replaced
    leftmost and without overlaps.  The main result, `StreamingIsExact`, is an
    equivalence: the session agrees with one-shot redaction on every chunking
    exactly when the pattern fits the buffer and the replacement passes a
    finite check on the pattern alone. */
module Redaction {
  import opened Wrappers

  // ----- One-shot redaction: the reference -----

  lemma {:induction false} Associates(a: string, b: string, c: string)
    ensures a + b + c == a + (b + c)
  {
  }

  predicate Occurs(p: string, x: string, i: nat) {
    i + |p| <= |x| && x[i..i + |p|] == p
  }

  ghost predicate Contains(x: string, p: string) {
    exists i: nat :: Occurs(p, x, i)
  }

  /** `re.subn` for a literal pattern: the text. */
  function Redact(p: string, r: string, x: string): string
    requires p != ""
    decreases |x|
  {
    if |x| < |p| then x
    else if x[..|p|] == p then r + Redact(p, r, x[|p|..])
    else [x[0]] + Redact(p, r, x[1..])
  }

  /** `re.finditer` for a literal pattern: start offsets, shifted by `base`. */
  function FindMatches(p: string, x: string, base: nat): seq<nat>
    requires p != ""
    decreases |x|
  {
    if |x| < |p| then []
    else if x[..|p|] == p then [base] + FindMatches(p, x[|p|..], base + |p|)
    else FindMatches(p, x[1..], base + 1)
  }

  /** `re.subn` for a literal pattern: the number of replacements. */
  function Count(p: string, x: string): nat
    requires p != ""
  {
    |FindMatches(p, x, 0)|
  }

  /** How much text the scan leaves undecided: a match may still start there. */
  function Pending(p: string, x: string): nat
    requires p != ""
    decreases |x|
  {
    if |x| < |p| then |x|
    else if x[..|p|] == p then Pending(p, x[|p|..])
    else Pending(p, x[1..])
  }

  lemma {:induction false} PendingIsHeld(p: string, r: string, x: string)
    requires p != ""
    ensures Pending(p, x) < |p| && Pending(p, x) <= |Redact(p, r, x)|
    decreases |x|
  {
    if |x| < |p| {
    } else if x[..|p|] == p {
      PendingIsHeld(p, r, x[|p|..]);
    } else {
      PendingIsHeld(p, r, x[1..]);
    }
  }

  lemma {:induction false} FindMatchesShift(p: string, x: string, a: nat, b: nat)
    requires p != ""
    ensures |FindMatches(p, x, a)| == |FindMatches(p, x, b)|
    decreases |x|
  {
    if |x| < |p| {
    } else if x[..|p|] == p {
      FindMatchesShift(p, x[|p|..], a + |p|, b + |p|);
    } else {
      FindMatchesShift(p, x[1..], a + 1, b + 1);
    }
  }

  lemma {:induction false} CountUnfold(p: string, x: string)
    requires p != "" && |p| <= |x|
    ensures x[..|p|] == p ==> Count(p, x) == 1 + Count(p, x[|p|..])
    ensures x[..|p|] != p ==> Count(p, x) == Count(p, x[1..])
  {
    if x[..|p|] == p {
      FindMatchesShift(p, x[|p|..], |p|, 0);
    } else {
      FindMatchesShift(p, x[1..], 1, 0);
    }
  }

  /** The scan reports no match exactly when the pattern does not occur. */
  lemma {:induction false} MatchesFoundIffPresent(p: string, x: string)
    requires p != ""
    ensures Count(p, x) == 0 <==> !Contains(x, p)
    decreases |x|
  {
    if |x| < |p| {
    } else if x[..|p|] == p {
      assert Occurs(p, x, 0);
    } else {
      CountUnfold(p, x);
      MatchesFoundIffPresent(p, x[1..]);
      if Contains(x, p) {
        var i: nat :| Occurs(p, x, i);
        assert i != 0;
        assert x[1..][i - 1..i - 1 + |p|] == x[i..i + |p|];
        assert Occurs(p, x[1..], i - 1);
      }
      if Contains(x[1..], p) {
        var i: nat :| Occurs(p, x[1..], i);
        assert x[1..][i..i + |p|] == x[i + 1..i + 1 + |p|];
        assert Occurs(p, x, i + 1);
      }
    }
  }

  /** A position that a reported match occupies is one where the pattern occurs. */
  predicate Found(p: string, x: string, base: nat, m: nat) {
    base <= m && Occurs(p, x, m - base)
  }

  /** Some reported match covers the position. */
  ghost predicate Taken(p: string, found: seq<nat>, i: nat) {
    exists k | 0 <= k < |found| :: found[k] <= i < found[k] + |p|
  }

  ghost predicate AllFound(p: string, x: string, base: nat, found: seq<nat>) {
    forall k | 0 <= k < |found| :: Found(p, x, base, found[k])
  }

  predicate AllApart(p: string, found: seq<nat>) {
    forall k, l | 0 <= k < l < |found| :: found[k] + |p| <= found[l]
  }

  ghost predicate AllTaken(p: string, x: string, base: nat, found: seq<nat>) {
    forall m: nat | Found(p, x, base, m) :: Taken(p, found, m)
  }

  /** The reported matches are occurrences, they do not overlap, and every
      occurrence overlaps one of them that starts no later. */
  ghost predicate Leftmost(p: string, x: string, base: nat, found: seq<nat>) {
    AllFound(p, x, base, found) && AllApart(p, found) && AllTaken(p, x, base, found)
  }

  lemma {:induction false} MatchesAreLeftmost(p: string, x: string, base: nat)
    requires p != ""
    ensures Leftmost(p, x, base, FindMatches(p, x, base))
    decreases |x|
  {
    if |x| < |p| {
      NothingFits(p, x, base);
    } else if x[..|p|] == p {
      MatchesAreLeftmost(p, x[|p|..], base + |p|);
      var rest := FindMatches(p, x[|p|..], base + |p|);
      FoundAfterMatch(p, x, base, rest);
      ApartAfterMatch(p, x, base, rest);
      TakenAfterMatch(p, x, base, rest);
    } else {
      MatchesAreLeftmost(p, x[1..], base + 1);
      var rest := FindMatches(p, x[1..], base + 1);
      FoundAfterPlain(p, x, base, rest);
      TakenAfterPlain(p, x, base, rest);
    }
  }

  lemma {:induction false} NothingFits(p: string, x: string, base: nat)
    requires |x| < |p|
    ensures Leftmost(p, x, base, [])
  {
  }

  lemma {:induction false} FoundLater(p: string, x: string, base: nat, n: nat, m: nat)
    requires n <= |x|
    ensures Found(p, x[n..], base + n, m) <==> m >= base + n && Found(p, x, base, m)
  {
    if m >= base + n && m - base + |p| <= |x| {
      assert x[n..][m - base - n..m - base - n + |p|] == x[m - base..m - base + |p|];
    }
  }

  lemma {:induction false} FoundAfterMatch(p: string, x: string, base: nat, rest: seq<nat>)
    requires 0 < |p| <= |x| && x[..|p|] == p && AllFound(p, x[|p|..], base + |p|, rest)
    ensures AllFound(p, x, base, [base] + rest)
  {
    var found := [base] + rest;
    forall k | 0 <= k < |found|
      ensures Found(p, x, base, found[k])
    {
      if k > 0 {
        assert Found(p, x[|p|..], base + |p|, rest[k - 1]);
        FoundLater(p, x, base, |p|, rest[k - 1]);
      }
    }
  }

  lemma {:induction false} ApartAfterMatch(p: string, x: string, base: nat, rest: seq<nat>)
    requires |p| <= |x| && AllFound(p, x[|p|..], base + |p|, rest) && AllApart(p, rest)
    ensures AllApart(p, [base] + rest)
  {
    var found := [base] + rest;
    forall k, l | 0 <= k < l < |found|
      ensures found[k] + |p| <= found[l]
    {
      assert Found(p, x[|p|..], base + |p|, rest[l - 1]);
      if k > 0 {
        assert rest[k - 1] + |p| <= rest[l - 1];
      }
    }
  }

  lemma {:induction false} TakenAfterMatch(p: string, x: string, base: nat, rest: seq<nat>)
    requires 0 < |p| <= |x| && AllTaken(p, x[|p|..], base + |p|, rest)
    ensures AllTaken(p, x, base, [base] + rest)
  {
    var found := [base] + rest;
    forall m: nat | Found(p, x, base, m)
      ensures Taken(p, found, m)
    {
      if m < base + |p| {
        assert found[0] <= m < found[0] + |p|;
      } else {
        FoundLater(p, x, base, |p|, m);
        assert Taken(p, rest, m);
        var k :| 0 <= k < |rest| && rest[k] <= m < rest[k] + |p|;
        assert found[k + 1] == rest[k];
      }
    }
  }

  lemma {:induction false} FoundAfterPlain(p: string, x: string, base: nat, rest: seq<nat>)
    requires x != "" && AllFound(p, x[1..], base + 1, rest)
    ensures AllFound(p, x, base, rest)
  {
    forall k | 0 <= k < |rest|
      ensures Found(p, x, base, rest[k])
    {
      assert Found(p, x[1..], base + 1, rest[k]);
      FoundLater(p, x, base, 1, rest[k]);
    }
  }

  lemma {:induction false} TakenAfterPlain(p: string, x: string, base: nat, rest: seq<nat>)
    requires 0 < |p| <= |x| && x[..|p|] != p && AllTaken(p, x[1..], base + 1, rest)
    ensures AllTaken(p, x, base, rest)
  {
    forall m: nat | Found(p, x, base, m)
      ensures Taken(p, rest, m)
    {
      assert m != base;
      FoundLater(p, x, base, 1, m);
    }
  }

  /** The text from `from` on with `r` in place of the matches `found`. */
  function Spliced(p: string, r: string, x: string, from: nat, found: seq<nat>): string
    requires from <= |x|
    decreases |found|
  {
    if found == [] then x[from..]
    else if from <= found[0] && found[0] + |p| <= |x| then
      x[from..found[0]] + r + Spliced(p, r, x, found[0] + |p|, found[1..])
    else ""
  }

  /** Redacting replaces exactly the reported matches and copies the rest. */
  lemma {:induction false} RedactionReplacesMatches(p: string, r: string, x: string, from: nat)
    requires p != "" && from <= |x|
    ensures Redact(p, r, x[from..]) == Spliced(p, r, x, from, FindMatches(p, x[from..], from))
    decreases |x| - from
  {
    var y := x[from..];
    if |y| < |p| {
    } else if y[..|p|] == p {
      assert y[|p|..] == x[from + |p|..];
      RedactionReplacesMatches(p, r, x, from + |p|);
      SplicedAtMatch(p, r, x, from, FindMatches(p, x[from + |p|..], from + |p|));
    } else {
      assert y[1..] == x[from + 1..];
      RedactionReplacesMatches(p, r, x, from + 1);
      var rest := FindMatches(p, x[from + 1..], from + 1);
      FirstMatchFits(p, x, from + 1);
      SplicedEarlier(p, r, x, from, rest);
    }
  }

  lemma {:induction false} FirstMatchFits(p: string, x: string, from: nat)
    requires p != "" && from <= |x|
    ensures var found := FindMatches(p, x[from..], from); found != [] ==> from <= found[0] && found[0] + |p| <= |x|
  {
    MatchesAreLeftmost(p, x[from..], from);
    var found := FindMatches(p, x[from..], from);
    if found != [] {
      assert Found(p, x[from..], from, found[0]);
    }
  }

  lemma {:induction false} SplicedAtMatch(p: string, r: string, x: string, from: nat, rest: seq<nat>)
    requires from + |p| <= |x|
    ensures Spliced(p, r, x, from, [from] + rest) == r + Spliced(p, r, x, from + |p|, rest)
  {
    assert ([from] + rest)[1..] == rest && x[from..from] + r == r;
  }

  lemma {:induction false} SplicedEarlier(p: string, r: string, x: string, from: nat, found: seq<nat>)
    requires from < |x| && (found != [] ==> from + 1 <= found[0] && found[0] + |p| <= |x|)
    ensures Spliced(p, r, x, from, found) == [x[from]] + Spliced(p, r, x, from + 1, found)
  {
    if found == [] {
      assert x[from..] == [x[from]] + x[from + 1..];
    } else {
      var rest := Spliced(p, r, x, found[0] + |p|, found[1..]);
      assert x[from..found[0]] == [x[from]] + x[from + 1..found[0]];
      Associates([x[from]], x[from + 1..found[0]], r);
      Associates([x[from]], x[from + 1..found[0]] + r, rest);
    }
  }

  /** Text before the first possible match is copied through. */
  lemma {:induction false} RedactSkips(p: string, r: string, x: string, m: nat)
    requires p != "" && m <= |x|
    requires forall i: nat | i < m :: !Occurs(p, x, i)
    ensures Redact(p, r, x) == x[..m] + Redact(p, r, x[m..])
    ensures Count(p, x) == Count(p, x[m..])
    ensures Pending(p, x[m..]) <= Pending(p, x)
    decreases m
  {
    if m == 0 {
      assert x[0..] == x;
    } else if |x| < |p| {
      assert x == x[..m] + x[m..];
    } else {
      assert !Occurs(p, x, 0);
      NoneLater(p, x, m);
      CountUnfold(p, x);
      RedactSkips(p, r, x[1..], m - 1);
      HeadOff(x, m);
      Associates([x[0]], x[1..][..m - 1], Redact(p, r, x[m..]));
    }
  }

  lemma {:induction false} HeadOff(x: string, m: nat)
    requires 0 < m <= |x|
    ensures x[1..][m - 1..] == x[m..] && x[..m] == [x[0]] + x[1..][..m - 1]
  {
  }

  lemma {:induction false} NoneLater(p: string, x: string, m: nat)
    requires 0 < m <= |x|
    requires forall i: nat | i < m :: !Occurs(p, x, i)
    ensures forall i: nat | i < m - 1 :: !Occurs(p, x[1..], i)
  {
    forall i: nat | i < m - 1
      ensures !Occurs(p, x[1..], i)
    {
      assert !Occurs(p, x, i + 1);
      if i + |p| <= |x[1..]| {
        assert x[1..][i..i + |p|] == x[i + 1..i + 1 + |p|];
      }
    }
  }

  lemma {:induction false} RedactAtFirst(p: string, r: string, x: string, m: nat)
    requires p != "" && Occurs(p, x, m)
    requires forall i: nat | i < m :: !Occurs(p, x, i)
    ensures Redact(p, r, x) == x[..m] + r + Redact(p, r, x[m + |p|..])
  {
    RedactSkips(p, r, x, m);
    assert x[m..][..|p|] == p;
    assert x[m..][|p|..] == x[m + |p|..];
  }

  lemma {:induction false} FirstOccurrence(p: string, x: string, i: nat) returns (m: nat)
    requires Occurs(p, x, i)
    ensures m <= i && Occurs(p, x, m)
    ensures forall k: nat | k < m :: !Occurs(p, x, k)
  {
    m := 0;
    while !Occurs(p, x, m)
      invariant m <= i
      invariant forall k: nat | k < m :: !Occurs(p, x, k)
      decreases i - m
    {
      m := m + 1;
    }
  }

  // ----- When is a replacement safe? -----

  /** A finite check a caller can make from the two configured strings: the
      pattern, padded by any of its own prefixes and suffixes, must not leave
      a copy of the pattern behind once redacted. */
  ghost predicate ReplacementSafe(p: string, r: string)
    requires p != ""
  {
    forall i: nat, j: nat | i <= |p| && j <= |p| :: PaddedIsClean(p, r, i, j)
  }

  ghost predicate PaddedIsClean(p: string, r: string, i: nat, j: nat)
    requires p != "" && i <= |p| && j <= |p|
  {
    !Contains(Redact(p, r, p[..i] + p + p[j..]), p)
  }

  /** Untouched text `u` in front of a match must not combine with the
      replacement into a new copy of the pattern. */
  lemma {:induction false} RebuildBeforeIsUnsafe(p: string, r: string, u: string, rest: string)
    requires 0 < |u| < |p|
    requires p <= u + r + rest
    requires forall i: nat | i < |u| :: !Occurs(p, u + p, i)
    ensures !ReplacementSafe(p, r)
  {
    var i := |u|;
    var j := if i + |r| <= |p| then i + |r| else |p|;
    var v := p[j..];
    RedactPadded(p, r, u, v);
    RebuiltPrefix(p, r, u, rest, j);
    assert p[..i] + p + p[j..] == u + p + v;
    assert !PaddedIsClean(p, r, i, j);
  }

  lemma {:induction false} RedactPadded(p: string, r: string, u: string, v: string)
    requires 0 < |u| < |p| && |v| < |p|
    requires forall i: nat | i < |u| :: !Occurs(p, u + p, i)
    ensures Redact(p, r, u + p + v) == u + r + v
  {
    var x := u + p + v;
    assert x[|u|..|u| + |p|] == p;
    assert Occurs(p, x, |u|);
    forall k: nat | k < |u|
      ensures !Occurs(p, x, k)
    {
      assert (u + p)[k..k + |p|] == x[k..k + |p|];
      assert !Occurs(p, u + p, k);
    }
    RedactAtFirst(p, r, x, |u|);
    assert x[|u| + |p|..] == v && x[..|u|] == u;
  }

  lemma {:induction false} RebuiltPrefix(p: string, r: string, u: string, rest: string, j: nat)
    requires |u| < |p| && p <= u + r + rest
    requires j == if |u| + |r| <= |p| then |u| + |r| else |p|
    ensures u == p[..|u|] && Contains(u + r + p[j..], p)
  {
    var y := u + r + p[j..];
    assert u == (u + r + rest)[..|u|] == p[..|u|];
    assert y[..|p|] == p by {
      if |u| + |r| <= |p| {
        assert p[|u|..j] == (u + r + rest)[|u|..j] == r;
        assert y == p;
      } else {
        assert (u + r)[..|p|] == (u + r + rest)[..|p|];
      }
    }
    assert Occurs(p, y, 0);
  }

  /** A tail `s` of the replacement must not combine with what follows into a
      new copy of the pattern. */
  lemma {:induction false} RebuildAfterIsUnsafe(p: string, r: string, s: string, rest: string)
    requires p != "" && 0 < |s| <= |r| && s == r[|r| - |s|..]
    requires p <= s + rest
    ensures !ReplacementSafe(p, r)
  {
    var j := if |s| <= |p| then |s| else |p|;
    var v := p[j..];
    var x := p[..0] + p + v;
    assert x[..|p|] == p && x[|p|..] == v;
    var y := r + v;
    assert Redact(p, r, x) == y;
    var k := |r| - |s|;
    assert y[k..k + |p|] == p by {
      assert y[k..] == s + v;
      if |s| <= |p| {
        assert p[..j] == (s + rest)[..j] == s;
        assert s + v == p;
      } else {
        assert s[..|p|] == (s + rest)[..|p|];
      }
    }
    assert Occurs(p, y, k);
    assert !PaddedIsClean(p, r, 0, j);
  }

  /** The heart of the streaming argument.  Let `kept` be what is still held
      back of the redacted input `x`, and `gone` what was already emitted.
      Redacting `kept` again together with new text `c` gives exactly the rest
      of the one-shot redaction of `x + c`. */
  lemma {:induction false} RedactionResumes(p: string, r: string, x: string, c: string, gone: string, kept: string)
    requires p != "" && ReplacementSafe(p, r)
    requires Redact(p, r, x) == gone + kept
    requires Pending(p, x) <= |kept|
    ensures Redact(p, r, x + c) == gone + Redact(p, r, kept + c)
    ensures Count(p, x + c) == Count(p, x) + Count(p, kept + c)
    ensures Pending(p, x + c) <= Pending(p, kept + c)
    decreases |x|, 2
  {
    if |x| < |p| {
      assert gone == "" && kept == x;
    } else if x[..|p|] == p {
      ResumeAtMatch(p, r, x, c, gone, kept);
    } else {
      ResumeAtPlain(p, r, x, c, gone, kept);
    }
  }

  lemma {:induction false} Regroup(a: string, b: string, c: string, d: string)
    requires a + b == c + d && |c| <= |a|
    ensures a == c + a[|c|..] && d == a[|c|..] + b
  {
    assert a[..|c|] == (a + b)[..|c|] == c;
    assert a[|c|..] + b == (a + b)[|c|..] == d;
  }

  /** No match starts inside what is left of a replacement. */
  lemma {:induction false} ReplacementTailIsInert(p: string, r: string, s: string, rest: string)
    requires p != "" && ReplacementSafe(p, r)
    requires |s| <= |r| && s == r[|r| - |s|..]
    ensures Redact(p, r, s + rest) == s + Redact(p, r, rest)
    ensures Count(p, s + rest) == Count(p, rest)
    ensures Pending(p, rest) <= Pending(p, s + rest)
  {
    var z := s + rest;
    forall i: nat | i < |s|
      ensures !Occurs(p, z, i)
    {
      if Occurs(p, z, i) {
        assert z[i..] == s[i..] + rest;
        assert p == z[i..][..|p|];
        RebuildAfterIsUnsafe(p, r, s[i..], rest);
      }
    }
    RedactSkips(p, r, z, |s|);
    assert z[|s|..] == rest && z[..|s|] == s;
  }

  lemma {:induction false} ResumeAtMatch(p: string, r: string, x: string, c: string, gone: string, kept: string)
    requires p != "" && ReplacementSafe(p, r)
    requires |p| <= |x| && x[..|p|] == p
    requires Redact(p, r, x) == gone + kept
    requires Pending(p, x) <= |kept|
    ensures Redact(p, r, x + c) == gone + Redact(p, r, kept + c)
    ensures Count(p, x + c) == Count(p, x) + Count(p, kept + c)
    ensures Pending(p, x + c) <= Pending(p, kept + c)
    decreases |x|, 1
  {
    UnfoldAtMatch(p, r, x, c);
    var y' := Redact(p, r, x[|p|..]);
    if |r| <= |gone| {
      Regroup(gone, kept, r, y');
      RedactionResumes(p, r, x[|p|..], c, gone[|r|..], kept);
      Associates(r, gone[|r|..], Redact(p, r, kept + c));
    } else {
      Regroup(r, y', gone, kept);
      ResumeInsideReplacement(p, r, x[|p|..], c, gone, r[|gone|..]);
    }
  }

  lemma {:induction false} ResumeInsideReplacement(p: string, r: string, x': string, c: string, gone: string, s: string)
    requires p != "" && ReplacementSafe(p, r) && r == gone + s
    ensures r + Redact(p, r, x' + c) == gone + Redact(p, r, s + Redact(p, r, x') + c)
    ensures Count(p, x' + c) == Count(p, x') + Count(p, s + Redact(p, r, x') + c)
    ensures Pending(p, x' + c) <= Pending(p, s + Redact(p, r, x') + c)
    decreases |x'|, 3
  {
    var y' := Redact(p, r, x');
    PendingIsHeld(p, r, x');
    RedactionResumes(p, r, x', c, "", y');
    assert "" + Redact(p, r, y' + c) == Redact(p, r, y' + c);
    ReplacementTailIsInert(p, r, s, y' + c);
    Associates(s, y', c);
    Associates(gone, s, Redact(p, r, y' + c));
  }

  lemma {:induction false} UnfoldAtMatch(p: string, r: string, x: string, c: string)
    requires p != "" && |p| <= |x| && x[..|p|] == p
    ensures Redact(p, r, x) == r + Redact(p, r, x[|p|..])
    ensures Redact(p, r, x + c) == r + Redact(p, r, x[|p|..] + c)
    ensures Count(p, x) == 1 + Count(p, x[|p|..])
    ensures Count(p, x + c) == 1 + Count(p, x[|p|..] + c)
    ensures Pending(p, x) == Pending(p, x[|p|..])
    ensures Pending(p, x + c) == Pending(p, x[|p|..] + c)
  {
    assert (x + c)[..|p|] == p && (x + c)[|p|..] == x[|p|..] + c;
    CountUnfold(p, x);
    CountUnfold(p, x + c);
  }

  lemma {:induction false} UnfoldAtPlain(p: string, r: string, x: string, c: string)
    requires p != "" && |p| <= |x| && x[..|p|] != p
    ensures Redact(p, r, x) == [x[0]] + Redact(p, r, x[1..])
    ensures Redact(p, r, x + c) == [x[0]] + Redact(p, r, x[1..] + c)
    ensures Count(p, x) == Count(p, x[1..])
    ensures Count(p, x + c) == Count(p, x[1..] + c)
    ensures Pending(p, x) == Pending(p, x[1..])
    ensures Pending(p, x + c) == Pending(p, x[1..] + c)
  {
    assert (x + c)[..|p|] == x[..|p|] && (x + c)[1..] == x[1..] + c;
    CountUnfold(p, x);
    CountUnfold(p, x + c);
  }

  lemma {:induction false} ResumeAtPlain(p: string, r: string, x: string, c: string, gone: string, kept: string)
    requires p != "" && ReplacementSafe(p, r)
    requires |p| <= |x| && x[..|p|] != p
    requires Redact(p, r, x) == gone + kept
    requires Pending(p, x) <= |kept|
    ensures Redact(p, r, x + c) == gone + Redact(p, r, kept + c)
    ensures Count(p, x + c) == Count(p, x) + Count(p, kept + c)
    ensures Pending(p, x + c) <= Pending(p, kept + c)
    decreases |x|, 1
  {
    UnfoldAtPlain(p, r, x, c);
    if gone != "" {
      Regroup(gone, kept, [x[0]], Redact(p, r, x[1..]));
      ResumePastFirst(p, r, x[0], x[1..], c, gone[1..], kept);
    } else {
      NothingGone(gone, kept, Redact(p, r, kept + c));
      NoFalseStart(p, r, x, c);
      ResumeAfterFirst(p, r, x[0], x[1..], c);
    }
  }

  lemma {:induction false} NothingGone(gone: string, a: string, b: string)
    requires gone == ""
    ensures gone + a == a && gone + b == b
  {
  }

  lemma {:induction false} ResumePastFirst(
      p: string, r: string, a: char, x': string, c: string, gone: string, kept: string)
    requires p != "" && ReplacementSafe(p, r)
    requires Redact(p, r, x') == gone + kept
    requires Pending(p, x') <= |kept|
    ensures [a] + Redact(p, r, x' + c) == [a] + gone + Redact(p, r, kept + c)
    ensures Count(p, x' + c) == Count(p, x') + Count(p, kept + c)
    ensures Pending(p, x' + c) <= Pending(p, kept + c)
    decreases |x'|, 3
  {
    RedactionResumes(p, r, x', c, gone, kept);
    Associates([a], gone, Redact(p, r, kept + c));
  }

  lemma {:induction false} ResumeAfterFirst(p: string, r: string, a: char, x': string, c: string)
    requires p != "" && ReplacementSafe(p, r)
    requires !Occurs(p, [a] + Redact(p, r, x') + c, 0)
    ensures [a] + Redact(p, r, x' + c) == Redact(p, r, [a] + Redact(p, r, x') + c)
    ensures Count(p, x' + c) == Count(p, x') + Count(p, [a] + Redact(p, r, x') + c)
    ensures Pending(p, x' + c) <= Pending(p, [a] + Redact(p, r, x') + c)
    decreases |x'|, 3
  {
    var y' := Redact(p, r, x');
    PendingIsHeld(p, r, x');
    RedactionResumes(p, r, x', c, "", y');
    assert "" + Redact(p, r, y' + c) == Redact(p, r, y' + c);
    Associates([a], y', c);
    SkipFirst(p, r, a, y' + c);
  }

  lemma {:induction false} SkipFirst(p: string, r: string, a: char, rest: string)
    requires p != "" && !Occurs(p, [a] + rest, 0)
    ensures Redact(p, r, [a] + rest) == [a] + Redact(p, r, rest)
    ensures Count(p, [a] + rest) == Count(p, rest)
    ensures Pending(p, rest) <= Pending(p, [a] + rest)
  {
    var z := [a] + rest;
    assert z[..1] == [a] && z[1..] == rest;
    RedactSkips(p, r, z, 1);
  }

  /** If no match starts the input, none starts its redaction either. */
  lemma {:induction false} NoFalseStart(p: string, r: string, x: string, c: string)
    requires p != "" && ReplacementSafe(p, r)
    requires |p| <= |x| && x[..|p|] != p
    ensures !Occurs(p, Redact(p, r, x) + c, 0)
  {
    if Contains(x, p) {
      var i: nat :| Occurs(p, x, i);
      var m := FirstOccurrence(p, x, i);
      RedactAtFirst(p, r, x, m);
      assert m != 0;
      var tail := Redact(p, r, x[m + |p|..]);
      NoStartBeforeMatch(p, r, x, m, tail + c);
      Associates(x[..m] + r, tail, c);
    } else {
      RedactSkips(p, r, x, |x|);
      assert x[|x|..] == "";
      assert (x + c)[..|p|] == x[..|p|];
    }
  }

  lemma {:induction false} NoStartBeforeMatch(p: string, r: string, x: string, m: nat, rest: string)
    requires p != "" && ReplacementSafe(p, r)
    requires 0 < m && Occurs(p, x, m)
    requires forall k: nat | k < m :: !Occurs(p, x, k)
    ensures !Occurs(p, x[..m] + r + rest, 0)
  {
    var u := x[..m];
    var z := u + r + rest;
    assert !Occurs(p, x, 0);
    if |p| <= m {
      assert z[..|p|] == x[..|p|];
    } else if Occurs(p, z, 0) {
      forall k: nat | k < m
        ensures !Occurs(p, u + p, k)
      {
        assert u + p == x[..m + |p|];
        assert !Occurs(p, x, k);
        assert x[..m + |p|][k..k + |p|] == x[k..k + |p|];
      }
      RebuildBeforeIsUnsafe(p, r, u, rest);
    }
  }

  /** Redaction under a safe replacement leaves no copy of the pattern. */
  lemma {:induction false} RedactionIsClean(p: string, r: string, x: string)
    requires p != "" && ReplacementSafe(p, r)
    ensures !Contains(Redact(p, r, x), p)
    ensures Redact(p, r, Redact(p, r, x)) == Redact(p, r, x)
  {
    var y := Redact(p, r, x);
    PendingIsHeld(p, r, x);
    RedactionResumes(p, r, x, "", "", y);
    assert x + "" == x && y + "" == y;
    MatchesFoundIffPresent(p, y);
  }

  // ----- The session -----

  datatype Policy = Policy(
    pattern: string,
    replacement: string,
    bufferSize: nat,
    emitChunkSize: Option<nat>,
    raiseOnFailure: bool)
  {
    /** What the policy and pattern constructors refuse to go without. */
    predicate Valid() {
      pattern != "" && bufferSize > 0 && (emitChunkSize.Some? ==> emitChunkSize.value > 0)
    }
  }

  datatype Audit = Audit(passed: bool, detected: nat, redacted: nat, missed: seq<nat>)

  datatype PushResult = Pushed(chunks: seq<string>) | PushRefused

  datatype FinishResult =
    | Finished(chunks: seq<string>, audit: Audit)
    | FinishedWithError(chunks: seq<string>, audit: Audit)
    | GuardRaised
    | FinishRefused

  /** The fields of a session, as a value. */
  datatype Session = Session(
    buffer: string,
    original: seq<string>,
    emitted: seq<string>,
    redacted: nat,
    closed: bool)

  function Join(chunks: seq<string>): string {
    if chunks == [] then "" else chunks[0] + Join(chunks[1..])
  }

  lemma {:induction false} JoinAppends(a: seq<string>, b: seq<string>)
    ensures Join(a + b) == Join(a) + Join(b)
  {
    if a == [] {
      assert a + b == b;
    } else {
      JoinAppends(a[1..], b);
      assert (a + b)[1..] == a[1..] + b;
      Associates(a[0], Join(a[1..]), Join(b));
    }
  }

  lemma {:induction false} JoinCons(head: string, rest: seq<string>)
    ensures Join([head] + rest) == head + Join(rest)
  {
    assert ([head] + rest)[1..] == rest;
  }

  function Pieces(value: string, size: nat): seq<string>
    requires size > 0
    decreases |value|
  {
    if value == "" then []
    else if |value| <= size then [value]
    else [value[..size]] + Pieces(value[size..], size)
  }

  function SplitForEmit(policy: Policy, value: string): seq<string>
    requires policy.Valid()
  {
    if value == "" then []
    else if policy.emitChunkSize.None? then [value]
    else Pieces(value, policy.emitChunkSize.value)
  }

  lemma {:induction false} PiecesFit(value: string, size: nat)
    requires size > 0
    ensures forall k | 0 <= k < |Pieces(value, size)| :: 0 < |Pieces(value, size)[k]| <= size
    ensures forall k | 0 <= k < |Pieces(value, size)| - 1 :: |Pieces(value, size)[k]| == size
    decreases |value|
  {
    if |value| > size {
      PiecesFit(value[size..], size);
    }
  }

  lemma {:induction false} PiecesJoin(value: string, size: nat)
    requires size > 0
    ensures Join(Pieces(value, size)) == value
    decreases |value|
  {
    if |value| > size {
      PiecesJoin(value[size..], size);
      JoinCons(value[..size], Pieces(value[size..], size));
      assert value[..size] + value[size..] == value;
    } else if value != "" {
      JoinCons(value, []);
    }
  }

  /** Cutting for emission loses nothing, and every piece but the last has the
      configured size. */
  lemma {:induction false} PiecesRejoin(value: string, size: nat)
    requires size > 0
    ensures Join(Pieces(value, size)) == value
    ensures forall piece | piece in Pieces(value, size) :: 0 < |piece| <= size
    ensures forall k | 0 <= k < |Pieces(value, size)| - 1 :: |Pieces(value, size)[k]| == size
  {
    PiecesFit(value, size);
    PiecesJoin(value, size);
  }

  /** What is emitted at once: nothing for no text, one chunk without a configured
      size, and otherwise pieces of that size. */
  lemma {:induction false} SplitIsExact(policy: Policy, value: string)
    requires policy.Valid()
    ensures var pieces := SplitForEmit(policy, value);
            && Join(pieces) == value && (forall piece | piece in pieces :: piece != "")
            && (policy.emitChunkSize.None? ==> |pieces| <= 1)
            && (policy.emitChunkSize.Some? ==>
                  && (forall piece | piece in pieces :: |piece| <= policy.emitChunkSize.value)
                  && (forall k | 0 <= k < |pieces| - 1 :: |pieces[k]| == policy.emitChunkSize.value))
  {
    SplitRejoins(policy, value);
    if policy.emitChunkSize.Some? {
      PiecesRejoin(value, policy.emitChunkSize.value);
    }
  }

  lemma {:induction false} SplitRejoins(policy: Policy, value: string)
    requires policy.Valid()
    ensures Join(SplitForEmit(policy, value)) == value
  {
    if value != "" {
      if policy.emitChunkSize.None? {
        assert Join([value]) == value + Join([]);
      } else {
        PiecesRejoin(value, policy.emitChunkSize.value);
      }
    }
  }

  function Fresh(): Session {
    Session("", [], [], 0, false)
  }

  function SafePrefix(policy: Policy, buffer: string): nat {
    if |buffer| > policy.bufferSize then |buffer| - policy.bufferSize else 0
  }

  /** One accepted `push`. */
  function AfterPush(policy: Policy, s: Session, chunk: string): Session
    requires policy.Valid()
  {
    if chunk == "" then s
    else
      var text := s.buffer + chunk;
      var buffer := Redact(policy.pattern, policy.replacement, text);
      var cut := SafePrefix(policy, buffer);
      Session(
        buffer[cut..],
        s.original + [chunk],
        s.emitted + SplitForEmit(policy, buffer[..cut]),
        s.redacted + Count(policy.pattern, text),
        s.closed)
  }

  /** One accepted `finish`. */
  function AfterFinish(policy: Policy, s: Session): Session
    requires policy.Valid()
  {
    Session(
      "",
      s.original,
      s.emitted + SplitForEmit(policy, Redact(policy.pattern, policy.replacement, s.buffer)),
      s.redacted + Count(policy.pattern, s.buffer),
      true)
  }

  function AuditOf(policy: Policy, s: Session): Audit
    requires policy.Valid()
  {
    var missed := FindMatches(policy.pattern, Join(s.emitted), 0);
    Audit(missed == [], Count(policy.pattern, Join(s.original)), s.redacted, missed)
  }

  /** In every state of a session, the audit passes if and only if the emitted
      text holds no copy of the pattern; the missed matches are where it does,
      and the detected ones are counted in the original text. */
  lemma {:induction false} AuditTellsTheTruth(policy: Policy, s: Session)
    requires policy.Valid()
    ensures var audit := AuditOf(policy, s);
            && (audit.passed <==> !Contains(Join(s.emitted), policy.pattern))
            && Leftmost(policy.pattern, Join(s.emitted), 0, audit.missed)
            && (audit.detected == 0 <==> !Contains(Join(s.original), policy.pattern))
            && audit.detected == |FindMatches(policy.pattern, Join(s.original), 0)| && audit.redacted == s.redacted
  {
    MatchesFoundIffPresent(policy.pattern, Join(s.emitted));
    MatchesFoundIffPresent(policy.pattern, Join(s.original));
    MatchesAreLeftmost(policy.pattern, Join(s.emitted), 0);
  }

  function PushAll(policy: Policy, s: Session, chunks: seq<string>): Session
    requires policy.Valid()
    decreases |chunks|
  {
    if chunks == [] then s
    else PushAll(policy, AfterPush(policy, s, chunks[0]), chunks[1..])
  }

  // ----- What every session accounts for, exact or not -----

  /** Every replacement changes the length by as much, and nothing else does. */
  function Grown(policy: Policy, n: nat): int {
    if n == 0 then 0 else Grown(policy, n - 1) + |policy.replacement| - |policy.pattern|
  }

  lemma {:induction false} GrownAdds(policy: Policy, m: nat, n: nat)
    ensures Grown(policy, m + n) == Grown(policy, m) + Grown(policy, n)
    decreases n
  {
    if n > 0 {
      GrownAdds(policy, m, n - 1);
    }
  }

  lemma {:induction false} RedactionGrows(policy: Policy, x: string)
    requires policy.Valid()
    ensures |Redact(policy.pattern, policy.replacement, x)| == |x| + Grown(policy, Count(policy.pattern, x))
    decreases |x|
  {
    var p := policy.pattern;
    if |x| >= |p| {
      CountUnfold(p, x);
      if x[..|p|] == p {
        RedactionGrows(policy, x[|p|..]);
      } else {
        RedactionGrows(policy, x[1..]);
      }
    }
  }

  /** What was emitted and is held back is as long as what came in, but for the
      replacements that were counted. */
  ghost predicate Accounted(policy: Policy, s: Session) {
    |Join(s.emitted)| + |s.buffer| == |Join(s.original)| + Grown(policy, s.redacted)
  }

  lemma {:induction false} PushAccounts(policy: Policy, s: Session, chunk: string)
    requires policy.Valid() && Accounted(policy, s)
    ensures var s1 := AfterPush(policy, s, chunk);
            Accounted(policy, s1) && Join(s1.original) == Join(s.original) + chunk && s1.closed == s.closed
  {
    if chunk != "" {
      var text := s.buffer + chunk;
      var buffer := Redact(policy.pattern, policy.replacement, text);
      var cut := SafePrefix(policy, buffer);
      RedactionGrows(policy, text);
      GrownAdds(policy, s.redacted, Count(policy.pattern, text));
      SplitRejoins(policy, buffer[..cut]);
      JoinAppends(s.emitted, SplitForEmit(policy, buffer[..cut]));
      JoinAppends(s.original, [chunk]);
      JoinCons(chunk, []);
      assert [chunk] + [] == [chunk] && chunk + "" == chunk;
    }
  }

  lemma {:induction false} PushesAccount(policy: Policy, s: Session, chunks: seq<string>)
    requires policy.Valid() && Accounted(policy, s)
    ensures var s1 := PushAll(policy, s, chunks);
            Accounted(policy, s1) && Join(s1.original) == Join(s.original) + Join(chunks) && s1.closed == s.closed
    decreases |chunks|
  {
    if chunks == [] {
      assert Join(s.original) + "" == Join(s.original);
    } else {
      PushAccounts(policy, s, chunks[0]);
      PushesAccount(policy, AfterPush(policy, s, chunks[0]), chunks[1..]);
      Associates(Join(s.original), chunks[0], Join(chunks[1..]));
    }
  }

  /** For every policy and every chunking, exact or not: a finished session is
      closed, holds nothing back and knows the whole input, and the length of
      what it emitted is that of the input but for the replacements it counted. */
  lemma {:induction false} SessionAccounts(policy: Policy, chunks: seq<string>)
    requires policy.Valid()
    ensures var s := Streamed(policy, chunks);
            && s.closed && s.buffer == "" && Join(s.original) == Join(chunks)
            && |Join(s.emitted)| == |Join(chunks)| + Grown(policy, s.redacted)
  {
    PushesAccount(policy, Fresh(), chunks);
    var s := PushAll(policy, Fresh(), chunks);
    var last := Redact(policy.pattern, policy.replacement, s.buffer);
    RedactionGrows(policy, s.buffer);
    GrownAdds(policy, s.redacted, Count(policy.pattern, s.buffer));
    SplitRejoins(policy, last);
    JoinAppends(s.emitted, SplitForEmit(policy, last));
    assert "" + Join(chunks) == Join(chunks);
  }

  /** A whole session: push every chunk, then finish. */
  function Streamed(policy: Policy, chunks: seq<string>): Session
    requires policy.Valid()
  {
    AfterFinish(policy, PushAll(policy, Fresh(), chunks))
  }

  // ----- Streaming equals batch, exactly when it can -----

  /** What the session owes its caller for one input. */
  ghost predicate Faithful(policy: Policy, chunks: seq<string>)
    requires policy.Valid()
  {
    var s := Streamed(policy, chunks);
    var audit := AuditOf(policy, s);
    && Join(s.emitted) == Redact(policy.pattern, policy.replacement, Join(chunks))
    && audit.redacted == audit.detected == Count(policy.pattern, Join(chunks))
    && audit.passed
  }

  /** The condition on the configuration alone. */
  ghost predicate Sound(policy: Policy)
    requires policy.Valid()
  {
    |policy.pattern| <= policy.bufferSize + 1 && ReplacementSafe(policy.pattern, policy.replacement)
  }

  /** Between calls: emitted plus held back is the redaction of all input so
      far, and never more than `bufferSize` characters are held back. */
  ghost predicate InStep(policy: Policy, s: Session, input: string)
    requires policy.Valid()
  {
    && Redact(policy.pattern, policy.replacement, input) == Join(s.emitted) + s.buffer
    && s.redacted == Count(policy.pattern, input)
    && Join(s.original) == input
    && Pending(policy.pattern, input) <= |s.buffer| <= policy.bufferSize
  }

  lemma {:induction false} PushKeepsStep(policy: Policy, s: Session, input: string, chunk: string)
    requires policy.Valid() && Sound(policy) && InStep(policy, s, input)
    ensures InStep(policy, AfterPush(policy, s, chunk), input + chunk)
  {
    var p, r := policy.pattern, policy.replacement;
    if chunk == "" {
      assert input + chunk == input;
    } else {
      RedactionResumes(p, r, input, chunk, Join(s.emitted), s.buffer);
      var buffer := Redact(p, r, s.buffer + chunk);
      CutKeepsText(policy, s, buffer, SafePrefix(policy, buffer));
      JoinAppends(s.original, [chunk]);
      assert Join([chunk]) == chunk + Join([]);
      PendingIsHeld(p, r, s.buffer + chunk);
    }
  }

  lemma {:induction false} CutKeepsText(policy: Policy, s: Session, buffer: string, cut: nat)
    requires policy.Valid() && cut <= |buffer|
    ensures Join(s.emitted + SplitForEmit(policy, buffer[..cut])) == Join(s.emitted) + buffer[..cut]
    ensures Join(s.emitted + SplitForEmit(policy, buffer[..cut])) + buffer[cut..] == Join(s.emitted) + buffer
  {
    SplitRejoins(policy, buffer[..cut]);
    JoinAppends(s.emitted, SplitForEmit(policy, buffer[..cut]));
    Associates(Join(s.emitted), buffer[..cut], buffer[cut..]);
    assert buffer[..cut] + buffer[cut..] == buffer;
  }

  lemma {:induction false} RunKeepsStep(policy: Policy, s: Session, input: string, chunks: seq<string>)
    requires policy.Valid() && Sound(policy) && InStep(policy, s, input)
    ensures InStep(policy, PushAll(policy, s, chunks), input + Join(chunks))
    decreases |chunks|
  {
    if chunks == [] {
      assert input + Join(chunks) == input;
    } else {
      PushKeepsStep(policy, s, input, chunks[0]);
      RunKeepsStep(policy, AfterPush(policy, s, chunks[0]), input + chunks[0], chunks[1..]);
      Associates(input, chunks[0], Join(chunks[1..]));
    }
  }

  lemma {:induction false} SoundImpliesFaithful(policy: Policy, chunks: seq<string>)
    requires policy.Valid() && Sound(policy)
    ensures Faithful(policy, chunks)
  {
    var p, r := policy.pattern, policy.replacement;
    var s := PushAll(policy, Fresh(), chunks);
    var input := Join(chunks);
    RunKeepsStep(policy, Fresh(), "", chunks);
    assert "" + input == input;
    RedactionResumes(p, r, input, "", Join(s.emitted), s.buffer);
    assert input + "" == input && s.buffer + "" == s.buffer;
    var tail := Redact(p, r, s.buffer);
    CutKeepsText(policy, s, tail, |tail|);
    assert tail[..|tail|] == tail && tail[|tail|..] == "";
    RedactionIsClean(p, r, input);
    MatchesFoundIffPresent(p, Redact(p, r, input));
  }

  /** A pattern that does not fit the buffer leaks when its last character
      arrives on its own. */
  lemma {:induction false} LongPatternLeaks(policy: Policy) returns (chunks: seq<string>)
    requires policy.Valid() && |policy.pattern| > policy.bufferSize + 1
    ensures Join(chunks) == policy.pattern && !Faithful(policy, chunks)
  {
    var p := policy.pattern;
    var a, z := p[..|p| - 1], p[|p| - 1..];
    chunks := [a, z];
    var s0 := Fresh();
    var s1 := AfterPush(policy, s0, a);
    assert "" + a == a;
    var s2 := AfterPush(policy, s1, z);
    assert PushAll(policy, s0, [a, z]) == s2 by {
      assert [a, z][1..] == [z] && [z][1..] == [];
      assert PushAll(policy, s1, [z]) == PushAll(policy, s2, []);
    }
    assert |s1.buffer + z| < |p| && s1.redacted == 0;
    assert s2.redacted == 0 && |s2.buffer| < |p|;
    assert Streamed(policy, [a, z]).redacted == 0;
    assert Join([a, z]) == p by {
      assert [a, z][1..] == [z] && Join([z]) == z + Join([]);
      assert a + z == p;
    }
    CountUnfold(p, p);
    assert p[..|p|] == p;
  }

  lemma {:induction false} UnsafeReplacementFails(policy: Policy, i: nat, j: nat) returns (chunks: seq<string>)
    requires policy.Valid()
    requires i <= |policy.pattern| && j <= |policy.pattern|
    requires !PaddedIsClean(policy.pattern, policy.replacement, i, j)
    ensures !Faithful(policy, chunks)
  {
    var p := policy.pattern;
    var x := p[..i] + p + p[j..];
    chunks := [x];
    assert Join([x]) == x + Join([]) == x;
    MatchesFoundIffPresent(p, Redact(p, policy.replacement, x));
    var missed := FindMatches(p, Join(Streamed(policy, [x]).emitted), 0);
    assert AuditOf(policy, Streamed(policy, [x])).passed <==> |missed| == 0;
  }

  lemma {:induction false} UnsoundFails(policy: Policy) returns (chunks: seq<string>)
    requires policy.Valid() && !Sound(policy)
    ensures !Faithful(policy, chunks)
  {
    var p := policy.pattern;
    if |p| > policy.bufferSize + 1 {
      chunks := LongPatternLeaks(policy);
    } else {
      var i: nat, j: nat :| i <= |p| && j <= |p| && !PaddedIsClean(p, policy.replacement, i, j);
      chunks := UnsafeReplacementFails(policy, i, j);
    }
  }

  /** The exact condition: streaming agrees with one-shot redaction, counts
      what the audit detects and passes the audit, on every input and every
      chunking of it, if and only if the pattern fits the buffer and the
      replacement is safe for it. */
  lemma {:induction false} StreamingIsExact(policy: Policy)
    requires policy.Valid()
    ensures (forall chunks :: Faithful(policy, chunks)) <==> Sound(policy)
  {
    if Sound(policy) {
      forall chunks
        ensures Faithful(policy, chunks)
      {
        SoundImpliesFaithful(policy, chunks);
      }
    } else {
      var chunks := UnsoundFails(policy);
    }
  }

  // ----- Configurations that are sound, and some that are not -----

  /** A simple sufficient test: the replacement does not contain the pattern
      and neither its first nor its last character occurs in the pattern. */
  lemma {:induction false} SeparatedReplacementIsSafe(p: string, r: string)
    requires p != "" && r != ""
    requires r[0] !in p && r[|r| - 1] !in p && !Contains(r, p)
    ensures ReplacementSafe(p, r)
  {
    forall i: nat, j: nat | i <= |p| && j <= |p|
      ensures PaddedIsClean(p, r, i, j)
    {
      SeparatedStaysClean(p, r, p[..i] + p + p[j..]);
    }
  }

  lemma {:induction false} SeparatedStaysClean(p: string, r: string, x: string)
    requires p != "" && r != ""
    requires r[0] !in p && r[|r| - 1] !in p && !Contains(r, p)
    ensures !Contains(Redact(p, r, x), p)
    decreases |x|
  {
    var y := Redact(p, r, x);
    if |x| < |p| {
    } else if x[..|p|] == p {
      SeparatedStaysClean(p, r, x[|p|..]);
      NoneAcross(p, r, Redact(p, r, x[|p|..]));
    } else {
      SeparatedStaysClean(p, r, x[1..]);
      var y' := Redact(p, r, x[1..]);
      forall k: nat
        ensures !Occurs(p, y, k)
      {
        if k == 0 {
          SeparatedNoStart(p, r, x);
        } else if k + |p| <= |y| {
          assert y'[k - 1..k - 1 + |p|] == y[k..k + |p|];
          assert !Occurs(p, y', k - 1);
        }
      }
    }
  }

  lemma {:induction false} NoneAcross(p: string, r: string, y': string)
    requires p != "" && r != ""
    requires r[|r| - 1] !in p && !Contains(r, p) && !Contains(y', p)
    ensures !Contains(r + y', p)
  {
    var y := r + y';
    forall k: nat
      ensures !Occurs(p, y, k)
    {
      if k + |p| <= |y| {
        if |r| <= k {
          assert y'[k - |r|..k - |r| + |p|] == y[k..k + |p|];
          assert !Occurs(p, y', k - |r|);
        } else if k + |p| <= |r| {
          assert r[k..k + |p|] == y[k..k + |p|];
          assert !Occurs(p, r, k);
        } else {
          assert y[k..k + |p|][|r| - 1 - k] == r[|r| - 1];
        }
      }
    }
  }

  lemma {:induction false} SeparatedNoStart(p: string, r: string, x: string)
    requires p != "" && r != "" && r[0] !in p
    requires |p| <= |x| && x[..|p|] != p
    ensures !Occurs(p, Redact(p, r, x), 0)
  {
    if Contains(x, p) {
      var i: nat :| Occurs(p, x, i);
      var m := FirstOccurrence(p, x, i);
      RedactAtFirst(p, r, x, m);
      var y := x[..m] + r + Redact(p, r, x[m + |p|..]);
      if |p| <= m {
        assert y[..|p|] == x[..|p|];
      } else if |p| <= |y| {
        assert y[..|p|][m] == r[0];
      }
    } else {
      RedactSkips(p, r, x, |x|);
      assert x[|x|..] == "";
    }
  }

  const REDACTED_VALUE := "[REDACTED]"

  /** The default replacement is safe for every pattern without brackets. */
  lemma {:induction false} DefaultReplacementIsSafe(p: string)
    requires p != "" && '[' !in p && ']' !in p && !Contains(REDACTED_VALUE, p)
    ensures ReplacementSafe(p, REDACTED_VALUE)
  {
    SeparatedReplacementIsSafe(p, REDACTED_VALUE);
  }

  /** Erasing matches is not safe in general: removing "ab" from "aabb"
      leaves a fresh "ab" behind, for the session and for one-shot redaction. */
  lemma {:induction false} ErasingCanRebuild()
    ensures Redact("ab", "", "aabb") == "ab"
    ensures !ReplacementSafe("ab", "")
  {
    var p := "ab";
    assert "aabb"[1..] == "abb" && "abb"[..2] == p && "abb"[2..] == "b";
    assert Redact(p, "", "abb") == "" + Redact(p, "", "b");
    assert Redact(p, "", "aabb") == "a" + Redact(p, "", "abb");
    var x := p[..1] + p + p[1..];
    assert x == "aabb";
    assert Occurs(p, Redact(p, "", x), 0);
    assert !PaddedIsClean(p, "", 1, 1);
  }

  // ----- The session object -----

  class StreamingRedactionSession {
    const policy: Policy
    var buffer: string
    var originalChunks: seq<string>
    var emittedChunks: seq<string>
    var redactedCount: nat
    var closed: bool

    ghost function State(): Session
      reads this
    {
      Session(buffer, originalChunks, emittedChunks, redactedCount, closed)
    }

    constructor (policy: Policy)
      requires policy.Valid()
      ensures this.policy == policy && State() == Fresh()
    {
      this.policy := policy;
      buffer, originalChunks, emittedChunks, redactedCount, closed := "", [], [], 0, false;
    }

    /** Redacts a text and counts the replacements. */
    method RedactText(value: string) returns (result: string)
      requires policy.Valid()
      modifies this`redactedCount
      ensures result == Redact(policy.pattern, policy.replacement, value)
      ensures redactedCount == old(redactedCount) + Count(policy.pattern, value)
    {
      result := Redact(policy.pattern, policy.replacement, value);
      redactedCount := redactedCount + Count(policy.pattern, value);
    }

    method EmitSafePrefix() returns (chunks: seq<string>)
      requires policy.Valid()
      modifies this`buffer, this`emittedChunks
      ensures var cut := SafePrefix(policy, old(buffer));
              && buffer == old(buffer)[cut..]
              && chunks == SplitForEmit(policy, old(buffer)[..cut])
      ensures emittedChunks == old(emittedChunks) + chunks
      ensures |buffer| <= policy.bufferSize
    {
      var emitLength := SafePrefix(policy, buffer);
      if emitLength == 0 {
        return [];
      }
      var prefix := buffer[..emitLength];
      buffer := buffer[emitLength..];
      chunks := SplitForEmit(policy, prefix);
      emittedChunks := emittedChunks + chunks;
    }

    method Push(chunk: string) returns (result: PushResult)
      requires policy.Valid()
      modifies this
      ensures old(closed) ==> result == PushRefused && State() == old(State())
      ensures !old(closed) ==>
        && State() == AfterPush(policy, old(State()), chunk)
        && result.Pushed? && emittedChunks == old(emittedChunks) + result.chunks
    {
      if closed {
        return PushRefused;
      }
      if chunk == "" {
        return Pushed([]);
      }
      originalChunks := originalChunks + [chunk];
      buffer := RedactText(buffer + chunk);
      var chunks := EmitSafePrefix();
      result := Pushed(chunks);
    }

    method Finish() returns (result: FinishResult)
      requires policy.Valid()
      modifies this
      ensures old(closed) ==> result == FinishRefused && State() == old(State())
      ensures !old(closed) ==>
        && State() == AfterFinish(policy, old(State()))
        && var audit := AuditOf(policy, State());
           var chunks := SplitForEmit(policy, Redact(policy.pattern, policy.replacement, old(buffer)));
           result == if audit.passed then Finished(chunks, audit)
                     else if policy.raiseOnFailure then GuardRaised
                     else FinishedWithError(chunks, audit)
    {
      if closed {
        return FinishRefused;
      }
      closed := true;
      var redacted := RedactText(buffer);
      var chunks := SplitForEmit(policy, redacted);
      buffer := "";
      emittedChunks := emittedChunks + chunks;
      var audit := AuditOf(policy, Session(buffer, originalChunks, emittedChunks, redactedCount, closed));
      if !audit.passed {
        if policy.raiseOnFailure {
          return GuardRaised;
        }
        return FinishedWithError(chunks, audit);
      }
      result := Finished(chunks, audit);
    }
  }

  /** A caller's loop over one stream, and the guarantee it gets. */
  method RedactStream(policy: Policy, chunks: seq<string>) returns (emitted: seq<string>, result: FinishResult)
    requires policy.Valid()
    ensures Sound(policy) ==>
      && result.Finished?
      && Join(emitted) == Redact(policy.pattern, policy.replacement, Join(chunks))
      && result.audit.redacted == result.audit.detected == Count(policy.pattern, Join(chunks))
  {
    var session := new StreamingRedactionSession(policy);
    for i := 0 to |chunks|
      invariant !session.closed && session.policy == policy
      invariant PushAll(policy, session.State(), chunks[i..]) == PushAll(policy, Fresh(), chunks)
    {
      assert chunks[i..][0] == chunks[i] && chunks[i..][1..] == chunks[i + 1..];
      var pushed := session.Push(chunks[i]);
    }
    result := session.Finish();
    emitted := session.emittedChunks;
    if Sound(policy) {
      SoundImpliesFaithful(policy, chunks);
    }
  }
}
