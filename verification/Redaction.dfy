/** The redaction pass of the support report: overlapping and touching private
    ranges are merged by a difference-array sweep, and each merged range is
    replaced by one marker. */
module Redaction {

  /** A private range of the text; `rank` is the precedence of its marker. */
  datatype PrivateRange = PrivateRange(start: nat, end: nat, rank: nat)

  datatype Piece = Copied(c: char) | Marker(rank: nat)

  const GENERIC: nat := 0
  const CREDENTIAL: nat := 9

  const REPLACEMENTS: seq<string> := [
    "[REDACTED]", "[REDACTED FILENAME]", "=[REDACTED FILENAME]", "[REDACTED PATH]",
    "[REDACTED REMOTE]", "[REDACTED URL]", "[REDACTED COMPUTER]", "[REDACTED EMAIL]",
    "[REDACTED PRESENTATION TAG]", "[REDACTED CREDENTIAL]"
  ]

  // ----- What the report should contain ------------------------------------

  ghost predicate InText(value: string, covers: seq<PrivateRange>) {
    forall c | c in covers :: c.start < c.end <= |value| && c.rank < |REPLACEMENTS|
  }

  ghost predicate Covered(covers: seq<PrivateRange>, i: int) {
    exists c :: c in covers && c.start <= i < c.end
  }

  /** The first position at or after `i` that no range covers. */
  ghost function RunEnd(covers: seq<PrivateRange>, n: nat, i: nat): (e: nat)
    requires i <= n
    ensures i <= e <= n
    ensures forall k | i <= k < e :: Covered(covers, k)
    ensures e < n ==> !Covered(covers, e)
    decreases n - i
  {
    if i == n || !Covered(covers, i) then i else RunEnd(covers, n, i + 1)
  }

  ghost predicate StartsWithin(c: PrivateRange, lo: int, hi: int) { lo <= c.start < hi }

  /** The highest rank among the ranges that start in [lo, hi), or the generic
      rank when none does. */
  ghost function Best(covers: seq<PrivateRange>, lo: int, hi: int): (rank: nat)
    ensures forall c | c in covers && StartsWithin(c, lo, hi) :: c.rank <= rank
    ensures rank == GENERIC || exists c :: c in covers && StartsWithin(c, lo, hi) && c.rank == rank
  {
    if covers == [] then GENERIC
    else
      var last := covers[|covers| - 1];
      var before := Best(covers[..|covers| - 1], lo, hi);
      if StartsWithin(last, lo, hi) then Max(last.rank, before) else before
  }

  /** Uncovered characters are copied; every maximal covered run becomes one
      marker, the highest-ranked one that starts in it. */
  ghost function Redacted(value: string, covers: seq<PrivateRange>, i: nat): seq<Piece>
    requires i <= |value|
    decreases |value| - i
  {
    if i == |value| then []
    else if !Covered(covers, i) then [Copied(value[i])] + Redacted(value, covers, i + 1)
    else
      var e := RunEnd(covers, |value|, i);
      [Marker(Best(covers, i, e))] + Redacted(value, covers, e)
  }

  ghost function Render(pieces: seq<Piece>): string
    requires forall p | p in pieces :: p.Marker? ==> p.rank < |REPLACEMENTS|
  {
    if pieces == [] then ""
    else
      (match pieces[0]
       case Copied(c) => [c]
       case Marker(rank) => REPLACEMENTS[rank]) + Render(pieces[1..])
  }

  lemma BestBounded(value: string, covers: seq<PrivateRange>, lo: int, hi: int)
    requires InText(value, covers)
    ensures Best(covers, lo, hi) < |REPLACEMENTS|
  {}

  lemma {:induction false} RedactedBounded(value: string, covers: seq<PrivateRange>, i: nat)
    requires i <= |value| && InText(value, covers)
    ensures forall p | p in Redacted(value, covers, i) :: p.Marker? ==> p.rank < |REPLACEMENTS|
    decreases |value| - i
  {
    if i == |value| {
    } else if !Covered(covers, i) {
      RedactedBounded(value, covers, i + 1);
    } else {
      var e := RunEnd(covers, |value|, i);
      BestBounded(value, covers, i, e);
      RedactedBounded(value, covers, e);
    }
  }

  ghost function RedactedText(value: string, covers: seq<PrivateRange>, i: nat): string
    requires i <= |value| && InText(value, covers)
  {
    RedactedBounded(value, covers, i);
    Render(Redacted(value, covers, i))
  }

  // ----- Counting form of the ranges, the one the arrays hold ---------------

  ghost function Depth(covers: seq<PrivateRange>, i: int): nat {
    if covers == [] then 0
    else
      var last := covers[|covers| - 1];
      Depth(covers[..|covers| - 1], i) + (if last.start <= i < last.end then 1 else 0)
  }

  ghost function Delta(c: PrivateRange, i: int): int {
    (if c.start == i then 1 else 0) - (if c.end == i then 1 else 0)
  }

  ghost function Net(covers: seq<PrivateRange>, i: int): int {
    if covers == [] then 0
    else Net(covers[..|covers| - 1], i) + Delta(covers[|covers| - 1], i)
  }

  function Max(a: nat, b: nat): nat { if a > b then a else b }

  lemma {:induction false} DepthStep(covers: seq<PrivateRange>, i: int)
    requires forall c | c in covers :: c.start < c.end
    ensures Depth(covers, i) == Depth(covers, i - 1) + Net(covers, i)
  {
    if covers != [] {
      DepthStep(covers[..|covers| - 1], i);
    }
  }

  lemma {:induction false} DepthPositiveIffCovered(covers: seq<PrivateRange>, i: int)
    ensures Depth(covers, i) > 0 <==> Covered(covers, i)
  {
    if covers != [] {
      var init, last := covers[..|covers| - 1], covers[|covers| - 1];
      DepthPositiveIffCovered(init, i);
      assert covers == init + [last];
    }
  }

  lemma {:induction false} DepthZeroOutside(covers: seq<PrivateRange>, n: int, i: int)
    requires forall c | c in covers :: c.start < c.end <= n
    requires i < 0 || n <= i
    ensures Depth(covers, i) == 0
  {
    if covers != [] {
      DepthZeroOutside(covers[..|covers| - 1], n, i);
    }
  }

  /** What `markerStarts` holds: the highest rank among the ranges starting at `i`. */
  ghost function StartRank(covers: seq<PrivateRange>, i: int): nat { Best(covers, i, i + 1) }

  lemma {:induction false} BestExtends(covers: seq<PrivateRange>, lo: int, hi: int)
    requires lo <= hi
    ensures Best(covers, lo, hi + 1) == Max(Best(covers, lo, hi), Best(covers, hi, hi + 1))
  {
    if covers != [] {
      BestExtends(covers[..|covers| - 1], lo, hi);
    }
  }

  lemma NetAppended(covers: seq<PrivateRange>, c: PrivateRange, i: int)
    ensures Net(covers + [c], i) == Net(covers, i) + Delta(c, i)
  {
    assert (covers + [c])[..|covers|] == covers;
  }

  lemma BestAppended(covers: seq<PrivateRange>, c: PrivateRange, lo: int, hi: int)
    ensures Best(covers + [c], lo, hi) ==
            if StartsWithin(c, lo, hi) then Max(c.rank, Best(covers, lo, hi)) else Best(covers, lo, hi)
  {
    assert (covers + [c])[..|covers|] == covers;
  }

  lemma NothingCounted(i: int)
    ensures Net([], i) == 0 && StartRank([], i) == GENERIC
  {}

  lemma RangeAdded(covers: seq<PrivateRange>, c: PrivateRange)
    ensures forall i :: Net(covers + [c], i) == Net(covers, i) + Delta(c, i)
    ensures forall i :: StartRank(covers + [c], i) == if i == c.start then Max(c.rank, StartRank(covers, i)) else StartRank(covers, i)
  {
    forall i ensures Net(covers + [c], i) == Net(covers, i) + Delta(c, i) {
      NetAppended(covers, c, i);
    }
    forall i ensures StartRank(covers + [c], i) == if i == c.start then Max(c.rank, StartRank(covers, i)) else StartRank(covers, i) {
      BestAppended(covers, c, i, i + 1);
    }
  }

  lemma RunEndAt(covers: seq<PrivateRange>, n: nat, i: nat, e: nat)
    requires i <= e <= n
    requires forall k | i <= k < e :: Covered(covers, k)
    requires e == n || !Covered(covers, e)
    ensures RunEnd(covers, n, i) == e
  {}

  // ----- The sweep ---------------------------------------------------------

  /** The two arrays captured by the source's `cover` closure. They are created
      by the first range; `covers` records every range in call order. */
  class Coverage {
    const value: string
    var coverage: array?<int>
    var markerStarts: array?<nat>
    ghost var covers: seq<PrivateRange>

    ghost predicate Valid()
      reads this, coverage, markerStarts
    {
      && InText(value, covers)
      && (coverage == null <==> covers == [])
      && (coverage == null <==> markerStarts == null)
      && (coverage != null ==>
            && coverage.Length == |value| + 1 && markerStarts.Length == |value|
            && (forall i | 0 <= i <= |value| :: coverage[i] == Net(covers, i))
            && (forall i | 0 <= i < |value| :: markerStarts[i] == StartRank(covers, i)))
    }

    constructor (value: string)
      ensures Valid() && this.value == value && covers == []
      ensures coverage == null && markerStarts == null
    {
      this.value := value;
      coverage, markerStarts, covers := null, null, [];
    }

    method Cover(start: nat, end: nat, rank: nat)
      requires Valid()
      requires start < end <= |value| && rank < |REPLACEMENTS|
      modifies this, coverage, markerStarts
      ensures Valid() && covers == old(covers) + [PrivateRange(start, end, rank)]
      ensures old(coverage) != null ==> coverage == old(coverage) && markerStarts == old(markerStarts)
      ensures old(coverage) == null ==> fresh(coverage) && fresh(markerStarts)
    {
      hide Net, StartRank;
      if coverage == null {
        coverage := new int[|value| + 1](_ => 0);
        markerStarts := new nat[|value|](_ => GENERIC);
        forall i ensures Net([], i) == 0 && StartRank([], i) == GENERIC { NothingCounted(i); }
      }
      ghost var range := PrivateRange(start, end, rank);
      RangeAdded(covers, range);
      covers := covers + [range];
      coverage[start] := coverage[start] + 1;
      coverage[end] := coverage[end] - 1;
      if rank > markerStarts[start] {
        markerStarts[start] := rank;
      }
    }

    /** Covers every occurrence of a literal secret, overlapping ones included. */
    method CoverLiteral(fragment: string)
      requires Valid() && fragment != ""
      modifies this, coverage, markerStarts
      ensures Valid() && old(covers) <= covers
      ensures forall p | OccursAt(value, fragment, p) ::
                PrivateRange(p, p + |fragment|, CREDENTIAL) in covers
      ensures forall c | c in covers[|old(covers)|..] ::
                OccursAt(value, fragment, c.start) && c.end == c.start + |fragment| && c.rank == CREDENTIAL
      ensures old(coverage) != null ==> coverage == old(coverage) && markerStarts == old(markerStarts)
      ensures old(coverage) == null && coverage != null ==> fresh(coverage) && fresh(markerStarts)
    {
      var offset := 0;
      while offset < |value|
        invariant 0 <= offset <= |value|
        invariant Valid() && old(covers) <= covers
        invariant forall p | 0 <= p < offset && OccursAt(value, fragment, p) ::
                    PrivateRange(p, p + |fragment|, CREDENTIAL) in covers
        invariant forall c | c in covers[|old(covers)|..] ::
                    OccursAt(value, fragment, c.start) && c.end == c.start + |fragment| && c.rank == CREDENTIAL
        invariant old(coverage) != null ==> coverage == old(coverage) && markerStarts == old(markerStarts)
        invariant old(coverage) == null && coverage != null ==> fresh(coverage) && fresh(markerStarts)
      {
        var start := IndexFrom(value, fragment, offset);
        if start < 0 {
          break;
        }
        ghost var added := covers[|old(covers)|..];
        Cover(start, start + |fragment|, CREDENTIAL);
        assert covers[|old(covers)|..] == added + [PrivateRange(start, start + |fragment|, CREDENTIAL)];
        offset := start + 1;
      }
    }

    method Sweep() returns (result: string)
      requires Valid()
      ensures result == RedactedText(value, covers, 0)
    {
      hide Depth, Net, Best, StartRank, RedactedText, Covered, Redacted, Render;
      if coverage == null {
        NothingCovered(value, 0);
        assert value[0..] == value;
        return value;
      }
      result := "";
      var depth, marker := 0, GENERIC;
      ghost var run: nat := 0;
      DepthZeroOutside(covers, |value|, -1);
      for index := 0 to |value| + 1
        invariant Swept(value, covers, index, depth, marker, run, result)
      {
        run := SweepStep(value, covers, index, depth, marker, run, result);
        var previous := depth;
        depth := depth + coverage[index];
        if previous > 0 && depth == 0 {
          result := result + REPLACEMENTS[marker];
          marker := GENERIC;
        }
        if index < |value| {
          if markerStarts[index] > marker {
            marker := markerStarts[index];
          }
          if depth == 0 {
            result := result + [value[index]];
          }
        }
      }
      DepthZeroOutside(covers, |value|, |value|);
      NothingAfterTheEnd(value, covers);
    }
  }

  /** What the sweep has established before it reads position `index`: outside a
      run everything so far is written; inside one, everything before the run
      is, and `marker` is the best rank seen in it. */
  ghost predicate Swept(value: string, covers: seq<PrivateRange>, index: nat, depth: int, marker: nat, run: nat, result: string)
    requires InText(value, covers) && index <= |value| + 1
  {
    && depth == Depth(covers, index - 1)
    && (depth == 0 ==> marker == GENERIC)
    && (depth == 0 ==>
          result + RedactedText(value, covers, if index <= |value| then index else |value|) == RedactedText(value, covers, 0))
    && (depth > 0 ==>
          && run < index <= |value|
          && (forall k | run <= k < index :: Covered(covers, k))
          && marker == Best(covers, run, index)
          && result + RedactedText(value, covers, run) == RedactedText(value, covers, 0))
  }

  ghost predicate OccursAt(value: string, fragment: string, p: int) {
    0 <= p && p + |fragment| <= |value| && value[p..p + |fragment|] == fragment
  }

  /** The first occurrence of `fragment` at or after `offset`, or -1. */
  method IndexFrom(value: string, fragment: string, offset: nat) returns (index: int)
    requires offset <= |value|
    ensures index >= 0 ==> offset <= index && OccursAt(value, fragment, index)
    ensures index >= 0 ==> forall p | offset <= p < index :: !OccursAt(value, fragment, p)
    ensures index < 0 ==> forall p | offset <= p :: !OccursAt(value, fragment, p)
  {
    index := offset;
    while index + |fragment| <= |value|
      invariant offset <= index
      invariant forall p | offset <= p < index :: !OccursAt(value, fragment, p)
    {
      if value[index..index + |fragment|] == fragment {
        return;
      }
      index := index + 1;
    }
    index := -1;
  }

  lemma {:induction false} NothingCovered(value: string, i: nat)
    requires i <= |value|
    ensures RedactedText(value, [], i) == value[i..]
    decreases |value| - i
  {
    if i < |value| {
      NothingCovered(value, i + 1);
      CopyStep(value, [], i);
    }
  }

  lemma NothingAfterTheEnd(value: string, covers: seq<PrivateRange>)
    requires InText(value, covers)
    ensures RedactedText(value, covers, |value|) == ""
  {}

  lemma CopyStep(value: string, covers: seq<PrivateRange>, i: nat)
    requires i < |value| && InText(value, covers) && !Covered(covers, i)
    ensures RedactedText(value, covers, i) == [value[i]] + RedactedText(value, covers, i + 1)
  {
    assert Redacted(value, covers, i)[1..] == Redacted(value, covers, i + 1);
  }

  lemma MarkerStep(value: string, covers: seq<PrivateRange>, run: nat, e: nat)
    requires run < e <= |value| && InText(value, covers) && Covered(covers, run)
    requires RunEnd(covers, |value|, run) == e
    ensures Best(covers, run, e) < |REPLACEMENTS|
    ensures RedactedText(value, covers, run) == REPLACEMENTS[Best(covers, run, e)] + RedactedText(value, covers, e)
  {
    BestBounded(value, covers, run, e);
    assert Redacted(value, covers, run)[1..] == Redacted(value, covers, e);
  }

  /** The position where the depth falls back to zero ends the maximal run. */
  lemma RunCloses(value: string, covers: seq<PrivateRange>, index: nat, depth: int, marker: nat, run: nat, result: string)
    requires InText(value, covers) && index <= |value|
    requires Swept(value, covers, index, depth, marker, run, result)
    requires depth > 0 && Depth(covers, index) == 0
    ensures marker < |REPLACEMENTS|
    ensures result + REPLACEMENTS[marker] + RedactedText(value, covers, index) == RedactedText(value, covers, 0)
  {
    DepthPositiveIffCovered(covers, index);
    RunEndAt(covers, |value|, run, index);
    MarkerStep(value, covers, run, index);
  }

  lemma CopyAdvances(value: string, covers: seq<PrivateRange>, index: nat, run: nat, result: string)
    requires InText(value, covers) && index < |value|
    requires Depth(covers, index) == 0
    requires result + RedactedText(value, covers, index) == RedactedText(value, covers, 0)
    ensures Best(covers, index, index + 1) == GENERIC
    ensures Swept(value, covers, index + 1, 0, GENERIC, run, result + [value[index]])
  {
    DepthPositiveIffCovered(covers, index);
    BestOfUncovered(covers, index);
    CopyStep(value, covers, index);
    hide RedactedText, Best, Covered;
    var rest := RedactedText(value, covers, index + 1);
    assert (result + [value[index]]) + rest == result + ([value[index]] + rest);
  }

  lemma RunOpens(value: string, covers: seq<PrivateRange>, index: nat, run: nat, result: string)
    requires InText(value, covers) && index < |value|
    requires Swept(value, covers, index, 0, GENERIC, run, result)
    requires Depth(covers, index) > 0
    ensures Swept(value, covers, index + 1, Depth(covers, index), Best(covers, index, index + 1), index, result)
  {
    DepthPositiveIffCovered(covers, index);
  }

  lemma RunContinues(value: string, covers: seq<PrivateRange>, index: nat, depth: int, marker: nat, run: nat, result: string)
    requires InText(value, covers) && index < |value| && depth > 0
    requires Swept(value, covers, index, depth, marker, run, result)
    requires Depth(covers, index) > 0
    ensures Swept(value, covers, index + 1, Depth(covers, index), Max(marker, Best(covers, index, index + 1)), run, result)
  {
    DepthPositiveIffCovered(covers, index);
    BestExtends(covers, run, index);
  }

  /** One iteration of the sweep, on values. */
  lemma SweepStep(value: string, covers: seq<PrivateRange>, index: nat, depth: int, marker: nat, run: nat, result: string) returns (next: nat)
    requires InText(value, covers) && index <= |value|
    requires Swept(value, covers, index, depth, marker, run, result)
    ensures var now := depth + Net(covers, index);
            var closes := depth > 0 && now == 0;
            && (closes ==> marker < |REPLACEMENTS|)
            && var text := result + (if closes then REPLACEMENTS[marker] else "");
               var best := if closes then GENERIC else marker;
               && (index < |value| ==> Swept(value, covers, index + 1, now, Max(best, StartRank(covers, index)), next,
                     text + (if now == 0 then [value[index]] else "")))
               && (index == |value| ==> Swept(value, covers, index + 1, now, best, next, text))
  {
    hide Depth, Net, Best, RedactedText, Covered, Redacted, Render;
    DepthStep(covers, index);
    var now := Depth(covers, index);
    var closes := depth > 0 && now == 0;
    if closes { RunCloses(value, covers, index, depth, marker, run, result); }
    var text := result + (if closes then REPLACEMENTS[marker] else "");
    next := if depth == 0 then index else run;
    if index == |value| {
      DepthZeroOutside(covers, |value|, index);
    } else if now == 0 {
      CopyAdvances(value, covers, index, next, text);
    } else if depth == 0 {
      RunOpens(value, covers, index, run, result);
    } else {
      RunContinues(value, covers, index, depth, marker, run, result);
    }
  }

  /** No range starts at a position that no range covers, because no range is empty. */
  lemma BestOfUncovered(covers: seq<PrivateRange>, i: int)
    requires forall c | c in covers :: c.start < c.end
    ensures !Covered(covers, i) ==> Best(covers, i, i + 1) == GENERIC
  {}

  // ----- What the report promises ------------------------------------------

  ghost function CopiedText(pieces: seq<Piece>): string {
    if pieces == [] then ""
    else (if pieces[0].Copied? then [pieces[0].c] else "") + CopiedText(pieces[1..])
  }

  ghost function UncoveredText(value: string, covers: seq<PrivateRange>, i: nat): string
    requires i <= |value|
    decreases |value| - i
  {
    if i == |value| then ""
    else (if Covered(covers, i) then "" else [value[i]]) + UncoveredText(value, covers, i + 1)
  }

  lemma {:induction false} CoveredRunIsSilent(value: string, covers: seq<PrivateRange>, i: nat, e: nat)
    requires i <= e <= |value|
    requires forall k | i <= k < e :: Covered(covers, k)
    ensures UncoveredText(value, covers, i) == UncoveredText(value, covers, e)
    decreases e - i
  {
    if i < e { CoveredRunIsSilent(value, covers, i + 1, e); }
  }

  /** Exactly the uncovered characters are copied, in their order. */
  lemma {:induction false} CopiesExactlyTheUncovered(value: string, covers: seq<PrivateRange>, i: nat)
    requires i <= |value|
    ensures CopiedText(Redacted(value, covers, i)) == UncoveredText(value, covers, i)
    decreases |value| - i
  {
    if i == |value| {
    } else if !Covered(covers, i) {
      CopiesExactlyTheUncovered(value, covers, i + 1);
      assert Redacted(value, covers, i)[1..] == Redacted(value, covers, i + 1);
    } else {
      var e := RunEnd(covers, |value|, i);
      CopiesExactlyTheUncovered(value, covers, e);
      assert Redacted(value, covers, i)[1..] == Redacted(value, covers, e);
      CoveredRunIsSilent(value, covers, i, e);
    }
  }

  ghost predicate MaximalRun(value: string, covers: seq<PrivateRange>, s: int, e: int) {
    && 0 <= s < e <= |value|
    && (forall k | s <= k < e :: Covered(covers, k))
    && !Covered(covers, s - 1)
    && !Covered(covers, e)
  }

  /** The pieces written for [i, s). */
  ghost function Before(value: string, covers: seq<PrivateRange>, i: nat, s: nat): seq<Piece>
    requires i <= s <= |value|
    decreases s - i
  {
    if i == s then []
    else if !Covered(covers, i) then [Copied(value[i])] + Before(value, covers, i + 1, s)
    else
      var e := RunEnd(covers, s, i);
      [Marker(Best(covers, i, e))] + Before(value, covers, e, s)
  }

  /** At a position whose predecessor is uncovered, the pieces split. */
  lemma {:induction false} SplitsOutsideRuns(value: string, covers: seq<PrivateRange>, i: nat, s: nat)
    requires i <= s <= |value| && !Covered(covers, s - 1)
    ensures Redacted(value, covers, i) == Before(value, covers, i, s) + Redacted(value, covers, s)
    decreases s - i
  {
    if i == s {
    } else if !Covered(covers, i) {
      SplitsOutsideRuns(value, covers, i + 1, s);
    } else {
      var e := RunEnd(covers, s, i);
      RunEndAt(covers, |value|, i, e);
      SplitsOutsideRuns(value, covers, e, s);
    }
  }

  lemma CopiedFirst(first: Piece, rest: seq<Piece>)
    ensures CopiedText([first] + rest) == (if first.Copied? then [first.c] else "") + CopiedText(rest)
  {
    assert ([first] + rest)[1..] == rest;
  }

  lemma UncoveredFirst(value: string, covers: seq<PrivateRange>, i: nat)
    requires i < |value| && !Covered(covers, i)
    ensures UncoveredText(value, covers, i) == [value[i]] + UncoveredText(value, covers, i + 1)
  {
  }

  lemma {:induction false} BeforeCopies(value: string, covers: seq<PrivateRange>, i: nat, s: nat)
    requires i <= s <= |value|
    ensures CopiedText(Before(value, covers, i, s)) + UncoveredText(value, covers, s) == UncoveredText(value, covers, i)
    decreases s - i
  {
    hide UncoveredText, Covered;
    if i == s {
    } else if !Covered(covers, i) {
      BeforeCopies(value, covers, i + 1, s);
      assert Before(value, covers, i, s) == [Copied(value[i])] + Before(value, covers, i + 1, s);
      CopiedFirst(Copied(value[i]), Before(value, covers, i + 1, s));
      UncoveredFirst(value, covers, i);
      hide Before, CopiedText;
      var rest := CopiedText(Before(value, covers, i + 1, s));
      assert ([value[i]] + rest) + UncoveredText(value, covers, s) == [value[i]] + (rest + UncoveredText(value, covers, s));
    } else {
      var e := RunEnd(covers, s, i);
      BeforeCopies(value, covers, e, s);
      assert Before(value, covers, i, s) == [Marker(Best(covers, i, e))] + Before(value, covers, e, s);
      CopiedFirst(Marker(Best(covers, i, e)), Before(value, covers, e, s));
      CoveredRunIsSilent(value, covers, i, e);
    }
  }

  /** Two markers are never adjacent: a copied character separates any two runs. */
  lemma {:induction false} MarkersAreSeparated(value: string, covers: seq<PrivateRange>, i: nat)
    requires i <= |value|
    ensures forall k | 0 <= k < |Redacted(value, covers, i)| - 1 ::
              Redacted(value, covers, i)[k].Copied? || Redacted(value, covers, i)[k + 1].Copied?
    decreases |value| - i
  {
    if i < |value| {
      var next := if Covered(covers, i) then RunEnd(covers, |value|, i) else i + 1;
      var pieces, rest := Redacted(value, covers, i), Redacted(value, covers, next);
      MarkersAreSeparated(value, covers, next);
      assert pieces == [pieces[0]] + rest;
      assert pieces[0].Copied? || rest == [] || rest[0].Copied?;
      hide Redacted, Covered, RunEnd;
      forall k | 0 <= k < |pieces| - 1 ensures pieces[k].Copied? || pieces[k + 1].Copied? {
        if k > 0 { assert pieces[k] == rest[k - 1] && pieces[k + 1] == rest[k]; }
      }
    }
  }

  /** Every maximal run of overlapping or touching ranges contributes exactly
      one marker, at its own place, and that marker is the highest rank among the
      ranges that start in the run. */
  lemma OneMarkerPerRun(value: string, covers: seq<PrivateRange>, s: nat, e: nat) returns (before: seq<Piece>, rank: nat)
    requires InText(value, covers) && MaximalRun(value, covers, s, e)
    ensures Redacted(value, covers, 0) == before + [Marker(rank)] + Redacted(value, covers, e)
    ensures CopiedText(before) + UncoveredText(value, covers, e) == UncoveredText(value, covers, 0)
    ensures exists c :: c in covers && StartsWithin(c, s, e) && c.rank == rank
    ensures forall c | c in covers && StartsWithin(c, s, e) :: c.rank <= rank
  {
    before := Before(value, covers, 0, s);
    SplitsOutsideRuns(value, covers, 0, s);
    BeforeCopies(value, covers, 0, s);
    RunEndAt(covers, |value|, s, e);
    rank := Best(covers, s, e);
    CoveredRunIsSilent(value, covers, s, e);
    var c :| c in covers && c.start <= s < c.end;
    assert !(c.start <= s - 1 < c.end);
    assert StartsWithin(c, s, e);
    if rank == GENERIC { assert c.rank == rank; }
  }

  lemma SameElements(a: seq<PrivateRange>, b: seq<PrivateRange>)
    requires multiset(a) == multiset(b)
    ensures forall c :: c in a <==> c in b
  {
    assert forall c :: c in a <==> c in multiset(a);
    assert forall c :: c in b <==> c in multiset(b);
  }

  /** The report does not depend on the order in which the ranges were found. */
  lemma {:induction false} OrderDoesNotMatter(value: string, a: seq<PrivateRange>, b: seq<PrivateRange>, i: nat)
    requires i <= |value|
    requires multiset(a) == multiset(b)
    ensures Redacted(value, a, i) == Redacted(value, b, i)
    decreases |value| - i
  {
    if i < |value| {
      SameElements(a, b);
      forall k ensures Covered(a, k) <==> Covered(b, k) {}
      if !Covered(a, i) {
        OrderDoesNotMatter(value, a, b, i + 1);
      } else {
        var e := RunEnd(a, |value|, i);
        RunEndAt(b, |value|, i, e);
        assert Best(a, i, e) == Best(b, i, e);
        OrderDoesNotMatter(value, a, b, e);
      }
    }
  }
}
