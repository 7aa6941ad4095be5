/** Detection of a log tail that may end in the middle of a configured secret:
    the prefix-function matcher of the support report. */
module SecretTail {

  /** `s` starts and ends with its own first `k` characters, for a proper `k`. */
  ghost predicate Border(s: string, k: int) {
    0 <= k < |s| && s[..k] == s[|s| - k..]
  }

  ghost predicate LongestBorder(s: string, k: int) {
    Border(s, k) && forall j | Border(s, j) :: j <= k
  }

  /** The last `k` characters of `text` are the first `k` of `literal`. */
  ghost predicate EndsWithPrefix(text: string, literal: string, k: int) {
    0 <= k <= |literal| && k <= |text| && text[|text| - k..] == literal[..k]
  }

  /** What the source must detect: the value ends with a non-empty proper prefix
      of some literal of at least two characters. */
  ghost predicate EndsInsideSecret(value: string, literals: seq<string>) {
    exists l, k :: l in literals && 0 < k < |l| && EndsWithPrefix(value, l, k)
  }

  ghost predicate PrefixTable(literal: string, table: seq<int>, n: nat) {
    n <= |literal| && n <= |table| && forall i | 0 <= i < n :: LongestBorder(literal[..i + 1], table[i])
  }

  // ----- Borders of borders -------------------------------------------------

  /** A match of `literal` at the end of `text` restricts to the shorter matches
      that are borders of the matched prefix, and to no others. */
  lemma MatchesAreBorders(text: string, literal: string, long: int, short: int)
    requires EndsWithPrefix(text, literal, long) && 0 <= short < long
    ensures EndsWithPrefix(text, literal, short) <==> Border(literal[..long], short)
  {
    var m := literal[..long];
    assert text[|text| - short..] == text[|text| - long..][long - short..];
    assert m[long - short..] == text[|text| - short..];
    assert m[..short] == literal[..short];
  }

  /** Appending one character: a non-empty match extends the match one shorter. */
  lemma MatchExtends(text: string, c: char, literal: string, k: int)
    requires 0 < k <= |literal|
    ensures EndsWithPrefix(text + [c], literal, k) <==>
            EndsWithPrefix(text, literal, k - 1) && literal[k - 1] == c
  {
    var longer := text + [c];
    if k <= |longer| {
      assert longer[|longer| - k..] == text[|text| - (k - 1)..] + [c];
      assert literal[..k] == literal[..k - 1] + [literal[k - 1]];
      if longer[|longer| - k..] == literal[..k] {
        assert longer[|longer| - k..][k - 1] == literal[..k][k - 1];
        assert longer[|longer| - k..][..k - 1] == literal[..k][..k - 1];
      }
    }
  }

  /** The proper borders of `literal[..n]` are its matches at the end of
      `literal[1..n]`: the table is built by matching the literal with itself. */
  lemma BorderIsMatch(literal: string, n: nat, k: int)
    requires 0 < n <= |literal|
    ensures Border(literal[..n], k) <==> k < n && EndsWithPrefix(literal[1..n], literal, k)
  {
    if 0 <= k < n {
      assert literal[..n][n - k..] == literal[1..n][n - 1 - k..];
      assert literal[..n][..k] == literal[..k];
    }
  }

  // ----- One character of matching -----------------------------------------

  /** `matched` is the longest prefix of `literal`, among those no longer than
      `cap`, that ends `text`. */
  ghost predicate LongestMatch(text: string, literal: string, matched: int, cap: int) {
    && matched <= cap && EndsWithPrefix(text, literal, matched)
    && forall j | j <= cap && EndsWithPrefix(text, literal, j) :: j <= matched
  }

  /** Feeds one character to the matcher: the fall-back loop of the source. The
      candidates longer than `matched` are already excluded. Every fall-back
      shortens the match, so `steps` is paid for by earlier extensions. */
  method Feed(ghost text: string, c: char, literal: string, prefix: array<int>, matched: int, ghost cap: int)
    returns (next: int, ghost steps: nat)
    requires 0 <= matched <= cap < |literal| <= prefix.Length
    requires PrefixTable(literal, prefix[..], matched)
    requires LongestMatch(text, literal, matched, cap)
    ensures LongestMatch(text + [c], literal, next, cap + 1)
    ensures 0 <= next <= matched + 1 && steps <= matched + 1 - next
  {
    next, steps := matched, 0;
    while next > 0 && c != literal[next]
      invariant 0 <= next <= matched && steps <= matched - next
      invariant EndsWithPrefix(text, literal, next)
      invariant forall j | next < j <= cap && EndsWithPrefix(text, literal, j) :: literal[j] != c
      decreases next
    {
      var shorter := prefix[next - 1];
      assert prefix[..][next - 1] == shorter;
      assert LongestBorder(literal[..next], shorter);
      forall j | shorter < j <= cap && EndsWithPrefix(text, literal, j) ensures literal[j] != c {
        if j < next { MatchesAreBorders(text, literal, next, j); }
      }
      MatchesAreBorders(text, literal, next, shorter);
      next, steps := shorter, steps + 1;
    }
    if c == literal[next] {
      MatchExtends(text, c, literal, next + 1);
      next := next + 1;
    }
    forall j | j <= cap + 1 && EndsWithPrefix(text + [c], literal, j) ensures j <= next {
      if j > 0 { MatchExtends(text, c, literal, j); }
    }
  }

  // ----- The table, rebuilt in a reused buffer ------------------------------

  /** Fills the first `|literal|` slots of `prefix`. Whatever an earlier, longer
      literal left in the buffer is never read. */
  method BuildPrefix(literal: string, prefix: array<int>) returns (ghost steps: nat)
    requires 2 <= |literal| <= prefix.Length
    requires prefix[0] == 0
    modifies prefix
    ensures PrefixTable(literal, prefix[..], |literal|)
    ensures forall i | |literal| <= i < prefix.Length :: prefix[i] == old(prefix[i])
    ensures steps <= 2 * |literal|
  {
    var matched := 0;
    steps := 0;
    FirstBorder(literal);
    for index := 1 to |literal|
      invariant prefix[0] == 0
      invariant PrefixTable(literal, prefix[..], index)
      invariant 0 <= matched < index
      invariant LongestMatch(literal[1..index], literal, matched, index - 1)
      invariant forall i | |literal| <= i < prefix.Length :: prefix[i] == old(prefix[i])
      invariant steps + matched <= 2 * (index - 1)
    {
      ghost var table, used := prefix[..], 0;
      matched, used := Feed(literal[1..index], literal[index], literal, prefix, matched, index - 1);
      steps := steps + used;
      assert literal[1..index] + [literal[index]] == literal[1..index + 1];
      TableEntry(literal, index, matched);
      prefix[index] := matched;
      assert prefix[..][..index] == table[..index];
      forall i | 0 <= i < index + 1 ensures LongestBorder(literal[..i + 1], prefix[..][i]) {
        if i < index { assert prefix[..][i] == table[i]; }
      }
    }
  }

  lemma FirstBorder(literal: string)
    requires 0 < |literal|
    ensures LongestBorder(literal[..1], 0)
    ensures LongestMatch(literal[1..1], literal, 0, 0)
  {}

  lemma TableEntry(literal: string, index: nat, matched: int)
    requires 0 < index < |literal|
    requires LongestMatch(literal[1..index + 1], literal, matched, index)
    requires 0 <= matched
    ensures matched <= index && LongestBorder(literal[..index + 1], matched)
  {
    var s := literal[..index + 1];
    BorderIsMatch(literal, index + 1, matched);
    forall j | Border(s, j) ensures j <= matched {
      BorderIsMatch(literal, index + 1, j);
    }
  }

  // ----- The matcher --------------------------------------------------------

  /** Scans only the last `|literal| - 1` characters of the value. */
  method TailMatch(value: string, literal: string, prefix: array<int>) returns (matched: int, ghost steps: nat)
    requires 2 <= |literal| <= prefix.Length
    requires PrefixTable(literal, prefix[..], |literal|)
    ensures 0 <= matched < |literal| && EndsWithPrefix(value, literal, matched)
    ensures forall k | 0 <= k < |literal| && EndsWithPrefix(value, literal, k) :: k <= matched
    ensures steps <= 2 * |literal|
  {
    var start := |value| - |literal| + 1;
    if start < 0 {
      start := 0;
    }
    matched, steps := 0, 0;
    for index := start to |value|
      invariant 0 <= matched <= index - start
      invariant LongestMatch(value[start..index], literal, matched, index - start)
      invariant steps + matched <= 2 * (index - start)
    {
      ghost var used := 0;
      matched, used := Feed(value[start..index], value[index], literal, prefix, matched, index - start);
      steps := steps + used;
      assert value[start..index] + [value[index]] == value[start..index + 1];
    }
    ghost var tail := value[start..];
    assert value[start..|value|] == tail;
    forall k | 0 <= k < |literal| ensures EndsWithPrefix(tail, literal, k) <==> EndsWithPrefix(value, literal, k) {
      if k <= |tail| { assert value[|value| - k..] == tail[|tail| - k..]; }
    }
  }

  /** True exactly when the value may end inside a secret. One buffer serves all
      literals; it grows, to the sizes `grown`, only when a literal does not fit. */
  method HasIncompleteSecretTail(value: string, literals: seq<string>)
    returns (incomplete: bool, ghost steps: seq<nat>, ghost grown: seq<nat>)
    ensures incomplete <==> EndsInsideSecret(value, literals)
    ensures |steps| <= |literals| && forall i | 0 <= i < |steps| :: steps[i] <= 4 * |literals[i]|
    ensures forall i, j | 0 <= i < j < |grown| :: grown[i] < grown[j]
  {
    var prefix := new int[0];
    steps, grown := [], [];
    for next := 0 to |literals|
      invariant prefix.Length > 0 ==> prefix[0] == 0
      invariant forall l, k | l in literals[..next] && 0 < k < |l| :: !EndsWithPrefix(value, l, k)
      invariant |steps| == next && forall i | 0 <= i < |steps| :: steps[i] <= 4 * |literals[i]|
      invariant fresh(prefix) && forall i, j | 0 <= i < j < |grown| :: grown[i] < grown[j]
      invariant forall i | 0 <= i < |grown| :: grown[i] <= prefix.Length
    {
      var literal := literals[next];
      assert literals[..next + 1] == literals[..next] + [literal];
      if |literal| < 2 || value == "" {
        steps := steps + [0];
        continue;
      }
      if prefix.Length < |literal| {
        prefix := new int[|literal|](_ => 0);
        grown := grown + [|literal|];
      }
      ghost var built := BuildPrefix(literal, prefix);
      assert prefix[..][0] == 0;
      var matched;
      ghost var scanned;
      matched, scanned := TailMatch(value, literal, prefix);
      steps := steps + [built + scanned];
      if matched > 0 {
        return true, steps, grown;
      }
    }
    assert literals[..|literals|] == literals;
    return false, steps, grown;
  }
}
