/** The two functions of Go's `strings` package the outline expander uses:
    `strings.Index` and `strings.Replace(s, old, new, -1)`, with `Split` and
    `Join` as the independent description of what a replacement does. */
module GoStrings {

  /** `sub` occurs in `s` starting at position `i`. */
  predicate OccursAt(s: string, sub: string, i: int) {
    0 <= i && i + |sub| <= |s| && s[i..i + |sub|] == sub
  }

  /** `strings.Index`: the first position where `sub` occurs, or -1. */
  function Index(s: string, sub: string): (r: int)
    ensures -1 <= r
    ensures r >= 0 ==> OccursAt(s, sub, r)
    ensures r >= 0 ==> forall j :: 0 <= j < r ==> !OccursAt(s, sub, j)
    ensures r == -1 <==> forall j :: 0 <= j <= |s| - |sub| ==> !OccursAt(s, sub, j)
    decreases |s|
  {
    if |s| < |sub| then -1
    else if sub <= s then assert OccursAt(s, sub, 0) by { assert s[0..|sub|] == sub; } 0
    else
      var k := Index(s[1..], sub);
      OccursInTail(s, sub);
      assert !OccursAt(s, sub, 0) by { assert s[0..|sub|] == s[..|sub|]; }
      if k < 0 then -1 else k + 1
  }

  /** Past the first position, occurrences in `s` are occurrences in its tail. */
  lemma OccursInTail(s: string, sub: string)
    requires |s| >= 1
    ensures forall j :: 1 <= j <= |s| - |sub| ==> (OccursAt(s, sub, j) <==> OccursAt(s[1..], sub, j - 1))
  {
    forall j | 1 <= j <= |s| - |sub| ensures OccursAt(s, sub, j) <==> OccursAt(s[1..], sub, j - 1) {
      SameSlice(s, s[1..], j, j - 1, |sub|);
    }
  }

  /** Two slices of equal length agree when their elements agree. */
  lemma SameSlice(s: string, t: string, i: nat, j: nat, n: nat)
    requires i + n <= |s| && j + n <= |t|
    requires forall d :: i <= d < i + n ==> s[d] == t[d - i + j]
    ensures s[i..i + n] == t[j..j + n]
  {
    var a, b := s[i..i + n], t[j..j + n];
    assert forall d :: 0 <= d < |a| ==> a[d] == s[i + d] && b[d] == t[j + d];
  }

  /** `strings.Replace(s, old, new, -1)`: every non-overlapping occurrence of
      `old`, scanning left to right, is replaced by `new`. The expander only
      ever replaces a `<name>` token, so `old` is never empty. */
  function ReplaceAll(s: string, pat: string, rep: string): string
    requires pat != []
    decreases |s|
  {
    var i := Index(s, pat);
    if i < 0 then s else s[..i] + rep + ReplaceAll(s[i + |pat|..], pat, rep)
  }

  /** `strings.Split(s, sep)`: the pieces between the occurrences of `sep`. */
  function Split(s: string, sep: string): (parts: seq<string>)
    requires sep != []
    ensures |parts| >= 1
    decreases |s|
  {
    var i := Index(s, sep);
    if i < 0 then [s] else [s[..i]] + Split(s[i + |sep|..], sep)
  }

  /** `strings.Join(parts, sep)`. */
  function Join(parts: seq<string>, sep: string): string {
    if |parts| == 0 then ""
    else if |parts| == 1 then parts[0]
    else parts[0] + sep + Join(parts[1..], sep)
  }

  /** Splitting at a separator and joining with it gives the text back. */
  lemma {:induction false} SplitJoin(s: string, sep: string)
    requires sep != []
    ensures Join(Split(s, sep), sep) == s
    decreases |s|
  {
    var i := Index(s, sep);
    if i >= 0 {
      var rest := s[i + |sep|..];
      SplitJoin(rest, sep);
      SplitStep(s, sep);
      Rejoin(s, i, sep);
    }
  }

  /** One step of `Split` and `Join` at the first occurrence. */
  lemma SplitStep(s: string, sep: string)
    requires sep != [] && Index(s, sep) >= 0
    ensures var i := Index(s, sep);
      Join(Split(s, sep), sep) == s[..i] + sep + Join(Split(s[i + |sep|..], sep), sep)
  {
    var i := Index(s, sep);
    var parts := Split(s, sep);
    assert parts[0] == s[..i] && parts[1..] == Split(s[i + |sep|..], sep);
  }

  /** A text is its part before an occurrence, the occurrence, and the rest. */
  lemma Rejoin(s: string, i: nat, sep: string)
    requires OccursAt(s, sep, i)
    ensures s == s[..i] + sep + s[i + |sep|..]
  {
    assert s == s[..i] + s[i..i + |sep|] + s[i + |sep|..];
  }

  /** No piece of a split contains the separator. */
  lemma {:induction false} SplitPiecesFree(s: string, sep: string)
    requires sep != []
    ensures forall k :: 0 <= k < |Split(s, sep)| ==> Index(Split(s, sep)[k], sep) == -1
    decreases |s|
  {
    var i := Index(s, sep);
    if i >= 0 {
      var rest := s[i + |sep|..];
      SplitPiecesFree(rest, sep);
      var parts := Split(s, sep);
      assert parts[1..] == Split(rest, sep);
      var head := s[..i];
      forall j | 0 <= j <= |head| - |sep| ensures !OccursAt(head, sep, j) {
        if OccursAt(head, sep, j) {
          SameSlice(head, s, j, j, |sep|);
          assert OccursAt(s, sep, j) && j < i;
          assert false;
        }
      }
      forall k | 0 <= k < |parts| ensures Index(parts[k], sep) == -1 {
        if k > 0 { assert parts[k] == Split(rest, sep)[k - 1]; }
      }
    }
  }

  /** Replacement is splitting at `old` and joining with `new`. */
  lemma {:induction false} ReplaceAllIsSplitJoin(s: string, pat: string, rep: string)
    requires pat != []
    ensures ReplaceAll(s, pat, rep) == Join(Split(s, pat), rep)
    decreases |s|
  {
    var i := Index(s, pat);
    if i >= 0 {
      var rest := s[i + |pat|..];
      ReplaceAllIsSplitJoin(rest, pat, rep);
      assert Split(s, pat)[1..] == Split(rest, pat);
    }
  }

  /** Replacing a token by itself changes nothing. */
  lemma ReplaceAllSelf(s: string, pat: string)
    requires pat != []
    ensures ReplaceAll(s, pat, pat) == s
  {
    ReplaceAllIsSplitJoin(s, pat, pat);
    SplitJoin(s, pat);
  }

  /** A text without the token is left as it is. */
  lemma ReplaceAllAbsent(s: string, pat: string, rep: string)
    requires pat != [] && Index(s, pat) == -1
    ensures ReplaceAll(s, pat, rep) == s
  {
  }
}
