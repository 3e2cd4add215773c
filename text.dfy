/**
 * String helpers shared by the PDF readers and the report builders: lines ended by
 * "\n", ASCII case folding (Python's `str.lower`, Tk's `nocase`), and substring search
 * (Python's `in` and `str.find`, Tk's `Text.search`).
 */
module Text {

  // ---------------------------------------------------------------- lines

  /** Each string followed by "\n", in order. */
  function Joined(ls: seq<string>): string {
    if ls == [] then "" else ls[0] + "\n" + Joined(ls[1..])
  }

  lemma {:induction false} JoinedAppend(a: seq<string>, b: seq<string>)
    ensures Joined(a + b) == Joined(a) + Joined(b)
    decreases |a|
  {
    if a != [] {
      assert (a + b)[1..] == a[1..] + b;
      JoinedAppend(a[1..], b);
    } else {
      assert a + b == b;
    }
  }

  /** Appending one more line appends its text and a newline. */
  lemma JoinedSnoc(a: seq<string>, l: string)
    ensures Joined(a + [l]) == Joined(a) + l + "\n"
  {
    JoinedAppend(a, [l]);
    assert Joined([l]) == l + "\n" + Joined([]);
  }

  /** The length of the text before line `i`. */
  function Offset(ls: seq<string>, i: nat): nat
    requires i <= |ls|
  {
    if i == 0 then 0 else Offset(ls, i - 1) + |ls[i - 1]| + 1
  }

  lemma {:induction false} OffsetIsPrefixLength(ls: seq<string>, i: nat)
    requires i <= |ls|
    ensures Offset(ls, i) == |Joined(ls[..i])|
    decreases i
  {
    if i > 0 {
      OffsetIsPrefixLength(ls, i - 1);
      assert ls[..i] == ls[..i - 1] + [ls[i - 1]];
      JoinedSnoc(ls[..i - 1], ls[i - 1]);
    }
  }

  lemma {:induction false} JoinedAround(ls: seq<string>, i: nat)
    requires i < |ls|
    ensures Joined(ls) == Joined(ls[..i]) + (ls[i] + "\n") + Joined(ls[i + 1..])
    decreases i
  {
    var head := ls[0] + "\n";
    if i == 0 {
      assert ls[..0] == [];
    } else {
      var rest := ls[1..];
      JoinedAround(rest, i - 1);
      assert rest[..i - 1] == ls[1..i] && rest[i - 1] == ls[i] && rest[i..] == ls[i + 1..];
      assert ls[..i][1..] == ls[1..i];
      var mid, after := Joined(ls[1..i]), Joined(ls[i + 1..]);
      assert Joined(ls[..i]) == head + mid;
      assert Joined(ls) == head + (mid + (ls[i] + "\n") + after);
    }
  }

  lemma JoinedCons(l: string, rest: seq<string>)
    ensures Joined([l] + rest) == (l + "\n") + Joined(rest)
  {
    assert ([l] + rest)[1..] == rest;
  }

  /** Line `i` sits, followed by its newline, at offset `Offset(ls, i)` of the joined text. */
  lemma LineAtOffset(ls: seq<string>, i: nat)
    requires i < |ls|
    ensures Offset(ls, i) + |ls[i]| + 1 <= |Joined(ls)|
    ensures Joined(ls)[Offset(ls, i) .. Offset(ls, i) + |ls[i]| + 1] == ls[i] + "\n"
  {
    JoinedAround(ls, i);
    OffsetIsPrefixLength(ls, i);
    SliceOfConcat(Joined(ls[..i]), ls[i] + "\n", Joined(ls[i + 1..]));
  }

  lemma SliceOfConcat(a: string, b: string, c: string)
    ensures (a + b + c)[|a| .. |a| + |b|] == b
  {
  }

  predicate NoNewline(l: string) {
    forall k :: 0 <= k < |l| ==> l[k] != '\n'
  }

  /** Index of the first "\n" of `s`, or `|s|` when there is none. */
  function LineEnd(s: string): (k: nat)
    ensures k <= |s| && NoNewline(s[..k])
    ensures k < |s| ==> s[k] == '\n'
  {
    if s == [] || s[0] == '\n' then 0
    else
      var k := 1 + LineEnd(s[1..]);
      assert s[..k] == [s[0]] + s[1..][..k - 1];
      k
  }

  /** The lines of `s`: each "\n" ends one; trailing text without a "\n" is a last line. */
  function SplitLines(s: string): seq<string>
    decreases |s|
  {
    if s == [] then []
    else
      var k := LineEnd(s);
      if k == |s| then [s] else [s[..k]] + SplitLines(s[k + 1..])
  }

  lemma LineEndOfLine(l: string, rest: string)
    requires NoNewline(l)
    ensures LineEnd(l + "\n" + rest) == |l|
  {
    var s := l + "\n" + rest;
    assert s[|l|] == '\n';
    assert s[..|l|] == l;
  }

  /** Splitting joined lines gives the lines back. */
  lemma {:induction false} SplitJoinedLines(ls: seq<string>)
    requires forall i :: 0 <= i < |ls| ==> NoNewline(ls[i])
    ensures SplitLines(Joined(ls)) == ls
    decreases |ls|
  {
    if ls != [] {
      var s := Joined(ls);
      LineEndOfLine(ls[0], Joined(ls[1..]));
      assert s[..|ls[0]|] == ls[0];
      assert s[|ls[0]| + 1..] == Joined(ls[1..]);
      SplitJoinedLines(ls[1..]);
    }
  }

  // ---------------------------------------------------------------- case folding

  function LowerChar(c: char): char {
    if 'A' <= c <= 'Z' then (c as int + 32) as char else c
  }

  /** ASCII lower case, character by character. */
  function Lower(s: string): (r: string)
    ensures |r| == |s|
    ensures forall i :: 0 <= i < |s| ==> r[i] == LowerChar(s[i])
  {
    seq(|s|, i requires 0 <= i < |s| => LowerChar(s[i]))
  }

  /** Lowering twice is lowering once. */
  lemma LowerIdempotent(s: string)
    ensures Lower(Lower(s)) == Lower(s)
  {
    assert forall i :: 0 <= i < |s| ==> Lower(Lower(s))[i] == Lower(s)[i];
  }

  /** `s` itself, or its lower case when the comparison ignores case. */
  function Folded(s: string, caseSensitive: bool): string {
    if caseSensitive then s else Lower(s)
  }

  // ---------------------------------------------------------------- search

  predicate OccursAt(s: string, q: string, i: int) {
    0 <= i && i + |q| <= |s| && s[i..i + |q|] == q
  }

  /** Python's `q in s`. */
  predicate Contains(s: string, q: string) {
    exists i :: 0 <= i <= |s| && OccursAt(s, q, i)
  }

  /** The first index at or after `from` where `q` occurs in `s`, or -1. */
  function FindFrom(s: string, q: string, from: nat): (r: int)
    ensures r == -1 || (from <= r && OccursAt(s, q, r))
    ensures forall j :: from <= j && (r == -1 || j < r) ==> !OccursAt(s, q, j)
    decreases |s| + 1 - from
  {
    if from + |q| > |s| then -1
    else if s[from..from + |q|] == q then from
    else FindFrom(s, q, from + 1)
  }

  /** Python's `s.find(q)`: -1 exactly when `q` does not occur. */
  function Find(s: string, q: string): (r: int)
    ensures r >= -1
    ensures r == -1 <==> !Contains(s, q)
    ensures r >= 0 ==> OccursAt(s, q, r) && forall j :: 0 <= j < r ==> !OccursAt(s, q, j)
  {
    FindFrom(s, q, 0)
  }

  /** Case folding keeps every occurrence: a match is still a match in lower case. */
  lemma ContainsLower(s: string, q: string)
    requires Contains(s, q)
    ensures Contains(Lower(s), Lower(q))
  {
    var i :| 0 <= i <= |s| && OccursAt(s, q, i);
    assert i + |q| <= |s|;
    assert Lower(s)[i..i + |q|] == Lower(q) by {
      forall k | 0 <= k < |q| ensures Lower(s)[i..i + |q|][k] == Lower(q)[k] {
        assert s[i..i + |q|][k] == q[k];
      }
    }
    assert OccursAt(Lower(s), Lower(q), i);
  }

  /**
   * Number of non-overlapping occurrences of `q` in `s` at or after `from`, found left to
   * right, each search resuming where the previous match ended.
   */
  function OccurrencesFrom(s: string, q: string, from: nat): nat
    requires |q| > 0 && from <= |s|
    decreases |s| - from
  {
    var i := FindFrom(s, q, from);
    if i < 0 then 0 else 1 + OccurrencesFrom(s, q, i + |q|)
  }

  /** No occurrence is counted exactly when `q` does not occur at or after `from`. */
  lemma OccurrencesZeroIffAbsent(s: string, q: string, from: nat)
    requires |q| > 0 && from <= |s|
    ensures OccurrencesFrom(s, q, from) == 0 <==> forall j :: from <= j ==> !OccursAt(s, q, j)
  {
    var i := FindFrom(s, q, from);
    if i >= 0 {
      assert OccursAt(s, q, i);
    }
  }

  lemma MulSucc(a: nat, b: nat)
    ensures (1 + a) * b == b + a * b
  {
  }

  /** Counted matches do not overlap: together they fit in the searched text. */
  lemma {:induction false} OccurrencesFit(s: string, q: string, from: nat)
    requires |q| > 0 && from <= |s|
    ensures OccurrencesFrom(s, q, from) * |q| <= |s| - from
    decreases |s| - from
  {
    var i := FindFrom(s, q, from);
    if i >= 0 {
      assert i + |q| <= |s|;
      var rest := OccurrencesFrom(s, q, i + |q|);
      OccurrencesFit(s, q, i + |q|);
      assert OccurrencesFrom(s, q, from) == 1 + rest;
      MulSucc(rest, |q|);
      assert OccurrencesFrom(s, q, from) * |q| == |q| + rest * |q|;
    }
  }
}
