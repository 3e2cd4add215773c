/**
 * Python's `str.split()` (no separator: runs of whitespace separate words, leading and
 * trailing whitespace is dropped), `" ".join(...)`, and the word-truncating summary that
 * both PDF readers compute with them.
 */
module Words {

  /** Python's `str.isspace` for one character. */
  predicate IsSpace(c: char) {
    var n := c as int;
    (9 <= n <= 13) || (28 <= n <= 32) || n == 0x85 || n == 0xA0 || n == 0x1680
    || (0x2000 <= n <= 0x200A) || n == 0x2028 || n == 0x2029 || n == 0x202F
    || n == 0x205F || n == 0x3000
  }

  /** A word as `split()` returns it: not empty, no whitespace. */
  predicate IsWord(w: string) {
    |w| > 0 && forall i :: 0 <= i < |w| ==> !IsSpace(w[i])
  }

  /** Length of the run of non-whitespace characters that starts `s`. */
  function WordLen(s: string): (k: nat)
    ensures k <= |s|
    ensures forall i :: 0 <= i < k ==> !IsSpace(s[i])
    ensures k < |s| ==> IsSpace(s[k])
  {
    if s == [] || IsSpace(s[0]) then 0 else 1 + WordLen(s[1..])
  }

  /** Python's `s.split()`. */
  function Split(s: string): (ws: seq<string>)
    ensures forall i :: 0 <= i < |ws| ==> IsWord(ws[i])
    decreases |s|
  {
    if s == [] then []
    else if IsSpace(s[0]) then Split(s[1..])
    else
      var k := WordLen(s);
      [s[..k]] + Split(s[k..])
  }

  /** Python's `" ".join(ws)`. */
  function JoinWords(ws: seq<string>): string {
    if ws == [] then ""
    else if |ws| == 1 then ws[0]
    else ws[0] + " " + JoinWords(ws[1..])
  }

  lemma WordLenOfWord(w: string, t: string)
    requires IsWord(w)
    requires t == [] || IsSpace(t[0])
    ensures WordLen(w + t) == |w|
  {
    assert (w + t)[..|w|] == w;
    assert |t| > 0 ==> (w + t)[|w|] == t[0];
  }

  /** Splitting single-space-joined words gives the words back. */
  lemma {:induction false} SplitJoinWords(ws: seq<string>)
    requires forall i :: 0 <= i < |ws| ==> IsWord(ws[i])
    ensures Split(JoinWords(ws)) == ws
    decreases |ws|
  {
    if |ws| == 1 {
      var w := ws[0];
      WordLenOfWord(w, []);
      assert w + [] == w;
      assert w[|w|..] == [];
    } else if |ws| > 1 {
      var w, rest := ws[0], JoinWords(ws[1..]);
      var s := w + " " + rest;
      assert s == w + (" " + rest);
      WordLenOfWord(w, " " + rest);
      assert s[..|w|] == w;
      assert s[|w|..] == " " + rest;
      assert (" " + rest)[1..] == rest;
      SplitJoinWords(ws[1..]);
      assert ws == [w] + ws[1..];
    }
  }

  /** A word that ends inside `a` ends at the same place when more text follows `a`. */
  lemma {:induction false} WordLenConcat(a: string, b: string)
    requires WordLen(a) < |a|
    ensures WordLen(a + b) == WordLen(a)
    decreases |a|
  {
    if !IsSpace(a[0]) {
      assert (a + b)[1..] == a[1..] + b;
      WordLenConcat(a[1..], b);
    }
  }

  /** Text that ends in whitespace splits independently of what follows it. */
  lemma {:induction false} SplitAfterSpace(a: string, b: string)
    requires a == [] || IsSpace(a[|a| - 1])
    ensures Split(a + b) == Split(a) + Split(b)
    decreases |a|
  {
    if a == [] {
      assert a + b == b;
    } else if IsSpace(a[0]) {
      assert (a + b)[1..] == a[1..] + b;
      SplitAfterSpace(a[1..], b);
    } else {
      var k := WordLen(a);
      assert k < |a|;
      WordLenConcat(a, b);
      assert (a + b)[..k] == a[..k];
      assert (a + b)[k..] == a[k..] + b;
      SplitAfterSpace(a[k..], b);
    }
  }

  /** Number of elements Python's slice `xs[:k]` keeps of a list of length `n`. */
  function SliceCount(n: nat, k: int): (m: nat)
    ensures m <= n
    ensures k >= 0 ==> m == if k < n then k else n
  {
    if k >= 0 then (if k < n then k else n)
    else if n + k > 0 then n + k else 0
  }

  /** The words the summary keeps: `" ".join(palabras[:k])`. */
  function SummaryBody(text: string, k: int): string {
    var ws := Split(text);
    JoinWords(ws[..SliceCount(|ws|, k)])
  }

  /** `resumen_simple(k)` on already extracted `text`. */
  function Summary(text: string, k: int): string {
    var ws := Split(text);
    var body := SummaryBody(text, k);
    if |ws| > k then body + "..." else body
  }

  /**
   * The summary is the first `k` words of the text (Python slice semantics for `k`), each
   * separated by one space, followed by "..." exactly when the text has more than `k` words.
   */
  lemma SummaryKeepsFirstWords(text: string, k: int)
    ensures Split(SummaryBody(text, k)) == Split(text)[..SliceCount(|Split(text)|, k)]
    ensures Summary(text, k) == SummaryBody(text, k) + (if |Split(text)| > k then "..." else "")
  {
    var ws := Split(text);
    var kept := ws[..SliceCount(|ws|, k)];
    assert forall i :: 0 <= i < |kept| ==> IsWord(kept[i]) by {
      forall i | 0 <= i < |kept| ensures IsWord(kept[i]) {
        assert kept[i] == ws[i];
      }
    }
    SplitJoinWords(kept);
    if |ws| <= k {
      assert SummaryBody(text, k) + "" == SummaryBody(text, k);
    }
  }
}
