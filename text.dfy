/**
 * The three Python string operations the multi-line list field is built from:
 * `str.strip()` with no argument, `str.split("\n")` and `"\n".join(...)`.
 */
module Text {

  const Newline: char := '\n'

  /** Python's `str.isspace()` for one character: the characters `str.strip()` removes. */
  predicate IsSpace(c: char)
  {
    || ('\t' <= c <= '\r')
    || ('\U{1C}' <= c <= ' ')
    || c == '\U{85}' || c == '\U{A0}' || c == '\U{1680}'
    || ('\U{2000}' <= c <= '\U{200A}')
    || c == '\U{2028}' || c == '\U{2029}' || c == '\U{202F}' || c == '\U{205F}' || c == '\U{3000}'
  }

  predicate AllSpace(s: string)
  {
    forall i :: 0 <= i < |s| ==> IsSpace(s[i])
  }

  /** Neither end of `s` is white space. */
  predicate Trimmed(s: string)
  {
    s == [] || (!IsSpace(s[0]) && !IsSpace(s[|s| - 1]))
  }

  /** Where the run of white space that starts at `i` ends: the first non-space at or after `i`, or `|s|`. */
  function SpaceRunEnd(s: string, i: nat): (j: nat)
    requires i <= |s|
    ensures i <= j <= |s|
    ensures forall k :: i <= k < j ==> IsSpace(s[k])
    ensures j == |s| || !IsSpace(s[j])
    decreases |s| - i
  {
    if i < |s| && IsSpace(s[i]) then SpaceRunEnd(s, i + 1) else i
  }

  /**
   * Where the run of white space that ends at `j` starts, not going below `lo`: just
   * after the last non-space before `j`, or `lo`.
   */
  function SpaceRunStart(s: string, lo: nat, j: nat): (i: nat)
    requires lo <= j <= |s|
    ensures lo <= i <= j
    ensures forall k :: i <= k < j ==> IsSpace(s[k])
    ensures i == lo || !IsSpace(s[i - 1])
    decreases j - lo
  {
    if lo < j && IsSpace(s[j - 1]) then SpaceRunStart(s, lo, j - 1) else j
  }

  /**
   * Python's `s.strip()`: `s` without its white space at either end. The result is
   * the infix of `s` between a white-space prefix and a white-space suffix, so it is
   * trimmed, empty exactly when `s` is blank, and `s` itself when `s` was already
   * trimmed.
   */
  function Strip(s: string): (r: string)
    ensures exists i, j :: 0 <= i <= j <= |s| && r == s[i..j] && AllSpace(s[..i]) && AllSpace(s[j..])
    ensures Trimmed(r)
    ensures r == [] <==> AllSpace(s)
    ensures Trimmed(s) ==> r == s
    ensures forall c :: c in r ==> c in s
  {
    var i := SpaceRunEnd(s, 0);
    var j := SpaceRunStart(s, i, |s|);
    StripBounds(s, i, j);
    s[i..j]
  }

  /** The facts Strip promises, about the infix between the two white-space runs. */
  lemma StripBounds(s: string, i: nat, j: nat)
    requires i == SpaceRunEnd(s, 0) && j == SpaceRunStart(s, i, |s|)
    ensures AllSpace(s[..i]) && AllSpace(s[j..])
    ensures Trimmed(s[i..j])
    ensures s[i..j] == [] <==> AllSpace(s)
    ensures Trimmed(s) ==> s[i..j] == s
    ensures forall c :: c in s[i..j] ==> c in s
  {
    assert forall k :: 0 <= k < i ==> s[..i][k] == s[k];
    assert forall k :: 0 <= k < |s| - j ==> s[j..][k] == s[j + k];
    if i < j {
      assert s[i..j][0] == s[i] && s[i..j][j - i - 1] == s[j - 1];
    }
    if Trimmed(s) {
      assert s[0..|s|] == s;
    }
    forall c | c in s[i..j]
      ensures c in s
    {
      var k :| 0 <= k < j - i && s[i..j][k] == c;
      assert s[i + k] == c;
    }
  }

  /** A trimmed text followed by one white-space character strips back to itself. */
  lemma StripTrailingSpace(a: string, c: char)
    requires Trimmed(a) && IsSpace(c)
    ensures Strip(a + [c]) == a
  {
    var s := a + [c];
    if a == [] {
      assert SpaceRunEnd(s, 0) == SpaceRunEnd(s, 1) == 1;
    } else {
      assert s[0] == a[0] && s[|a| - 1] == a[|a| - 1];
      assert SpaceRunEnd(s, 0) == 0;
      assert SpaceRunStart(s, 0, |s|) == SpaceRunStart(s, 0, |a|) == |a|;
      assert s[0..|a|] == a;
    }
  }

  /** How many times `c` occurs in `s` (Python's `s.count(c)`). */
  function Count(s: string, c: char): nat
  {
    if s == [] then 0 else (if s[0] == c then 1 else 0) + Count(s[1..], c)
  }

  /**
   * Python's `s.split("\n")`: the pieces between the newlines, one more piece
   * than there are newlines, none of them containing a newline.
   */
  function Split(s: string): (r: seq<string>)
    ensures |r| > 0
    ensures forall i :: 0 <= i < |r| ==> Newline !in r[i]
  {
    if s == [] then [""]
    else
      var rest := Split(s[1..]);
      if s[0] == Newline then [""] + rest
      else [[s[0]] + rest[0]] + rest[1..]
  }

  /** The split has one more piece than there are newlines. */
  lemma {:induction false} SplitCount(s: string)
    ensures |Split(s)| == Count(s, Newline) + 1
  {
    if s != [] {
      SplitCount(s[1..]);
    }
  }

  /**
   * Python's `"\n".join(xs)`: empty exactly for no entries or the one empty entry;
   * otherwise it starts with the first entry.
   */
  function Join(xs: seq<string>): (r: string)
    ensures r == [] <==> xs == [] || xs == [""]
    ensures |xs| > 0 ==> xs[0] <= r
  {
    if |xs| == 0 then ""
    else if |xs| == 1 then xs[0]
    else xs[0] + [Newline] + Join(xs[1..])
  }

  predicate NoNewlines(xs: seq<string>)
  {
    forall i :: 0 <= i < |xs| ==> Newline !in xs[i]
  }

  /** Joining a first piece to the rest puts a newline between them. */
  lemma JoinCons(x: string, ys: seq<string>)
    requires ys != []
    ensures Join([x] + ys) == x + [Newline] + Join(ys)
  {
    assert ([x] + ys)[1..] == ys;
  }

  /** Joining the pieces of a split gives the original text back. */
  lemma {:induction false} JoinSplit(s: string)
    ensures Join(Split(s)) == s
  {
    if s != [] {
      JoinSplit(s[1..]);
      JoinSplitStep(s);
    }
  }

  /** One step of JoinSplit: the first character goes back in front of the rest. */
  lemma JoinSplitStep(s: string)
    requires s != [] && Join(Split(s[1..])) == s[1..]
    ensures Join(Split(s)) == s
  {
    var rest := Split(s[1..]);
    assert s == [s[0]] + s[1..];
    if s[0] == Newline {
      JoinAfterNewline(rest);
    } else {
      JoinAfterChar(s[0], rest);
    }
  }

  lemma JoinAfterNewline(rest: seq<string>)
    requires rest != []
    ensures Join([""] + rest) == [Newline] + Join(rest)
  {
    JoinCons("", rest);
  }

  lemma JoinAfterChar(c: char, rest: seq<string>)
    requires rest != []
    ensures Join([[c] + rest[0]] + rest[1..]) == [c] + Join(rest)
  {
    var head := [c] + rest[0];
    if |rest| == 1 {
      assert [head] + rest[1..] == [head];
    } else {
      assert rest == [rest[0]] + rest[1..];
      JoinCons(rest[0], rest[1..]);
      JoinCons(head, rest[1..]);
    }
  }

  /** A text without newlines splits into itself alone. */
  lemma {:induction false} SplitWithoutNewline(s: string)
    requires Newline !in s
    ensures Split(s) == [s]
  {
    if s != [] {
      assert s == [s[0]] + s[1..];
      SplitWithoutNewline(s[1..]);
    }
  }

  /** Two pieces, a newline, an empty line and a third piece split into four pieces, the third one empty. */
  lemma SplitBlankLine(a: string, b: string, c: string)
    requires Newline !in a && Newline !in b && Newline !in c
    ensures Split(a + [Newline] + b + [Newline, Newline] + c) == [a, b, "", c]
  {
    SplitTwo("", c);
    assert "" + [Newline] + c == [Newline] + c;
    SplitAfterPiece(b, [Newline] + c);
    assert b + [Newline] + ([Newline] + c) == b + [Newline, Newline] + c;
    SplitAfterPiece(a, b + [Newline, Newline] + c);
    assert a + [Newline] + (b + [Newline, Newline] + c) == a + [Newline] + b + [Newline, Newline] + c;
  }

  /** Two newline-free pieces joined by one newline split back into the two pieces. */
  lemma SplitTwo(a: string, b: string)
    requires Newline !in a && Newline !in b
    ensures Split(a + [Newline] + b) == [a, b]
  {
    SplitWithoutNewline(b);
    SplitAfterPiece(a, b);
  }

  /** A leading newline-free piece followed by a newline becomes the first piece of the split. */
  lemma {:induction false} SplitAfterPiece(a: string, b: string)
    requires Newline !in a
    ensures Split(a + [Newline] + b) == [a] + Split(b)
  {
    if a == [] {
      assert [] + [Newline] + b == [Newline] + b;
      assert ([Newline] + b)[1..] == b;
    } else {
      assert (a + [Newline] + b)[1..] == a[1..] + [Newline] + b;
      SplitAfterPiece(a[1..], b);
      assert [a[0]] + a[1..] == a;
    }
  }

  /** Splitting the join of newline-free pieces gives the pieces back. */
  lemma {:induction false} SplitJoin(xs: seq<string>)
    requires |xs| > 0 && NoNewlines(xs)
    ensures Split(Join(xs)) == xs
  {
    if |xs| == 1 {
      SplitWithoutNewline(xs[0]);
    } else {
      var rest := xs[1..];
      assert Join(xs) == xs[0] + [Newline] + Join(rest);
      assert NoNewlines(rest) by {
        forall i | 0 <= i < |rest|
          ensures Newline !in rest[i]
        {
          assert rest[i] == xs[i + 1];
        }
      }
      SplitAfterPiece(xs[0], Join(rest));
      SplitJoin(rest);
      assert [xs[0]] + rest == xs;
    }
  }
}
