/** Python's `str.split()` with no separator, over the whitespace class of
    `str.isspace()`, and a single-space join used only to state its
    inverse. */
module PyWords {
  import opened PyStr

  /** Length of the run of non-whitespace characters at the front of `s`. */
  function WordLength(s: string): (k: nat)
    ensures k <= |s|
    ensures NoWhitespace(s[..k])
    ensures k < |s| ==> IsSpace(s[k])
  {
    if s == [] || IsSpace(s[0]) then 0
    else
      var k := WordLength(s[1..]);
      assert s[..k + 1] == [s[0]] + s[1..][..k];
      k + 1
  }

  /** Python's `str.split()` with no separator: the maximal runs of
      non-whitespace characters, in order. */
  function Split(s: string): (ws: seq<string>)
    ensures forall i :: 0 <= i < |ws| ==> ws[i] != [] && NoWhitespace(ws[i])
    decreases |s|
  {
    if s == [] then []
    else if IsSpace(s[0]) then Split(s[1..])
    else
      var k := WordLength(s);
      [s[..k]] + Split(s[k..])
  }

  /** The words joined by single spaces: a right inverse of `Split` on
      non-empty whitespace-free words, used in proofs only. */
  function JoinWords(ws: seq<string>): string {
    if |ws| == 0 then ""
    else if |ws| == 1 then ws[0]
    else ws[0] + " " + JoinWords(ws[1..])
  }

  lemma {:induction false} WordLengthOfWord(w: string, rest: string)
    requires NoWhitespace(w)
    requires rest == [] || IsSpace(rest[0])
    ensures WordLength(w + rest) == |w|
    decreases |w|
  {
    if w != [] {
      WordLengthOfWord(w[1..], rest);
      assert (w + rest)[1..] == w[1..] + rest;
    }
  }

  /** A word followed by a space splits off as the first word. */
  lemma {:induction false} SplitWordThenSpace(s: string, w: string, rest: string)
    requires s == w + (" " + rest)
    requires w != [] && NoWhitespace(w)
    ensures Split(s) == [w] + Split(rest)
  {
    WordLengthOfWord(w, " " + rest);
    assert s[..|w|] == w;
    assert s[|w|..] == " " + rest;
    assert (" " + rest)[1..] == rest;
  }

  /** Splitting words joined by single spaces gives the words back. */
  lemma {:induction false} SplitJoinWords(ws: seq<string>)
    requires forall i :: 0 <= i < |ws| ==> ws[i] != [] && NoWhitespace(ws[i])
    ensures Split(JoinWords(ws)) == ws
  {
    if |ws| == 1 {
      WordLengthOfWord(ws[0], []);
      assert ws[0] + [] == ws[0];
      assert ws[0][|ws[0]|..] == [];
    } else if |ws| > 1 {
      var rest := JoinWords(ws[1..]);
      SplitWordThenSpace(JoinWords(ws), ws[0], rest);
      SplitJoinWords(ws[1..]);
      assert ws == [ws[0]] + ws[1..];
    }
  }

  /** Appending text after a word's end does not change the word. */
  lemma {:induction false} WordLengthAppend(s: string, t: string)
    requires WordLength(s) < |s| || t == [] || IsSpace(t[0])
    ensures WordLength(s + t) == WordLength(s)
    decreases |s|
  {
    if s == [] {
      assert s + t == t;
    } else if !IsSpace(s[0]) {
      assert (s + t)[1..] == s[1..] + t;
      WordLengthAppend(s[1..], t);
    }
  }

  /** A lone word splits into itself. */
  lemma {:induction false} SplitWord(w: string)
    requires w != [] && NoWhitespace(w)
    ensures Split(w) == [w]
  {
    WordLengthOfWord(w, []);
    assert w + [] == w;
    assert w[..|w|] == w && w[|w|..] == [];
  }

  /** A whitespace character separates: what lies before it and what lies
      after it split independently. With `SplitWord` and `Split("") == []`
      this determines `Split` on every string. */
  lemma {:induction false} SplitAtSpace(a: string, c: char, b: string)
    requires IsSpace(c)
    ensures Split(a + [c] + b) == Split(a) + Split(b)
    decreases |a|
  {
    if a == [] {
      SplitLeadingSpace([c] + b, b);
      assert a + [c] + b == [c] + b;
    } else if IsSpace(a[0]) {
      SplitAtSpace(a[1..], c, b);
      SplitSpaceThenSpace(a, c, b);
    } else if WordLength(a) < |a| {
      SplitAtSpace(a[WordLength(a)..], c, b);
      SplitFirstWordBeforeSpace(a, c, b);
    } else {
      SplitWholeWordBeforeSpace(a, c, b);
    }
  }

  /** The step of `SplitAtSpace` for `a` starting with whitespace. */
  lemma SplitSpaceThenSpace(a: string, c: char, b: string)
    requires IsSpace(c) && a != [] && IsSpace(a[0])
    requires Split(a[1..] + [c] + b) == Split(a[1..]) + Split(b)
    ensures Split(a + [c] + b) == Split(a) + Split(b)
  {
    SplitLeadingSpace(a + [c] + b, a[1..] + [c] + b);
    SplitLeadingSpace(a, a[1..]);
  }

  /** Leading whitespace is skipped. */
  lemma SplitLeadingSpace(s: string, rest: string)
    requires s != [] && IsSpace(s[0]) && rest == s[1..]
    ensures Split(s) == Split(rest)
  {
  }

  /** A string starting with a word splits that word off first. */
  lemma SplitFirstWord(s: string, k: nat, w: string, rest: string)
    requires s != [] && !IsSpace(s[0]) && k == WordLength(s)
    requires w == s[..k] && rest == s[k..]
    ensures Split(s) == [w] + Split(rest)
  {
  }

  /** The step of `SplitAtSpace` for `a` starting with a word that ends
      inside `a`: that word is split off first and the rest of `a`
      continues. */
  lemma SplitFirstWordBeforeSpace(a: string, c: char, b: string)
    requires IsSpace(c) && a != [] && !IsSpace(a[0]) && WordLength(a) < |a|
    requires Split(a[WordLength(a)..] + [c] + b) == Split(a[WordLength(a)..]) + Split(b)
    ensures Split(a + [c] + b) == Split(a) + Split(b)
  {
    var k := WordLength(a);
    var w, rest := a[..k], a[k..];
    SplitWordBeforeTail(a, c, b, k, w, rest + [c] + b);
    SplitFirstWord(a, k, w, rest);
    WordsAssoc([w], Split(rest), Split(b));
  }

  /** The first word of `a` is also the first word of `a + [c] + b`. */
  lemma SplitWordBeforeTail(a: string, c: char, b: string, k: nat, w: string, tail: string)
    requires IsSpace(c) && a != [] && !IsSpace(a[0]) && k == WordLength(a) < |a|
    requires w == a[..k] && tail == a[k..] + [c] + b
    ensures Split(a + [c] + b) == [w] + Split(tail)
  {
    var s := a + [c] + b;
    WordLengthAppend(a, [c] + b);
    assert s == a + ([c] + b);
    assert s[..k] == w && s[k..] == tail;
    SplitFirstWord(s, k, w, tail);
  }

  lemma WordsAssoc(x: seq<string>, y: seq<string>, z: seq<string>)
    ensures x + (y + z) == (x + y) + z
  {
  }

  /** When all of `a` is one word, it is the first word and the space
      after it is skipped. */
  lemma SplitWholeWordBeforeSpace(a: string, c: char, b: string)
    requires IsSpace(c) && a != [] && !IsSpace(a[0]) && WordLength(a) == |a|
    ensures Split(a + [c] + b) == Split(a) + Split(b)
  {
    var s := a + [c] + b;
    WordLengthAppend(a, [c] + b);
    assert s == a + ([c] + b);
    assert s[..|a|] == a && s[|a|..] == [c] + b;
    SplitLeadingSpace([c] + b, b);
    assert NoWhitespace(a);
    SplitWord(a);
  }
}
