/** Text helpers behind the profile strings and the climate comparison:
    Python's `" ".join` and `str.lower()`. `Split` is not used by the
    pipeline; it serves only to state that a profile string can be split
    back into the parts it was joined from. */
module Text {

  /** `sep.join(xs)`: the items of `xs` with `sep` between neighbours. */
  function Join(sep: string, xs: seq<string>): string
  {
    if |xs| == 0 then ""
    else if |xs| == 1 then xs[0]
    else xs[0] + sep + Join(sep, xs[1..])
  }

  /** `s.split(" ")`: fields between single spaces, empty fields kept. */
  function Split(s: string): (fields: seq<string>)
    ensures |fields| >= 1
  {
    if s == [] then [""]
    else
      var rest := Split(s[1..]);
      if s[0] == ' ' then [""] + rest
      else [[s[0]] + rest[0]] + rest[1..]
  }

  predicate NoSpace(w: string)
  {
    forall i :: 0 <= i < |w| ==> w[i] != ' '
  }

  lemma {:induction false} SplitWord(w: string)
    requires NoSpace(w)
    ensures Split(w) == [w]
  {
    if w != [] {
      SplitWord(w[1..]);
      assert w[0] != ' ';
      assert [w[0]] + w[1..] == w;
    }
  }

  lemma {:induction false} SplitAfterWord(w: string, t: string)
    requires NoSpace(w)
    ensures Split(w + " " + t) == [w] + Split(t)
  {
    if w == [] {
      assert w + " " + t == [' '] + t;
    } else {
      var s := w + " " + t;
      assert s[0] == w[0] && w[0] != ' ';
      assert s[1..] == w[1..] + " " + t;
      SplitAfterWord(w[1..], t);
      assert [w[0]] + w[1..] == w;
    }
  }

  /** Joining words that hold no space with single spaces loses nothing:
      splitting the result gives the words back. */
  lemma {:induction false} SplitJoin(xs: seq<string>)
    requires |xs| > 0
    requires forall i :: 0 <= i < |xs| ==> NoSpace(xs[i])
    ensures Split(Join(" ", xs)) == xs
  {
    if |xs| == 1 {
      SplitWord(xs[0]);
    } else {
      SplitJoin(xs[1..]);
      SplitAfterWord(xs[0], Join(" ", xs[1..]));
      assert [xs[0]] + xs[1..] == xs;
    }
  }

  lemma {:induction false} JoinSnoc(sep: string, xs: seq<string>, y: string)
    requires |xs| > 0
    ensures Join(sep, xs + [y]) == Join(sep, xs) + sep + y
  {
    if |xs| > 1 {
      assert (xs + [y])[1..] == xs[1..] + [y];
      JoinSnoc(sep, xs[1..], y);
    }
  }

  /** `c.lower()` for the ASCII letters. */
  function LowerChar(c: char): char
  {
    if 'A' <= c <= 'Z' then (c as int + 32) as char else c
  }

  function Lower(s: string): string
  {
    seq(|s|, i requires 0 <= i < |s| => LowerChar(s[i]))
  }

  predicate HasUpper(s: string)
  {
    exists i :: 0 <= i < |s| && 'A' <= s[i] <= 'Z'
  }

  /** Two characters equal up to ASCII case. */
  predicate CaseMates(a: char, b: char)
  {
    a == b ||
    ('A' <= a <= 'Z' && b as int == a as int + 32) ||
    ('A' <= b <= 'Z' && a as int == b as int + 32)
  }

  lemma LowerCharCaseMates(a: char, b: char)
    ensures LowerChar(a) == LowerChar(b) <==> CaseMates(a, b)
  {
  }

  /** Lowering keeps the length, leaves no upper-case letter behind and
      changes nothing a second time; two strings lower to the same string
      exactly when they differ only in ASCII case. */
  lemma LowerNormalises(s: string, t: string)
    ensures Lower(s) == Lower(t) <==> |s| == |t| && forall i :: 0 <= i < |s| ==> CaseMates(s[i], t[i])
    ensures |Lower(s)| == |s|
    ensures !HasUpper(Lower(s))
    ensures Lower(Lower(s)) == Lower(s)
    ensures !HasUpper(s) ==> Lower(s) == s
  {
    forall i | 0 <= i < |s| && i < |t|
      ensures LowerChar(s[i]) == LowerChar(t[i]) <==> CaseMates(s[i], t[i])
    {
      LowerCharCaseMates(s[i], t[i]);
    }
    assert |Lower(s)| == |s| && |Lower(t)| == |t|;
    assert forall i :: 0 <= i < |s| ==> Lower(s)[i] == LowerChar(s[i]);
    assert forall i :: 0 <= i < |t| ==> Lower(t)[i] == LowerChar(t[i]);
    if |s| == |t| && Lower(s) != Lower(t) {
      var i :| 0 <= i < |s| && Lower(s)[i] != Lower(t)[i];
      assert !CaseMates(s[i], t[i]);
    }
  }
}
