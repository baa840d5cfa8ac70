/**
 * Splitting a group's test list on commas, as Python's `str.split(',')`
 * does it: every comma separates two pieces, so a string with n commas
 * yields n + 1 pieces, and the empty string yields one empty piece.
 * `Join` is the inverse: it puts the commas back.
 */
module CommaSplit {

  const Separator: char := ','

  /** Number of separators in `s`. */
  function SeparatorCount(s: string): nat
  {
    if s == [] then 0
    else (if s[0] == Separator then 1 else 0) + SeparatorCount(s[1..])
  }

  /** True when no piece of `pieces` contains a separator. */
  predicate SeparatorFree(pieces: seq<string>)
  {
    forall i :: 0 <= i < |pieces| ==> Separator !in pieces[i]
  }

  /** The pieces of `s` between its separators, in order. */
  function Split(s: string): (pieces: seq<string>)
    ensures |pieces| == SeparatorCount(s) + 1
    ensures SeparatorFree(pieces)
  {
    if s == [] then [[]]
    else
      var rest := Split(s[1..]);
      if s[0] == Separator then [[]] + rest
      else [[s[0]] + rest[0]] + rest[1..]
  }

  /** The pieces put back together with a separator between neighbours. */
  function Join(pieces: seq<string>): string
    requires |pieces| >= 1
  {
    if |pieces| == 1 then pieces[0]
    else pieces[0] + [Separator] + Join(pieces[1..])
  }

  /** Joining the pieces of a split gives back the original string. */
  lemma {:induction false} JoinSplit(s: string)
    ensures Join(Split(s)) == s
  {
    if s != [] {
      var rest := Split(s[1..]);
      JoinSplit(s[1..]);
      if s[0] == Separator {
        assert Split(s)[1..] == rest;
      } else {
        var pieces := Split(s);
        assert pieces[1..] == rest[1..];
        if |rest| == 1 {
          assert Join(pieces) == [s[0]] + rest[0];
        } else {
          assert Join(rest) == rest[0] + [Separator] + Join(rest[1..]);
          assert Join(pieces) == [s[0]] + rest[0] + [Separator] + Join(rest[1..]);
        }
      }
    }
  }

  /** Splitting a join of separator-free pieces gives back those pieces. */
  lemma {:induction false} SplitJoin(pieces: seq<string>)
    requires |pieces| >= 1 && SeparatorFree(pieces)
    ensures Split(Join(pieces)) == pieces
  {
    if |pieces| == 1 {
      SplitSeparatorFree(pieces[0], []);
      assert pieces[0] + [] == pieces[0];
      assert Split([]) == [[]];
    } else {
      assert SeparatorFree(pieces[1..]) by {
        forall i | 0 <= i < |pieces[1..]| ensures Separator !in pieces[1..][i] {
          assert pieces[1..][i] == pieces[i + 1];
        }
      }
      SplitJoin(pieces[1..]);
      var tail := [Separator] + Join(pieces[1..]);
      assert Split(tail) == [[]] + pieces[1..] by {
        assert tail[1..] == Join(pieces[1..]);
      }
      SplitSeparatorFree(pieces[0], tail);
      assert pieces[0] + [Separator] + Join(pieces[1..]) == pieces[0] + tail;
      assert Split(tail)[0] == [] && Split(tail)[1..] == pieces[1..];
      assert pieces[0] + [] == pieces[0];
      assert [pieces[0]] + pieces[1..] == pieces;
    }
  }

  /** A separator-free prefix extends the first piece of what follows it. */
  lemma {:induction false} SplitSeparatorFree(w: string, tail: string)
    requires Separator !in w
    ensures Split(w + tail) == [w + Split(tail)[0]] + Split(tail)[1..]
  {
    if w == [] {
      assert w + tail == tail;
      assert w + Split(tail)[0] == Split(tail)[0];
    } else {
      assert (w + tail)[0] == w[0] && w[0] != Separator;
      assert (w + tail)[1..] == w[1..] + tail;
      SplitSeparatorFree(w[1..], tail);
      assert [w[0]] + (w[1..] + Split(tail)[0]) == w + Split(tail)[0];
    }
  }

  /** A separator-free word followed by a separator is split off as the first piece. */
  lemma SplitCons(w: string, rest: string)
    requires Separator !in w
    ensures Split(w + [Separator] + rest) == [w] + Split(rest)
  {
    SplitSeparatorFree(w, [Separator] + rest);
    assert w + [Separator] + rest == w + ([Separator] + rest);
    assert ([Separator] + rest)[1..] == rest;
    assert w + [] == w;
  }

  /** Four separator-free ids joined by separators split back into those ids. */
  lemma SplitFour(a: string, b: string, c: string, d: string)
    requires Separator !in a && Separator !in b && Separator !in c && Separator !in d
    ensures Split(a + [Separator] + (b + [Separator] + (c + [Separator] + d))) == [a, b, c, d]
  {
    SplitSeparatorFree(d, []);
    assert d + [] == d;
    var cd := c + [Separator] + d;
    SplitCons(c, d);
    var bcd := b + [Separator] + cd;
    SplitCons(b, cd);
    SplitCons(a, bcd);
    assert [a] + ([b] + ([c] + [d])) == [a, b, c, d];
  }
}
