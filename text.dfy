/** Rust's `str::split` on a one-character separator, collected into a vector. */
module Text {

  /** How often `c` occurs in `s`. */
  function Count(s: string, c: char): (n: nat)
    ensures n == 0 <==> c !in s
    decreases |s|
  {
    if s == [] then 0
    else
      assert s == [s[0]] + s[1..];
      (if s[0] == c then 1 else 0) + Count(s[1..], c)
  }

  /** The pieces of `s` between occurrences of `sep`, in order; never empty. */
  function Split(s: string, sep: char): (r: seq<string>)
    ensures |r| > 0
    decreases |s|
  {
    if s == [] then [[]]
    else
      var rest := Split(s[1..], sep);
      if s[0] == sep then [[]] + rest
      else [[s[0]] + rest[0]] + rest[1..]
  }

  /** The pieces put back together with `sep` between neighbours. */
  function Join(parts: seq<string>, sep: char): (r: string)
    requires |parts| > 0
  {
    if |parts| == 1 then parts[0] else parts[0] + [sep] + Join(parts[1..], sep)
  }

  /** There is one more piece than there are separators. */
  lemma {:induction false} SplitCount(s: string, sep: char)
    ensures |Split(s, sep)| == Count(s, sep) + 1
    decreases |s|
  {
    if s != [] {
      SplitCount(s[1..], sep);
    }
  }

  /** No piece contains the separator. */
  lemma {:induction false} SplitPiecesFree(s: string, sep: char)
    ensures forall i | 0 <= i < |Split(s, sep)| :: sep !in Split(s, sep)[i]
    decreases |s|
  {
    if s != [] {
      var rest := Split(s[1..], sep);
      SplitPiecesFree(s[1..], sep);
      if s[0] != sep {
        forall i | 0 <= i < |Split(s, sep)| ensures sep !in Split(s, sep)[i] {
          if i > 0 {
            assert Split(s, sep)[i] == rest[i];
          }
        }
      }
    }
  }

  /** Joining the pieces gives the string back. */
  lemma {:induction false} SplitJoinsBack(s: string, sep: char)
    ensures Join(Split(s, sep), sep) == s
    decreases |s|
  {
    if s != [] {
      var rest := Split(s[1..], sep);
      SplitJoinsBack(s[1..], sep);
      assert s == [s[0]] + s[1..];
      if s[0] == sep {
        assert ([[]] + rest)[1..] == rest;
      } else {
        assert rest == [rest[0]] + rest[1..];
        JoinCons(s[0], rest[0], rest[1..], sep);
      }
    }
  }

  /** A string without the separator is one piece. */
  lemma {:induction false} SplitWithoutSeparator(s: string, sep: char)
    requires sep !in s
    ensures Split(s, sep) == [s]
    decreases |s|
  {
    if s != [] {
      assert sep !in s[1..] by { assert forall x | x in s[1..] :: x in s; }
      SplitWithoutSeparator(s[1..], sep);
      assert s == [s[0]] + s[1..];
    }
  }

  /** One step of `Split`: the first character either ends the first piece or joins it. */
  lemma {:induction false} SplitCons(c: char, t: string, sep: char)
    ensures Split([c] + t, sep) ==
      if c == sep then [[]] + Split(t, sep)
      else [[c] + Split(t, sep)[0]] + Split(t, sep)[1..]
  {
    assert ([c] + t)[1..] == t;
  }

  /** One step of `Join` at the front of the first piece. */
  lemma {:induction false} JoinCons(c: char, first: string, rest: seq<string>, sep: char)
    ensures Join([[c] + first] + rest, sep) == [c] + Join([first] + rest, sep)
  {
    if rest != [] {
      assert ([[c] + first] + rest)[1..] == rest;
      assert ([first] + rest)[1..] == rest;
    }
  }

  /** Splitting undoes joining: the pieces of a split are determined by the string. */
  lemma {:induction false} SplitJoin(parts: seq<string>, sep: char)
    requires |parts| > 0
    requires forall i | 0 <= i < |parts| :: sep !in parts[i]
    ensures Split(Join(parts, sep), sep) == parts
    decreases |parts|, |parts[0]|
  {
    if |parts| == 1 {
      SplitWithoutSeparator(parts[0], sep);
    } else if parts[0] == [] {
      var rest := parts[1..];
      assert Join(parts, sep) == [sep] + Join(rest, sep);
      SplitJoin(rest, sep);
      SplitCons(sep, Join(rest, sep), sep);
      assert parts == [[]] + rest;
    } else {
      var c := parts[0][0];
      var first := parts[0][1..];
      var rest := parts[1..];
      var tail := [first] + rest;
      assert parts[0] == [c] + first;
      assert parts == [[c] + first] + rest;
      assert c != sep by { assert c in parts[0]; }
      assert sep !in first by { assert forall x | x in first :: x in parts[0]; }
      assert forall i | 0 <= i < |tail| :: sep !in tail[i] by {
        forall i | 0 <= i < |tail| ensures sep !in tail[i] {
          if i > 0 { assert tail[i] == parts[i]; }
        }
      }
      JoinCons(c, first, rest, sep);
      SplitJoin(tail, sep);
      SplitCons(c, Join(tail, sep), sep);
      assert tail[1..] == rest;
    }
  }

  /** A separator splits a string into the pieces before it followed by the pieces after it. */
  lemma {:induction false} SplitAround(stem: string, rest: string, sep: char)
    ensures Split(stem + [sep] + rest, sep) == Split(stem, sep) + Split(rest, sep)
    decreases |stem|
  {
    if stem == [] {
      assert stem + [sep] + rest == [sep] + rest;
      SplitCons(sep, rest, sep);
    } else {
      SplitAround(stem[1..], rest, sep);
      SplitAroundStep(stem[0], stem[1..], rest, sep);
      assert stem == [stem[0]] + stem[1..];
    }
  }

  /** The inductive step of `SplitAround`: one more character in front of the stem. */
  lemma SplitAroundStep(c: char, tail: string, rest: string, sep: char)
    requires Split(tail + [sep] + rest, sep) == Split(tail, sep) + Split(rest, sep)
    ensures Split([c] + tail + [sep] + rest, sep) == Split([c] + tail, sep) + Split(rest, sep)
  {
    var t := tail + [sep] + rest;
    assert [c] + tail + [sep] + rest == [c] + t;
    SplitCons(c, t, sep);
    SplitCons(c, tail, sep);
    PiecesFront(c, Split(tail, sep), Split(rest, sep), sep);
  }

  /** Putting a character in front of the first piece commutes with appending more pieces. */
  lemma PiecesFront(c: char, before: seq<string>, after: seq<string>, sep: char)
    requires |before| > 0
    ensures (if c == sep then [[]] + (before + after) else [[c] + (before + after)[0]] + (before + after)[1..])
         == (if c == sep then [[]] + before else [[c] + before[0]] + before[1..]) + after
  {
    if c != sep {
      assert (before + after)[1..] == before[1..] + after;
    }
  }

  /** The last piece is whatever follows the last separator. */
  lemma SplitLastPiece(stem: string, last: string, sep: char)
    requires sep !in last
    ensures var r := Split(stem + [sep] + last, sep); r[|r| - 1] == last
  {
    SplitAround(stem, last, sep);
    SplitWithoutSeparator(last, sep);
  }
}
