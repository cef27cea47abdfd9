/**
 The string splitting that the filter parser relies on, with the semantics of
 Rust's `str::split(char)`: every separator ends one piece and starts the next,
 so a string with n separators yields n + 1 pieces (possibly empty ones), and
 the empty string yields a single empty piece.
 */
module Text {

  /** Index of the first occurrence of `c` in `s`, or `|s|` when `c` does not occur. */
  function IndexOf(s: string, c: char): (i: nat)
    ensures i <= |s|
    ensures i < |s| ==> s[i] == c
    ensures forall j :: 0 <= j < i ==> s[j] != c
    ensures i == |s| <==> c !in s
  {
    if s == [] then 0 else if s[0] == c then 0 else 1 + IndexOf(s[1..], c)
  }

  /** Number of occurrences of `c` in `s`. */
  function Count(s: string, c: char): nat
  {
    if s == [] then 0 else (if s[0] == c then 1 else 0) + Count(s[1..], c)
  }

  /** The pieces of `s` between occurrences of `sep`, in order. */
  function Split(s: string, sep: char): (pieces: seq<string>)
    ensures |pieces| >= 1
    ensures forall k :: 0 <= k < |pieces| ==> sep !in pieces[k]
    decreases |s|
  {
    var i := IndexOf(s, sep);
    if i == |s| then [s] else [s[..i]] + Split(s[i + 1..], sep)
  }

  /** The pieces glued back together with `sep` between neighbours. */
  function Join(pieces: seq<string>, sep: char): string
    requires |pieces| >= 1
  {
    if |pieces| == 1 then pieces[0] else pieces[0] + [sep] + Join(pieces[1..], sep)
  }

  /** A string with a separator splits into the text before it and the pieces of the text after it. */
  lemma SplitUnfold(s: string, sep: char)
    requires sep in s
    ensures var i := IndexOf(s, sep);
            Split(s, sep) == [s[..i]] + Split(s[i + 1..], sep)
  {
  }

  lemma JoinCons(a: string, rest: seq<string>, sep: char)
    requires |rest| >= 1
    ensures Join([a] + rest, sep) == a + [sep] + Join(rest, sep)
  {
    assert ([a] + rest)[1..] == rest;
  }

  /** Splitting loses nothing: joining the pieces gives back the input. */
  lemma {:induction false} SplitJoin(s: string, sep: char)
    ensures Join(Split(s, sep), sep) == s
    decreases |s|
  {
    var i := IndexOf(s, sep);
    if i < |s| {
      var head, rest := s[..i], s[i + 1..];
      assert s == head + [sep] + rest;
      SplitJoin(rest, sep);
      SplitJoinStep(head, sep, rest);
    } else {
      assert Split(s, sep) == [s];
    }
  }

  /** Text before a first separator, then a text that round-trips: the whole round-trips. */
  lemma SplitJoinStep(head: string, sep: char, rest: string)
    requires sep !in head
    requires Join(Split(rest, sep), sep) == rest
    ensures Join(Split(head + [sep] + rest, sep), sep) == head + [sep] + rest
  {
    SplitAt(head, sep, rest);
    JoinCons(head, Split(rest, sep), sep);
  }

  lemma {:induction false} CountConcat(a: string, b: string, c: char)
    ensures Count(a + b, c) == Count(a, c) + Count(b, c)
  {
    if a != [] {
      assert (a + b)[1..] == a[1..] + b;
      CountConcat(a[1..], b, c);
    } else {
      assert a + b == b;
    }
  }

  lemma {:induction false} CountAbsent(s: string, c: char)
    requires c !in s
    ensures Count(s, c) == 0
  {
    if s != [] {
      CountAbsent(s[1..], c);
    }
  }

  /** One piece per separator, plus one. */
  lemma {:induction false} SplitCount(s: string, sep: char)
    ensures |Split(s, sep)| == Count(s, sep) + 1
    decreases |s|
  {
    var i := IndexOf(s, sep);
    if i == |s| {
      CountAbsent(s, sep);
    } else {
      SplitCount(s[i + 1..], sep);
      assert s == s[..i] + ([sep] + s[i + 1..]);
      CountConcat(s[..i], [sep] + s[i + 1..], sep);
      CountConcat([sep], s[i + 1..], sep);
      CountAbsent(s[..i], sep);
    }
  }

  /** The first piece ends at the first separator, and the rest is split on its own. */
  lemma SplitAt(a: string, sep: char, b: string)
    requires sep !in a
    ensures Split(a + [sep] + b, sep) == [a] + Split(b, sep)
  {
    var s := a + [sep] + b;
    var i := IndexOf(s, sep);
    assert s[|a|] == sep;
    assert i == |a|;
    assert s[..i] == a;
    assert s[i + 1..] == b;
  }
}
