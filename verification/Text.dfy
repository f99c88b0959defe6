/** Splitting a string at a separator and joining the pieces again. */
module Text {

  /** The pieces between separators; n separators give n + 1 pieces. */
  function Split(sep: char, t: string): (pieces: seq<string>)
    ensures |pieces| > 0
  {
    if t == "" then [""]
    else
      var rest := Split(sep, t[1..]);
      if t[0] == sep then [""] + rest else [[t[0]] + rest[0]] + rest[1..]
  }

  function Join(sep: string, pieces: seq<string>): string {
    if |pieces| == 0 then ""
    else if |pieces| == 1 then pieces[0]
    else pieces[0] + sep + Join(sep, pieces[1..])
  }

  lemma {:induction false} JoinSplit(sep: char, t: string)
    ensures Join([sep], Split(sep, t)) == t
  {
    if t != "" {
      var rest := Split(sep, t[1..]);
      JoinSplit(sep, t[1..]);
      assert Split(sep, t)[1..] == if t[0] == sep then rest else rest[1..];
      assert t == [t[0]] + t[1..];
    }
  }

  /** Where two texts meet at a separator, their pieces follow one another. */
  lemma {:induction false} SplitAtSeparator(sep: char, a: string, b: string)
    ensures Split(sep, a + [sep] + b) == Split(sep, a) + Split(sep, b)
  {
    var t := a + [sep] + b;
    if a == "" {
      assert t[1..] == b;
    } else {
      assert t[1..] == a[1..] + [sep] + b;
      SplitAtSeparator(sep, a[1..], b);
    }
  }

  lemma {:induction false} SplitWithoutSeparator(sep: char, t: string)
    requires sep !in t
    ensures Split(sep, t) == [t]
  {
    if t != "" {
      assert sep !in t[1..];
      SplitWithoutSeparator(sep, t[1..]);
      assert t == [t[0]] + t[1..];
    }
  }

  /** Joining separator-free pieces loses nothing. */
  lemma {:induction false} SplitJoin(sep: char, pieces: seq<string>)
    requires |pieces| > 0 && forall p :: p in pieces ==> sep !in p
    ensures Split(sep, Join([sep], pieces)) == pieces
  {
    SplitWithoutSeparator(sep, pieces[0]);
    if |pieces| > 1 {
      SplitJoin(sep, pieces[1..]);
      SplitAtSeparator(sep, pieces[0], Join([sep], pieces[1..]));
      assert pieces == [pieces[0]] + pieces[1..];
    }
  }
}
