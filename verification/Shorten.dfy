/** White-space normalisation and truncation of a summary (shorten in tools/govulncheck-report/report.go). */
module Shorten {
  import opened Text
  import opened Wrappers

  /** unicode.IsSpace. */
  predicate IsSpace(c: char) {
    || '\t' <= c <= '\r' || c == ' ' || c == '\U{85}' || c == '\U{A0}' || c == '\U{1680}'
    || '\U{2000}' <= c <= '\U{200A}' || c == '\U{2028}' || c == '\U{2029}' || c == '\U{202F}'
    || c == '\U{205F}' || c == '\U{3000}'
  }

  /** The white space of ASCII, by code, and that beyond it. */
  lemma SpacesAre(c: char)
    ensures c as int < 0x80 ==> (IsSpace(c) <==> c as int == 32 || 9 <= c as int <= 13)
    ensures 0x80 <= c as int ==>
      (IsSpace(c) <==> c as int in {0x85, 0xA0, 0x1680, 0x2028, 0x2029, 0x202F, 0x205F, 0x3000} || 0x2000 <= c as int <= 0x200A)
  {
  }

  /** The length of the word a text starts with. */
  function WordEnd(t: string): (n: nat)
    ensures n <= |t| && (n < |t| ==> IsSpace(t[n]))
    ensures forall i :: 0 <= i < n ==> !IsSpace(t[i])
  {
    if t == "" || IsSpace(t[0]) then 0 else 1 + WordEnd(t[1..])
  }

  /** strings.Fields: the words between runs of white space. */
  function Fields(t: string): seq<string>
    decreases |t|
  {
    if t == "" then []
    else if IsSpace(t[0]) then Fields(t[1..])
    else [t[..WordEnd(t)]] + Fields(t[WordEnd(t)..])
  }

  function Collapse(t: string): string {
    Join(" ", Fields(t))
  }

  /** None stands for the panic of slicing below zero. Characters are runes. */
  function ShortenTo(value: string, limit: int): Option<string> {
    var text := Collapse(value);
    if |text| <= limit then Some(text)
    else if limit < 3 then None
    else Some(text[..limit - 3] + "...")
  }

  /** White space occurs only as single spaces inside. */
  ghost predicate Normal(t: string) {
    && (forall i :: 0 <= i < |t| && IsSpace(t[i]) ==> t[i] == ' ' && 0 < i < |t| - 1)
    && (forall i, j :: 0 <= i < j < |t| && IsSpace(t[i]) && IsSpace(t[j]) ==> i + 1 < j)
  }

  ghost predicate Word(w: string) {
    w != "" && forall i :: 0 <= i < |w| ==> !IsSpace(w[i])
  }

  lemma {:induction false} FieldsAreWords(t: string)
    ensures forall w :: w in Fields(t) ==> Word(w)
    decreases |t|
  {
    if t != "" {
      FieldsAreWords(if IsSpace(t[0]) then t[1..] else t[WordEnd(t)..]);
    }
  }

  lemma {:induction false} JoinedWordsAreNormal(words: seq<string>)
    requires forall w :: w in words ==> Word(w)
    ensures Normal(Join(" ", words))
    ensures words != [] ==> Join(" ", words) != ""
  {
    if |words| > 1 {
      JoinedWordsAreNormal(words[1..]);
      var first, rest := words[0], Join(" ", words[1..]);
      assert Word(first) && Join(" ", words) == first + " " + rest;
    } else if |words| == 1 {
      assert Word(words[0]);
    }
  }

  lemma RestIsNormal(t: string, k: nat)
    requires Normal(t) && k < |t| && !IsSpace(t[k])
    ensures Normal(t[k..])
  {
    hide IsSpace;
    var rest := t[k..];
    assert forall i :: 0 <= i < |rest| ==> rest[i] == t[k + i];
  }

  lemma CutAtSpace(t: string, n: nat)
    requires n < |t| && t[n] == ' '
    ensures t == t[..n] + " " + t[n + 1..]
  {
    assert t[n..] == [t[n]] + t[n + 1..];
  }

  /** The first word of a normal text ends the text, or a single space and the rest follow. */
  lemma FirstWord(t: string, n: nat)
    requires Normal(t) && t != "" && n == WordEnd(t)
    ensures n > 0
    ensures n < |t| ==> t == t[..n] + " " + t[n + 1..] && t[n + 1..] != "" && Normal(t[n + 1..])
  {
    hide IsSpace, WordEnd;
    if n < |t| {
      assert t[n] == ' ' && n + 1 < |t|;
      CutAtSpace(t, n);
      RestIsNormal(t, n + 1);
    }
  }

  lemma {:induction false} FieldsOfFirstWord(t: string, n: nat)
    requires t != "" && n == WordEnd(t) && n > 0
    ensures Fields(t) == if n == |t| then [t] else [t[..n]] + Fields(t[n + 1..])
  {
    hide IsSpace;
    if n == |t| {
      assert t[..n] == t && t[n..] == "";
    } else {
      assert t[n..][1..] == t[n + 1..];
    }
  }

  lemma {:induction false} NormalUnchanged(t: string)
    requires Normal(t)
    ensures Collapse(t) == t
    decreases |t|
  {
    hide IsSpace, Normal, WordEnd;
    if t != "" {
      var n := WordEnd(t);
      FirstWord(t, n);
      FieldsOfFirstWord(t, n);
      if n < |t| {
        var rest := t[n + 1..];
        NormalUnchanged(rest);
        JoinFirst(t[..n], Fields(rest));
      }
    }
  }

  lemma JoinFirst(word: string, words: seq<string>)
    requires Join(" ", words) != ""
    ensures Join(" ", [word] + words) == word + " " + Join(" ", words)
  {
    assert ([word] + words)[1..] == words;
  }

  /** The result is a normal form within the limit, also when the cut falls right after a space. */
  lemma ShortenIsNormalForm(value: string, limit: int)
    requires limit >= 3
    ensures ShortenTo(value, limit).Some?
    ensures var r := ShortenTo(value, limit).value;
            |r| <= limit && Normal(r) && ShortenTo(r, limit) == Some(r)
  {
    var text := Collapse(value);
    FieldsAreWords(value);
    JoinedWordsAreNormal(Fields(value));
    var r := ShortenTo(value, limit).value;
    if |text| > limit {
      assert forall i :: 0 <= i < limit - 3 ==> r[i] == text[i];
    }
    NormalUnchanged(r);
  }

  /** It panics exactly when the limit leaves no room for the dots and something has to go. */
  lemma ShortenPanicsExactlyWhen(value: string, limit: int)
    ensures ShortenTo(value, limit) == None <==> limit < 3 && |Collapse(value)| > limit
  {
  }

  lemma WordEndIs(t: string, n: nat)
    requires n <= |t| && (n < |t| ==> IsSpace(t[n])) && forall i :: 0 <= i < n ==> !IsSpace(t[i])
    ensures WordEnd(t) == n
  {
    hide IsSpace, WordEnd;
  }

  /** A word is one field. */
  lemma WordIsField(w: string)
    requires Word(w)
    ensures Fields("") == [] && Fields(w) == [w]
  {
    hide IsSpace;
    WordEndIs(w, |w|);
    assert !IsSpace(w[0]);
    assert w[..|w|] == w && w[|w|..] == "";
  }

  lemma WordEndBefore(a: string, c: char, b: string)
    requires IsSpace(c)
    ensures WordEnd(a + [c] + b) == WordEnd(a)
  {
    hide IsSpace, WordEnd;
    var t, n := a + [c] + b, WordEnd(a);
    assert t[n] == if n < |a| then a[n] else c;
    assert forall i :: 0 <= i < n ==> t[i] == a[i];
    WordEndIs(t, n);
  }

  /** And white space is what divides fields: at any piece of it a text falls into two. */
  lemma {:induction false} FieldsDivideAtSpace(a: string, c: char, b: string)
    requires IsSpace(c)
    ensures Fields(a + [c] + b) == Fields(a) + Fields(b)
    decreases |a|
  {
    hide IsSpace, WordEnd;
    var t := a + [c] + b;
    if a == "" {
      assert t[0] == c && t[1..] == b;
    } else if IsSpace(a[0]) {
      assert t[0] == a[0] && t[1..] == a[1..] + [c] + b;
      FieldsDivideAtSpace(a[1..], c, b);
    } else {
      var n := WordEnd(a);
      WordEndBefore(a, c, b);
      assert t[0] == a[0] && t[..n] == a[..n] && t[n..] == a[n..] + [c] + b;
      FieldsDivideAtSpace(a[n..], c, b);
    }
  }

  lemma {:induction false} FieldsOfJoin(words: seq<string>)
    requires forall w :: w in words ==> Word(w)
    ensures Fields(Join(" ", words)) == words
  {
    if words != [] {
      var w := words[0];
      assert Word(w);
      WordIsField(w);
      assert words == [w] + words[1..];
      if |words| > 1 {
        FieldsOfJoin(words[1..]);
        FieldsDivideAtSpace(w, ' ', Join(" ", words[1..]));
        assert Join(" ", words) == w + [' '] + Join(" ", words[1..]);
      }
    }
  }

  /** What is kept: all words, when they fit with single spaces between them; else as much of that text as leaves room for three dots. */
  lemma ShortenKeepsTheWords(value: string, limit: int, r: string)
    requires ShortenTo(value, limit) == Some(r)
    ensures var all := Join(" ", Fields(value));
            if |all| <= limit then Fields(r) == Fields(value)
            else 3 <= limit == |r| && r[..limit - 3] <= all && r[limit - 3..] == "..."
  {
    FieldsAreWords(value);
    FieldsOfJoin(Fields(value));
  }
}
