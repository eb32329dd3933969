/** String helpers: the ordering SQLite uses on TEXT values, Python's str.join,
    and the count of `?` placeholders in a statement. */
module Text {

  /** SQLite compares TEXT with the BINARY collation, i.e. memcmp over the UTF-8
      bytes. UTF-8 preserves code-point order, so this is lexicographic order
      over characters, with a proper prefix ordered first. */
  predicate LexLe(a: string, b: string)
    decreases |a|
  {
    |a| == 0 || (|b| > 0 && (a[0] < b[0] || (a[0] == b[0] && LexLe(a[1..], b[1..]))))
  }

  lemma {:induction false} LexLeReflexive(a: string)
    ensures LexLe(a, a)
    decreases |a|
  {
    if |a| > 0 {
      LexLeReflexive(a[1..]);
    }
  }

  lemma {:induction false} LexLeTotal(a: string, b: string)
    ensures LexLe(a, b) || LexLe(b, a)
    decreases |a|
  {
    if |a| > 0 && |b| > 0 && a[0] == b[0] {
      LexLeTotal(a[1..], b[1..]);
    }
  }

  lemma {:induction false} LexLeTransitive(a: string, b: string, c: string)
    requires LexLe(a, b) && LexLe(b, c)
    ensures LexLe(a, c)
    decreases |a|
  {
    if |a| > 0 && a[0] == b[0] && b[0] == c[0] {
      LexLeTransitive(a[1..], b[1..], c[1..]);
    }
  }

  /** Python's `sep.join(parts)`. */
  function Join(sep: string, parts: seq<string>): (r: string)
    ensures |parts| == 0 ==> r == ""
    ensures |parts| > 0 ==> |parts[0]| <= |r| && r[..|parts[0]|] == parts[0]
    decreases |parts|
  {
    if |parts| == 0 then ""
    else if |parts| == 1 then parts[0]
    else parts[0] + sep + Join(sep, parts[1..])
  }

  /** Number of `?` placeholders in a statement text. */
  function Marks(s: string): nat
  {
    multiset(s)['?']
  }

  /** Total placeholders over a list of clause texts. */
  function MarksOf(parts: seq<string>): nat
    decreases |parts|
  {
    if |parts| == 0 then 0 else Marks(parts[0]) + MarksOf(parts[1..])
  }

  lemma NoMarks(s: string)
    requires '?' !in s
    ensures Marks(s) == 0
  {
  }

  lemma OneMarkAtEnd(s: string)
    requires '?' !in s
    ensures Marks(s + "?") == 1
  {
    assert multiset(s + "?") == multiset(s) + multiset{'?'};
  }

  lemma {:induction false} MarksOfSnoc(parts: seq<string>, c: string)
    ensures MarksOf(parts + [c]) == MarksOf(parts) + Marks(c)
    decreases |parts|
  {
    if |parts| == 0 {
      assert MarksOf([c][1..]) == 0;
    } else {
      assert (parts + [c])[1..] == parts[1..] + [c];
      MarksOfSnoc(parts[1..], c);
    }
  }

  lemma MarksConcat(a: string, b: string)
    ensures Marks(a + b) == Marks(a) + Marks(b)
  {
    assert multiset(a + b) == multiset(a) + multiset(b);
  }

  /** Joining with a separator that holds no placeholder neither adds nor loses one. */
  lemma {:induction false} JoinMarks(sep: string, parts: seq<string>)
    requires Marks(sep) == 0
    ensures Marks(Join(sep, parts)) == MarksOf(parts)
    decreases |parts|
  {
    if |parts| == 0 {
      assert Join(sep, parts) == "";
    } else if |parts| == 1 {
      assert MarksOf(parts[1..]) == 0;
    } else {
      JoinMarks(sep, parts[1..]);
      MarksConcat(parts[0], sep);
      MarksConcat(parts[0] + sep, Join(sep, parts[1..]));
    }
  }
}
