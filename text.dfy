/** String building blocks shared by the sanitisers and the page renderer. */
module Text {

  /** The concatenation of `parts`, first to last. */
  function Concat(parts: seq<string>): string
  {
    if |parts| == 0 then "" else parts[0] + Concat(parts[1..])
  }

  /** Where `parts[i]` starts inside `Concat(parts)`. */
  function Offset(parts: seq<string>, i: nat): nat
    requires i <= |parts|
  {
    |Concat(parts[..i])|
  }

  lemma {:induction false} ConcatPlus(a: seq<string>, b: seq<string>)
    ensures Concat(a + b) == Concat(a) + Concat(b)
  {
    if |a| == 0 {
      assert a + b == b;
    } else {
      assert (a + b)[1..] == a[1..] + b;
      ConcatPlus(a[1..], b);
    }
  }

  /** Appending one more part appends its text at the end. */
  lemma ConcatAppend(parts: seq<string>, t: string)
    ensures Concat(parts + [t]) == Concat(parts) + t
  {
    ConcatPlus(parts, [t]);
    assert Concat([t]) == t + Concat([]);
  }

  /** Every part occurs, unchanged, at its own offset, and the offsets follow the order of `parts`. */
  lemma ConcatAt(parts: seq<string>, i: nat)
    requires i < |parts|
    ensures Offset(parts, i) + |parts[i]| == Offset(parts, i + 1) <= |Concat(parts)|
    ensures Concat(parts)[Offset(parts, i)..Offset(parts, i + 1)] == parts[i]
  {
    assert parts[..i + 1] == parts[..i] + [parts[i]];
    ConcatAppend(parts[..i], parts[i]);
    assert parts == parts[..i + 1] + parts[i + 1..];
    ConcatPlus(parts[..i + 1], parts[i + 1..]);
  }

  lemma AppendAssoc(a: string, b: string, c: string)
    ensures a + b + c == a + (b + c)
  {
  }

  /** Python's `sep.join(xs)`. */
  function Join(xs: seq<string>, sep: string): string
  {
    if |xs| == 0 then ""
    else if |xs| == 1 then xs[0]
    else xs[0] + sep + Join(xs[1..], sep)
  }

  /** Where `xs[i]` starts inside `Join(xs, sep)`. */
  function JoinOffset(xs: seq<string>, sep: string, i: nat): nat
    requires i <= |xs|
  {
    if i == 0 then 0 else |Join(xs[..i], sep)| + |sep|
  }

  /** Joining splits at any inner index: the left part, one separator, the right part. */
  lemma {:induction false} JoinSplit(xs: seq<string>, sep: string, i: nat)
    requires 0 < i < |xs|
    ensures Join(xs, sep) == Join(xs[..i], sep) + sep + Join(xs[i..], sep)
  {
    if i > 1 {
      JoinSplit(xs[1..], sep, i - 1);
      assert xs[1..][..i - 1] == xs[..i][1..];
      assert xs[1..][i - 1..] == xs[i..];
    }
  }

  /** A non-empty join starts with its first entry, followed by the separator when more entries come. */
  lemma JoinStart(xs: seq<string>, sep: string)
    requires |xs| > 0
    ensures |xs[0]| <= |Join(xs, sep)| && Join(xs, sep)[..|xs[0]|] == xs[0]
    ensures |xs| > 1 ==> |xs[0]| + |sep| <= |Join(xs, sep)| && Join(xs, sep)[|xs[0]|..|xs[0]| + |sep|] == sep
  {
  }

  /**
   * Every entry occurs, unchanged, at its own offset; consecutive entries are
   * separated by exactly one `sep`; so the entries appear in input order.
   */
  lemma JoinAt(xs: seq<string>, sep: string, i: nat)
    requires i < |xs|
    ensures JoinOffset(xs, sep, i) + |xs[i]| <= |Join(xs, sep)|
    ensures Join(xs, sep)[JoinOffset(xs, sep, i)..JoinOffset(xs, sep, i) + |xs[i]|] == xs[i]
    ensures i + 1 < |xs| ==>
      JoinOffset(xs, sep, i) + |xs[i]| + |sep| == JoinOffset(xs, sep, i + 1) <= |Join(xs, sep)| &&
      Join(xs, sep)[JoinOffset(xs, sep, i) + |xs[i]|..JoinOffset(xs, sep, i + 1)] == sep
  {
    var rest := xs[i..];
    JoinStart(rest, sep);
    if i == 0 {
      assert rest == xs;
    } else {
      JoinSplit(xs, sep, i);
    }
    if i + 1 < |xs| {
      JoinSplit(xs, sep, i + 1);
      if i == 0 {
        assert xs[..1] == [xs[0]];
      } else {
        JoinSplit(xs[..i + 1], sep, i);
        assert xs[..i + 1][..i] == xs[..i];
        assert xs[..i + 1][i..] == [xs[i]];
      }
    }
  }

  /** Python's `str.isspace` for one character: the characters `str.strip()` removes. */
  predicate IsPythonWhitespace(c: char)
  {
    c == ' ' || c == '\t' || c == '\n' || c == '\r' || c == '\U{0B}' || c == '\U{0C}'
    || ('\U{1C}' <= c <= '\U{1F}') || c == '\U{85}' || c == '\U{A0}' || c == '\U{1680}'
    || ('\U{2000}' <= c <= '\U{200A}') || c == '\U{2028}' || c == '\U{2029}'
    || c == '\U{202F}' || c == '\U{205F}' || c == '\U{3000}'
  }

  /** `s.strip()` is empty, i.e. `s` is falsy after stripping. */
  predicate IsBlank(s: string)
  {
    forall i :: 0 <= i < |s| ==> IsPythonWhitespace(s[i])
  }
}
