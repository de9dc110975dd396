/**
 * The three string helpers of the converter: the file-name sanitiser, the
 * page-id sanitiser and the YAML string quoter.
 */
module Sanitize {
  import opened Wrappers

  /** Longest cleaned uid that is kept whole. */
  const MaxLength: nat := 100
  /** How much of a longer cleaned uid survives before the hash suffix. */
  const KeptLength: nat := 80
  /** Length of the hash suffix: the first 8 characters of a hex MD5 digest. */
  const DigestLength: nat := 8

  predicate IsLowerHexDigit(c: char)
  {
    '0' <= c <= '9' || 'a' <= c <= 'f'
  }

  /**
   * The first 8 characters of `hashlib.md5(uid.encode('utf-8')).hexdigest()`.
   * MD5 itself is not modelled: the sanitisers take it as a function of the uid.
   */
  type HexDigest = s: string | |s| == DigestLength && forall i :: 0 <= i < |s| ==> IsLowerHexDigit(s[i])
    witness "00000000"

  /** The regular-expression class of `sanitize_filename`: removed from file names. */
  const FilenameIllegal: set<char> :=
    {'<', '>', ':', '"', '/', '\\', '|', '?', '*', '@', '(', ')', '#', '`', ',', '[', ']', '{', '}'}

  /** The regular-expression class of `sanitize_id`: replaced by '.' in page ids (no backslash). */
  const IdProblem: set<char> :=
    {'/', ':', '<', '>', '"', '|', '?', '*', '@', '(', ')', '#', '`', ',', '[', ']', '{', '}'}

  // ---------------------------------------------------------------- file names

  /** `re.sub(FilenameIllegal, '', s)`: every illegal character deleted. */
  function StripIllegal(s: string): (r: string)
    ensures |r| <= |s|
  {
    if |s| == 0 then ""
    else (if s[0] in FilenameIllegal then "" else [s[0]]) + StripIllegal(s[1..])
  }

  /** No illegal character survives. */
  lemma {:induction false} StripIllegalLegal(s: string)
    ensures forall i :: 0 <= i < |StripIllegal(s)| ==> StripIllegal(s)[i] !in FilenameIllegal
  {
    if |s| > 0 {
      StripIllegalLegal(s[1..]);
    }
  }

  /** Deletion works character by character: each character is dropped or kept, in order. */
  lemma {:induction false} StripIllegalConcat(a: string, b: string)
    ensures StripIllegal(a + b) == StripIllegal(a) + StripIllegal(b)
    ensures |a| == 1 ==> StripIllegal(a) == if a[0] in FilenameIllegal then "" else a
  {
    if |a| == 0 {
      assert a + b == b;
    } else {
      assert (a + b)[1..] == a[1..] + b;
      StripIllegalConcat(a[1..], b);
    }
  }

  /** A string without illegal characters is left as it is. */
  lemma {:induction false} StripIllegalClean(s: string)
    requires forall i :: 0 <= i < |s| ==> s[i] !in FilenameIllegal
    ensures StripIllegal(s) == s
  {
    if |s| > 0 {
      StripIllegalClean(s[1..]);
    }
  }

  /** `sanitize_filename(uid)`. */
  function SanitizeFilename(uid: string, digest: string -> HexDigest): (r: string)
    ensures |r| <= MaxLength
  {
    var safe := StripIllegal(uid);
    if |safe| > MaxLength then safe[..KeptLength] + "-" + digest(uid) else safe
  }

  /**
   * A file name has no illegal character; a cleaned uid of at most 100
   * characters is the name itself, a longer one keeps its first 80 characters,
   * then '-' and the 8 digest characters.
   */
  lemma SanitizeFilenameShape(uid: string, digest: string -> HexDigest)
    ensures var r := SanitizeFilename(uid, digest);
      && (forall i :: 0 <= i < |r| ==> r[i] !in FilenameIllegal)
      && (|StripIllegal(uid)| <= MaxLength ==> r == StripIllegal(uid))
      && (|StripIllegal(uid)| > MaxLength ==>
            && |r| == KeptLength + 1 + DigestLength
            && r[..KeptLength] == StripIllegal(uid)[..KeptLength]
            && r[KeptLength] == '-' && r[KeptLength + 1..] == digest(uid))
  {
    StripIllegalLegal(uid);
    var safe, r := StripIllegal(uid), SanitizeFilename(uid, digest);
    if |safe| > MaxLength {
      forall i | 0 <= i < |r|
        ensures r[i] !in FilenameIllegal
      {
        if i < KeptLength {
          assert r[i] == safe[i];
        } else if i > KeptLength {
          assert r[i] == digest(uid)[i - KeptLength - 1];
        }
      }
    }
  }

  /** Sanitising a sanitised file name changes nothing, whatever the digest of the new name. */
  lemma {:induction false} SanitizeFilenameIdempotent(uid: string, digest: string -> HexDigest)
    ensures SanitizeFilename(SanitizeFilename(uid, digest), digest) == SanitizeFilename(uid, digest)
  {
    SanitizeFilenameShape(uid, digest);
    StripIllegalClean(SanitizeFilename(uid, digest));
  }

  // ---------------------------------------------------------------- page ids

  /** `re.sub(IdProblem, '.', s)`: every problem character replaced by '.', one for one. */
  function ReplaceProblems(s: string): (r: string)
    ensures |r| == |s|
  {
    if |s| == 0 then ""
    else [if s[0] in IdProblem then '.' else s[0]] + ReplaceProblems(s[1..])
  }

  /** The replacement is one for one: each character becomes '.' exactly when it is a problem character. */
  lemma {:induction false} ReplaceProblemsAt(s: string)
    ensures forall i :: 0 <= i < |s| ==> ReplaceProblems(s)[i] == if s[i] in IdProblem then '.' else s[i]
  {
    if |s| > 0 {
      ReplaceProblemsAt(s[1..]);
      assert forall i :: 1 <= i < |s| ==> ReplaceProblems(s)[i] == ReplaceProblems(s[1..])[i - 1];
    }
  }

  /** `sanitize_id(uid)`. */
  function SanitizeId(uid: string, digest: string -> HexDigest): (r: string)
    ensures |r| <= MaxLength
  {
    var safe := ReplaceProblems(uid);
    if |safe| > MaxLength then safe[..KeptLength] + "-" + digest(uid) else safe
  }

  /**
   * A page id has no problem character, so no ':'; a uid of at most 100
   * characters is replaced one for one, a longer one keeps the replaced form
   * of its first 80 characters, then '-' and the 8 digest characters.
   */
  lemma SanitizeIdShape(uid: string, digest: string -> HexDigest)
    ensures var r := SanitizeId(uid, digest);
      && (forall i :: 0 <= i < |r| ==> r[i] !in IdProblem)
      && ':' !in r
      && (|uid| <= MaxLength ==> |r| == |uid|)
      && (|uid| <= MaxLength ==> forall i :: 0 <= i < |uid| ==> r[i] == if uid[i] in IdProblem then '.' else uid[i])
      && (|uid| > MaxLength ==>
            && |r| == KeptLength + 1 + DigestLength
            && r[..KeptLength] == ReplaceProblems(uid[..KeptLength])
            && r[KeptLength] == '-' && r[KeptLength + 1..] == digest(uid))
  {
    ReplaceProblemsAt(uid);
    var safe, r := ReplaceProblems(uid), SanitizeId(uid, digest);
    if |safe| > MaxLength {
      var head := uid[..KeptLength];
      ReplaceProblemsAt(head);
      assert r[..KeptLength] == ReplaceProblems(head);
      forall i | 0 <= i < |r|
        ensures r[i] !in IdProblem
      {
        if i < KeptLength {
          assert r[i] == safe[i];
        } else if i > KeptLength {
          assert r[i] == digest(uid)[i - KeptLength - 1];
        }
      }
    }
    assert forall i :: 0 <= i < |r| ==> r[i] != ':';
  }

  /** Sanitising a sanitised page id changes nothing, whatever the digest of the new id. */
  lemma SanitizeIdIdempotent(uid: string, digest: string -> HexDigest)
    ensures SanitizeId(SanitizeId(uid, digest), digest) == SanitizeId(uid, digest)
  {
    var once := SanitizeId(uid, digest);
    SanitizeIdShape(uid, digest);
    ReplaceProblemsAt(once);
    assert ReplaceProblems(once) == once;
  }

  // ---------------------------------------------------------------- YAML strings

  /** A double quote at index `i` of `e` comes right after a backslash. */
  predicate EscapedAt(e: string, i: nat)
    requires i < |e|
  {
    e[i] == '"' ==> 0 < i && e[i - 1] == '\\'
  }

  /** Every double quote of `e` at an index in `lo..hi` comes right after a backslash. */
  predicate QuotesEscaped(e: string, lo: nat, hi: nat)
    requires hi <= |e|
  {
    forall i :: lo <= i < hi ==> EscapedAt(e, i)
  }

  /** `s.replace('"', '\\"')`: a backslash inserted before every double quote. */
  function EscapeQuotes(s: string): string
  {
    if |s| == 0 then ""
    else (if s[0] == '"' then "\\\"" else [s[0]]) + EscapeQuotes(s[1..])
  }

  /** One extra character per double quote, each quote escaped, and no quote first. */
  lemma {:induction false} EscapeQuotesShape(s: string)
    ensures var r := EscapeQuotes(s);
      && |r| == |s| + multiset(s)['"']
      && QuotesEscaped(r, 0, |r|)
      && (|r| > 0 ==> r[0] != '"')
  {
    if |s| > 0 {
      assert s == [s[0]] + s[1..];
      EscapeQuotesShape(s[1..]);
      var head := if s[0] == '"' then "\\\"" else [s[0]];
      EscapedConcat(head, EscapeQuotes(s[1..]));
    }
  }

  lemma EscapedConcat(head: string, tail: string)
    requires QuotesEscaped(head, 0, |head|) && QuotesEscaped(tail, 0, |tail|)
    requires |tail| > 0 ==> tail[0] != '"'
    ensures QuotesEscaped(head + tail, 0, |head + tail|)
  {
    var r := head + tail;
    forall i | 0 <= i < |r|
      ensures EscapedAt(r, i)
    {
      if i < |head| {
        assert EscapedAt(head, i);
      } else {
        assert EscapedAt(tail, i - |head|);
      }
    }
  }

  lemma EscapedQuoted(e: string)
    requires QuotesEscaped(e, 0, |e|)
    ensures QuotesEscaped("\"" + e + "\"", 1, |e| + 1)
  {
    var r := "\"" + e + "\"";
    forall i | 1 <= i < |e| + 1
      ensures EscapedAt(r, i)
    {
      assert EscapedAt(e, i - 1);
    }
  }

  /** `escape_yaml_string(s)`: the escaped text between two double quotes. */
  function EscapeYamlString(s: string): string
  {
    "\"" + EscapeQuotes(s) + "\""
  }

  /** The quoted value: one extra character per double quote, quotes outside, every inner quote escaped. */
  lemma EscapeYamlStringShape(s: string)
    ensures var r := EscapeYamlString(s);
      && |r| == |s| + 2 + multiset(s)['"']
      && r[0] == '"' && r[|r| - 1] == '"'
      && QuotesEscaped(r, 1, |r| - 1)
  {
    EscapeQuotesShape(s);
    EscapedQuoted(EscapeQuotes(s));
  }

  /** Replaces each `\"` by `"`, scanning left to right (Python's `str.replace('\\"', '"')`). */
  function UnescapeQuotes(e: string): string
  {
    if |e| == 0 then ""
    else if |e| >= 2 && e[0] == '\\' && e[1] == '"' then "\"" + UnescapeQuotes(e[2..])
    else [e[0]] + UnescapeQuotes(e[1..])
  }

  /** Reads back a value written by `EscapeYamlString`: drop the outer quotes and unescape. */
  function UnquoteYamlString(r: string): Option<string>
  {
    if |r| >= 2 && r[0] == '"' && r[|r| - 1] == '"' then Some(UnescapeQuotes(r[1..|r| - 1]))
    else None
  }

  lemma {:induction false} UnescapeEscape(s: string)
    ensures UnescapeQuotes(EscapeQuotes(s)) == s
  {
    if |s| > 0 {
      var t := EscapeQuotes(s[1..]);
      UnescapeEscape(s[1..]);
      if s[0] == '"' {
        assert EscapeQuotes(s) == "\\\"" + t;
        assert ("\\\"" + t)[2..] == t;
      } else {
        assert EscapeQuotes(s) == [s[0]] + t;
        assert ([s[0]] + t)[1..] == t;
      }
    }
  }

  /** The quoted value is read back exactly: quoting loses nothing. */
  lemma EscapeYamlStringRoundTrip(s: string)
    ensures UnquoteYamlString(EscapeYamlString(s)) == Some(s)
  {
    var r := EscapeYamlString(s);
    assert r[1..|r| - 1] == EscapeQuotes(s);
    UnescapeEscape(s);
  }
}
